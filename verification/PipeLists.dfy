/** The intrusive circular lists of pipe servers and their clients. */
module PipeLists {

  /** A PIPESERVER or PIPECLIENT with its list entry; CONTAINING_RECORD is then the identity.
      A server's clients hang off the list head `clients`. */
  class Entry {
    const name: string
    const clients: Entry?
    var flink: Entry?
    var blink: Entry?
    var exit: bool

    constructor (name: string, clients: Entry?)
      ensures this.name == name && this.clients == clients && !exit
    {
      this.name, this.clients := name, clients;
      flink, blink, exit := null, null, false;
    }
  }

  ghost predicate Linked(a: Entry, b: Entry)
    reads a, b
  {
    a.flink == b && b.blink == a
  }

  ghost predicate LinkedAt(r: seq<Entry>, i: nat)
    requires i < |r|
    reads r
  {
    Linked(r[i], r[if i == |r| - 1 then 0 else i + 1])
  }

  predicate Distinct(r: seq<Entry>) {
    forall i, j :: 0 <= i < j < |r| ==> r[i] != r[j]
  }

  /** The entries of r, the head first, form a circular doubly linked list. */
  ghost predicate Ring(r: seq<Entry>)
    reads r
  {
    |r| > 0 && Distinct(r) && forall i {:trigger LinkedAt(r, i)} :: 0 <= i < |r| ==> LinkedAt(r, i)
  }

  /** A list whose links have not been touched is still a list. */
  twostate lemma SameRing(r: seq<Entry>)
    requires old(Ring(r)) && forall e :: e in r ==> e.flink == old(e.flink) && e.blink == old(e.blink)
    ensures Ring(r)
  {
    forall i | 0 <= i < |r| ensures LinkedAt(r, i) {
      assert old(LinkedAt(r, i));
    }
  }

  method InitializeList(head: Entry)
    modifies head
    ensures Ring([head]) && head.exit == old(head.exit)
  {
    head.flink := head;
    head.blink := head;
  }

  method IsListEmpty(head: Entry, ghost r: seq<Entry>) returns (empty: bool)
    requires Ring(r) && r[0] == head
    ensures empty <==> |r| == 1
  {
    assert LinkedAt(r, 0);
    empty := head.flink == head;
  }

  /** The tail of the list, or the head if the list is empty. */
  method GetTail(head: Entry, ghost r: seq<Entry>) returns (e: Entry)
    requires Ring(r) && r[0] == head
    ensures e == r[|r| - 1]
  {
    assert LinkedAt(r, |r| - 1);
    e := head.blink;
  }

  /** InsertList: a new entry goes to the tail. */
  method InsertList(head: Entry, entry: Entry, ghost r: seq<Entry>)
    requires Ring(r) && r[0] == head && entry !in r
    modifies head, entry, r[|r| - 1]
    ensures Ring(r + [entry])
    ensures forall e :: e in {head, entry, r[|r| - 1]} ==> e.exit == old(e.exit)
  {
    ghost var n := |r|;
    ghost var r' := r + [entry];
    assert LinkedAt(r, n - 1);
    var blink := head.blink;
    entry.flink := head;
    entry.blink := blink;
    blink.flink := entry;
    head.blink := entry;
    forall i | 0 <= i < n + 1 ensures LinkedAt(r', i) {
      if i < n - 1 { assert old(LinkedAt(r, i)); }
    }
  }

  /** RemoveEntry: the others stay in order; the entry itself is left as it is. */
  method RemoveEntry(entry: Entry, ghost r: seq<Entry>, ghost k: nat)
    requires Ring(r) && 0 < k < |r| && r[k] == entry
    modifies r[k - 1], r[if k == |r| - 1 then 0 else k + 1]
    ensures Ring(r[..k] + r[k + 1..])
    ensures forall e :: e in {r[k - 1], r[if k == |r| - 1 then 0 else k + 1]} ==> e.exit == old(e.exit)
  {
    ghost var n, r' := |r|, r[..k] + r[k + 1..];
    assert LinkedAt(r, k) && LinkedAt(r, k - 1);
    var flink := entry.flink;
    var blink := entry.blink;
    blink.flink := flink;
    flink.blink := blink;
    forall i | 0 <= i < n - 1 ensures LinkedAt(r', i) {
      if i < k - 1 { assert old(LinkedAt(r, i)); }
      if i >= k { assert old(LinkedAt(r, i + 1)); }
    }
  }

  /** FindSERVER: the most recently inserted entry of that name. */
  method FindServer(name: string, head: Entry, ghost r: seq<Entry>) returns (e: Entry?, ghost k: nat)
    requires Ring(r) && r[0] == head
    ensures e != null ==> 0 < k < |r| && r[k] == e && e.name == name && forall i :: k < i < |r| ==> r[i].name != name
    ensures e == null ==> forall i :: 0 < i < |r| ==> r[i].name != name
  {
    k := |r| - 1;
    assert LinkedAt(r, k);
    var blink := head.blink;
    if blink == head { return null, 0; }
    while blink != head
      invariant 0 <= k < |r| && blink == r[k]
      invariant forall i :: k < i < |r| ==> r[i].name != name
      decreases k
    {
      if blink.name == name { return blink, k; }
      assert LinkedAt(r, k - 1);
      blink := blink.blink;
      k := k - 1;
    }
    e := null;
  }

  // ----- walks -----

  /** Up to n entries from e on, following the forward or the backward links within R. */
  ghost function Walk(R: set<Entry>, e: Entry?, n: nat, forward: bool): seq<Entry>
    reads R
  {
    if n == 0 || e == null || e !in R then [] else [e] + Walk(R, if forward then e.flink else e.blink, n - 1, forward)
  }

  function Reversed(s: seq<Entry>): (t: seq<Entry>)
    ensures |t| == |s|
  {
    if |s| == 0 then [] else Reversed(s[1..]) + [s[0]]
  }

  lemma {:induction false} ReversedBack(s: seq<Entry>)
    requires |s| > 0
    ensures Reversed(s) == [s[|s| - 1]] + Reversed(s[..|s| - 1])
  {
    if |s| > 1 {
      ReversedBack(s[1..]);
      assert s[1..][..|s| - 2] == s[..|s| - 1][1..];
    }
  }

  lemma {:induction false} ForwardFrom(r: seq<Entry>, R: set<Entry>, k: nat)
    requires Ring(r) && R == (set e | e in r) && k < |r|
    ensures Walk(R, r[k], |r| - k, true) == r[k..]
    decreases |r| - k
  {
    assert LinkedAt(r, k);
    if k < |r| - 1 { ForwardFrom(r, R, k + 1); }
  }

  lemma {:induction false} BackwardFrom(r: seq<Entry>, R: set<Entry>, k: nat)
    requires Ring(r) && R == (set e | e in r) && 0 < k < |r|
    ensures Walk(R, r[k], k, false) == Reversed(r[1..k + 1])
  {
    assert LinkedAt(r, k - 1);
    ReversedBack(r[1..k + 1]);
    assert r[1..k + 1][..k - 1] == r[1..k];
    if k > 1 { BackwardFrom(r, R, k - 1); }
  }

  /** From the head, the forward walk meets the entries in order of insertion, the backward walk in the opposite order,
      and both come back to the head. */
  lemma WalksAreReversed(r: seq<Entry>, R: set<Entry>)
    requires Ring(r) && R == (set e | e in r)
    ensures Walk(R, r[0].flink, |r| - 1, true) == r[1..]
    ensures Walk(R, r[0].blink, |r| - 1, false) == Reversed(r[1..])
    ensures r[|r| - 1].flink == r[0] && r[if |r| == 1 then 0 else 1].blink == r[0]
  {
    assert LinkedAt(r, 0) && LinkedAt(r, |r| - 1);
    if |r| > 1 {
      ForwardFrom(r, R, 1);
      BackwardFrom(r, R, |r| - 1);
      assert r[1..|r|] == r[1..];
    }
  }

  // ----- every run of insertions and removals -----

  datatype Op = Insert(entry: Entry) | Remove(entry: Entry)

  function Without(c: seq<Entry>, e: Entry): (d: seq<Entry>)
    ensures forall x :: x in d ==> x in c
  {
    if c == [] then [] else if c[0] == e then c[1..] else [c[0]] + Without(c[1..], e)
  }

  /** The entries of the list after some operations, in order of insertion. */
  function Contents(ops: seq<Op>): seq<Entry> {
    if ops == [] then []
    else
      var c := Contents(ops[..|ops| - 1]);
      match ops[|ops| - 1]
      case Insert(e) => c + [e]
      case Remove(e) => Without(c, e)
  }

  /** An entry is inserted only if it is not in the list, and removed only if it is. */
  predicate Allowed(head: Entry, ops: seq<Op>) {
    ops == [] ||
    (Allowed(head, ops[..|ops| - 1]) &&
     var c := Contents(ops[..|ops| - 1]);
     match ops[|ops| - 1]
     case Insert(e) => e != head && e !in c
     case Remove(e) => e in c)
  }

  lemma {:induction false} WithoutAt(c: seq<Entry>, e: Entry, k: nat)
    requires k < |c| && c[k] == e && e !in c[..k]
    ensures Without(c, e) == c[..k] + c[k + 1..]
  {
    if k > 0 {
      assert c[0] in c[..k] && c[1..][..k - 1] == c[..k][1..];
      WithoutAt(c[1..], e, k - 1);
      assert c[1..][k..] == c[k + 1..];
      assert [c[0]] + (c[1..k] + c[k + 1..]) == c[..k] + c[k + 1..];
    }
  }

  lemma {:induction false} AllowedBefore(head: Entry, ops: seq<Op>, i: nat)
    requires Allowed(head, ops) && i < |ops|
    ensures Allowed(head, ops[..i + 1]) && ops[..i + 1][..i] == ops[..i]
    decreases |ops|
  {
    if i + 1 == |ops| {
      assert ops[..i + 1] == ops;
    } else {
      AllowedBefore(head, ops[..|ops| - 1], i);
      assert ops[..|ops| - 1][..i + 1] == ops[..i + 1];
    }
  }

  lemma RemovedRing(r: seq<Entry>, c: seq<Entry>, e: Entry, k: nat)
    requires 0 < k < |r| && r[k] == e && Distinct(r) && r == [r[0]] + c
    ensures r[..k] + r[k + 1..] == [r[0]] + Without(c, e)
  {
    assert c[k - 1] == e && forall i :: 0 <= i < k - 1 ==> c[i] == r[i + 1];
    WithoutAt(c, e, k - 1);
  }

  /** One operation on the list, at its place. */
  method Perform(head: Entry, op: Op, ghost r: seq<Entry>, ghost c: seq<Entry>) returns (ghost r': seq<Entry>)
    requires Ring(r) && r == [head] + c
    requires match op case Insert(e) => e != head && e !in c case Remove(e) => e in c
    modifies head, op.entry, c
    ensures r' == [head] + (match op case Insert(e) => c + [e] case Remove(e) => Without(c, e)) && Ring(r')
  {
    match op {
      case Insert(e) =>
        InsertList(head, e, r);
        r' := r + [e];
      case Remove(e) =>
        ghost var n: nat :| n < |c| && c[n] == e;
        ghost var k := n + 1;
        assert r[k] == e;
        RemovedRing(r, c, e, k);
        RemoveEntry(e, r, k);
        r' := r[..k] + r[k + 1..];
    }
  }

  function Entries(ops: seq<Op>): set<Entry> {
    set op | op in ops :: op.entry
  }

  lemma EntriesOfPrefix(ops: seq<Op>, i: nat)
    requires i <= |ops|
    ensures Entries(ops[..i]) <= Entries(ops)
  {
    forall e | e in Entries(ops[..i]) ensures e in Entries(ops) {
      var op :| op in ops[..i] && op.entry == e;
      assert op in ops;
    }
  }

  lemma {:induction false} OnlyInserted(ops: seq<Op>)
    ensures forall e :: e in Contents(ops) ==> e in Entries(ops)
  {
    if ops != [] {
      OnlyInserted(ops[..|ops| - 1]);
      EntriesOfPrefix(ops, |ops| - 1);
      assert ops[|ops| - 1] in ops;
    }
  }

  /** After any run of insertions and removals on an initialized list, the forward walk meets what has been inserted and
      not removed since, in order of insertion, and the backward walk meets it in the opposite order. */
  method Replay(head: Entry, ops: seq<Op>) returns (ghost r: seq<Entry>)
    requires Allowed(head, ops)
    modifies head, Entries(ops)
    ensures Ring(r) && r == [head] + Contents(ops)
    ensures Walk((set e | e in r), head.flink, |Contents(ops)|, true) == Contents(ops)
    ensures Walk((set e | e in r), head.blink, |Contents(ops)|, false) == Reversed(Contents(ops))
  {
    InitializeList(head);
    r := [head];
    for i := 0 to |ops|
      invariant Ring(r) && r == [head] + Contents(ops[..i])
    {
      AllowedBefore(head, ops, i);
      OnlyInserted(ops[..i]);
      EntriesOfPrefix(ops, i);
      assert ops[i] in ops;
      r := Perform(head, ops[i], r, Contents(ops[..i]));
    }
    assert ops[..|ops|] == ops;
    WalksAreReversed(r, (set e | e in r));
    assert r[1..] == Contents(ops);
  }

  // ----- ServerStop -----

  predicate Within(r: seq<Entry>, all: set<Entry>) {
    forall e :: e in r ==> e in all
  }

  /** r is the list of the clients of a server. */
  ghost predicate ClientsOf(server: Entry, r: seq<Entry>, all: set<Entry>)
    reads all
  {
    Within(r, all) && Ring(r) && server.clients == r[0]
  }

  /** The list S of servers behind its head, and the list C[i] of the clients of server S[i]; no entry is in two of
      them. */
  ghost predicate Forest(S: seq<Entry>, C: seq<seq<Entry>>, all: set<Entry>)
    reads S, all
  {
    && Ring(S) && |C| == |S|
    && (forall i {:trigger C[i]} :: 0 < i < |S| ==> ClientsOf(S[i], C[i], all))
    && Apart(S, C)
  }

  predicate Apart(S: seq<Entry>, C: seq<seq<Entry>>) {
    && (forall i, e {:trigger e in C[i]} :: 0 < i < |C| && e in C[i] ==> e !in S)
    && (forall i, j, e {:trigger e in C[i], e in C[j]} :: 0 < i < j < |C| && e in C[i] ==> e !in C[j])
  }

  /** The order in which the servers from number m on and their clients are freed: the last server first,
      each after its clients, the last client first. */
  function FreeOrder(S: seq<Entry>, C: seq<seq<Entry>>, m: nat): seq<Entry>
    requires |C| == |S| && forall i :: m <= i < |S| ==> |C[i]| > 0
    decreases |S| - m
  {
    if m >= |S| then [] else FreeOrder(S, C, m + 1) + (Reversed(C[m][1..]) + [S[m]])
  }

  /** The inner loop: frees the clients of one server. */
  method FreeClients(head: Entry, ghost r: seq<Entry>) returns (freed: seq<Entry>)
    requires Ring(r) && r[0] == head
    modifies r
    ensures Ring([head]) && freed == Reversed(r[1..])
    ensures forall e :: e in freed ==> e.exit
  {
    freed := [];
    ghost var m := |r|;
    var empty := IsListEmpty(head, r);
    assert r[..m] == r;
    while !empty
      invariant 1 <= m <= |r| && Ring(r[..m]) && (empty <==> m == 1)
      invariant freed == Reversed(r[m..])
      invariant forall e :: e in freed ==> e.exit
      decreases m
    {
      ghost var cur := r[..m];
      var client := FreeLast(head, cur);
      assert cur[..m - 1] == r[..m - 1];
      ReversedFront(r, m - 1);
      freed := freed + [client];
      m := m - 1;
      empty := IsListEmpty(head, r[..m]);
    }
    assert r[..1] == [head];
  }

  /** One round of it: the last client leaves the list and is told to end. */
  method FreeLast(head: Entry, ghost cur: seq<Entry>) returns (client: Entry)
    requires Ring(cur) && cur[0] == head && |cur| > 1
    modifies cur
    ensures Ring(cur[..|cur| - 1]) && client == cur[|cur| - 1] && client.exit
    ensures forall e :: e in cur && old(e.exit) ==> e.exit
  {
    client := GetTail(head, cur);
    client.exit := true;
    SameRing(cur);
    RemoveEntry(client, cur, |cur| - 1);
    assert cur[..|cur| - 1] + cur[|cur|..] == cur[..|cur| - 1];
  }

  lemma ReversedFront(r: seq<Entry>, k: nat)
    requires k < |r|
    ensures Reversed(r[k..]) == Reversed(r[k + 1..]) + [r[k]]
  {
    assert r[k..][1..] == r[k + 1..];
  }

  /** What is left to do when the servers from number m on are gone. */
  ghost predicate Remaining(S: seq<Entry>, C: seq<seq<Entry>>, all: set<Entry>, m: nat)
    requires m <= |S|
    reads S, all
  {
    && |C| == |S| && Ring(S[..m])
    && (forall i {:trigger C[i]} :: 0 < i < m ==> ClientsOf(S[i], C[i], all))
  }

  /** One round of the outer loop: frees the last server of the list, after its clients. */
  method FreeServer(head: Entry, ghost cur: seq<Entry>, ghost r: seq<Entry>) returns (freed: seq<Entry>)
    requires Ring(cur) && cur[0] == head && |cur| > 1 && Ring(r) && cur[|cur| - 1].clients == r[0]
    requires forall e :: e in r ==> e !in cur
    modifies cur, r
    ensures Ring(cur[..|cur| - 1]) && freed == Reversed(r[1..]) + [cur[|cur| - 1]]
    ensures forall e :: e in freed ==> e.exit
  {
    ghost var k := |cur| - 1;
    var server := GetTail(head, cur);
    server.exit := true;
    assert server in cur && server !in r;
    SameRing(r);
    freed := FreeClients(server.clients, r);
    SameRing(cur);
    ReversedMembers(r[1..]);
    assert forall e :: e in freed ==> e in r && e !in cur;
    assert server == cur[k] != cur[0] && server != cur[k - 1] && server.exit;
    ghost var clients := freed;
    RemoveEntry(server, cur, k);
    assert forall e :: e in clients ==> e.exit;
    assert cur[..k] + cur[k + 1..] == cur[..k];
    freed := freed + [server];
  }

  lemma ReversedMembers(s: seq<Entry>)
    ensures forall e :: e in Reversed(s) ==> e in s
  {}

  /** The same for the last of m servers: the others are as they were. */
  method StopServer(head: Entry, ghost S: seq<Entry>, ghost C: seq<seq<Entry>>, ghost all: set<Entry>, ghost m: nat)
      returns (freed: seq<Entry>)
    requires Apart(S, C) && 1 < m <= |S| && Remaining(S, C, all, m) && S[0] == head
    modifies S, all
    ensures Remaining(S, C, all, m - 1) && freed == Reversed(C[m - 1][1..]) + [S[m - 1]]
  {
    ghost var cur := S[..m];
    assert ClientsOf(S[m - 1], C[m - 1], all);
    label Before:
    freed := FreeServer(head, cur, C[m - 1]);
    forall i | 0 < i < m - 1 ensures ClientsOf(S[i], C[i], all) {
      assert forall e :: e in C[i] ==> e !in cur && e !in C[m - 1];
      SameRing@Before(C[i]);
    }
    assert cur[..m - 1] == S[..m - 1];
  }

  /** ServerStop: frees everything, each entry once, and leaves the server list empty. */
  method ServerStop(head: Entry, ghost S: seq<Entry>, ghost C: seq<seq<Entry>>, ghost all: set<Entry>)
      returns (freed: seq<Entry>)
    requires Forest(S, C, all) && S[0] == head
    modifies S, all
    ensures Ring([head]) && |C| == |S| && (forall i :: 0 < i < |C| ==> |C[i]| > 0) && freed == FreeOrder(S, C, 1)
  {
    freed := [];
    ghost var m := |S|;
    assert S[..m] == S;
    var empty := IsListEmpty(head, S);
    while !empty
      invariant 1 <= m <= |S| && Remaining(S, C, all, m) && (empty <==> m == 1)
      invariant freed == FreeOrder(S, C, m)
      decreases m
    {
      var gone := StopServer(head, S, C, all, m);
      freed := freed + gone;
      m := m - 1;
      empty := IsListEmpty(head, S[..m]);
    }
    assert S[..1] == [head];
  }

  // ----- every entry is freed once -----

  predicate Freed(S: seq<Entry>, C: seq<seq<Entry>>, m: nat, e: Entry)
    requires |C| == |S| && forall i :: m <= i < |S| ==> |C[i]| > 0
  {
    exists i :: m <= i < |S| && (e == S[i] || e in C[i][1..])
  }

  lemma DistinctConcat(a: seq<Entry>, b: seq<Entry>)
    requires Distinct(a) && Distinct(b) && forall e :: e in a ==> e !in b
    ensures Distinct(a + b)
  {
    forall i, j | 0 <= i < j < |a + b| ensures (a + b)[i] != (a + b)[j] {
      if i < |a| <= j { assert a[i] in a && b[j - |a|] in b; }
    }
  }

  lemma {:induction false} ReversedDistinct(s: seq<Entry>)
    requires Distinct(s)
    ensures Distinct(Reversed(s)) && forall e :: e in Reversed(s) <==> e in s
  {
    if |s| > 0 {
      ReversedDistinct(s[1..]);
      DistinctConcat(Reversed(s[1..]), [s[0]]);
    }
  }

  lemma OneServer(S: seq<Entry>, C: seq<seq<Entry>>, m: nat)
    requires 0 < m < |S| == |C| && Apart(S, C) && |C[m]| > 0 && Distinct(C[m])
    ensures Distinct(Reversed(C[m][1..]) + [S[m]])
    ensures forall e :: e in Reversed(C[m][1..]) + [S[m]] <==> e == S[m] || e in C[m][1..]
  {
    ReversedDistinct(C[m][1..]);
    assert forall e :: e in C[m][1..] ==> e in C[m];
    DistinctConcat(Reversed(C[m][1..]), [S[m]]);
  }

  /** Stopping frees every server and every client exactly once. */
  lemma {:induction false} FreedOnce(S: seq<Entry>, C: seq<seq<Entry>>, m: nat)
    requires 0 < m && |C| == |S| && Distinct(S) && Apart(S, C)
    requires forall i {:trigger C[i]} :: 0 < i < |S| ==> |C[i]| > 0 && Distinct(C[i])
    ensures Distinct(FreeOrder(S, C, m))
    ensures forall e :: e in FreeOrder(S, C, m) <==> Freed(S, C, m, e)
    decreases |S| - m
  {
    if m < |S| {
      FreedOnce(S, C, m + 1);
      OneServer(S, C, m);
      var rest, own := FreeOrder(S, C, m + 1), Reversed(C[m][1..]) + [S[m]];
      forall e | e in rest ensures e !in own {
        assert Freed(S, C, m + 1, e);
        StillListed(S, C, m, e);
      }
      DistinctConcat(rest, own);
      forall e ensures e in FreeOrder(S, C, m) <==> Freed(S, C, m, e) {
        FreedStep(S, C, m, e);
      }
    }
  }

  lemma FreedStep(S: seq<Entry>, C: seq<seq<Entry>>, m: nat, e: Entry)
    requires m < |S| == |C| && forall i :: m <= i < |S| ==> |C[i]| > 0
    ensures Freed(S, C, m, e) <==> e == S[m] || e in C[m][1..] || Freed(S, C, m + 1, e)
  {}

  lemma StillListed(S: seq<Entry>, C: seq<seq<Entry>>, m: nat, e: Entry)
    requires 0 < m < |S| == |C| && Distinct(S) && Apart(S, C) && forall i :: 0 < i < |S| ==> |C[i]| > 0
    requires Freed(S, C, m + 1, e)
    ensures e != S[m] && e !in C[m][1..]
  {
    var i :| m + 1 <= i < |S| && (e == S[i] || e in C[i][1..]);
    TailMember(C[i], e);
    TailMember(C[m], e);
  }

  lemma TailMember(s: seq<Entry>, e: Entry)
    requires |s| > 0
    ensures e in s[1..] ==> e in s
  {}
}
