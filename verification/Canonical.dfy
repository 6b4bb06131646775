/** Canonical prefix codes (section 3.2.2 of RFC 1951): a code is given by one length per symbol. */
module Canonical {
  import opened Bits
  import opened Wrappers

  const BMAX: nat := 15

  /** The source's return codes. */
  datatype Ret = Ok | StreamEnd | BufError | DataError | MemError

  /** A decoded symbol and the number of bits of its codeword. */
  datatype Coded = Coded(sym: nat, len: nat)

  predicate ValidLengths(lens: seq<nat>) {
    forall i :: 0 <= i < |lens| ==> lens[i] <= BMAX
  }

  /** How many symbols have length k. */
  function Count(lens: seq<nat>, k: nat): (c: nat)
    ensures c <= |lens|
  {
    if |lens| == 0 then 0
    else Count(lens[..|lens| - 1], k) + (if lens[|lens| - 1] == k then 1 else 0)
  }

  /** The numerically smallest codeword of length k. */
  function FirstCode(lens: seq<nat>, k: nat): nat {
    if k <= 1 then 0 else 2 * (FirstCode(lens, k - 1) + Count(lens, k - 1))
  }

  /** The codeword of symbol s, most significant bit first. */
  function CodeOf(lens: seq<nat>, s: nat): nat
    requires s < |lens|
  {
    FirstCode(lens, lens[s]) + Count(lens[..s], lens[s])
  }

  /** The codeword of s is a prefix of the bits of v, read from the low end. */
  predicate Matches(lens: seq<nat>, s: nat, v: nat) {
    s < |lens| && 1 <= lens[s] <= BMAX && Rev(lens[s], v) == CodeOf(lens, s)
  }

  /** The r-th symbol of length k, in symbol order. */
  function SymAt(lens: seq<nat>, k: nat, r: nat): (s: nat)
    requires r < Count(lens, k)
    ensures s < |lens| && lens[s] == k && Count(lens[..s], k) == r
  {
    var m := |lens| - 1;
    if lens[m] == k && r == Count(lens[..m], k) then m
    else
      var s := SymAt(lens[..m], k, r);
      assert lens[..m][..s] == lens[..s];
      s
  }

  function DecodeFrom(lens: seq<nat>, v: nat, k: nat): (r: Option<Coded>)
    requires k >= 1
    ensures r.Some? ==> k <= r.value.len <= BMAX && r.value.sym < |lens|
    decreases BMAX + 1 - k
  {
    if k > BMAX then None
    else
      var c, f := Rev(k, v), FirstCode(lens, k);
      if f <= c < f + Count(lens, k) then Some(Coded(SymAt(lens, k, c - f), k))
      else DecodeFrom(lens, v, k + 1)
  }

  /** The symbol whose codeword is a prefix of the bits of v, trying the lengths in turn. */
  function Decode(lens: seq<nat>, v: nat): Option<Coded> {
    DecodeFrom(lens, v, 1)
  }

  predicate NoCodes(lens: seq<nat>) {
    forall i :: 0 <= i < |lens| ==> lens[i] == 0
  }

  /** The longest length in use. */
  function Longest(lens: seq<nat>): (g: nat)
    ensures forall i :: 0 <= i < |lens| ==> lens[i] <= g
    ensures g == 0 || exists i :: 0 <= i < |lens| && lens[i] == g
  {
    if |lens| == 0 then 0
    else
      var m := |lens| - 1;
      var g := Longest(lens[..m]);
      assert forall i :: 0 <= i < m ==> lens[i] == lens[..m][i];
      if lens[m] > g then lens[m] else g
  }

  /** The shortest length in use, 0 if there is none. */
  function Shortest(lens: seq<nat>): (j: nat)
    ensures forall i :: 0 <= i < |lens| && lens[i] != 0 ==> 1 <= j <= lens[i]
    ensures j == 0 || exists i :: 0 <= i < |lens| && lens[i] == j
  {
    if |lens| == 0 then 0
    else
      var m := |lens| - 1;
      var j := Shortest(lens[..m]);
      assert forall i :: 0 <= i < m ==> lens[i] == lens[..m][i];
      if lens[m] != 0 && (j == 0 || lens[m] < j) then lens[m] else j
  }

  function Clamp(m: nat, lo: nat, hi: nat): nat {
    if m < lo then lo else if m > hi then hi else m
  }

  /** How many bits the first lookup takes if m are wanted: no fewer than the shortest codeword has and no more than
      the longest. */
  function RootBits(m: nat, lens: seq<nat>): nat {
    Clamp(m, Shortest(lens), Longest(lens))
  }

  // ----- the Kraft sum -----

  /** The Kraft sum of the codewords of at most k bits, in units of 1 / 2^15. */
  function Used(lens: seq<nat>, k: nat): nat
    requires k <= BMAX
  {
    if k == 0 then 0 else Used(lens, k - 1) + Shl(Count(lens, k), BMAX - k)
  }

  predicate OverSubscribed(lens: seq<nat>) {
    Used(lens, BMAX) > Pow2(BMAX)
  }

  predicate Complete(lens: seq<nat>) {
    Used(lens, BMAX) == Pow2(BMAX)
  }

  /** What huft_build reports, memory permitting: section 3.2.7 of RFC 1951 asks for complete codes, and
      the only incomplete code allowed is a single codeword of one bit. */
  function Verdict(lens: seq<nat>): Ret {
    if NoCodes(lens) then Ok
    else if OverSubscribed(lens) then DataError
    else if !Complete(lens) && Longest(lens) != 1 then BufError
    else Ok
  }

  lemma CountPrefix(lens: seq<nat>, i: nat, k: nat)
    requires i <= |lens|
    ensures Count(lens[..i], k) <= Count(lens, k)
    ensures i < |lens| && lens[i] == k ==> Count(lens[..i], k) < Count(lens, k)
  {
    if i == |lens| {
      assert lens[..i] == lens;
    } else {
      var m := |lens| - 1;
      if i < m {
        CountPrefix(lens[..m], i, k);
        assert lens[..m][..i] == lens[..i];
      }
    }
  }

  lemma RankMono(lens: seq<nat>, s: nat, t: nat)
    requires s < t <= |lens|
    ensures Count(lens[..s], lens[s]) < Count(lens[..t], lens[s])
  {
    CountPrefix(lens[..t], s, lens[s]);
    assert lens[..t][..s] == lens[..s];
  }

  lemma SymAtRank(lens: seq<nat>, s: nat)
    requires s < |lens|
    ensures Count(lens[..s], lens[s]) < Count(lens, lens[s])
    ensures SymAt(lens, lens[s], Count(lens[..s], lens[s])) == s
  {
    var k, r := lens[s], Count(lens[..s], lens[s]);
    CountPrefix(lens, s, k);
    var t := SymAt(lens, k, r);
    if s < t {
      RankMono(lens, s, t);
    } else if t < s {
      RankMono(lens, t, s);
    }
  }

  lemma UsedMono(lens: seq<nat>, a: nat, b: nat)
    requires a <= b <= BMAX
    ensures Used(lens, a) <= Used(lens, b)
  {
    if a < b { UsedMono(lens, a, b - 1); }
  }

  /** The codewords of length k tile [Used(k - 1), Used(k)). */
  lemma FirstCodePosition(lens: seq<nat>, k: nat)
    requires 1 <= k <= BMAX
    ensures Shl(FirstCode(lens, k), BMAX - k) == Used(lens, k - 1)
    ensures Shl(FirstCode(lens, k) + Count(lens, k), BMAX - k) == Used(lens, k)
  {
    if k == 1 {
      ShlOne(BMAX - 1);
    } else {
      FirstCodePosition(lens, k - 1);
      assert BMAX - (k - 1) == BMAX - k + 1;
      DoubleShl(FirstCode(lens, k - 1) + Count(lens, k - 1), BMAX - k);
    }
    ShlAdd(FirstCode(lens, k), Count(lens, k), BMAX - k);
  }

  lemma DoubleShl(x: nat, n: nat)
    ensures Shl(2 * x, n) == Shl(x, n + 1)
  {
    ShlAdd(x, x, n);
  }

  /** v, read as a 15-bit fraction, lies in the slot of its own first k bits. */
  lemma PrefixSlot(v: nat, k: nat)
    requires k <= BMAX
    ensures Shl(Rev(k, v), BMAX - k) <= Rev(BMAX, v) < Shl(Rev(k, v) + 1, BMAX - k)
  {
    RevSplit(k, BMAX - k, v);
    RevBound(BMAX - k, Shr(v, k));
    ShlAdd(Rev(k, v), 1, BMAX - k);
    ShlOne(BMAX - k);
  }

  /** The length at which v is decoded is fixed by where its fraction lies among the partial Kraft sums. */
  lemma InSlot(lens: seq<nat>, v: nat, k: nat)
    requires 1 <= k <= BMAX
    ensures FirstCode(lens, k) <= Rev(k, v) < FirstCode(lens, k) + Count(lens, k)
       <==> Used(lens, k - 1) <= Rev(BMAX, v) < Used(lens, k)
  {
    var f, c, n := FirstCode(lens, k), Rev(k, v), BMAX - k;
    FirstCodePosition(lens, k);
    PrefixSlot(v, k);
    if f <= c { ShlMono(f, c, n); } else { ShlMono(c + 1, f, n); }
    var e := f + Count(lens, k);
    if c < e { ShlMono(c + 1, e, n); } else { ShlMono(e, c, n); }
  }

  lemma DecodeFromSlot(lens: seq<nat>, v: nat, k: nat, j: nat)
    requires 1 <= j <= k <= BMAX
    requires Used(lens, k - 1) <= Rev(BMAX, v) < Used(lens, k)
    ensures FirstCode(lens, k) <= Rev(k, v) < FirstCode(lens, k) + Count(lens, k)
    ensures DecodeFrom(lens, v, j) == Some(Coded(SymAt(lens, k, Rev(k, v) - FirstCode(lens, k)), k))
    decreases k - j
  {
    hide Used, FirstCode, Count, Rev, Pow2, SymAt;
    InSlot(lens, v, k);
    if j < k {
      InSlot(lens, v, j);
      UsedMono(lens, j, k - 1);
      DecodeFromSlot(lens, v, k, j + 1);
    }
  }

  lemma DecodeFromSound(lens: seq<nat>, v: nat, k: nat)
    requires k >= 1
    ensures DecodeFrom(lens, v, k).Some? ==>
              var r := DecodeFrom(lens, v, k).value;
              Matches(lens, r.sym, v) && lens[r.sym] == r.len
    decreases BMAX + 1 - k
  {
    if k <= BMAX {
      DecodeFromSound(lens, v, k + 1);
    }
  }

  lemma DecodeFromMiss(lens: seq<nat>, v: nat, k: nat)
    requires 1 <= k
    requires forall j :: k <= j <= BMAX ==> !(Used(lens, j - 1) <= Rev(BMAX, v) < Used(lens, j))
    ensures DecodeFrom(lens, v, k) == None
    decreases BMAX + 1 - k
  {
    if k <= BMAX {
      InSlot(lens, v, k);
      DecodeFromMiss(lens, v, k + 1);
    }
  }

  lemma MatchDecodes(lens: seq<nat>, v: nat, s: nat)
    requires Matches(lens, s, v)
    ensures Decode(lens, v) == Some(Coded(s, lens[s]))
  {
    hide Used, FirstCode, Count, Rev, Pow2, SymAt, DecodeFrom;
    var k := lens[s];
    SymAtRank(lens, s);
    InSlot(lens, v, k);
    DecodeFromSlot(lens, v, k, 1);
  }

  /** Decoding finds s exactly when the codeword of s is a prefix of the input: in particular
      at most one symbol can match, whatever the lengths. */
  lemma DecodeIffMatches(lens: seq<nat>, v: nat, s: nat)
    ensures Matches(lens, s, v) <==>
            s < |lens| && Decode(lens, v) == Some(Coded(s, lens[s]))
  {
    DecodeFromSound(lens, v, 1);
    if Matches(lens, s, v) { MatchDecodes(lens, v, s); }
  }

  /** A code that is not over-subscribed decodes every input exactly when it is complete. */
  lemma CompleteIffTotal(lens: seq<nat>)
    requires !OverSubscribed(lens)
    ensures Complete(lens) <==> forall v: nat :: Decode(lens, v).Some?
  {
    hide Used, FirstCode, Count, Rev, SymAt, DecodeFrom, Shl;
    if Complete(lens) {
      forall v: nat ensures Decode(lens, v).Some? {
        RevBound(BMAX, v);
        var k := SlotOf(lens, Rev(BMAX, v), BMAX);
        DecodeFromSlot(lens, v, k, 1);
      }
    } else {
      var x := Pow2(BMAX) - 1;
      var v := Rev(BMAX, x);
      RevRev(BMAX, x);
      LowSmall(x, BMAX);
      forall j | 1 <= j <= BMAX ensures !(Used(lens, j - 1) <= Rev(BMAX, v) < Used(lens, j)) {
        UsedMono(lens, j, BMAX);
      }
      DecodeFromMiss(lens, v, 1);
      assert Decode(lens, v).None?;
    }
  }

  function SlotOf(lens: seq<nat>, x: nat, k: nat): (j: nat)
    requires k <= BMAX && x < Used(lens, k)
    ensures 1 <= j <= k && Used(lens, j - 1) <= x < Used(lens, j)
  {
    if x < Used(lens, k - 1) then SlotOf(lens, x, k - 1) else k
  }
}
