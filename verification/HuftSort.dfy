/** The first half of huft_build: counting the lengths, the verdict on them, and the symbols in order of length. */
module HuftSort {
  import opened Bits
  import opened Canonical

  predicate Counts(lens: seq<nat>, c: seq<nat>) {
    |c| == BMAX + 1 && forall k :: 0 <= k <= BMAX ==> c[k] == Count(lens, k)
  }

  method CountLengths(b: seq<nat>) returns (c: seq<nat>)
    requires ValidLengths(b)
    ensures Counts(b, c)
  {
    c := seq(BMAX + 1, _ => 0);
    for i := 0 to |b|
      invariant Counts(b[..i], c)
    {
      assert b[..i + 1][..i] == b[..i];
      c := c[b[i] := c[b[i]] + 1];
    }
    assert b[..|b|] == b;
  }

  /** The shortest and longest nonzero lengths, and the requested table size bounded by them. */
  method LengthRange(lens: seq<nat>, c: seq<nat>, m: nat) returns (j: nat, g: nat, l: nat)
    requires ValidLengths(lens) && Counts(lens, c)
    requires c[0] != |lens|
    ensures 1 <= j <= l <= g <= BMAX
    ensures l == if m < j then j else if m > g then g else m
    ensures Count(lens, j) > 0 && Count(lens, g) > 0
    ensures forall i :: 0 <= i < |lens| && lens[i] != 0 ==> j <= lens[i] <= g
    ensures forall k :: 1 <= k < j || g < k <= BMAX ==> Count(lens, k) == 0
  {
    l := m;
    var s := SomeNonzero(lens);
    CountPrefix(lens, s, lens[s]);
    j := 1;
    while j <= BMAX && c[j] == 0
      invariant 1 <= j <= lens[s]
      invariant forall k :: 1 <= k < j ==> Count(lens, k) == 0
    {
      j := j + 1;
    }
    if l < j { l := j; }
    g := BMAX;
    while g > 0 && c[g] == 0
      invariant lens[s] <= g <= BMAX
      invariant forall k :: g < k <= BMAX ==> Count(lens, k) == 0
    {
      g := g - 1;
    }
    if l > g { l := g; }
    forall i | 0 <= i < |lens| && lens[i] != 0 ensures j <= lens[i] <= g {
      CountPrefix(lens, i, lens[i]);
    }
  }

  lemma AllZero(lens: seq<nat>)
    ensures Count(lens, 0) == |lens| <==> forall i :: 0 <= i < |lens| ==> lens[i] == 0
  {
    if |lens| > 0 {
      var m := |lens| - 1;
      AllZero(lens[..m]);
      if Count(lens, 0) == |lens| {
        forall i | 0 <= i < |lens| ensures lens[i] == 0 {
          if i < m { assert lens[..m][i] == 0; }
        }
      }
    }
  }

  ghost function SomeNonzero(lens: seq<nat>): (s: nat)
    requires Count(lens, 0) != |lens|
    ensures s < |lens| && lens[s] != 0
  {
    AllZero(lens);
    var s: nat :| s < |lens| && lens[s] != 0;
    s
  }

  lemma UsedFlat(lens: seq<nat>, a: nat, b: nat)
    requires a <= b <= BMAX
    requires forall k :: a < k <= b ==> Count(lens, k) == 0
    ensures Used(lens, a) == Used(lens, b)
  {
    if a < b {
      UsedFlat(lens, a, b - 1);
      ShlOne(BMAX - b);
    }
  }

  /** Walks the lengths from the shortest to the longest, doubling the free codewords at each: negative means the
      lengths ask for more codewords than there are, otherwise the result is the number left over at length g. */
  method FreeCodes(lens: seq<nat>, c: seq<nat>, j0: nat, g: nat) returns (y: int)
    requires Counts(lens, c) && 1 <= j0 <= g <= BMAX
    requires forall k :: 1 <= k < j0 || g < k <= BMAX ==> Count(lens, k) == 0
    ensures y < 0 <==> OverSubscribed(lens)
    ensures y >= 0 ==> Used(lens, BMAX) + Shl(y, BMAX - g) == Pow2(BMAX)
  {
    hide Used, Shl, Count;
    NothingUsed(lens);
    var j := j0;
    y := Pow2(j);
    UsedFlat(lens, 0, j - 1);
    Pow2Add(j, BMAX - j);
    while j < g
      invariant j0 <= j <= g
      invariant y >= 0 && Used(lens, j - 1) + Shl(y, BMAX - j) == Pow2(BMAX)
    {
      Take(lens, y, j);
      y := y - c[j];
      if y < 0 {
        UsedMono(lens, j, BMAX);
        return;
      }
      DoubleShl(y, BMAX - (j + 1));
      j := j + 1;
      y := 2 * y;
    }
    Take(lens, y, g);
    UsedFlat(lens, g, BMAX);
    y := y - c[g];
  }

  lemma UsedStep(lens: seq<nat>, j: nat)
    requires 1 <= j <= BMAX
    ensures Used(lens, j) == Used(lens, j - 1) + Shl(Count(lens, j), BMAX - j)
  {}

  lemma NothingUsed(lens: seq<nat>)
    ensures Used(lens, 0) == 0
  {}

  lemma Take(lens: seq<nat>, y: nat, j: nat)
    requires 1 <= j <= BMAX
    requires Used(lens, j - 1) + Shl(y, BMAX - j) == Pow2(BMAX)
    ensures y >= Count(lens, j) ==> Used(lens, j) + Shl(y - Count(lens, j), BMAX - j) == Pow2(BMAX)
    ensures y < Count(lens, j) ==> Used(lens, j) > Pow2(BMAX)
  {
    UsedStep(lens, j);
    hide Used, Shl, Pow2, Count;
    var a := Count(lens, j);
    if y >= a {
      ShlAdd(y - a, a, BMAX - j);
    } else {
      ShlMono(y, a, BMAX - j);
    }
  }

  // ----- the symbols in order of length -----

  /** Where the symbols of length k start. */
  function Off(lens: seq<nat>, k: nat): nat {
    if k <= 1 then 0 else Off(lens, k - 1) + Count(lens, k - 1)
  }

  function Slot(lens: seq<nat>, s: nat): nat
    requires s < |lens|
  {
    Off(lens, lens[s]) + Count(lens[..s], lens[s])
  }

  /** v lists the symbols of nonzero length, by length and among equal lengths by symbol. */
  ghost predicate InOrder(lens: seq<nat>, v: seq<nat>) {
    && |v| == Off(lens, BMAX + 1)
    && forall s {:trigger Slot(lens, s)} :: 0 <= s < |lens| && lens[s] != 0 ==>
        Slot(lens, s) < |v| && v[Slot(lens, s)] == s
  }

  lemma OffMono(lens: seq<nat>, a: nat, b: nat)
    requires 1 <= a < b
    ensures Off(lens, a) + Count(lens, a) <= Off(lens, b)
  {
    if a + 1 < b { OffMono(lens, a, b - 1); }
  }

  lemma SlotsDiffer(lens: seq<nat>, s: nat, t: nat)
    requires s < t < |lens| && lens[s] != 0 && lens[t] != 0
    ensures Slot(lens, s) != Slot(lens, t)
    ensures lens[s] == lens[t] ==> Slot(lens, s) < Slot(lens, t)
    ensures lens[s] < lens[t] <==> Slot(lens, s) < Slot(lens, t) && lens[s] != lens[t]
  {
    CountPrefix(lens, s, lens[s]);
    CountPrefix(lens, t, lens[t]);
    if lens[s] < lens[t] {
      OffMono(lens, lens[s], lens[t]);
    } else if lens[t] < lens[s] {
      OffMono(lens, lens[t], lens[s]);
    } else {
      RankMono(lens, s, t);
    }
  }

  lemma SlotBound(lens: seq<nat>, s: nat)
    requires s < |lens| && 1 <= lens[s] <= BMAX
    ensures Slot(lens, s) < Off(lens, BMAX + 1)
  {
    CountPrefix(lens, s, lens[s]);
    OffMono(lens, lens[s], BMAX + 1);
  }

  lemma OffFlat(lens: seq<nat>, a: nat, b: nat)
    requires 1 <= a <= b
    requires forall k :: a <= k < b ==> Count(lens, k) == 0
    ensures Off(lens, a) == Off(lens, b)
  {
    if a < b { OffFlat(lens, a, b - 1); }
  }

  lemma OffBound(lens: seq<nat>, k: nat)
    requires 1 <= k
    ensures Off(lens, k) <= |lens|
    ensures |lens| > 0 && lens[|lens| - 1] == 0 ==> Off(lens, k) < |lens|
  {
    if |lens| == 0 {
      OffFlat(lens, 1, k);
    } else {
      var m := |lens| - 1;
      OffBound(lens[..m], k);
      OffGrow(lens, k);
    }
  }

  lemma OffGrow(lens: seq<nat>, k: nat)
    requires 1 <= k && |lens| > 0
    ensures var m := |lens| - 1; Off(lens, k) == Off(lens[..m], k) + (if 1 <= lens[m] < k then 1 else 0)
  {
    if k > 1 { OffGrow(lens, k - 1); }
  }

  /** The symbols below i are in their slots. */
  ghost predicate Placed(lens: seq<nat>, v: seq<nat>, i: nat)
    requires i <= |lens|
  {
    forall s {:trigger Slot(lens, s)} :: 0 <= s < i && lens[s] != 0 ==> Slot(lens, s) < |v| && v[Slot(lens, s)] == s
  }

  lemma PlaceOne(lens: seq<nat>, v: seq<nat>, i: nat)
    requires i < |lens| && lens[i] != 0 && Slot(lens, i) < |v| && Placed(lens, v, i)
    ensures Placed(lens, v[Slot(lens, i) := i], i + 1)
  {
    forall s | 0 <= s < i && lens[s] != 0 ensures Slot(lens, s) != Slot(lens, i) {
      SlotsDiffer(lens, s, i);
    }
  }

  /** x[k] is the slot of the next symbol of length k, when the symbols below i have been placed. */
  predicate NextSlots(lens: seq<nat>, x: seq<nat>, g: nat, i: nat)
    requires i <= |lens|
  {
    |x| == BMAX + 1 && g <= BMAX && forall k :: 1 <= k <= g ==> x[k] == Off(lens, k) + Count(lens[..i], k)
  }

  method FirstSlots(lens: seq<nat>, c: seq<nat>, g: nat) returns (x: seq<nat>)
    requires Counts(lens, c) && 1 <= g <= BMAX
    ensures NextSlots(lens, x, g, 0)
  {
    x := seq(BMAX + 1, _ => 0);
    var j := 0;
    for k := 2 to g + 1
      invariant |x| == BMAX + 1 && j == Off(lens, k - 1)
      invariant forall i :: 1 <= i < k ==> x[i] == Off(lens, i)
    {
      j := j + c[k - 1];
      x := x[k := j];
    }
  }

  lemma NextSlot(lens: seq<nat>, x: seq<nat>, g: nat, i: nat)
    requires ValidLengths(lens) && i < |lens| && NextSlots(lens, x, g, i) && lens[i] <= g
    ensures lens[i] == 0 ==> NextSlots(lens, x, g, i + 1)
    ensures lens[i] != 0 ==> x[lens[i]] == Slot(lens, i) < Off(lens, BMAX + 1)
    ensures lens[i] != 0 ==> NextSlots(lens, x[lens[i] := x[lens[i]] + 1], g, i + 1)
  {
    assert lens[..i + 1][..i] == lens[..i];
    if lens[i] != 0 { SlotBound(lens, i); }
  }

  /** The source's counting sort: offsets from the counts, then one pass over the symbols. */
  method SortByLength(lens: seq<nat>, c: seq<nat>, g: nat, v: array<nat>) returns (n: nat)
    requires ValidLengths(lens) && Counts(lens, c) && 1 <= g <= BMAX
    requires forall k :: g < k <= BMAX ==> Count(lens, k) == 0
    requires forall i :: 0 <= i < |lens| ==> lens[i] <= g
    requires |lens| <= v.Length
    modifies v
    ensures n <= v.Length && InOrder(lens, v[..n])
  {
    var x := FirstSlots(lens, c, g);
    ghost var total := Off(lens, BMAX + 1);
    OffFlat(lens, g + 1, BMAX + 1);
    OffBound(lens, BMAX + 1);
    for i := 0 to |lens|
      invariant NextSlots(lens, x, g, i)
      invariant Placed(lens, v[..total], i)
    {
      NextSlot(lens, x, g, i);
      if lens[i] != 0 {
        PlaceOne(lens, v[..total], i);
        ghost var before := v[..total];
        v[x[lens[i]]] := i;
        assert v[..total] == before[Slot(lens, i) := i];
        x := x[lens[i] := x[lens[i]] + 1];
      }
    }
    assert lens[..|lens|] == lens;
    n := x[g];
  }

  /** The order is by length and stable, and holds exactly the symbols that have a codeword. */
  lemma InOrderIsStableSort(lens: seq<nat>, v: seq<nat>, a: nat, b: nat)
    requires ValidLengths(lens) && InOrder(lens, v) && a < b < |v|
    ensures v[a] < |lens| && v[b] < |lens| && lens[v[a]] != 0
    ensures lens[v[a]] < lens[v[b]] || (lens[v[a]] == lens[v[b]] && v[a] < v[b])
  {
    var s := SymbolAtSlot(lens, a, BMAX + 1);
    var t := SymbolAtSlot(lens, b, BMAX + 1);
    assert v[Slot(lens, s)] == s && v[Slot(lens, t)] == t;
    if s < t {
      SlotsDiffer(lens, s, t);
    } else {
      SlotsDiffer(lens, t, s);
    }
  }

  lemma SymbolAtSlot(lens: seq<nat>, i: nat, k: nat) returns (s: nat)
    requires 1 <= k <= BMAX + 1 && i < Off(lens, k)
    ensures s < |lens| && lens[s] != 0 && Slot(lens, s) == i
  {
    if i < Off(lens, k - 1) {
      s := SymbolAtSlot(lens, i, k - 1);
    } else {
      s := SymAt(lens, k - 1, i - Off(lens, k - 1));
    }
  }
}
