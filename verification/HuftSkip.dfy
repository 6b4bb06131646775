/** Codes that huft_build cannot make tables for: under some prefix that ends where a table ends, every codeword is too
    long for the next table. */
module HuftSkip {
  import opened Bits
  import opened Canonical
  import opened CodeSpace
  import opened HuftSort
  import opened HuftStack

  /** w is a multiple of l, and the codewords of up to w + l bits end before the last prefix of w bits starts. */
  predicate SkipsAt(lens: seq<nat>, l: nat, w: nat) {
    && 1 <= l <= w && OnGrid(l, w) && w + l < Longest(lens) && w + l <= BMAX
    && Used(lens, w + l) + Pow2(BMAX - w) <= Pow2(BMAX)
  }

  predicate Skips(lens: seq<nat>, l: nat) {
    exists w: nat {:trigger SkipsAt(lens, l, w)} :: w <= BMAX && SkipsAt(lens, l, w)
  }

  // ----- what this means for the codewords -----

  /** Every codeword that starts with the first w bits of v has more than n bits. */
  ghost predicate OnlyLonger(lens: seq<nat>, w: nat, v: nat, n: nat) {
    forall x: nat :: Low(x, w) == Low(v, w) && Decode(lens, x).Some? ==> Decode(lens, x).value.len > n
  }

  lemma SlotWidth(w: nat, v: nat)
    requires w <= BMAX
    ensures End(w, v) == Start(w, v) + Pow2(BMAX - w)
  {
    ShlAdd(Rev(w, v), 1, BMAX - w);
    ShlOne(BMAX - w);
  }

  /** Only longer codewords start with a prefix exactly if the others end before it. */
  lemma OnlyLongerBehind(lens: seq<nat>, w: nat, v: nat, n: nat)
    requires Complete(lens) && w <= BMAX && n <= BMAX
    ensures OnlyLonger(lens, w, v, n) <==> Used(lens, n) <= Start(w, v)
  {
    hide Used, Pow2, Rev, Shl, DecodeFrom, SymAt, FirstCode, Count, Low, Start, End;
    if Used(lens, n) <= Start(w, v) {
      forall x: nat | Low(x, w) == Low(v, w) && Decode(lens, x).Some? ensures Decode(lens, x).value.len > n {
        StartLow(w, w, x);
        StartLow(w, w, v);
        WithinPrefix(w, x);
        DecodedSlot(lens, x);
        if Decode(lens, x).value.len <= n { UsedMono(lens, Decode(lens, x).value.len, n); }
      }
    } else {
      var x := FirstUnder(w, v);
      EndBound(w, v);
      var k := SlotOf(lens, Start(w, v), n);
      DecodeFromSlot(lens, x, k, 1);
      assert Decode(lens, x).value.len <= n;
    }
  }

  lemma WithinPrefix(w: nat, x: nat)
    requires w <= BMAX
    ensures Start(w, x) <= Rev(BMAX, x)
  {
    PrefixSlot(x, w);
  }

  /** The first input of BMAX bits under a prefix: the prefix and zeros. */
  lemma FirstUnder(w: nat, v: nat) returns (x: nat)
    requires w <= BMAX
    ensures Low(x, w) == Low(v, w) && Rev(BMAX, x) == Start(w, v)
  {
    hide Pow2, Rev, Shl, Low;
    EndBound(w, v);
    var y := Start(w, v);
    x := Rev(BMAX, y);
    RevRev(BMAX, y);
    LowSmall(y, BMAX);
    PrefixSlot(x, w);
    SameSlot(w, x, v, y);
  }

  lemma LastStart(w: nat, v: nat)
    requires w <= BMAX
    ensures Start(w, v) + Pow2(BMAX - w) <= Pow2(BMAX)
  {
    EndBound(w, v);
    SlotWidth(w, v);
  }

  /** The prefix of w ones. */
  lemma OnesPrefix(w: nat) returns (v: nat)
    requires w <= BMAX
    ensures Start(w, v) + Pow2(BMAX - w) == Pow2(BMAX)
  {
    hide Pow2, Rev, Shl, Low;
    v := Rev(w, Pow2(w) - 1);
    RevRev(w, Pow2(w) - 1);
    LowSmall(Pow2(w) - 1, w);
    SlotWidth(w, v);
    Pow2Add(w, BMAX - w);
  }

  /** A prefix of w bits, w a multiple of l and at least l, under which every codeword has more than w + l bits. */
  ghost predicate Gap(lens: seq<nat>, l: nat, w: nat, v: nat) {
    1 <= l <= w && OnGrid(l, w) && w + l <= BMAX && OnlyLonger(lens, w, v, w + l)
  }

  /** Some prefix that ends where a table ends has only codewords more than l bits longer: that is what is checked. */
  lemma SkipsIffGap(lens: seq<nat>, l: nat)
    requires Complete(lens) && ValidLengths(lens)
    ensures Skips(lens, l) <==> exists w: nat, v: nat :: Gap(lens, l, w, v)
  {
    hide Used, Pow2, Longest, OnGrid, OnlyLonger, Start, Complete;
    if Skips(lens, l) {
      var w: nat :| w <= BMAX && SkipsAt(lens, l, w);
      var v := OnesPrefix(w);
      OnlyLongerBehind(lens, w, v, w + l);
      assert Gap(lens, l, w, v);
    }
    if w: nat, v: nat :| Gap(lens, l, w, v) {
      OnlyLongerBehind(lens, w, v, w + l);
      LastStart(w, v);
      BelowLongest(lens, w + l, w);
      assert SkipsAt(lens, l, w);
    }
  }

  lemma BelowLongest(lens: seq<nat>, n: nat, w: nat)
    requires Complete(lens) && ValidLengths(lens) && n <= BMAX && w <= BMAX
    requires Used(lens, n) + Pow2(BMAX - w) <= Pow2(BMAX)
    ensures n < Longest(lens)
  {
    hide Used, Pow2;
    if n >= Longest(lens) {
      NoneLonger(lens, n);
      UsedFlat(lens, n, BMAX);
    }
  }

  lemma NoneLonger(lens: seq<nat>, n: nat)
    requires Longest(lens) <= n
    ensures forall k :: k > n ==> Count(lens, k) == 0
  {
    forall k | k > n ensures Count(lens, k) == 0 {
      if Count(lens, k) > 0 { var s := SymAt(lens, k, 0); }
    }
  }

  // ----- when a table of more than l bits is opened -----

  /** A first codeword too long for the table its prefix would get. */
  lemma TooLongSkips(ext: seq<nat>, k: nat, C: nat, i: nat, S: nat, w: nat, l: nat)
    requires Complete(ext) && ValidLengths(ext)
    requires PosAt(k, C, i, S) && C < Pow2(k) && FirstCode(ext, k) <= C
    requires 1 <= l <= w && OnGrid(l, w) && w + l < k && Shr(i, w) == 0
    ensures Skips(ext, l)
  {
    hide Used, Pow2, Longest, OnGrid, Shl, Rev, Shr, Low, FirstCode, Complete, Start;
    AtPrefixStart(k, C, i, S, w);
    LastStart(w, i);
    FirstCodePosition(ext, k);
    ShlMono(FirstCode(ext, k), C, BMAX - k);
    UsedMono(ext, w + l, k - 1);
    BelowLongest(ext, w + l, w);
    assert SkipsAt(ext, l, w);
  }

  // ----- codes that never skip -----

  /** How many codewords are longer than k. */
  function Longer(lens: seq<nat>, k: nat): nat
    decreases BMAX - k
  {
    if k >= BMAX then 0 else Count(lens, k + 1) + Longer(lens, k + 1)
  }

  lemma {:induction false} LongerIsRest(lens: seq<nat>, k: nat)
    requires k <= BMAX
    ensures Off(lens, k + 1) + Longer(lens, k) == Off(lens, BMAX + 1)
    decreases BMAX - k
  {
    hide Count;
    if k < BMAX { LongerIsRest(lens, k + 1); }
  }

  /** The codewords longer than k fill at most their number times what the shortest of them can. */
  lemma {:induction false} LongerFills(lens: seq<nat>, k: nat)
    requires k < BMAX
    ensures Used(lens, BMAX) <= Used(lens, k) + Shl(Longer(lens, k), BMAX - (k + 1))
    decreases BMAX - k
  {
    hide Count, Shl;
    ShlAdd(Count(lens, k + 1), Longer(lens, k + 1), BMAX - (k + 1));
    if k + 1 < BMAX {
      LongerFills(lens, k + 1);
      ShlStep(Longer(lens, k + 1), BMAX - (k + 2));
    }
  }

  lemma ShlStep(x: nat, n: nat)
    ensures Shl(x, n) <= Shl(x, n + 1)
  {}

  /** With fewer than 2^(l + 1) codewords no prefix can have so many longer ones. */
  lemma FewNeverSkip(lens: seq<nat>, l: nat)
    requires Complete(lens) && |lens| < Pow2(l + 1)
    ensures !Skips(lens, l)
  {
    hide Used, Pow2, Longest, Longer, Off, Shl;
    if w: nat :| w <= BMAX && SkipsAt(lens, l, w) {
      var n := w + l;
      AtMostAll(lens, n);
      if n < BMAX {
        LongerFills(lens, n);
        ShlMono(Longer(lens, n), Pow2(l + 1), BMAX - (n + 1));
        Pow2Add(l + 1, BMAX - (n + 1));
      }
    }
  }

  lemma AtMostAll(lens: seq<nat>, k: nat)
    requires k <= BMAX
    ensures Longer(lens, k) <= |lens|
  {
    LongerIsRest(lens, k);
    OffBound(lens, BMAX + 1);
  }

  /** A code that fits two tables never skips. */
  lemma ShortNeverSkips(lens: seq<nat>, l: nat)
    requires Longest(lens) <= 2 * l
    ensures !Skips(lens, l)
  {}
}
