/** Codewords as intervals of the 15-bit code space, and how reversed codewords step through it. */
module CodeSpace {
  import opened Bits
  import opened Canonical

  /** The inputs whose first n bits are pat fill the interval [Start, End). */
  function Start(n: nat, pat: nat): nat
    requires n <= BMAX
  {
    Shl(Rev(n, pat), BMAX - n)
  }

  function End(n: nat, pat: nat): nat
    requires n <= BMAX
  {
    Shl(Rev(n, pat) + 1, BMAX - n)
  }

  lemma Scale(x: nat, a: nat, b: nat, c: nat)
    requires a <= b <= BMAX && c == b - a
    ensures Shl(Shl(x, c), BMAX - b) == Shl(x, BMAX - a)
  {
    ShlShl(x, c, BMAX - b);
  }

  lemma ScaledSlot(p: nat, q: nat, k: nat, n: nat)
    requires k <= n <= BMAX
    requires Shl(p, n - k) <= q < Shl(p + 1, n - k)
    ensures Shl(p, BMAX - k) <= Shl(q, BMAX - n) < Shl(q + 1, BMAX - n) <= Shl(p + 1, BMAX - k)
  {
    hide Shl;
    Scale(p, k, n, n - k);
    Scale(p + 1, k, n, n - k);
    ShlMono(Shl(p, n - k), q, BMAX - n);
    ShlMono(q + 1, Shl(p + 1, n - k), BMAX - n);
    ShlMono(q, q + 1, BMAX - n);
  }

  lemma RevSlot(k: nat, n: nat, pat: nat)
    requires k <= n
    ensures Shl(Rev(k, pat), n - k) <= Rev(n, pat) < Shl(Rev(k, pat) + 1, n - k)
  {
    RevSplit(k, n - k, pat);
    RevBound(n - k, Shr(pat, k));
    ShlAdd(Rev(k, pat), 1, n - k);
    ShlOne(n - k);
  }

  /** A pattern of n bits lies inside that of its first k. */
  lemma Nested(k: nat, n: nat, pat: nat)
    requires k <= n <= BMAX
    ensures Start(k, pat) <= Start(n, pat) < End(n, pat) <= End(k, pat)
  {
    RevSlot(k, n, pat);
    ScaledSlot(Rev(k, pat), Rev(n, pat), k, n);
  }

  lemma StartLow(k: nat, n: nat, pat: nat)
    requires k <= n && k <= BMAX
    ensures Start(k, Low(pat, n)) == Start(k, pat) && End(k, Low(pat, n)) == End(k, pat)
  {
    RevLow(k, pat, n);
  }

  /** Two patterns of the same length overlap only if they are the same. */
  lemma SameSlot(n: nat, a: nat, b: nat, x: nat)
    requires n <= BMAX
    requires Start(n, a) <= x < End(n, a) && Start(n, b) <= x < End(n, b)
    ensures Low(a, n) == Low(b, n)
  {
    if Rev(n, a) < Rev(n, b) {
      ShlMono(Rev(n, a) + 1, Rev(n, b), BMAX - n);
    } else if Rev(n, b) < Rev(n, a) {
      ShlMono(Rev(n, b) + 1, Rev(n, a), BMAX - n);
    } else {
      RevInjective(n, a, b);
    }
  }

  lemma EndBound(n: nat, pat: nat)
    requires n <= BMAX
    ensures Start(n, pat) < End(n, pat) <= Pow2(BMAX)
  {
    hide Rev, Shl, Pow2;
    RevBound(n, pat);
    ShlMono(Rev(n, pat), Rev(n, pat) + 1, BMAX - n);
    ShlMono(Rev(n, pat) + 1, Pow2(n), BMAX - n);
    Pow2Add(n, BMAX - n);
  }

  lemma SlotEnd(P: nat, n: nat, k: nat, w: nat)
    requires w <= k <= BMAX && n == k - w
    ensures Shl(P + 1, BMAX - w) == Shl(Shl(P, n) + Pow2(n), BMAX - k)
  {
    ShlAdd(P, 1, n);
    ShlOne(n);
    Scale(P + 1, w, k, n);
  }

  // ----- how far a lookup looks -----

  /** The length of the longest codeword that starts with the first w bits of v, if it has at least k: codewords are
      assigned in order of length, so it is the first length whose codewords reach the end of the prefix. */
  function LongestUnder(lens: seq<nat>, w: nat, v: nat, k: nat): (g: nat)
    requires w <= BMAX && k <= BMAX
    ensures k <= g <= BMAX
    decreases BMAX - k
  {
    if k == BMAX || End(w, v) <= Used(lens, k) then k else LongestUnder(lens, w, v, k + 1)
  }

  /** The bits a table for the first w bits of v takes, when tables take l bits: no more than the longest codeword
      there needs. */
  function TableSize(lens: seq<nat>, l: nat, w: nat, v: nat): (j: nat)
    requires w <= BMAX
    ensures j <= l
  {
    if w == 0 then l
    else
      var j := LongestUnder(lens, w, v, w) - w;
      if j < l then j else l
  }

  /** How many bits of v have been looked at once a codeword of len bits is found by lookups of l bits each, the
      first w bits being consumed already: the last lookup starts at the last multiple of l below len. */
  function Lookahead(lens: seq<nat>, l: nat, v: nat, len: nat, w: nat): (a: nat)
    requires w <= BMAX && len <= BMAX
    ensures w < len && l > 0 ==> a < len + l
    decreases len - w
  {
    if len <= w + l || l == 0 then w + TableSize(lens, l, w, v)
    else Lookahead(lens, l, v, len, w + l)
  }

  lemma LongestUnderLow(lens: seq<nat>, w: nat, v: nat, k: nat)
    requires w <= BMAX && k <= BMAX
    ensures LongestUnder(lens, w, Low(v, w), k) == LongestUnder(lens, w, v, k)
    decreases BMAX - k
  {
    StartLow(w, w, v);
    if k < BMAX { LongestUnderLow(lens, w, v, k + 1); }
  }

  lemma LongestUnderIs(lens: seq<nat>, w: nat, v: nat, k: nat, g: nat)
    requires w <= BMAX && k <= g <= BMAX
    requires g == k || Used(lens, g - 1) < End(w, v)
    ensures LongestUnder(lens, w, v, k) >= g
    ensures End(w, v) <= Used(lens, g) ==> LongestUnder(lens, w, v, k) == g
    decreases g - k
  {
    if k < g {
      UsedMono(lens, k, g - 1);
      LongestUnderIs(lens, w, v, k + 1, g);
    }
  }

  /** Under a prefix of a complete code no codeword is longer, and some codeword is as long. */
  lemma LongestUnderMeans(lens: seq<nat>, w: nat, v: nat) returns (v': nat)
    requires Complete(lens) && w <= BMAX && Used(lens, w) < End(w, v)
    ensures forall x: nat :: Low(x, w) == Low(v, w) && Decode(lens, x).Some? ==>
              Decode(lens, x).value.len <= LongestUnder(lens, w, v, w)
    ensures Low(v', w) == Low(v, w) && Decode(lens, v').Some?
    ensures Decode(lens, v').value.len == LongestUnder(lens, w, v, w)
  {
    hide Used, Pow2, Rev, DecodeFrom, SymAt, FirstCode, Count, Shl;
    var g := LongestUnder(lens, w, v, w);
    ReachesEnd(lens, w, v, w);
    forall x: nat | Low(x, w) == Low(v, w) && Decode(lens, x).Some? ensures Decode(lens, x).value.len <= g {
      var c := Decode(lens, x).value;
      StartLow(w, w, x);
      StartLow(w, w, v);
      PrefixSlot(x, w);
      DecodedSlot(lens, x);
      if c.len > g { UsedMono(lens, g, c.len - 1); }
    }
    v' := LastUnder(w, v);
    DecodeFromSlot(lens, v', g, 1);
  }

  /** Where a decoded input lies among the partial Kraft sums. */
  lemma DecodedSlot(lens: seq<nat>, x: nat)
    requires Decode(lens, x).Some?
    ensures var k := Decode(lens, x).value.len; Used(lens, k - 1) <= Rev(BMAX, x) < Used(lens, k)
  {
    var c := Decode(lens, x).value;
    DecodeFromSound(lens, x, 1);
    SymAtRank(lens, c.sym);
    InSlot(lens, x, c.len);
  }

  /** A codeword that is found has been looked at whole. */
  lemma LookaheadCovers(lens: seq<nat>, l: nat, v: nat, w: nat)
    requires Decode(lens, v).Some? && w < Decode(lens, v).value.len && l >= 1
    ensures Decode(lens, v).value.len <= Lookahead(lens, l, v, Decode(lens, v).value.len, w)
    decreases Decode(lens, v).value.len - w
  {
    hide Used, Rev, Shl, DecodeFrom, Start;
    var len := Decode(lens, v).value.len;
    if w + l < len {
      LookaheadCovers(lens, l, v, w + l);
    } else if w > 0 {
      DecodedSlot(lens, v);
      PrefixEnd(w, v);
      LongestUnderIs(lens, w, v, w, len);
    }
  }

  lemma PrefixEnd(w: nat, v: nat)
    requires w <= BMAX
    ensures Rev(BMAX, v) < End(w, v)
  {
    PrefixSlot(v, w);
  }

  lemma ReachesEnd(lens: seq<nat>, w: nat, v: nat, k: nat)
    requires Complete(lens) && w <= k <= BMAX && Used(lens, if k == w then w else k - 1) < End(w, v)
    ensures var g := LongestUnder(lens, w, v, k); End(w, v) <= Used(lens, g) && g >= 1 && Used(lens, g - 1) < End(w, v)
    decreases BMAX - k
  {
    hide Used, Pow2, Shl, Rev;
    EndBound(w, v);
    if k < BMAX && Used(lens, k) < End(w, v) { ReachesEnd(lens, w, v, k + 1); }
  }

  /** The input of BMAX bits that is last under a prefix: the prefix and ones. */
  lemma LastUnder(w: nat, v: nat) returns (x: nat)
    requires w <= BMAX
    ensures Low(x, w) == Low(v, w) && Rev(BMAX, x) + 1 == End(w, v)
  {
    hide Pow2, Rev, Shl;
    EndBound(w, v);
    var y := End(w, v) - 1;
    x := Rev(BMAX, y);
    RevRev(BMAX, y);
    LowSmall(y, BMAX);
    PrefixSlot(x, w);
    SameSlot(w, x, v, y);
  }

  // ----- counting in reversed order -----

  /** i & j, for a single-bit j (or none). */
  predicate HasBit(i: nat, j: nat) {
    j > 0 && i / j % 2 == 1
  }

  /** i ^ j, for a single-bit j (or none). */
  function Flip(i: nat, j: nat): nat {
    if HasBit(i, j) then if i >= j then i - j else 0 else i + j
  }

  lemma TopBit(i: nat, j: nat)
    requires i < 2 * j
    ensures HasBit(i, j) <==> i >= j
  {
    if i >= j {
      QuotientUnique(i, j, 1, i - j);
    } else {
      QuotientUnique(i, j, 0, i);
    }
  }

  /** The k-bit number after i when bits are read from the low end, wrapping to zero. */
  function RevInc(k: nat, i: nat): nat
    requires i < Pow2(k)
  {
    if k == 0 then 0
    else if i >= Pow2(k - 1) then RevInc(k - 1, i - Pow2(k - 1))
    else i + Pow2(k - 1)
  }

  lemma TopSplit(k: nat, i: nat)
    requires k >= 1 && i < Pow2(k)
    ensures var b := if i >= Pow2(k - 1) then 1 else 0;
            Rev(k, i) == 2 * Rev(k - 1, i) + b && Rev(k - 1, i) == Rev(k - 1, i - b * Pow2(k - 1))
  {
    var b := if i >= Pow2(k - 1) then 1 else 0;
    var lo: nat := i - b * Pow2(k - 1);
    ShlOne(k - 1);
    Compose(lo, b, k - 1);
    assert i == lo + Shl(b, k - 1);
    RevSplit(k - 1, 1, i);
    RevLow(k - 1, i, k - 1);
    RevLow(k - 1, lo, k - 1);
    LowSmall(lo, k - 1);
    assert Rev(1, b) == b;
    assert Shl(Rev(k - 1, i), 1) == 2 * Rev(k - 1, i);
  }

  lemma RevNone(x: nat)
    ensures Rev(0, x) == 0
  {}

  lemma {:induction false} RevIncCounts(k: nat, i: nat)
    requires i < Pow2(k)
    ensures RevInc(k, i) < Pow2(k)
    ensures Rev(k, i) + 1 < Pow2(k) ==> Rev(k, RevInc(k, i)) == Rev(k, i) + 1
    ensures Rev(k, i) + 1 >= Pow2(k) ==> RevInc(k, i) == 0
  {
    hide Rev, Shl;
    RevBound(k, i);
    if k == 0 {
      RevNone(i);
    } else {
      TopSplit(k, i);
      if i >= Pow2(k - 1) {
        var i' := i - Pow2(k - 1);
        RevIncCounts(k - 1, i');
        TopSplit(k, RevInc(k, i));
      } else {
        TopSplit(k, i + Pow2(k - 1));
      }
    }
  }

  /** Counting changes either none of the first w bits, or leaves nothing above them. */
  lemma {:induction false} RevIncPrefix(k: nat, i: nat, w: nat)
    requires i < Pow2(k)
    ensures Low(RevInc(k, i), w) == Low(i, w) || Shr(RevInc(k, i), w) == 0
  {
    RevIncCounts(k, i);
    if w >= k {
      Pow2Mono(k, w);
      LowSmall(RevInc(k, i), w);
    } else if i >= Pow2(k - 1) {
      var i' := i - Pow2(k - 1);
      ShlOne(k - 1);
      LowAbove(i', k - 1, w);
      RevIncPrefix(k - 1, i', w);
    } else {
      LowAbove(i, k - 1, w);
    }
  }

  lemma LowAbove(i: nat, k: nat, w: nat)
    requires i < Pow2(k) && w <= k
    ensures Low(i + Pow2(k), w) == Low(i, w)
  {
    ShlOne(k);
    Compose(i, 1, k);
    LowLow(i + Pow2(k), w, k);
  }

  /** The source's loop: clear trailing ones from the top down, then set the next bit. */
  method BackwardIncrement(k: nat, i: nat) returns (r: nat)
    requires 1 <= k && i < Pow2(k)
    ensures r == RevInc(k, i)
  {
    r := i;
    var j := Pow2(k - 1);
    ghost var t: nat := k;
    while HasBit(r, j)
      invariant t <= k && r < Pow2(t)
      invariant j == if t == 0 then 0 else Pow2(t - 1)
      invariant RevInc(t, r) == RevInc(k, i)
      decreases j
    {
      TopBit(r, j);
      r := Flip(r, j);
      j := j / 2;
      t := t - 1;
    }
    if j > 0 { TopBit(r, j); }
    r := Flip(r, j);
  }
}
