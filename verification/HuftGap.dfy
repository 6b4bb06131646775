/** What goes wrong if huft_build has to skip a level: a table gets more than l bits, but the link out of it still takes
    l bits, and most of the table is never written. */
module HuftGap {
  import opened Bits
  import opened Canonical
  import opened CodeSpace
  import opened HuftTable
  import opened HuftStack
  import opened HuftSkip
  import opened HuftChain
  import opened HuftLedger
  import opened HuftOpen

  /** The space from `base` on holds zeros, as when it is new. */
  predicate Blank(T: seq<Huft>, base: nat) {
    forall c :: base <= c < |T| ==> T[c] == Huft(0, 0, 0)
  }

  /** The open table that starts behind w bits. */
  lemma {:induction false} TableBehind(e: Env, i: nat, s: Regs, sh: Shadow, w: nat, h: nat) returns (t: nat)
    requires 1 <= e.l && Stacked(e, i, s, sh) && h <= s.h && w <= sh.ws[h] && OnGrid(e.l, w)
    ensures t <= h && sh.ws[t] == w
    decreases h
  {
    hide OnGrid, Pow2;
    assert Level(e, i, s, sh, h);
    if w == sh.ws[h] {
      t := h;
    } else {
      assert Nests(e.l, s, sh, h - 1);
      if sh.ws[h] < w + e.l { GridGap(e.l, sh.ws[h], w); }
      t := TableBehind(e, i, s, sh, w, h - 1);
    }
  }

  /** The outermost table that is too large; the ones before it have l bits. */
  lemma {:induction false} FirstLarge(e: Env, i: nat, s: Regs, sh: Shadow, t: nat) returns (t0: nat)
    requires Stacked(e, i, s, sh) && t <= s.h && sh.js[t] > e.l
    ensures t0 <= t && sh.js[t0] > e.l
    ensures forall n {:trigger sh.js[n]} :: 0 <= n < t0 ==> sh.js[n] == e.l
    decreases t
  {
    hide Level, Pow2;
    t0 := t;
    if n: nat :| n < t && sh.js[n] > e.l {
      t0 := FirstLarge(e, i, s, sh, n);
    } else {
      forall n | 0 <= n < t ensures sh.js[n] == e.l { assert Nests(e.l, s, sh, n); }
    }
  }

  /** When the last codeword is placed, the prefix whose level was skipped is open, and its table is too large. */
  lemma LargeTable(e: Env, g: nat, k: nat, C: nat, i: nat, S: nat, s: Regs, sh: Shadow, T: seq<Huft>) returns (t: nat)
    requires e.Valid() && PosAt(k, C, i, S) && C + 1 == Pow2(k) && k <= s.w + e.l && s.h >= 0 && s.w <= BMAX
    requires Stacked(e, i, s, sh) && Chained(e, k, s, sh, T) && Skips(e.ext, e.l) && k == Longest(e.ext)
    ensures t <= s.h && sh.js[t] > e.l
  {
    hide Pow2, Shl, Shr, Low, Rev, Used, Longest, OnGrid, Complete, StackLink, Start, End, Nests;
    var w: nat :| w <= BMAX && SkipsAt(e.ext, e.l, w);
    t := TableBehind(e, i, s, sh, w, s.h);
    assert Level(e, i, s, sh, t) && Reaches(e, k, s, sh, T, t);
    InOwnPrefix(k, C, i, S, w);
    Pow2Add(k, BMAX - k);
    SlotWidth(w, s.x[t]);
  }

  /** An input whose codeword lies behind a position has a codeword longer than those that end before it. */
  lemma LongerBehind(lens: seq<nat>, v: nat, n: nat)
    requires n <= BMAX && Used(lens, n) <= Rev(BMAX, v) && Decode(lens, v).Some?
    ensures Decode(lens, v).value.len > n
  {
    hide Used, Rev, DecodeFrom;
    DecodedSlot(lens, v);
    if Decode(lens, v).value.len <= n { UsedMono(lens, Decode(lens, v).value.len, n); }
  }

  lemma ExtendedLength(lens: seq<nat>, g: nat, y: nat, v: nat)
    requires Decode(lens, v).Some? && g == Longest(lens)
    ensures Decode(Extend(lens, g, y), v).Some? && Decode(Extend(lens, g, y), v).value.len == Decode(lens, v).value.len
  {
    hide Extend, DecodeFrom, Longest, Matches;
    var s := Decode(lens, v).value.sym;
    DecodeFromSound(lens, v, 1);
    assert Matches(lens, s, v);
    KnownSymbol(lens, s, v);
    ExtendMatches(lens, g, y, s, v);
    MatchDecodes(Extend(lens, g, y), v, s);
    ExtendKeeps(lens, g, y, s);
  }

  lemma KnownSymbol(lens: seq<nat>, s: nat, v: nat)
    requires Matches(lens, s, v)
    ensures s < |lens|
  {}

  lemma ExtendKeeps(lens: seq<nat>, g: nat, y: nat, s: nat)
    requires s < |lens|
    ensures Extend(lens, g, y)[s] == lens[s]
  {}

  /** If a level is skipped and the space was new, then on some input the decoder arrives at an entry that was never
      written: the tables do not decode the code. */
  lemma Jams(e: Env, g: nat, y: nat, k: nat, C: nat, i: nat, S: nat, s: Regs, sh: Shadow, T: seq<Huft>)
    requires e.Valid() && PosAt(k, C, i, S) && C + 1 == Pow2(k) && k <= s.w + e.l && s.h >= 0 && s.w <= BMAX
    requires Stacked(e, i, s, sh) && Chained(e, k, s, sh, T) && Skips(e.ext, e.l) && k == g == Longest(e.ext)
    requires e.ext == Extend(e.tr.lens, g, y) && g == Longest(e.tr.lens) && Blank(e.init, e.base) && s.hn <= |T|
    ensures !Follows(T, s.u[0], e.l, e.tr)
  {
    hide Pow2, Shl, Shr, Low, Rev, Used, Longest, OnGrid, Complete, StackLink, Start, End, Skips, Follow, Extend,
      Decode, Beyond, PosAt;
    var t := LargeTable(e, g, k, C, i, S, s, sh, T);
    var t0 := FirstLarge(e, i, s, sh, t);
    assert Level(e, i, s, sh, t0) && Level(e, i, s, sh, 0) && Reaches(e, k, s, sh, T, t0) && Reaches(e, k, s, sh, T, 0);
    var v := Beyond(e, s, sh, t0);
    LevelsAscend(e, i, s, sh, 0, t0);
    FollowChain(e, k, i, s, sh, T, t0, 0);
    if Follows(T, s.u[0], e.l, e.tr) {
      assert FollowsOn(T, s.u[0], e.l, e.tr, v);
      ShrNone(v);
      if Decode(e.tr.lens, v).Some? {
        ExtendedLength(e.tr.lens, g, y, v);
        GapLength(e, i, s, sh, t0, k, T);
        assert false;
      }
    }
  }

  lemma ShrNone(x: nat)
    ensures Shr(x, 0) == x
  {}

  /** The codeword on that input is longer than the walk. */
  lemma GapLength(e: Env, i: nat, s: Regs, sh: Shadow, t: nat, k: nat, T: seq<Huft>)
    requires Stacked(e, i, s, sh) && Chained(e, k, s, sh, T) && t <= s.h && sh.js[t] > e.l && sh.ws[t] + e.l <= BMAX
    requires Decode(e.ext, Beyond(e, s, sh, t)).Some?
    ensures Decode(e.ext, Beyond(e, s, sh, t)).value.len > sh.ws[t]
  {
    hide Pow2, Shl, Shr, Low, Rev, Used, OnGrid, StackLink, Start, End, Decode, Beyond, Stacked;
    var v := Beyond(e, s, sh, t);
    assert Reaches(e, k, s, sh, T, t);
    BeyondStarts(e, i, s, sh, t);
    StartLow(sh.ws[t], sh.ws[t], v);
    WithinPrefix(sh.ws[t], v);
    LongerBehind(e.ext, v, sh.ws[t] + e.l);
  }
}
