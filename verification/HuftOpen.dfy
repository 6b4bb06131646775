/** Opening a table in huft_build: completing the code with dummies, sizing the table and linking it in. */
module HuftOpen {
  import opened Bits
  import opened Wrappers
  import opened Canonical
  import opened CodeSpace
  import opened HuftTable
  import opened HuftSort
  import opened HuftStack
  import opened HuftSkip
  import opened HuftChain
  import opened HuftAdvance
  import opened HuftLedger
  import opened HuftSpace

  const MANY: nat := 1440

  // ----- filling out the code with dummy symbols -----

  /** The code completed by y symbols of length g that stand for nothing. */
  function Extend(lens: seq<nat>, g: nat, y: nat): seq<nat> {
    lens + seq(y, _ => g)
  }

  lemma ExtendStep(lens: seq<nat>, g: nat, y: nat)
    requires y > 0
    ensures var x := Extend(lens, g, y); |x| == |lens| + y && x[|x| - 1] == g && x[..|x| - 1] == Extend(lens, g, y - 1)
  {}

  lemma ExtendCount(lens: seq<nat>, g: nat, y: nat, k: nat)
    ensures Count(Extend(lens, g, y), k) == Count(lens, k) + (if k == g then y else 0)
  {
    if y == 0 {
      assert Extend(lens, g, y) == lens;
    } else {
      ExtendStep(lens, g, y);
      ExtendCount(lens, g, y - 1, k);
    }
  }

  lemma ExtendFirst(lens: seq<nat>, g: nat, y: nat, k: nat)
    requires k <= g
    ensures FirstCode(Extend(lens, g, y), k) == FirstCode(lens, k)
  {
    hide Extend, Count;
    if k > 1 {
      ExtendFirst(lens, g, y, k - 1);
      ExtendCount(lens, g, y, k - 1);
    }
  }

  lemma ExtendUsed(lens: seq<nat>, g: nat, y: nat, k: nat)
    requires k <= BMAX && 1 <= g
    ensures Used(Extend(lens, g, y), k) == Used(lens, k) + (if k >= g then Shl(y, BMAX - g) else 0)
  {
    hide Extend, Shl, Count;
    if k > 0 {
      ExtendUsed(lens, g, y, k - 1);
      ExtendCount(lens, g, y, k);
      if k == g { ShlAdd(Count(lens, g), y, BMAX - g); }
    }
  }

  lemma ExtendMatches(lens: seq<nat>, g: nat, y: nat, s: nat, v: nat)
    requires s < |lens| && lens[s] <= g
    ensures Matches(Extend(lens, g, y), s, v) == Matches(lens, s, v)
  {
    assert Extend(lens, g, y)[..s] == lens[..s];
    ExtendFirst(lens, g, y, lens[s]);
  }

  /** Decoding with the completed code is decoding with the code itself, dummies being no symbol. */
  lemma ExtendDecode(tr: Tree, g: nat, y: nat, k: nat, v: nat, en: Huft)
    requires tr.Valid() && g == Longest(tr.lens) <= BMAX
    requires LeafCode(tr, Extend(tr.lens, g, y), k, v, en)
    ensures match Decode(tr.lens, v)
            case Some(c) => k == c.len && LeafIs(tr, c.sym, en)
            case None => en.exop == INVALID_OP && k == g
  {
    hide Decode, FirstCode, Count, Rev, SymAt, Longest;
    var lens, ext := tr.lens, Extend(tr.lens, g, y);
    var s := SymAt(ext, k, Rev(k, v) - FirstCode(ext, k));
    assert Matches(ext, s, v);
    if s < |lens| {
      ExtendMatches(lens, g, y, s, v);
      MatchDecodes(lens, v, s);
    } else {
      assert ext[s] == g;
      DummyDecode(lens, g, y, s, v);
    }
  }

  lemma DummyDecode(lens: seq<nat>, g: nat, y: nat, s: nat, v: nat)
    requires g == Longest(lens) && s >= |lens| && Matches(Extend(lens, g, y), s, v)
    ensures Decode(lens, v) == None
  {
    hide Extend, FirstCode, Count, Rev, SymAt, DecodeFrom, Longest;
    MatchDecodes(Extend(lens, g, y), v, s);
    if Decode(lens, v).Some? {
      var t := Decode(lens, v).value.sym;
      DecodeFromSound(lens, v, 1);
      ExtendMatches(lens, g, y, t, v);
      MatchDecodes(Extend(lens, g, y), v, t);
    }
  }

  lemma CodesFit(ext: seq<nat>, k: nat)
    requires Complete(ext) && 1 <= k <= BMAX
    ensures FirstCode(ext, k) + Count(ext, k) <= Pow2(k)
  {
    hide Pow2, Shl, Used, FirstCode, Count;
    var x := FirstCode(ext, k) + Count(ext, k);
    FirstCodePosition(ext, k);
    UsedMono(ext, k, BMAX);
    Pow2Add(k, BMAX - k);
    if x > Pow2(k) { ShlMono(Pow2(k), x, BMAX - k); }
  }

  // ----- the size of a new table -----

  lemma GrowStep(ext: seq<nat>, f: nat, n: nat, end: nat)
    requires 1 <= n <= BMAX && Used(ext, n - 1) + Shl(f, BMAX - (n - 1)) == end
    ensures 2 * f <= Count(ext, n) ==> end <= Used(ext, n)
    ensures 2 * f > Count(ext, n) ==> Used(ext, n) + Shl(2 * f - Count(ext, n), BMAX - n) == end
  {
    hide Shl, Count;
    DoubleShl(f, BMAX - n);
    if 2 * f <= Count(ext, n) {
      ShlMono(2 * f, Count(ext, n), BMAX - n);
    } else {
      ShlAdd(2 * f - Count(ext, n), Count(ext, n), BMAX - n);
    }
  }

  lemma SomeLeft(u: nat, f: nat, n: nat, end: nat)
    requires u + Shl(f, n) == end && f > 0
    ensures u < end
  {
    ShlMono(0, f, n);
    ShlOne(n);
  }

  /** Tries larger tables, up to z bits, until the longer codes use up the f patterns left over. */
  method GrowBits(ghost ext: seq<nat>, c: seq<nat>, w: nat, j0: nat, z: nat, f0: nat, ghost end: nat) returns (j: nat)
    requires Counts(ext, c) && j0 < z && w + z <= BMAX && f0 > 0
    requires Used(ext, w + j0) + Shl(f0, BMAX - (w + j0)) == end
    ensures j0 < j <= z && Used(ext, w + j - 1) < end
    ensures j == z || end <= Used(ext, w + j)
  {
    hide Used, Shl, Count;
    var f := f0;
    j := j0 + 1;
    while j < z
      invariant j0 < j <= z && f > 0
      invariant Used(ext, w + j - 1) + Shl(f, BMAX - (w + j - 1)) == end
    {
      GrowStep(ext, f, w + j, end);
      if 2 * f <= c[w + j] { break; }
      f := 2 * f - c[w + j];
      j := j + 1;
    }
    SomeLeft(Used(ext, w + j - 1), f, BMAX - (w + j - 1), end);
  }

  lemma PatternsLeft(ext: seq<nat>, k: nat, w: nat, j: nat, a: nat, P: nat, end: nat)
    requires 1 <= k <= BMAX && w + j == k && end == Shl(P + 1, BMAX - w)
    requires Shl(P, j) + a + 1 == FirstCode(ext, k) + Count(ext, k)
    ensures Pow2(j) <= a + 1 ==> end <= Used(ext, w + j)
    ensures Pow2(j) > a + 1 ==> Used(ext, w + j) + Shl(Pow2(j) - (a + 1), BMAX - (w + j)) == end
  {
    hide Used, FirstCode, Count;
    var f, x := Pow2(j), Shl(P, j) + a + 1;
    SlotEnd(P, j, k, w);
    FirstCodePosition(ext, k);
    hide Shl, Pow2;
    if f <= a + 1 {
      ShlMono(Shl(P, j) + f, x, BMAX - k);
    } else {
      ShlAdd(x, f - (a + 1), BMAX - k);
    }
  }

  /** The codes before those of length k end before the prefix does. */
  lemma StillOpen(ext: seq<nat>, k: nat, w: nat, P: nat, end: nat)
    requires 1 <= k <= BMAX && w <= k && end == Shl(P + 1, BMAX - w) && FirstCode(ext, k) <= Shl(P, k - w)
    ensures Used(ext, k - 1) < end
  {
    hide Used, FirstCode, Count, Shl, Pow2;
    FirstCodePosition(ext, k);
    ShlMono(FirstCode(ext, k), Shl(P, k - w), BMAX - k);
    Scale(P, w, k, k - w);
    ShlMono(P, P + 1, BMAX - w);
  }

  /** How many bits the table for the prefix P of w bits takes: enough for its codes and no more, or l if they go on;
      or, if the first code is further than l bits away, enough for that one. */
  method TableBits(ghost ext: seq<nat>, c: seq<nat>, k: nat, g: nat, l: nat, w: nat, a: nat,
      ghost P: nat, ghost end: nat) returns (j: nat)
    requires 1 <= k <= g <= BMAX && 1 <= l && w < k
    requires Counts(ext, c) && Used(ext, g) == Pow2(BMAX) && P < Pow2(w) && FirstCode(ext, k) <= Shl(P, k - w)
    requires Shl(P, k - w) + a + 1 == FirstCode(ext, k) + Count(ext, k) && end == Shl(P + 1, BMAX - w)
    ensures 1 <= j && w + j <= g
    ensures k - w > l ==> j == k - w
    ensures k - w <= l ==> j <= l && Used(ext, w + j - 1) < end && (j == l || end <= Used(ext, w + j))
  {
    hide Used, Count, FirstCode, Shl, Pow2, Counts;
    EndBoundOf(P, w);
    StillOpen(ext, k, w, P, end);
    var z := g - w;
    z := if z > l then l else z;
    j := k - w;
    var f := Pow2(j);
    PatternsLeft(ext, k, w, j, a, P, end);
    if f > a + 1 {
      f := f - (a + 1);
      if j < z {
        j := GrowBits(ext, c, w, j, z, f, end);
      }
      assert j == g - w ==> w + j == g;
    }
  }

  lemma EndBoundOf(P: nat, w: nat)
    requires w <= BMAX && P < Pow2(w)
    ensures Shl(P + 1, BMAX - w) <= Pow2(BMAX)
  {
    hide Pow2, Shl;
    ShlMono(P + 1, Pow2(w), BMAX - w);
    Pow2Add(w, BMAX - w);
  }

  // ----- the table loop -----

  /** What holds before and after each codeword, and while the tables for it are being prepared. As long as no table had
      to be made too large, every entry is right and the tables keep within their total. */
  ghost predicate AtCode(e: Env, g: nat, k: nat, C: nat, i: nat, S: nat, s: Regs, sh: Shadow, T: seq<Huft>) {
    && e.Valid() && PosAt(k, C, i, S) && k <= g <= BMAX
    && FirstCode(e.ext, k) <= C <= FirstCode(e.ext, k) + Count(e.ext, k)
    && Stacked(e, i, s, sh) && Top(e, k, i, s, sh) && e.base <= s.hn <= |T|
    && (s.h < 0 ==> k <= e.l)
    && Chained(e, k, s, sh, T) && Exact(e, g, S, s.hn, s.w)
    && (if sh.skip then Skips(e.ext, e.l)
        else Celled(e, S, s, sh, T) && Budgeted(e, g, k, CodesFrom(e.ext, k, C), s, sh))
  }

  /** There is no space for the tables: they take more entries than there are. If no level has to be skipped, that means
      that the total is not there. */
  predicate NoSpace(e: Env, g: nat)
    requires g <= BMAX
  {
    e.base + EntriesFrom(e.ext, e.l, g, 0) > MANY && (Skips(e.ext, e.l) || e.base + e.total > MANY)
  }

  lemma LinkIndex(i: nat, w: nat, l: nat)
    requires Shr(i, w + l) == 0
    ensures Shr(i, w) < Pow2(l)
  {
    hide Pow2, Low, Shr;
    ShrZeroBound(i, w + l);
    LowSmall(i, w + l);
    ShrLow(i, w, l);
    LowBound(Shr(i, w), l);
  }

  /** When a table is to be opened, the current one is full size, and the codeword is the first under its prefix. */
  lemma ReadyToOpen(e: Env, g: nat, k: nat, C: nat, i: nat, S: nat, s: Regs, sh: Shadow, T: seq<Huft>)
    requires AtCode(e, g, k, C, i, S, s, sh, T) && C < Pow2(k) && k > s.w + e.l
    ensures s.h < BMAX - 1 && 0 <= s.w + e.l && OnGrid(e.l, s.w + e.l)
    ensures s.h >= 0 ==>
              && sh.js[s.h] >= e.l && s.w == sh.ws[s.h] >= 0 && Shr(i, s.w) < Pow2(e.l)
              && e.base <= s.u[s.h] && s.u[s.h] + Shr(i, s.w) < s.u[s.h] + Pow2(e.l) <= s.hn
    ensures s.h < 0 ==> s.w + e.l == 0 && k <= e.l
    ensures C == Shl(Rev(s.w + e.l, i), k - (s.w + e.l)) && Rev(s.w + e.l, i) < Pow2(s.w + e.l)
    ensures Start(s.w + e.l, i) == S && Shr(i, s.w + e.l) == 0
  {
    hide Pow2, Shl, Rev, Shr, Low, Used, FirstCode, Count, Complete, Celled, Budgeted, Chained, Skips, Exact, End;
    AtPrefixStart(k, C, i, S, s.w + e.l);
    RevBound(s.w + e.l, i);
    if s.h >= 0 {
      assert Level(e, i, s, sh, s.h);
      ParentFull(e, k, C, i, S, s, sh);
      LinkIndex(i, s.w, e.l);
      Pow2Mono(e.l, sh.js[s.h]);
    }
  }

  lemma OpenedTop(e: Env, k: nat, i: nat, j: nat, s: Regs, sh: Shadow, led: Ledger)
    requires Shaped(e, s, sh) && s.h < BMAX - 1 && 0 <= s.w + e.l < k && Shr(i, s.w + e.l) == 0
    requires 1 <= j && s.w + e.l + j <= BMAX
    requires j >= e.l || End(s.w + e.l, i) <= Used(e.ext, s.w + e.l + j)
    ensures Shaped(e, OpenedRegs(i, j, e.l, s), OpenedShadow(e, i, j, s, sh, led))
    ensures Top(e, k, i, OpenedRegs(i, j, e.l, s), OpenedShadow(e, i, j, s, sh, led))
  {
    hide Pow2, NewCells, End, Used;
    ShrShr(i, s.w + e.l, e.l);
    ShrOfZero(e.l);
  }

  lemma ShrOfZero(n: nat)
    ensures Shr(0, n) == 0
  {}

  /** The size of the table for the first codeword under a prefix of w bits. */
  predicate SizeOK(e: Env, k: nat, i: nat, w: nat, j: nat) {
    if k - w <= e.l then Sized(e.ext, e.l, w, i, j) else j == k - w
  }

  lemma CodeReaches(e: Env, k: nat, C: nat, S: nat, w: nat)
    requires 1 <= k <= BMAX && w < k <= w + e.l && S == Shl(C, BMAX - k)
    requires C < FirstCode(e.ext, k) + Count(e.ext, k)
    ensures S < Used(e.ext, TableEnd(e.l, w))
  {
    hide Shl, Used, FirstCode, Count;
    FirstCodePosition(e.ext, k);
    ShlMono(C, FirstCode(e.ext, k) + Count(e.ext, k), BMAX - k);
    UsedMono(e.ext, k, TableEnd(e.l, w));
  }

  lemma OpenKeepsChain(e: Env, g: nat, k: nat, C: nat, i: nat, S: nat, j: nat, s: Regs, sh: Shadow, led: Ledger,
      T: seq<Huft>, r: Huft, T': seq<Huft>)
    requires AtCode(e, g, k, C, i, S, s, sh, T) && C < Pow2(k) && C < FirstCode(e.ext, k) + Count(e.ext, k)
    requires k > s.w + e.l && s.h < BMAX - 1 && 0 <= s.w + e.l && SizeOK(e, k, i, s.w + e.l, j)
    requires s.hn + Pow2(j) <= |T| && Connects(e, i, j, s, sh, T, r, T')
    ensures Stacked(e, i, OpenedRegs(i, j, e.l, s), OpenedShadow(e, i, j, s, sh, led))
    ensures Top(e, k, i, OpenedRegs(i, j, e.l, s), OpenedShadow(e, i, j, s, sh, led))
    ensures Chained(e, k, OpenedRegs(i, j, e.l, s), OpenedShadow(e, i, j, s, sh, led), T')
  {
    hide Pow2, Shl, Rev, Shr, Low, Used, FirstCode, Count, Complete, Celled, Budgeted, Chained, Skips, Exact, End,
      Start, Connects, NewCells, Level, Nests, OnGrid, TableEnd, CodesFrom;
    ReadyToOpen(e, g, k, C, i, S, s, sh, T);
    OpenStacked(e, i, j, s, sh, led);
    OpenedTop(e, k, i, j, s, sh, led);
    if k - (s.w + e.l) <= e.l {
      CodeReaches(e, k, C, S, s.w + e.l);
    } else {
      BeforeCode(e.ext, k, C);
      UsedMono(e.ext, s.w + e.l + e.l, k - 1);
    }
    OpenChained(e, k, i, j, s, sh, led, T, r, T');
  }

  /** The new table takes the entries it must. */
  lemma OpenExact(e: Env, g: nat, k: nat, C: nat, i: nat, S: nat, j: nat, s: Regs, sh: Shadow, T: seq<Huft>)
    requires AtCode(e, g, k, C, i, S, s, sh, T) && C < Pow2(k) && C < FirstCode(e.ext, k) + Count(e.ext, k)
    requires k > s.w + e.l && 0 <= s.w + e.l && s.w + e.l + j <= g && SizeOK(e, k, i, s.w + e.l, j)
    ensures Exact(e, g, S, s.hn + Pow2(j), s.w + e.l)
    ensures s.hn + Pow2(j) <= e.base + EntriesFrom(e.ext, e.l, g, 0)
  {
    hide Pow2, Shl, Rev, Shr, Low, Used, FirstCode, Count, Complete, Celled, Budgeted, Chained, Skips, OnGrid, Stacked,
      Top, Starts, Opened, EntriesAt, EntriesFrom, CodesFrom;
    var w := s.w + e.l;
    ReadyToOpen(e, g, k, C, i, S, s, sh, T);
    SlotWidth(w, i);
    EndBound(w, i);
    StartsThere(w, Rev(w, i));
    SizedEntries(e.ext, e.l, g, k, C, w, S, j);
    OpenedOne(e.ext, e.l, g, 0, S, w);
    OpenedWithin(e.ext, e.l, g, 0, S, w);
  }

  lemma OpenKeeps(e: Env, g: nat, k: nat, C: nat, i: nat, S: nat, j: nat, s: Regs, sh: Shadow, led: Ledger,
      T: seq<Huft>, r: Huft, T': seq<Huft>)
    requires AtCode(e, g, k, C, i, S, s, sh, T) && C < Pow2(k) && C < FirstCode(e.ext, k) + Count(e.ext, k)
    requires k > s.w + e.l && s.h < BMAX - 1 && 0 <= s.w + e.l && SizeOK(e, k, i, s.w + e.l, j)
    requires s.hn + Pow2(j) <= |T| && Connects(e, i, j, s, sh, T, r, T')
    requires !sh.skip && k - (s.w + e.l) <= e.l ==> Settled(e, i, j, s.w + e.l, sh.led, led)
    requires s.w + e.l + j <= g
    ensures AtCode(e, g, k, C, i, S, OpenedRegs(i, j, e.l, s), OpenedShadow(e, i, j, s, sh, led), T')
  {
    hide Pow2, Shl, Rev, Shr, Low, Used, FirstCode, Count, Complete, Celled, Budgeted, Chained, Skips, Exact, End,
      Start, Connects, NewCells, Level, Nests, OnGrid, TableEnd, CodesFrom, Top, PosAt, Settled;
    ReadyToOpen(e, g, k, C, i, S, s, sh, T);
    ConnectsLength(e, i, j, s, sh, T, r, T');
    OpenKeepsChain(e, g, k, C, i, S, j, s, sh, led, T, r, T');
    OpenExact(e, g, k, C, i, S, j, s, sh, T);
    if k - (s.w + e.l) > e.l {
      TooLongSkips(e.ext, k, C, i, S, s.w + e.l, e.l);
    } else if !sh.skip {
      OpenCelled(e, k, C, i, S, j, s, sh, led, T, r, T');
      OpenBudgeted(e, g, i, j, k, CodesFrom(e.ext, k, C), s, sh, led);
    }
  }

  /** The tables with the entry that leads to the current codeword's new table filled in, if there is one. */
  function Connected(i: nat, j: nat, l: nat, s: Regs, T: seq<Huft>): (T': seq<Huft>)
    requires |s.u| == BMAX && s.h < BMAX && (s.h >= 0 ==> s.w >= 0 && s.u[s.h] + Shr(i, s.w) < s.hn <= |T|)
    ensures |T'| == |T|
  {
    if s.h < 0 then T
    else
      var x := s.u[s.h] + Shr(i, s.w);
      T[x := Huft(j, l, s.hn - x)]
  }

  function LinkEntry(i: nat, j: nat, l: nat, s: Regs, r: Huft): Huft
    requires |s.u| == BMAX && s.h < BMAX && (s.h >= 0 ==> s.w >= 0 && s.u[s.h] + Shr(i, s.w) < s.hn)
  {
    if s.h < 0 then r else Huft(j, l, s.hn - (s.u[s.h] + Shr(i, s.w)))
  }

  lemma OpenKeepsConnected(e: Env, g: nat, k: nat, C: nat, i: nat, S: nat, j: nat, s: Regs, sh: Shadow, led: Ledger,
      T: seq<Huft>)
    requires AtCode(e, g, k, C, i, S, s, sh, T) && C < Pow2(k) && C < FirstCode(e.ext, k) + Count(e.ext, k)
    requires k > s.w + e.l && 0 <= s.w + e.l && SizeOK(e, k, i, s.w + e.l, j) && s.hn + Pow2(j) <= |T|
    requires !sh.skip && k - (s.w + e.l) <= e.l ==> Settled(e, i, j, s.w + e.l, sh.led, led)
    requires s.w + e.l + j <= g
    ensures s.h < BMAX - 1 && (s.h >= 0 ==> s.w >= 0 && e.base <= s.u[s.h] && s.u[s.h] + Shr(i, s.w) < s.hn)
    ensures AtCode(e, g, k, C, i, S, OpenedRegs(i, j, e.l, s), OpenedShadow(e, i, j, s, sh, led),
                   Connected(i, j, e.l, s, T))
    ensures Connected(i, j, e.l, s, T)[..e.base] == T[..e.base]
  {
    hide Pow2, Shl, Rev, Shr, Low, Used, FirstCode, Count, Complete, Celled, Budgeted, Chained, Skips, Exact, End,
      Start, NewCells, Level, Nests, OnGrid, TableEnd, CodesFrom, Top, PosAt, Settled, SizeOK;
    ReadyToOpen(e, g, k, C, i, S, s, sh, T);
    var r := LinkEntry(i, j, e.l, s, Huft(0, 0, 0));
    assert Connects(e, i, j, s, sh, T, r, Connected(i, j, e.l, s, T));
    OpenKeeps(e, g, k, C, i, S, j, s, sh, led, T, r, Connected(i, j, e.l, s, T));
  }

  /** Allocates a table of j bits and connects it to the one above. */
  method Allocate(i: nat, j: nat, l: nat, w: nat, s: Regs, r: Huft, hp: array<Huft>) returns (s': Regs, r': Huft)
    requires |s.x| == BMAX + 1 && |s.u| == BMAX && -1 <= s.h < BMAX - 1 && w == s.w + l
    requires s.h >= 0 ==> s.w >= 0 && s.u[s.h] + Shr(i, s.w) < s.hn <= hp.Length
    modifies hp
    ensures s' == OpenedRegs(i, j, l, s) && r' == LinkEntry(i, j, l, s, r)
    ensures hp[..] == Connected(i, j, l, s, old(hp[..]))
  {
    r' := r;
    if s.h >= 0 {
      var x := Shr(i, w - l);
      r' := Huft(j, l, s.hn - s.u[s.h] - x);
      hp[s.u[s.h] + x] := r';
    }
    s' := OpenedRegs(i, j, l, s);
  }

  method SizeTable(ghost e: Env, c: seq<nat>, k: nat, g: nat, l: nat, a: nat, ghost C: nat, i: nat, ghost S: nat,
      s: Regs, ghost sh: Shadow, ghost T: seq<Huft>) returns (j: nat)
    requires AtCode(e, g, k, C, i, S, s, sh, T) && l == e.l && k > s.w + l && C < Pow2(k)
    requires Counts(e.ext, c) && Used(e.ext, g) == Pow2(BMAX)
    requires C + a + 1 == FirstCode(e.ext, k) + Count(e.ext, k)
    ensures 0 <= s.w + l && 1 <= j && s.w + l + j <= g && SizeOK(e, k, i, s.w + l, j)
  {
    hide Pow2, Shl, Rev, Shr, Low, Used, FirstCode, Count, Complete, Celled, Budgeted, Chained, Skips, Exact, Start,
      Level, Nests, OnGrid, CodesFrom, Stacked, Top;
    ReadyToOpen(e, g, k, C, i, S, s, sh, T);
    var w := s.w + l;
    j := TableBits(e.ext, c, k, g, l, w, a, Rev(w, i), End(w, i));
  }

  /** What the ledger is once the table is open. */
  ghost function Charged(e: Env, k: nat, C: nat, i: nat, j: nat, s: Regs, sh: Shadow): Ledger
    requires 0 <= s.w + e.l <= BMAX && k <= BMAX
  {
    if LedgerShape(sh.led) then Paid(e.ext, k, C, s.w + e.l, i, j, sh.led) else sh.led
  }

  lemma ChargeSettles(e: Env, g: nat, k: nat, C: nat, i: nat, S: nat, j: nat, s: Regs, sh: Shadow, T: seq<Huft>)
    requires AtCode(e, g, k, C, i, S, s, sh, T) && C < Pow2(k) && C < FirstCode(e.ext, k) + Count(e.ext, k)
    requires 0 <= s.w + e.l && s.w + e.l < k <= s.w + e.l + e.l && SizeOK(e, k, i, s.w + e.l, j) && !sh.skip
    ensures Settled(e, i, j, s.w + e.l, sh.led, Charged(e, k, C, i, j, s, sh))
    ensures s.hn + Pow2(j) <= e.base + e.total
  {
    hide Pow2, Shl, Rev, Shr, Low, Used, FirstCode, Count, Celled, Chained, Skips, Exact, Start, End, Need,
      Level, Nests, OnGrid, CodesFrom, Settled, Paid, Complete, SumFrom, LevelTaken;
    var w := s.w + e.l;
    ReadyToOpen(e, g, k, C, i, S, s, sh, T);
    assert s.h >= 0 ==> LevelFree(e, k, CodesFrom(e.ext, k, C), sh.led, w);
    PayFor(e, k, C, i, S, w, j, sh.led);
    PaidFits(e, g, i, j, k, CodesFrom(e.ext, k, C), s, sh, w, Charged(e, k, C, i, j, s, sh));
  }

  /** Without a prefix that is skipped, the table fits the space set aside. */
  lemma OpenFits(e: Env, g: nat, k: nat, C: nat, i: nat, S: nat, j: nat, s: Regs, sh: Shadow, T: seq<Huft>)
    requires AtCode(e, g, k, C, i, S, s, sh, T) && C < Pow2(k) && C < FirstCode(e.ext, k) + Count(e.ext, k)
    requires 0 <= s.w + e.l < k && SizeOK(e, k, i, s.w + e.l, j) && !Skips(e.ext, e.l)
    ensures s.hn + Pow2(j) <= e.base + e.total
  {
    hide Pow2, Shl, Rev, Shr, Low, Used, FirstCode, Count, Celled, Chained, Skips, Exact, Start, End, Need,
      Level, Nests, OnGrid, CodesFrom, Complete, PosAt, SumFrom, LevelTaken, Budgeted, SizeOK, Top;
    ReadyToOpen(e, g, k, C, i, S, s, sh, T);
    if k > s.w + e.l + e.l { TooLongSkips(e.ext, k, C, i, S, s.w + e.l, e.l); }
    ChargeSettles(e, g, k, C, i, S, j, s, sh, T);
  }

  /** One round of the source's inner loop: make the table the current codeword needs next and connect it to the last
      one. It fails only if there is no space. */
  method OpenTable(ghost e: Env, c: seq<nat>, k: nat, g: nat, l: nat, a: nat, ghost C: nat, i: nat, ghost S: nat,
      s: Regs, ghost sh: Shadow, r: Huft, hp: array<Huft>) returns (ok: bool, s': Regs, ghost sh': Shadow, r': Huft)
    requires AtCode(e, g, k, C, i, S, s, sh, hp[..]) && l == e.l && k > s.w + l && C < Pow2(k) && hp.Length == MANY
    requires Counts(e.ext, c) && Used(e.ext, g) == Pow2(BMAX)
    requires C + a + 1 == FirstCode(e.ext, k) + Count(e.ext, k)
    modifies hp
    ensures ok ==> AtCode(e, g, k, C, i, S, s', sh', hp[..]) && s'.w == s.w + l && s'.h == s.h + 1
    ensures !ok ==> NoSpace(e, g)
    ensures s.h < 0 ==> r' == r
    ensures e.base <= hp.Length && hp[..e.base] == old(hp[..e.base])
  {
    hide Pow2, Shl, Rev, Shr, Low, Used, FirstCode, Count, Complete, Celled, Budgeted, Chained, Skips, Exact, End,
      Start, Level, Nests, OnGrid, CodesFrom, Top, SizeOK, Settled, Connected, NewCells, Counts, Charged;
    ghost var T := hp[..];
    var j := SizeTable(e, c, k, g, l, a, C, i, S, s, sh, T);
    if s.hn + Pow2(j) > MANY {
      if !Skips(e.ext, e.l) { OpenFits(e, g, k, C, i, S, j, s, sh, T); }
      OpenExact(e, g, k, C, i, S, j, s, sh, T);
      return false, s, sh, r;
    }
    ghost var led := Charged(e, k, C, i, j, s, sh);
    if !sh.skip && k - (s.w + l) <= l { ChargeSettles(e, g, k, C, i, S, j, s, sh, T); }
    OpenKeepsConnected(e, g, k, C, i, S, j, s, sh, led, T);
    s', r' := Allocate(i, j, l, s.w + l, s, r, hp);
    sh', ok := OpenedShadow(e, i, j, s, sh, led), true;
    assert hp[..e.base] == hp[..][..e.base] && T[..e.base] == old(hp[..e.base]);
  }
}
