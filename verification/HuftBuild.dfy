/** huft_build as a whole: the verdict on a vector of code lengths and tables that decode it. */
module HuftBuild {
  import opened Bits
  import opened Canonical
  import opened CodeSpace
  import opened HuftTable
  import opened HuftSort
  import opened HuftStack
  import opened HuftSkip
  import opened HuftChain
  import opened HuftLedger
  import opened HuftSpace
  import opened HuftOpen
  import opened HuftGap
  import opened HuftLoop

  lemma LongestCount(lens: seq<nat>)
    requires ValidLengths(lens) && !NoCodes(lens)
    ensures 1 <= Longest(lens) <= BMAX && Count(lens, Longest(lens)) > 0
    ensures forall k :: k > Longest(lens) ==> Count(lens, k) == 0
  {
    var g := Longest(lens);
    var i :| 0 <= i < |lens| && lens[i] == g;
    CountPrefix(lens, i, g);
    forall k | k > g ensures Count(lens, k) == 0 {
      if Count(lens, k) > 0 { var s := SymAt(lens, k, 0); }
    }
  }

  // ----- the loop over all codewords -----

  lemma FirstCodeZero(ext: seq<nat>, k: nat)
    requires 1 <= k <= BMAX
    requires forall x :: 1 <= x < k ==> Count(ext, x) == 0
    ensures FirstCode(ext, k) == 0
  {
    FirstCodePosition(ext, k);
    UsedFlat(ext, 0, k - 1);
    ShlOne(BMAX - k);
    ShlMono(0, FirstCode(ext, k), BMAX - k);
  }

  lemma StartOfLength(e: Env, g: nat, k: nat, C: nat, i: nat, S: nat, s: Regs, sh: Shadow, T: seq<Huft>)
    requires AtCode(e, g, k, C, i, S, s, sh, T) && C == FirstCode(e.ext, k) + Count(e.ext, k)
    requires k < g && s.h >= 0
    ensures 2 * C == FirstCode(e.ext, k + 1) && AtCode(e, g, k + 1, 2 * C, i, S, s, sh, T)
  {
    hide Pow2, Shl, Rev, Used, Count, Celled, Budgeted, Chained, Skips, Stacked, Complete, CodesFrom;
    NextLengthPos(k, C, i, S);
    LaterChained(e, k, k + 1, s, sh, T);
    StackedShape(e, i, s, sh);
    assert 2 * C == FirstCode(e.ext, k + 1);
    CodesOfNext(e.ext, k);
    if !sh.skip {
      LaterBudgeted(e, g, k, CodesFrom(e.ext, k, C), k + 1, CodesFrom(e.ext, k + 1, 2 * C), s, sh);
    }
  }

  lemma StackedShape(e: Env, i: nat, s: Regs, sh: Shadow)
    requires Stacked(e, i, s, sh)
    ensures Shaped(e, s, sh)
  {}

  lemma CodesOfNext(ext: seq<nat>, k: nat)
    requires 1 <= k < BMAX
    ensures CodesFrom(ext, k + 1, FirstCode(ext, k + 1)) == CodesFrom(ext, k, FirstCode(ext, k) + Count(ext, k))
  {
    hide Count, FirstCode;
  }

  lemma NextLengthPos(k: nat, C: nat, i: nat, S: nat)
    requires PosAt(k, C, i, S) && k < BMAX
    ensures PosAt(k + 1, 2 * C, i, S)
  {
    DoubleShl(C, BMAX - (k + 1));
    assert Rev(k + 1, 2 * C) == Shl(0, k) + Rev(k, C);
    ShlOne(k);
  }

  function StartRegs(hn: nat, l: nat): Regs {
    Regs(-1, 0 - l, seq(BMAX + 1, _ => 0), seq(BMAX, _ => 0), 0, 0, hn)
  }

  function StartShadow(hn: nat, led: Ledger): Shadow {
    Shadow(seq(hn, _ => Cell(0, 0, 0, 0, 0)), [], [], false, led)
  }

  lemma StartPos(ext: seq<nat>, k: nat)
    requires 1 <= k <= BMAX
    requires forall x :: 1 <= x < k ==> Count(ext, x) == 0
    ensures FirstCode(ext, k) == 0 && PosAt(k, 0, 0, 0)
  {
    FirstCodeZero(ext, k);
    ShlOne(BMAX - k);
    RevZero(k);
  }

  lemma StartStacked(e: Env, hn: nat, led: Ledger)
    ensures Stacked(e, 0, StartRegs(hn, e.l), StartShadow(hn, led))
  {}

  lemma StartBudgeted(e: Env, g: nat, k: nat, n: nat)
    requires 1 <= k <= e.l && e.total == TableSpace(e.l, g, n) && Longer(e.ext, 0) <= n && k <= BMAX
    requires FirstCode(e.ext, k) == 0
    ensures CodesFrom(e.ext, k, 0) >= 0
    ensures Budgeted(e, g, k, CodesFrom(e.ext, k, 0), StartRegs(e.base, e.l),
                     StartShadow(e.base, StartLedger(e.l, g, n)))
  {
    hide Pow2, Count, FirstCode, OnGrid, StartLedger, Need;
    var led := StartLedger(e.l, g, n);
    StartTotal(e.l, g, n, 0);
    assert led.left[0] == Grant(e.l, g, n, 0);
    LongerMono(e.ext, 0, k - 1);
    forall w: nat | w < g && 1 <= w <= BMAX && OnGrid(e.l, w)
      ensures LevelFree(e, k, CodesFrom(e.ext, k, 0), led, w)
    {
      assert led.left[w] == Grant(e.l, g, n, w);
      AtLeastOneStep(e.l, w);
      SameNeed(e.l, w, k, n, CodesFrom(e.ext, k, 0));
    }
  }

  lemma AtLeastOneStep(l: nat, w: nat)
    requires OnGrid(l, w) && w > 0
    ensures l <= w
  {}

  lemma SameNeed(l: nat, w: nat, k: nat, n: nat, codes: nat)
    requires k <= w && codes <= n
    ensures Need(l, w, k, codes) <= Need(l, w, 0, n)
  {
    hide Straddling;
  }

  lemma StartAt(e: Env, g: nat, k: nat, n: nat, T: seq<Huft>)
    requires e.Valid() && e.base <= |T| && 1 <= k <= e.l <= g <= BMAX && T == e.init
    requires e.total == TableSpace(e.l, g, n) && Longer(e.ext, 0) <= n
    requires forall x :: 1 <= x < k ==> Count(e.ext, x) == 0
    ensures FirstCode(e.ext, k) == 0
    ensures AtCode(e, g, k, 0, 0, 0, StartRegs(e.base, e.l), StartShadow(e.base, StartLedger(e.l, g, n)), T)
  {
    hide Pow2, Shl, Rev, Used, Count, Budgeted, Skips, Exact, Complete, FirstCode, StartLedger, CodesFrom, Celled,
      Chained, Stacked, Top, StartRegs, StartShadow, PosAt;
    StartPos(e.ext, k);
    StartStacked(e, e.base, StartLedger(e.l, g, n));
    StartShape(e, k, StartLedger(e.l, g, n), T);
    StartBudgeted(e, g, k, n);
    StartExact(e, g);
  }

  lemma StartExact(e: Env, g: nat)
    requires 1 <= e.l && g <= BMAX
    ensures Exact(e, g, 0, StartRegs(e.base, e.l).hn, StartRegs(e.base, e.l).w)
  {
    OpenedNone(e.ext, e.l, g, 0, 0 - e.l);
  }

  lemma StartShape(e: Env, k: nat, led: Ledger, T: seq<Huft>)
    requires e.tr.Valid() && e.base <= |T| && 1 <= k <= e.l && T == e.init
    ensures var s, sh := StartRegs(e.base, e.l), StartShadow(e.base, led);
            && Shaped(e, s, sh) && Top(e, k, 0, s, sh) && Chained(e, k, s, sh, T) && Celled(e, 0, s, sh, T)
            && s.h == -1 && s.hn == e.base && !sh.skip && sh.led == led
  {
    hide Pow2, Used, End, Start, CellInv;
    assert Shr(0, 0) == 0;
  }

  // ----- one length after the other -----

  /** Once the last codeword is placed, tables that had to skip a level are wrong. */
  ghost predicate WrongIfDoomed(e: Env, g: nat, k: nat, C: nat, s: Regs, T: seq<Huft>)
    requires |s.u| == BMAX && e.tr.Valid()
  {
    k == g && C == Pow2(k) && C > FirstCode(e.ext, k) && Doomed(e) ==> !Follows(T, s.u[0], e.l, e.tr)
  }

  /** All codewords of one length. */
  method PlaceLength(ghost e: Env, tr: Tree, v: seq<nat>, c: seq<nat>, k: nat, g: nat, ghost y: nat, l: nat,
      i: nat, ghost S: nat, p: nat, s: Regs, ghost sh: Shadow, r: Huft, hp: array<Huft>)
      returns (ok: bool, ghost C: nat, i': nat, ghost S': nat, p': nat, s': Regs, ghost sh': Shadow, r': Huft)
    requires AtCode(e, g, k, FirstCode(e.ext, k), i, S, s, sh, hp[..])
    requires l == e.l && hp.Length == MANY && Counts(e.ext, c) && Used(e.ext, g) == Pow2(BMAX)
    requires tr == e.tr && e.ext == Extend(tr.lens, g, y) && InOrder(tr.lens, v) && g == Longest(tr.lens)
    requires k < g ==> Count(e.ext, k) == Count(tr.lens, k)
    requires k == g ==> Off(tr.lens, k) + Count(tr.lens, k) == |v|
    requires p == Off(tr.lens, k)
    requires Count(e.ext, k) > 0 || s.h >= 0
    modifies hp
    ensures ok ==> AtCode(e, g, k, C, i', S', s', sh', hp[..]) && C == FirstCode(e.ext, k) + Count(e.ext, k)
    ensures ok ==> s'.h >= 0 && p' == Off(tr.lens, k) + Taken(tr.lens, k, Count(e.ext, k))
    ensures ok ==> |s'.u| == BMAX && WrongIfDoomed(e, g, k, C, s', hp[..])
    ensures !ok ==> NoSpace(e, g)
    ensures e.base <= hp.Length && hp[..e.base] == old(hp[..e.base])
    ensures ok && k == 1 && Count(e.ext, 1) == 2 && Count(tr.lens, 1) == |v| == 1 ==> LonePair(hp[..], s'.u[0])
  {
    hide Pow2, Shl, Used, FirstCode, Count, Celled, Budgeted, Chained, Skips, Exact, Level, Nests, Top, PosAt, Complete,
      Extend, Off, InOrder, CodesFrom, Follows, Doomed, Longest, LonePair, Counts;
    NoneCounted(e.ext, c);
    ghost var end, lone := FirstCode(e.ext, k) + Count(e.ext, k), Count(tr.lens, 1) == |v| == 1;
    var a := c[k];
    i', p', s', sh', r', ok, S' := i, p, s, sh, r, true, S;
    C := FirstCode(e.ext, k);
    if k == 1 { OneBitCodes(e.ext, C, i, S); }
    while a > 0
      invariant C + a == end
      invariant AtCode(e, g, k, C, i', S', s', sh', hp[..])
      invariant Progress(tr, e.ext, k, C, p', s') && (s.h >= 0 ==> s'.h >= 0)
      invariant hp[..e.base] == old(hp[..e.base])
      invariant k == 1 ==> LoneStep(C, i', s', r', hp[..], lone)
      invariant WrongIfDoomed(e, g, k, C, s', hp[..])
    {
      a := a - 1;
      ok, i', p', s', sh', r' := PlaceCode(e, tr, v, c, k, g, y, l, a, C, i', S', p', s', sh', r', hp, lone);
      if !ok { return; }
      C, S' := C + 1, Shl(C + 1, BMAX - k);
    }
  }

  /** Before the codes of length k, for k up to g; and after all of them, for k == g + 1. */
  ghost predicate AtLength(e: Env, tr: Tree, g: nat, k: nat, C: nat, i: nat, S: nat, p: nat,
      s: Regs, sh: Shadow, T: seq<Huft>)
  {
    if k <= g then
      AtCode(e, g, k, C, i, S, s, sh, T) && C == FirstCode(e.ext, k) && p == Off(tr.lens, k)
    else
      && k == g + 1 && AtCode(e, g, g, C, i, S, s, sh, T) && C == FirstCode(e.ext, g) + Count(e.ext, g)
      && WrongIfDoomed(e, g, g, C, s, T)
  }

  method NextLength(ghost e: Env, tr: Tree, v: seq<nat>, c: seq<nat>, k: nat, g: nat, ghost y: nat, l: nat,
      ghost C: nat, i: nat, ghost S: nat, p: nat, s: Regs, ghost sh: Shadow, r: Huft, hp: array<Huft>)
      returns (ok: bool, ghost C': nat, i': nat, ghost S': nat, p': nat, s': Regs, ghost sh': Shadow, r': Huft)
    requires AtLength(e, tr, g, k, C, i, S, p, s, sh, hp[..]) && k <= g
    requires l == e.l && hp.Length == MANY && Counts(e.ext, c) && Used(e.ext, g) == Pow2(BMAX)
    requires tr == e.tr && e.ext == Extend(tr.lens, g, y) && InOrder(tr.lens, v) && g == Longest(tr.lens)
    requires Off(tr.lens, g) + Count(tr.lens, g) == |v|
    requires Count(e.ext, k) > 0 || s.h >= 0
    modifies hp
    ensures ok ==> AtLength(e, tr, g, k + 1, C', i', S', p', s', sh', hp[..]) && s'.h >= 0 && |s'.u| == BMAX
    ensures !ok ==> NoSpace(e, g)
    ensures e.base <= hp.Length && hp[..e.base] == old(hp[..e.base])
    ensures ok && k == 1 && Count(e.ext, 1) == 2 && Count(tr.lens, 1) == |v| == 1 ==> LonePair(hp[..], s'.u[0])
  {
    hide Pow2, Shl, Used, FirstCode, Count, Celled, Budgeted, Chained, Skips, Exact, Stacked, Top, Complete,
      Extend, InOrder, CodesFrom, Follows, Doomed, Longest, LonePair;
    if k < g {
      ExtendCount(tr.lens, g, y, k);
      OffOfNext(tr.lens, v, k, g);
    }
    ok, C', i', S', p', s', sh', r' := PlaceLength(e, tr, v, c, k, g, y, l, i, S, p, s, sh, r, hp);
    if ok && k < g {
      StartOfLength(e, g, k, C', i', S', s', sh', hp[..]);
      C' := 2 * C';
    }
  }

  /** All codewords, shortest first. */
  method PlaceAll(ghost e: Env, ghost n: nat, tr: Tree, v: seq<nat>, c: seq<nat>, kmin: nat, g: nat, ghost y: nat,
      l: nat, hn: nat, hp: array<Huft>)
      returns (ok: bool, t: nat, hn': nat, ghost C: nat, ghost s: Regs, ghost sh: Shadow, ghost i: nat)
    requires e.Valid() && l == e.l && e.base == hn <= hp.Length == MANY && 1 <= kmin <= l <= g <= BMAX
    requires Counts(e.ext, c) && Used(e.ext, g) == Pow2(BMAX) && e.init == hp[..]
    requires e.total == TableSpace(e.l, g, n) && Longer(e.ext, 0) <= n
    requires tr == e.tr && e.ext == Extend(tr.lens, g, y) && InOrder(tr.lens, v) && g == Longest(tr.lens)
    requires forall x :: 1 <= x < kmin ==> Count(e.ext, x) == 0
    requires Count(e.ext, kmin) > 0 && Count(e.ext, g) > 0
    requires Off(tr.lens, g) + Count(tr.lens, g) == |v|
    modifies hp
    ensures hp[..hn] == old(hp[..hn])
    ensures !ok ==> NoSpace(e, g)
    ensures ok ==> AtCode(e, g, g, C, i, Pow2(BMAX), s, sh, hp[..])
    ensures ok ==> s.h >= 0 && |s.u| == BMAX && t == s.u[0] && hn' == s.hn
    ensures ok && Doomed(e) ==> !Follows(hp[..], t, l, tr)
    ensures ok && g == 1 && Count(e.ext, 1) == 2 && Count(tr.lens, 1) == |v| == 1 ==> LonePair(hp[..], t)
  {
    hide Pow2, Shl, Used, FirstCode, Count, Celled, Budgeted, Chained, Skips, Exact, Stacked, Top, PosAt, Complete,
      StartLedger, Extend, InOrder, CodesFrom, Follows, Doomed, Longest, LonePair, TableSpace, Counts, Off, AtCode,
      WrongIfDoomed;
    StartAt(e, g, kmin, n, hp[..]);
    OffZero(tr.lens, g, y, kmin);
    var k, ii, p, rs, r := kmin, 0, 0, StartRegs(hn, l), Huft(0, 0, 0);
    ghost var S := 0;
    C, sh, s, i, t, hn', ok := 0, StartShadow(hn, StartLedger(e.l, g, n)), rs, 0, 0, hn, true;
    ghost var lone := g == 1 && Count(e.ext, 1) == 2 && Count(tr.lens, 1) == |v| == 1;
    while k <= g
      invariant kmin <= k <= g + 1 && |rs.u| == BMAX && (k > kmin ==> rs.h >= 0)
      invariant AtLength(e, tr, g, k, C, ii, S, p, rs, sh, hp[..])
      invariant hp[..hn] == old(hp[..hn])
      invariant k == 2 && lone ==> LonePair(hp[..], rs.u[0])
    {
      ok, C, ii, S, p, rs, sh, r := NextLength(e, tr, v, c, k, g, y, l, C, ii, S, p, rs, sh, r, hp);
      if !ok { return; }
      k := k + 1;
    }
    AtEnd(e, g, C, ii, S, rs, sh, hp[..]);
    s, i, t, hn' := rs, ii, rs.u[0], rs.hn;
  }

  lemma AtEnd(e: Env, g: nat, C: nat, i: nat, S: nat, s: Regs, sh: Shadow, T: seq<Huft>)
    requires AtCode(e, g, g, C, i, S, s, sh, T) && C == FirstCode(e.ext, g) + Count(e.ext, g)
    requires Used(e.ext, g) == Pow2(BMAX) && Count(e.ext, g) > 0 && |s.u| == BMAX && WrongIfDoomed(e, g, g, C, s, T)
    ensures S == Pow2(BMAX) && (Doomed(e) ==> !Follows(T, s.u[0], e.l, e.tr))
  {
    hide Pow2, Shl, Used, FirstCode, Count, Celled, Budgeted, Chained, Skips, Exact, Stacked, Top, Complete,
      CodesFrom, Follows, Doomed;
    FirstCodePosition(e.ext, g);
    Pow2Add(g, BMAX - g);
    ShlInjective(C, Pow2(g), BMAX - g);
  }

  lemma OffZero(lens: seq<nat>, g: nat, y: nat, k: nat)
    requires 1 <= k && forall x :: 1 <= x < k ==> Count(Extend(lens, g, y), x) == 0
    ensures Off(lens, k) == 0
  {
    hide Count, Extend;
    if k > 1 {
      OffZero(lens, g, y, k - 1);
      ExtendCount(lens, g, y, k - 1);
    }
  }

  // ----- the finished tables -----

  /** With every codeword placed, the first table has exactly l bits. */
  lemma FirstTableBits(e: Env, g: nat, C: nat, i: nat, s: Regs, sh: Shadow, T: seq<Huft>)
    requires AtCode(e, g, g, C, i, Pow2(BMAX), s, sh, T) && e.l <= g && Used(e.ext, g - 1) < Pow2(BMAX) && s.h >= 0
    ensures sh.js[0] == e.l && sh.ws[0] == 0 && s.x[0] == 0 && e.base <= s.u[0] && s.u[0] + Pow2(e.l) <= s.hn
  {
    hide Pow2, Shl, Rev, Used, FirstCode, Count, Celled, Budgeted, Skips, PosAt, Complete, CodesFrom, Shr, OnGrid;
    assert Level(e, i, s, sh, 0) && Reaches(e, g, s, sh, T, 0);
    if s.h == 0 {
      WholeSpace();
      if sh.js[0] < e.l { UsedMono(e.ext, sh.js[0], g - 1); }
    } else {
      assert Nests(e.l, s, sh, 0);
    }
  }

  lemma WholeSpace()
    ensures End(0, 0) == Pow2(BMAX)
  {
    ShlOne(BMAX);
    assert Rev(0, 0) == 0;
  }

  lemma AllDone(e: Env, s: Regs, sh: Shadow, T: seq<Huft>)
    requires e.tr.Valid() && Celled(e, Pow2(BMAX), s, sh, T)
    ensures AllCellsOK(T[..s.hn], e.tr, e.ext, e.l, sh.cells, e.base)
  {
    hide Pow2, CellOK, OpenTableAt, Start, End;
    forall c | e.base <= c < s.hn ensures CellOK(e.tr, e.ext, e.l, sh.cells, c, T[..s.hn][c]) {
      assert CellInv(e, Pow2(BMAX), s, sh, c, T[c]);
      var cl := sh.cells[c];
      EndBound(cl.w + cl.j, cl.Pat());
    }
  }

  /** With one codeword of one bit, and with a complete code, the dummy symbols do not change how far a lookup looks. */
  lemma LookaheadExtended(lens: seq<nat>, g: nat, y: nat, l: nat, v: nat, len: nat)
    requires (y == 0 || g == 1) && 1 <= l <= g && 1 <= len <= g <= BMAX
    ensures Lookahead(Extend(lens, g, y), l, v, len, 0) == Lookahead(lens, l, v, len, 0)
    ensures g == 1 ==> Lookahead(lens, l, v, len, 0) == 1
  {
    if y == 0 { assert Extend(lens, g, y) == lens; }
  }

  lemma FinishedOn(e: Env, g: nat, y: nat, s: Regs, sh: Shadow, T: seq<Huft>, t: nat, v: nat)
    requires e.tr.Valid() && Complete(e.ext) && Celled(e, Pow2(BMAX), s, sh, T) && e.base <= t && g <= BMAX
    requires TableAt(sh.cells, t, 0, 0, e.l, 0) && 1 <= e.l <= g && (y == 0 || g == 1)
    requires e.ext == Extend(e.tr.lens, g, y) && g == Longest(e.tr.lens)
    ensures DecodesOn(T[..s.hn], t, e.l, e.tr, v)
  {
    hide Pow2, AllCellsOK, Celled, Extend, Longest, Decode, Lookahead, LeafCode, Walk, LeafIs, TableAt, Complete;
    AllDone(e, s, sh, T);
    CelledShape(e, s, sh, T);
    WalkFromRoot(T[..s.hn], e.tr, e.ext, e.l, sh.cells, e.base, t, v);
    var r := Walk(T[..s.hn], t, e.l, v, BMAX);
    ExtendDecode(e.tr, g, y, r.used, v, r.entry);
    if Decode(e.tr.lens, v).None? && y == 0 {
      NothingMissing(e.tr.lens, e.ext, g, v);
    }
    LeafLength(e.tr, e.ext, g, y, r.used, v, r.entry);
    LookaheadExtended(e.tr.lens, g, y, e.l, v, r.used);
  }

  lemma NothingMissing(lens: seq<nat>, ext: seq<nat>, g: nat, v: nat)
    requires Complete(ext) && ext == Extend(lens, g, 0)
    ensures Decode(lens, v).Some?
  {
    assert ext == lens;
    CompleteIffTotal(lens);
  }

  lemma LeafLength(tr: Tree, ext: seq<nat>, g: nat, y: nat, k: nat, v: nat, en: Huft)
    requires tr.Valid() && LeafCode(tr, ext, k, v, en) && ext == Extend(tr.lens, g, y) && g == Longest(tr.lens)
    ensures 1 <= k <= g
  {
    hide FirstCode, Rev, Longest;
    var s := SymAt(ext, k, Rev(k, v) - FirstCode(ext, k));
    assert ext[s] <= g;
  }

  lemma CelledShape(e: Env, s: Regs, sh: Shadow, T: seq<Huft>)
    requires e.tr.Valid() && Celled(e, Pow2(BMAX), s, sh, T)
    ensures |sh.cells| == s.hn <= |T|
  {}

  lemma WalkFromRoot(T: seq<Huft>, tr: Tree, ext: seq<nat>, l: nat, cells: seq<Cell>, base: nat, t: nat, v: nat)
    requires tr.Valid() && base <= t && |cells| <= |T| && AllCellsOK(T, tr, ext, l, cells, base)
    requires TableAt(cells, t, 0, 0, l, 0)
    ensures var r := Walk(T, t, l, v, BMAX);
            r.Leaf? && LeafCode(tr, ext, r.used, v, r.entry) && r.ahead == Lookahead(ext, l, v, r.used, 0)
  {
    hide Walk, LeafCode, Lookahead, AllCellsOK;
    WalkCells(T, tr, ext, l, cells, base, t, 0, 0, l, v);
    assert Shr(v, 0) == v;
  }

  /** The finished tables decode the code. */
  lemma Finished(e: Env, g: nat, y: nat, C: nat, i: nat, s: Regs, sh: Shadow, T: seq<Huft>)
    requires AtCode(e, g, g, C, i, Pow2(BMAX), s, sh, T)
    requires s.h >= 0 && !sh.skip && e.l <= g && Used(e.ext, g - 1) < Pow2(BMAX) && (y == 0 || g == 1)
    requires e.ext == Extend(e.tr.lens, g, y) && g == Longest(e.tr.lens)
    ensures Decodes(T[..s.hn], s.u[0], e.l, e.tr)
  {
    hide Pow2, Shl, Used, FirstCode, Count, Budgeted, Skips, PosAt, Complete, CodesFrom, Extend, Longest, DecodesOn,
      CellInv, Level, Nests, Top, Sized, TableAt;
    FirstTableBits(e, g, C, i, s, sh, T);
    assert OpenTableAt(e, s, sh, 0);
    forall v: nat ensures DecodesOn(T[..s.hn], s.u[0], e.l, e.tr, v) {
      FinishedOn(e, g, y, s, sh, T, s.u[0], v);
    }
  }

  /** And they keep within the total. */
  lemma WithinTotal(e: Env, g: nat, C: nat, i: nat, s: Regs, sh: Shadow, T: seq<Huft>)
    requires AtCode(e, g, g, C, i, Pow2(BMAX), s, sh, T) && !sh.skip
    ensures s.hn <= e.base + e.total
  {
    hide Pow2, Used, FirstCode, Count, Celled, Skips, PosAt, Complete, CodesFrom, Stacked, Top, Chained;
  }

  // ----- huft_build -----

  lemma LongestIs(lens: seq<nat>, g: nat)
    requires ValidLengths(lens) && 1 <= g && Count(lens, g) > 0
    requires forall k :: g < k <= BMAX ==> Count(lens, k) == 0
    ensures Longest(lens) == g && !NoCodes(lens)
  {
    hide Count;
    var s := SymAt(lens, g, 0);
    LongestCount(lens);
    assert lens[s] == g;
  }

  lemma FillsSpace(lens: seq<nat>, g: nat, y: nat)
    requires 1 <= g <= BMAX && Used(lens, BMAX) + Shl(y, BMAX - g) == Pow2(BMAX)
    requires Count(lens, g) > 0 && forall k :: g < k <= BMAX ==> Count(lens, k) == 0
    ensures Complete(Extend(lens, g, y)) && Used(Extend(lens, g, y), g) == Pow2(BMAX)
    ensures Used(Extend(lens, g, y), g - 1) < Pow2(BMAX)
    ensures y == 0 <==> Complete(lens)
  {
    hide Extend, Shl, Count, Pow2;
    var ext := Extend(lens, g, y);
    ExtendUsed(lens, g, y, BMAX);
    ExtendUsed(lens, g, y, g);
    UsedFlat(lens, g, BMAX);
    ExtendCount(lens, g, y, g);
    ShlMono(0, Count(ext, g), BMAX - g);
    ShlMono(0, y, BMAX - g);
    ShlOne(BMAX - g);
  }

  lemma LoneCode(lens: seq<nat>, y: nat, v: seq<nat>)
    requires ValidLengths(lens) && Longest(lens) == 1 && InOrder(lens, v) && y != 0
    requires Used(lens, BMAX) + Shl(y, BMAX - 1) == Pow2(BMAX) && Count(lens, 1) > 0
    requires forall k :: 1 < k <= BMAX ==> Count(lens, k) == 0
    ensures Count(Extend(lens, 1, y), 1) == 2 && Count(lens, 1) == |v| == 1
  {
    hide Extend, Shl, Count, Longest, Pow2;
    ExtendCount(lens, 1, y, 1);
    var n := Count(lens, 1);
    UsedFlat(lens, 1, BMAX);
    UsedOne(lens);
    ShlAdd(n, y, BMAX - 1);
    PowOne();
    Pow2Add(1, BMAX - 1);
    ShlInjective(n + y, 2, BMAX - 1);
    OffFlat(lens, 2, BMAX + 1);
  }

  lemma UsedOne(lens: seq<nat>)
    ensures Used(lens, 1) == Shl(Count(lens, 1), BMAX - 1)
  {}

  lemma ShortestIs(lens: seq<nat>, j: nat)
    requires 1 <= j && Count(lens, j) > 0
    requires forall k :: 1 <= k < j ==> Count(lens, k) == 0
    ensures Shortest(lens) == j
  {
    hide Count;
    var s := SymAt(lens, j, 0);
    assert lens[s] == j;
    var i :| 0 <= i < |lens| && lens[i] == Shortest(lens);
    CountPrefix(lens, i, lens[i]);
  }

  lemma SortedTotal(lens: seq<nat>, g: nat)
    requires 1 <= g <= BMAX && forall k :: g < k <= BMAX ==> Count(lens, k) == 0
    ensures Off(lens, g) + Count(lens, g) == Off(lens, BMAX + 1)
  {
    OffFlat(lens, g + 1, BMAX + 1);
  }

  lemma ExtendedCounts(lens: seq<nat>, c: seq<nat>, g: nat, y: nat)
    requires Counts(lens, c) && g <= BMAX
    ensures Counts(Extend(lens, g, y), c[g := c[g] + y])
  {
    hide Count, Extend;
    forall k | 0 <= k <= BMAX ensures c[g := c[g] + y][k] == Count(Extend(lens, g, y), k) {
      ExtendCount(lens, g, y, k);
    }
  }

  lemma NoneCounted(lens: seq<nat>, c: seq<nat>)
    requires Counts(lens, c)
    ensures |c| == BMAX + 1 && forall k :: 0 <= k <= BMAX ==> c[k] == Count(lens, k)
  {}

  lemma ExtendedValid(lens: seq<nat>, g: nat, y: nat)
    requires ValidLengths(lens) && g <= BMAX
    ensures ValidLengths(Extend(lens, g, y))
  {}

  /** The bound on the number of codewords that goes into the total. */
  ghost function CodesBound(lens: seq<nat>, g: nat, y: nat): (n: nat)
    requires g <= BMAX
    ensures Longer(Extend(lens, g, y), 0) <= n
  {
    AtMostAll(Extend(lens, g, y), 0);
    |lens| + y
  }

  lemma ExtendNone(lens: seq<nat>, g: nat)
    ensures Extend(lens, g, 0) == lens
  {}

  /** The dummy symbols of an acceptable code change neither its gaps nor the space for its tables. */
  lemma SameForExtended(lens: seq<nat>, g: nat, y: nat, l: nat)
    requires g == Longest(lens) && (y == 0 || g == 1) && 1 <= l <= g <= BMAX
    ensures Skips(Extend(lens, g, y), l) == Skips(lens, l)
    ensures TableSpace(l, g, |lens| + y) == TableSpace(l, g, |lens|)
  {
    hide TableSpace, Skips, Longest, Extend;
    if y == 0 {
      ExtendNone(lens, g);
    } else {
      ExtendLongest(lens, g, y);
      ShortNeverSkips(Extend(lens, g, y), l);
      ShortNeverSkips(lens, l);
      OneTableSpace(l, |lens| + y);
      OneTableSpace(l, |lens|);
    }
  }

  /** The second half of huft_build: given the counts and the symbols in order, the tables. */
  method BuildTables(tr: Tree, v: seq<nat>, c: seq<nat>, j: nat, g: nat, y: nat, l: nat, hp: array<Huft>, hn: nat)
      returns (ok: bool, t: nat, hn': nat)
    requires tr.Valid() && hn <= hp.Length == MANY && 1 <= j <= l <= g <= BMAX
    requires Counts(tr.lens, c) && InOrder(tr.lens, v) && Longest(tr.lens) == g
    requires Count(tr.lens, j) > 0 && Count(tr.lens, g) > 0
    requires forall k :: 1 <= k < j || g < k <= BMAX ==> Count(tr.lens, k) == 0
    requires Used(tr.lens, BMAX) + Shl(y, BMAX - g) == Pow2(BMAX)
    modifies hp
    ensures hp[..hn] == old(hp[..hn])
    ensures ok <==> hn + EntriesFrom(tr.lens, l, g, 0) <= MANY
    ensures ok ==> hn' == hn + EntriesFrom(tr.lens, l, g, 0) && hn + Pow2(l) <= hn'
    ensures (y == 0 || g == 1) && !Skips(tr.lens, l) && hn + TableSpace(l, g, |tr.lens|) <= MANY ==>
              ok && hn' <= hn + TableSpace(l, g, |tr.lens|)
    ensures ok && (y == 0 || g == 1) && !Skips(tr.lens, l) ==> Decodes(hp[..hn'], t, l, tr)
    ensures ok && (y == 0 || g == 1) && Skips(tr.lens, l) && Blank(old(hp[..]), hn) ==> !Follows(hp[..], t, l, tr)
    ensures ok && y != 0 && g == 1 ==> LonePair(hp[..], t)
  {
    hide Pow2, Shl, Used, Count, Skips, Longest, Complete, InOrder, Counts, Decodes, Follows, Blank, TableSpace,
      LonePair, AtCode, Extend, Off, NoSpace, EntriesFrom;
    ghost var ext, T0 := Extend(tr.lens, g, y), hp[..];
    ghost var n := CodesBound(tr.lens, g, y);
    ghost var e := Env(tr, ext, l, hn, TableSpace(l, g, |tr.lens| + y), T0);
    FillsSpace(tr.lens, g, y);
    ExtendedValid(tr.lens, g, y);
    ExtendedCounts(tr.lens, c, g, y);
    ExtendCount(tr.lens, g, y, j);
    ExtendCount(tr.lens, g, y, g);
    forall x | 1 <= x < j ensures Count(ext, x) == 0 { ExtendCount(tr.lens, g, y, x); }
    SortedTotal(tr.lens, g);
    OrderedAll(tr.lens, v);
    NoneCounted(tr.lens, c);
    ghost var s, sh, i, C;
    ok, t, hn', C, s, sh, i := PlaceAll(e, |tr.lens| + y, tr, v, c[g := c[g] + y], j, g, y, l, hn, hp);
    if y == 0 || g == 1 { SameForExtended(tr.lens, g, y, l); }
    SameEntries(tr.lens, g, y, l, 0);
    if !ok { WhyNoSpace(e, tr.lens, g, y); }
    if ok {
      TablesDone(e, g, y, C, i, s, sh, hp[..]);
      assert hp[..][..hn'] == hp[..hn'];
      if y != 0 && g == 1 { LoneCode(tr.lens, y, v); }
    }
  }

  /** If there is no space, both bounds are exceeded. */
  lemma WhyNoSpace(e: Env, lens: seq<nat>, g: nat, y: nat)
    requires g <= BMAX && NoSpace(e, g) && e.ext == Extend(lens, g, y) && g == Longest(lens) && 1 <= e.l <= g
    requires e.total == TableSpace(e.l, g, |lens| + y)
    ensures e.base + EntriesFrom(e.ext, e.l, g, 0) > MANY
    ensures (y == 0 || g == 1) && !Skips(lens, e.l) ==> e.base + TableSpace(e.l, g, |lens|) > MANY
  {
    hide Skips, Longest, Extend, TableSpace, EntriesFrom;
    if y == 0 || g == 1 { SameForExtended(lens, g, y, e.l); }
  }

  // ----- the dummy symbols take no part in the count of entries -----

  lemma {:induction false} SameReaching(lens: seq<nat>, g: nat, y: nat, x: nat, k: nat)
    requires 1 <= k <= g <= BMAX
    ensures Reaching(Extend(lens, g, y), g, x, k) == Reaching(lens, g, x, k)
    decreases g - k
  {
    hide Used, Extend;
    ExtendUsed(lens, g, y, k);
    if k < g { SameReaching(lens, g, y, x, k + 1); }
  }

  lemma {:induction false} SameLevel(lens: seq<nat>, g: nat, y: nat, l: nat, w: nat, n: nat)
    requires w < g <= BMAX
    ensures LevelEntries(Extend(lens, g, y), l, g, w, n) == LevelEntries(lens, l, g, w, n)
  {
    hide Used, Extend, Reaching, Pow2, Shl;
    if n > 0 {
      SameLevel(lens, g, y, l, w, n - 1);
      var x := Shl(n - 1, BMAX - w);
      ExtendUsed(lens, g, y, w);
      SameReaching(lens, g, y, x + 1, w + 1);
      SameReaching(lens, g, y, x + Pow2(BMAX - w), w + 1);
    }
  }

  lemma {:induction false} SameEntries(lens: seq<nat>, g: nat, y: nat, l: nat, w: nat)
    requires g <= BMAX
    ensures EntriesFrom(Extend(lens, g, y), l, g, w) == EntriesFrom(lens, l, g, w)
    decreases g - w
  {
    hide Extend, LevelEntries, Pow2;
    if w < g && l > 0 {
      SameLevel(lens, g, y, l, w, Pow2(w));
      SameEntries(lens, g, y, l, w + l);
    }
  }

  lemma OrderedAll(lens: seq<nat>, v: seq<nat>)
    requires InOrder(lens, v)
    ensures |v| == Off(lens, BMAX + 1)
  {}

  lemma TablesDone(e: Env, g: nat, y: nat, C: nat, i: nat, s: Regs, sh: Shadow, T: seq<Huft>)
    requires AtCode(e, g, g, C, i, Pow2(BMAX), s, sh, T) && s.h >= 0 && |s.u| == BMAX
    requires e.l <= g && Used(e.ext, g - 1) < Pow2(BMAX) && e.ext == Extend(e.tr.lens, g, y) && g == Longest(e.tr.lens)
    ensures e.base + Pow2(e.l) <= s.hn <= |T| && e.tr.Valid()
    ensures s.hn == e.base + EntriesFrom(e.ext, e.l, g, 0)
    ensures (y == 0 || g == 1) && !Skips(e.ext, e.l) ==>
              Decodes(T[..s.hn], s.u[0], e.l, e.tr) && s.hn <= e.base + e.total
  {
    hide Pow2, Used, Count, FirstCode, Skips, Longest, Complete, Decodes, Extend, Celled, Budgeted, Chained, Stacked,
      Top, PosAt, CodesFrom, Opened, EntriesFrom;
    OpenedAll(e.ext, e.l, g, 0, s.w);
    StackedShape(e, i, s, sh);
    FirstTableBits(e, g, C, i, s, sh, T);
    if (y == 0 || g == 1) && !Skips(e.ext, e.l) {
      Finished(e, g, y, C, i, s, sh, T);
      WithinTotal(e, g, C, i, s, sh, T);
    }
  }

  lemma NoEntries(m: nat, lens: seq<nat>)
    requires ValidLengths(lens) && NoCodes(lens)
    ensures TableEntries(m, lens) == 0
  {}

  /** Builds the lookup tables for a code from its lengths, in hp from hn on; m is the wanted number of bits per table.
      Z_OK also covers a vector without codes, which gets no table at all. The tables decode the code exactly if no
      prefix that ends where a table ends has only codewords too long for the next one; then the space they take is
      bounded. */
  method Build(tr: Tree, m: nat, hp: array<Huft>, hn: nat, v: array<nat>) returns (ret: Ret, t: nat, l: nat, hn': nat)
    requires tr.Valid() && 1 <= |tr.lens| <= v.Length && hn <= hp.Length == MANY
    modifies hp, v
    ensures ret == MemError || ret == Verdict(tr.lens)
    ensures ret == MemError <==> Verdict(tr.lens) != DataError && hn + TableEntries(m, tr.lens) > MANY
    ensures l == if NoCodes(tr.lens) then 0 else RootBits(m, tr.lens)
    ensures hp[..hn] == old(hp[..hn])
    ensures ret in {Ok, BufError} ==>
              && hn' == hn + TableEntries(m, tr.lens) && hn' <= MANY && (NoCodes(tr.lens) || hn + Pow2(l) <= hn')
    ensures Verdict(tr.lens) == Ok && !NoCodes(tr.lens) && !Skips(tr.lens, l)
            && hn + TableSpace(l, Longest(tr.lens), |tr.lens|) <= MANY ==>
              ret == Ok && hn' <= hn + TableSpace(l, Longest(tr.lens), |tr.lens|)
    ensures ret == Ok && !NoCodes(tr.lens) && !Skips(tr.lens, l) ==> Decodes(hp[..hn'], t, l, tr)
    ensures ret == Ok && !NoCodes(tr.lens) && Blank(old(hp[..]), hn) ==>
              (Follows(hp[..], t, l, tr) <==> !Skips(tr.lens, l))
    ensures ret == Ok && !NoCodes(tr.lens) && !Complete(tr.lens) ==> LonePair(hp[..], t)
  {
    hide Pow2, Shl, Used, Count, Skips, Longest, Shortest, InOrder, Counts, Decodes, Follows, Blank, TableSpace,
      LonePair, EntriesFrom;
    t, l, hn' := 0, 0, hn;
    if NoCodes(tr.lens) { NoEntries(m, tr.lens); }
    var c := CountLengths(tr.lens);
    AllZero(tr.lens);
    NoneCounted(tr.lens, c);
    if c[0] == |tr.lens| {
      return Ok, 0, 0, hn;
    }
    var j, g;
    j, g, l := LengthRange(tr.lens, c, m);
    LongestIs(tr.lens, g);
    ShortestIs(tr.lens, j);
    var y := FreeCodes(tr.lens, c, j, g);
    if y < 0 {
      ret := DataError;
      return;
    }
    FillsSpace(tr.lens, g, y);
    UnderSubscribed(tr.lens, g, y);
    var n := SortByLength(tr.lens, c, g, v);
    var ok;
    ok, t, hn' := BuildTables(tr, v[..n], c, j, g, y, l, hp, hn);
    ret := if !ok then MemError else if y != 0 && g != 1 then BufError else Ok;
    if ret == Ok && !Skips(tr.lens, l) {
      DecodesExtends(hp[..hn'], hp[..], t, l, tr);
      DecodesFollows(hp[..], t, l, tr);
    }
  }

  /** The first table has 2^l entries; if it takes whole codewords, it is the only one. */
  lemma RootEntries(m: nat, lens: seq<nat>)
    requires ValidLengths(lens) && !NoCodes(lens) && !OverSubscribed(lens)
    ensures Pow2(RootBits(m, lens)) <= TableEntries(m, lens)
    ensures RootBits(m, lens) == Longest(lens) ==> TableEntries(m, lens) == Pow2(RootBits(m, lens))
  {
    hide Pow2, Shl, Used, Count, Shortest, Longest, Reaching, EntriesFrom;
    var l, g := RootBits(m, lens), Longest(lens);
    LongestCount(lens);
    var s := ShortestUsed(lens);
    SomeReach(lens, g, s, 1);
    BelowLongest(lens, g);
    ReachingIs(lens, g, Pow2(BMAX), 1, g);
    RootLevel(lens, l, g);
    FirstLevel(lens, l, g);
  }

  lemma ShortestUsed(lens: seq<nat>) returns (s: nat)
    requires ValidLengths(lens) && !NoCodes(lens)
    ensures s == Shortest(lens) && 1 <= s <= Longest(lens) && s <= BMAX && Used(lens, s) >= 1
  {
    hide Used, Count, Pow2, Shl;
    var i :| 0 <= i < |lens| && lens[i] != 0;
    s := Shortest(lens);
    var j :| 0 <= j < |lens| && lens[j] == s;
    CountPrefix(lens, j, s);
    UsedFrom(lens, s);
  }

  lemma UsedFrom(lens: seq<nat>, s: nat)
    requires 1 <= s <= BMAX && Count(lens, s) > 0
    ensures Used(lens, s - 1) + 1 <= Used(lens, s)
  {
    hide Count;
    ShlMono(1, Count(lens, s), BMAX - s);
    ShlOne(BMAX - s);
  }

  lemma BelowLongest(lens: seq<nat>, g: nat)
    requires 1 <= g <= BMAX && Count(lens, g) > 0 && !OverSubscribed(lens)
    ensures Used(lens, g - 1) < Pow2(BMAX)
  {
    hide Used, Count, Pow2;
    UsedFrom(lens, g);
    UsedMono(lens, g, BMAX);
  }

  lemma {:induction false} SomeReach(lens: seq<nat>, g: nat, n: nat, k: nat)
    requires k <= n <= g <= BMAX && Used(lens, n) >= 1
    ensures Reaching(lens, g, 1, k) <= n
    decreases n - k
  {
    hide Used;
    if k < n { SomeReach(lens, g, n, k + 1); }
  }

  lemma RootLevel(lens: seq<nat>, l: nat, g: nat)
    requires 1 <= l <= g <= BMAX && Reaching(lens, g, 1, 1) <= l && Reaching(lens, g, Pow2(BMAX), 1) == g
    ensures LevelEntries(lens, l, g, 0, 1) == Pow2(l)
  {
    hide Reaching, Pow2, Shl;
    ShlOne(BMAX);
    assert LevelEntries(lens, l, g, 0, 0) == 0;
  }

  lemma FirstLevel(lens: seq<nat>, l: nat, g: nat)
    requires 1 <= l <= g <= BMAX
    ensures EntriesFrom(lens, l, g, 0) == LevelEntries(lens, l, g, 0, 1) + EntriesFrom(lens, l, g, l)
    ensures l == g ==> EntriesFrom(lens, l, g, l) == 0
  {
    hide LevelEntries;
    assert Pow2(0) == 1;
  }

  lemma UnderSubscribed(lens: seq<nat>, g: nat, y: nat)
    requires g <= BMAX && Used(lens, BMAX) + Shl(y, BMAX - g) == Pow2(BMAX)
    ensures !OverSubscribed(lens)
  {}
}
