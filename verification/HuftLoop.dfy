/** The table loop of huft_build: one table entry pattern per codeword, in code order. */
module HuftLoop {
  import opened Bits
  import opened Canonical
  import opened CodeSpace
  import opened HuftTable
  import opened HuftSort
  import opened HuftStack
  import opened HuftSkip
  import opened HuftChain
  import opened HuftAdvance
  import opened HuftLedger
  import opened HuftSpace
  import opened HuftOpen
  import opened HuftGap

  // ----- the entry for a codeword -----

  lemma ExtendSym(lens: seq<nat>, g: nat, y: nat, k: nat, r: nat)
    requires r < Count(Extend(lens, g, y), k)
    ensures var s := SymAt(Extend(lens, g, y), k, r);
            if r < Count(lens, k) then s < |lens| && lens[s] == k && Slot(lens, s) == Off(lens, k) + r else s >= |lens|
  {
    var ext := Extend(lens, g, y);
    var s := SymAt(ext, k, r);
    if r < Count(lens, k) {
      var t := SymAt(lens, k, r);
      assert ext[..t] == lens[..t];
      SymAtRank(ext, t);
    } else if s < |lens| {
      assert ext[..s] == lens[..s];
      CountPrefix(lens, s, k);
    }
  }

  /** How many of the first n codewords of length k stand for a symbol. */
  function Taken(lens: seq<nat>, k: nat, n: nat): nat {
    if n < Count(lens, k) then n else Count(lens, k)
  }

  /** The entry for the n-th codeword of length k. Past the last symbol only the operation is set. */
  method MakeEntry(tr: Tree, v: seq<nat>, g: nat, ghost y: nat, k: nat, bits: nat, p: nat, ghost n: nat, r0: Huft)
      returns (r: Huft, p': nat)
    requires tr.Valid() && 1 <= k <= g && InOrder(tr.lens, v) && 1 <= bits
    requires n < Count(Extend(tr.lens, g, y), k) && p == Off(tr.lens, k) + Taken(tr.lens, k, n)
    requires k < g ==> Count(Extend(tr.lens, g, y), k) == Count(tr.lens, k)
    requires k == g ==> Off(tr.lens, k) + Count(tr.lens, k) == |v|
    ensures r.bits == bits && !IsLink(r)
    ensures LeafIs(tr, SymAt(Extend(tr.lens, g, y), k, n), r)
    ensures p' == Off(tr.lens, k) + Taken(tr.lens, k, n + 1)
    ensures p == |v| ==> r.base == r0.base
    ensures p < |v| && v[p] < tr.simple ==> r.base == v[p]
  {
    ExtendSym(tr.lens, g, y, k, n);
    r, p' := r0.(bits := bits), p;
    if p >= |v| {
      r := r.(exop := INVALID_OP);
    } else {
      ghost var s := SymAt(Extend(tr.lens, g, y), k, n);
      assert n < Count(tr.lens, k) by { OffOfNext(tr.lens, v, k, g); }
      assert v[Slot(tr.lens, s)] == s;
      if v[p] < tr.simple {
        r := r.(exop := if v[p] < 256 then 0 else EOB_OP, base := v[p]);
      } else {
        r := r.(exop := tr.extra[v[p] - tr.simple] + 16 + 64, base := tr.bases[v[p] - tr.simple]);
      }
      p' := p + 1;
    }
  }

  lemma OffOfNext(lens: seq<nat>, v: seq<nat>, k: nat, g: nat)
    requires 1 <= k && InOrder(lens, v)
    ensures Off(lens, k + 1) == Off(lens, k) + Count(lens, k)
  {}

  // ----- filling the table -----

  lemma Residues(c: nat, j: nat, n: nat)
    ensures Low(c + Pow2(n), n) == Low(c, n)
    ensures j > c && Low(j, n) == Low(c, n) ==> j >= c + Pow2(n)
  {
    Split(c, n);
    Split(j, n);
    ShlAdd(Shr(c, n), 1, n);
    ShlOne(n);
    LowBound(c, n);
    Compose(Low(c, n), Shr(c, n) + 1, n);
    if Shr(j, n) <= Shr(c, n) {
      ShlMono(Shr(j, n), Shr(c, n), n);
    } else {
      ShlMono(Shr(c, n) + 1, Shr(j, n), n);
    }
  }

  predicate FilledUpTo(n: nat, first: nat, q: nat, z: nat, T: seq<Huft>, r: Huft, T': seq<Huft>, j: nat) {
    && |T'| == |T| && q + z <= |T|
    && forall c :: 0 <= c < |T| ==> T'[c] == if q <= c < q + z && c - q < j && Low(c - q, n) == first then r else T[c]
  }

  /** Stores r in every entry whose index continues the codeword: every f-th from `first`. */
  method FillTable(hp: array<Huft>, q: nat, z: nat, n: nat, first: nat, r: Huft)
    requires q + z <= hp.Length && first < Pow2(n)
    modifies hp
    ensures Filled(n, first, q, z, old(hp[..]), r, hp[..])
  {
    ghost var T := hp[..];
    var f := Pow2(n);
    var j := first;
    LowSmall(first, n);
    forall c: nat | c < first ensures Low(c, n) != first { LowSmall(c, n); }
    while j < z
      invariant Low(j, n) == first
      invariant FilledUpTo(n, first, q, z, T, r, hp[..], if j < z then j else z)
    {
      forall c: nat | j < c < j + f ensures Low(c, n) != first { Residues(j, c, n); }
      Residues(j, j, n);
      hp[q + j] := r;
      j := j + f;
    }
  }

  // ----- backing up -----

  lemma NextPos(k: nat, C: nat, i: nat, S: nat)
    requires PosAt(k, C, i, S) && C < Pow2(k)
    ensures i < Pow2(k) && PosAt(k, C + 1, RevInc(k, i), Shl(C + 1, BMAX - k)) && RevInc(k, i) < Pow2(k)
  {
    PosFacts(k, C, i, S);
    RevIncCounts(k, i);
    if C + 1 < Pow2(k) { RevOfNext(k, i, C); }
  }

  lemma RevOfNext(k: nat, i: nat, C: nat)
    requires i < Pow2(k) && Rev(k, i) == C && C + 1 < Pow2(k)
    ensures RevInc(k, i) == Rev(k, C + 1)
  {
    RevIncCounts(k, i);
    RevRev(k, RevInc(k, i));
    LowSmall(RevInc(k, i), k);
  }

  /** While backing up: the stack still describes the old codeword, and the next one starts afresh below it. */
  ghost predicate Backing(e: Env, k: nat, i: nat, i': nat, s: Regs, sh: Shadow) {
    && Stacked(e, i, s, sh) && s.h >= 0 && s.w < k && Shr(i', s.w + e.l) == 0
    && sh.ws[s.h] + sh.js[s.h] <= BMAX
    && (sh.js[s.h] >= e.l || End(sh.ws[s.h], s.x[s.h]) <= Used(e.ext, sh.ws[s.h] + sh.js[s.h]))
    && (k <= s.w + e.l ==> s.q == s.u[s.h] && s.z == Pow2(sh.js[s.h]))
  }

  /** The invariants that do not depend on which codeword is the current one. */
  ghost predicate Kept(e: Env, g: nat, k: nat, C: nat, S: nat, s: Regs, sh: Shadow, T: seq<Huft>)
    requires e.tr.Valid()
  {
    && Chained(e, k, s, sh, T) && g <= BMAX && Exact(e, g, S, s.hn, -1)
    && FirstCode(e.ext, k) <= C <= FirstCode(e.ext, k) + Count(e.ext, k)
    && (if sh.skip then Skips(e.ext, e.l)
        else Celled(e, S, s, sh, T) && Budgeted(e, g, k, CodesFrom(e.ext, k, C), s, sh))
  }

  lemma PopStacked(e: Env, i: nat, s: Regs, sh: Shadow)
    requires Stacked(e, i, s, sh) && s.h >= 1
    ensures Stacked(e, i, PoppedRegs(e.l, s), PoppedShadow(sh))
    ensures sh.js[s.h - 1] >= e.l && sh.ws[s.h - 1] + sh.js[s.h - 1] <= BMAX && sh.ws[s.h - 1] + e.l == sh.ws[s.h]
  {
    hide Pow2, Low, OnGrid;
    var s', sh' := PoppedRegs(e.l, s), PoppedShadow(sh);
    assert Nests(e.l, s, sh, s.h - 1) && Level(e, i, s, sh, s.h - 1);
    forall t | 0 <= t <= s'.h ensures Level(e, i, s', sh', t) {
      assert Level(e, i, s, sh, t);
    }
    forall t | 0 <= t < s'.h ensures Nests(e.l, s', sh', t) {
      assert Nests(e.l, s, sh, t);
    }
  }

  lemma PopBacking(e: Env, k: nat, i: nat, i': nat, s: Regs, sh: Shadow)
    requires 1 <= e.l && Backing(e, k, i, i', s, sh) && s.h >= 1
    requires i < Pow2(k) && i' == RevInc(k, i) && Low(i', s.w) != Low(i, s.w)
    ensures Backing(e, k, i, i', PoppedRegs(e.l, s), PoppedShadow(sh))
  {
    hide Pow2, Low, Shr, Used, End, RevInc, Level, Nests;
    PopStacked(e, i, s, sh);
    RevIncPrefix(k, i, s.w);
  }

  lemma BackedUp(e: Env, k: nat, i: nat, i': nat, s: Regs, sh: Shadow)
    requires Backing(e, k, i, i', s, sh) && Low(i', s.w) == Low(i, s.w)
    ensures Stacked(e, i', s, sh) && Top(e, k, i', s, sh)
  {
    hide Pow2, Low, Shr, Used, End, OnGrid;
    forall t | 0 <= t <= s.h ensures Level(e, i', s, sh, t) {
      assert Level(e, i, s, sh, t);
      LevelsAscend(e, i, s, sh, t, s.h);
      LowLow(i, sh.ws[t], s.w);
      LowLow(i', sh.ws[t], s.w);
    }
    assert Level(e, i', s, sh, s.h);
  }

  lemma PopKept(e: Env, g: nat, k: nat, C: nat, i: nat, S: nat, s: Regs, sh: Shadow, T: seq<Huft>)
    requires e.Valid() && Kept(e, g, k, C, S, s, sh, T) && Stacked(e, i, s, sh) && s.h >= 1 && sh.ws[s.h] <= BMAX
    requires 1 <= k <= BMAX && S == Shl(C, BMAX - k) && End(sh.ws[s.h], s.x[s.h]) <= S
    ensures Kept(e, g, k, C, S, PoppedRegs(e.l, s), PoppedShadow(sh), T)
  {
    hide Pow2, Shl, Used, FirstCode, Count, Celled, Budgeted, Chained, Skips, End, Level, Nests, CodesFrom, Complete;
    PopChained(e, k, i, s, sh, T);
    if !sh.skip {
      PopCelled(e, i, S, s, sh, T);
      PopBudgeted(e, g, i, k, C, s, sh);
    }
  }

  /** Closes the tables the next codeword is not under. */
  method BackUp(ghost e: Env, ghost g: nat, k: nat, l: nat, ghost C: nat, ghost i: nat, ghost S: nat, i': nat,
      s: Regs, ghost sh: Shadow, ghost T: seq<Huft>) returns (s': Regs, ghost sh': Shadow)
    requires e.Valid() && l == e.l && PosAt(k, C, i, S) && C < Pow2(k) && i < Pow2(k) && i' == RevInc(k, i)
    requires PosAt(k, C + 1, i', Shl(C + 1, BMAX - k))
    requires Backing(e, k, i, i', s, sh) && Kept(e, g, k, C + 1, Shl(C + 1, BMAX - k), s, sh, T)
    ensures Stacked(e, i', s', sh') && Top(e, k, i', s', sh') && s'.h >= 0
    ensures s'.hn == s.hn && s'.q == s.q && s'.u == s.u && s'.w >= 0 && Low(i', s'.w) == Low(i, s'.w)
    ensures Kept(e, g, k, C + 1, Shl(C + 1, BMAX - k), s', sh', T)
  {
    hide Pow2, Shl, Shr, Low, Rev, RevInc, Used, FirstCode, Count, Celled, Budgeted, Chained, Skips, Exact, End,
      Nests, CodesFrom, Complete, Kept, OnGrid;
    s', sh' := s, sh;
    while Low(i', s'.w) != s'.x[s'.h]
      invariant Backing(e, k, i, i', s', sh')
      invariant s'.hn == s.hn && s'.q == s.q && s'.u == s.u
      invariant Kept(e, g, k, C + 1, Shl(C + 1, BMAX - k), s', sh', T)
      decreases s'.h
    {
      assert Level(e, i, s', sh', s'.h);
      CloseTable(e, g, k, C, i, S, i', s', sh', T);
      s', sh' := PoppedRegs(l, s'), PoppedShadow(sh');
    }
    assert Level(e, i, s', sh', s'.h);
    BackedUp(e, k, i, i', s', sh');
  }

  /** One round of backing up. The first table is never closed. */
  lemma CloseTable(e: Env, g: nat, k: nat, C: nat, i: nat, S: nat, i': nat, s: Regs, sh: Shadow, T: seq<Huft>)
    requires e.Valid() && PosAt(k, C, i, S) && C < Pow2(k) && i < Pow2(k) && i' == RevInc(k, i)
    requires PosAt(k, C + 1, i', Shl(C + 1, BMAX - k))
    requires Backing(e, k, i, i', s, sh) && Kept(e, g, k, C + 1, Shl(C + 1, BMAX - k), s, sh, T)
    requires Low(i', s.w) != s.x[s.h]
    ensures s.h >= 1 && Backing(e, k, i, i', PoppedRegs(e.l, s), PoppedShadow(sh))
    ensures Kept(e, g, k, C + 1, Shl(C + 1, BMAX - k), PoppedRegs(e.l, s), PoppedShadow(sh), T)
  {
    hide Pow2, Shl, Shr, Rev, RevInc, Used, FirstCode, Count, Celled, Budgeted, Chained, Skips, Exact, End, Nests,
      CodesFrom, Complete, Kept, OnGrid;
    assert Level(e, i, s, sh, s.h);
    PrefixFinished(k, C, i, S, s.w, i');
    PopBacking(e, k, i, i', s, sh);
    PopKept(e, g, k, C + 1, i, Shl(C + 1, BMAX - k), s, sh, T);
  }

  // ----- one codeword -----

  /** A two-entry table whose entries have the same value. */
  predicate LonePair(T: seq<Huft>, t: nat) {
    t + 1 < |T| && T[t + 1].base == T[t].base && T[t].bits == T[t + 1].bits == 1
  }

  /** While the codes of one bit are placed: the second entry of a lone code keeps the value of the first. */
  predicate LoneStep(C: nat, i: nat, s: Regs, r: Huft, T: seq<Huft>, lone: bool)
    requires |s.u| == BMAX
  {
    && (C == 1 ==> i == 1 && s.q == s.u[0] < |T| && T[s.q] == r && r.bits == 1)
    && (C == 2 && lone ==> LonePair(T, s.u[0]))
  }

  predicate Progress(tr: Tree, ext: seq<nat>, k: nat, C: nat, p: nat, s: Regs) {
    && FirstCode(ext, k) <= C && (C > FirstCode(ext, k) ==> s.h >= 0)
    && p == Off(tr.lens, k) + Taken(tr.lens, k, C - FirstCode(ext, k))
  }

  /** Makes tables up to the level the current codeword needs. */
  method OpenTables(ghost e: Env, c: seq<nat>, k: nat, g: nat, l: nat, a: nat, ghost C: nat, i: nat, ghost S: nat,
      s: Regs, ghost sh: Shadow, r: Huft, hp: array<Huft>) returns (ok: bool, s': Regs, ghost sh': Shadow, r': Huft)
    requires AtCode(e, g, k, C, i, S, s, sh, hp[..]) && C + a + 1 == FirstCode(e.ext, k) + Count(e.ext, k)
    requires l == e.l && hp.Length == MANY && Counts(e.ext, c) && Used(e.ext, g) == Pow2(BMAX)
    modifies hp
    ensures ok ==> AtCode(e, g, k, C, i, S, s', sh', hp[..]) && k <= s'.w + l && s'.h >= 0
    ensures !ok ==> NoSpace(e, g)
    ensures k <= s.w + l ==> ok && s' == s && r' == r && hp[..] == old(hp[..])
    ensures e.base <= hp.Length && hp[..e.base] == old(hp[..e.base])
  {
    hide Pow2, Shl, Shr, Used, FirstCode, Count, Celled, Budgeted, Chained, Skips, Exact, CodesFrom, Complete,
      Stacked, Counts;
    CodesFit(e.ext, k);
    AtCodeTop(e, g, k, C, i, S, s, sh, hp[..]);
    s', sh', ok, r' := s, sh, true, r;
    while k > s'.w + l
      invariant AtCode(e, g, k, C, i, S, s', sh', hp[..]) && s'.w + l >= 0 && (k <= s'.w + l ==> s'.h >= 0)
      invariant k <= s.w + l ==> s' == s && r' == r && hp[..] == old(hp[..])
      invariant hp[..e.base] == old(hp[..e.base])
      decreases k - s'.w
    {
      ok, s', sh', r' := OpenTable(e, c, k, g, l, a, C, i, S, s', sh', r', hp);
      if !ok { return; }
      AtCodeTop(e, g, k, C, i, S, s', sh', hp[..]);
    }
  }

  lemma AtCodeTop(e: Env, g: nat, k: nat, C: nat, i: nat, S: nat, s: Regs, sh: Shadow, T: seq<Huft>)
    requires AtCode(e, g, k, C, i, S, s, sh, T)
    ensures Shaped(e, s, sh) && 1 <= e.l && e.base <= s.hn <= |T| && s.w < k && k >= 1 && s.w + e.l >= 0
    ensures k <= s.w + e.l ==> s.h >= 0
  {
    hide Pow2, Shl, Shr, Used, FirstCode, Count, Celled, Budgeted, Chained, Skips, Exact, CodesFrom, Complete, Level,
      Nests;
  }

  /** Once a codeword is placed, its tables count as those of positions passed. */
  lemma NextExact(e: Env, g: nat, k: nat, C: nat, i: nat, S: nat, s: Regs, sh: Shadow)
    requires 1 <= e.l && PosAt(k, C, i, S) && C < Pow2(k) && C < FirstCode(e.ext, k) + Count(e.ext, k) && g <= BMAX
    requires Stacked(e, i, s, sh) && s.h >= 0 && s.w < k <= s.w + e.l && Exact(e, g, S, s.hn, s.w)
    ensures Exact(e, g, Shl(C + 1, BMAX - k), s.hn, -1)
  {
    hide Pow2, Shl, Rev, Shr, Low, FirstCode, Count, Nests, Opened, OnGrid;
    assert Level(e, i, s, sh, s.h);
    ZeroOnGrid(e.l);
    ShlMono(C, Pow2(k), BMAX - k);
    Pow2Add(k, BMAX - k);
    OpenedNext(e.ext, e.l, g, 0, k, C, s.w);
  }

  /** No table starts at the next codeword while those it shares with the last one are open. */
  lemma LaterExact(e: Env, g: nat, k: nat, C: nat, i: nat, S: nat, i': nat, s: Regs, sh: Shadow)
    requires PosAt(k, C, i, S) && C < Pow2(k) && PosAt(k, C + 1, i', Shl(C + 1, BMAX - k)) && g <= BMAX
    requires 0 <= s.w < k && Low(i', s.w) == Low(i, s.w) && Exact(e, g, Shl(C + 1, BMAX - k), s.hn, -1)
    ensures Exact(e, g, Shl(C + 1, BMAX - k), s.hn, s.w)
  {
    hide Pow2, Shl, Rev, Low, Opened, Starts;
    SharedPrefix(k, C, i, S, i', s.w);
    OpenedLater(e.ext, e.l, g, 0, Shl(C + 1, BMAX - k), s.w);
  }

  /** The leaf entry makes right all entries the codeword reaches, and breaks nothing else. */
  lemma CodePlaced(e: Env, g: nat, k: nat, C: nat, i: nat, S: nat, s: Regs, sh: Shadow, T: seq<Huft>, r: Huft,
      T': seq<Huft>)
    requires AtCode(e, g, k, C, i, S, s, sh, T) && C < FirstCode(e.ext, k) + Count(e.ext, k)
    requires k <= s.w + e.l && s.h >= 0 && C < Pow2(k)
    requires r.bits == k - s.w && !IsLink(r) && LeafIs(e.tr, SymAt(e.ext, k, C - FirstCode(e.ext, k)), r)
    requires 0 <= s.w <= k && Filled(k - s.w, Shr(i, s.w), s.q, s.z, T, r, T')
    ensures Kept(e, g, k, C + 1, Shl(C + 1, BMAX - k), s, sh, T')
  {
    hide Pow2, Shl, Shr, Rev, Used, FirstCode, Count, Celled, Budgeted, Chained, Skips, Exact, Complete, Nests, SymAt,
      Low, Filled, LeafIs, IsLink;
    PosFacts(k, C, i, S);
    FillChained(e, k, i, s, sh, T, k - s.w, Shr(i, s.w), r, T');
    NextExact(e, g, k, C, i, S, s, sh);
    if !sh.skip {
      assert Level(e, i, s, sh, s.h);
      TopFits(e, k, C, i, S, s, sh);
      ChainedLinks(e, k, s, sh, T);
      AdvanceCells(e, k, C, i, S, s, sh, T, r, T');
      LaterBudgeted(e, g, k, CodesFrom(e.ext, k, C), k, CodesFrom(e.ext, k, C + 1), s, sh);
    }
  }

  lemma ChainedLinks(e: Env, k: nat, s: Regs, sh: Shadow, T: seq<Huft>)
    requires Chained(e, k, s, sh, T)
    ensures Linked(e, s, sh, T)
  {}

  lemma ReadyToBackUp(e: Env, k: nat, C: nat, i: nat, S: nat, s: Regs, sh: Shadow)
    requires e.Valid() && PosAt(k, C, i, S) && C < Pow2(k) && i < Pow2(k)
    requires Stacked(e, i, s, sh) && Top(e, k, i, s, sh) && k <= s.w + e.l && s.h >= 0
    ensures Backing(e, k, i, RevInc(k, i), s, sh)
    ensures PosAt(k, C + 1, RevInc(k, i), Shl(C + 1, BMAX - k))
  {
    hide Pow2, Shl, Shr, Low, Rev, RevInc, Used, Complete, Level, Nests, End;
    NextPos(k, C, i, S);
    Pow2Mono(k, s.w + e.l);
    LowSmall(RevInc(k, i), s.w + e.l);
  }

  lemma CanFill(e: Env, g: nat, k: nat, C: nat, i: nat, S: nat, s: Regs, sh: Shadow, T: seq<Huft>)
    requires AtCode(e, g, k, C, i, S, s, sh, T) && C < FirstCode(e.ext, k) + Count(e.ext, k)
    requires k <= s.w + e.l && s.h >= 0
    ensures 0 <= s.w < k && s.q + s.z <= s.hn && e.base <= s.q && Shr(i, s.w) < Pow2(k - s.w)
    ensures C < Pow2(k) && i < Pow2(k)
  {
    hide Pow2, Shl, Shr, Low, Rev, Used, FirstCode, Count, Celled, Budgeted, Chained, Skips, Exact, CodesFrom, Nests;
    CodesFit(e.ext, k);
    PosFacts(k, C, i, S);
    assert Level(e, i, s, sh, s.h);
    LowSmall(i, k);
    ShrLow(i, s.w, k - s.w);
    LowBound(Shr(i, s.w), k - s.w);
  }

  lemma OneBitState(e: Env, i: nat, s: Regs, sh: Shadow)
    requires Stacked(e, i, s, sh) && Top(e, 1, i, s, sh) && s.h >= 0 && 1 <= e.l && i < 2
    ensures s.w == 0 && s.h == 0 && s.q == s.u[0] && s.z >= 2
    ensures Low(i, 1) == i && Shr(i, 0) == i && Low(0, 1) == 0
  {
    hide Used, End, OnGrid;
    assert Level(e, i, s, sh, s.h);
    Pow2Mono(1, sh.js[s.h]);
  }

  /** Writes the entries of the current codeword into the innermost table. */
  method FillCode(ghost e: Env, tr: Tree, v: seq<nat>, k: nat, g: nat, ghost y: nat,
      ghost C: nat, i: nat, ghost S: nat, p: nat, s: Regs, ghost sh: Shadow, r: Huft, hp: array<Huft>)
      returns (p': nat, r': Huft)
    requires AtCode(e, g, k, C, i, S, s, sh, hp[..]) && C < FirstCode(e.ext, k) + Count(e.ext, k)
    requires k <= s.w + e.l && s.h >= 0
    requires tr == e.tr && e.ext == Extend(tr.lens, g, y) && InOrder(tr.lens, v)
    requires k < g ==> Count(e.ext, k) == Count(tr.lens, k)
    requires k == g ==> Off(tr.lens, k) + Count(tr.lens, k) == |v|
    requires p == Off(tr.lens, k) + Taken(tr.lens, k, C - FirstCode(e.ext, k))
    modifies hp
    ensures p' == Off(tr.lens, k) + Taken(tr.lens, k, C + 1 - FirstCode(e.ext, k))
    ensures C < Pow2(k) && i < Pow2(k)
    ensures Kept(e, g, k, C + 1, Shl(C + 1, BMAX - k), s, sh, hp[..])
    ensures e.base <= hp.Length && hp[..e.base] == old(hp[..e.base])
    ensures k == 1 ==> r'.bits == 1 && s.q + i < hp.Length && hp[s.q + i] == r' && (i == 1 ==> hp[s.q] == old(hp[s.q]))
    ensures p == |v| ==> r'.base == r.base
  {
    hide Pow2, Shl, Shr, Low, Rev, Used, FirstCode, Count, Celled, Budgeted, Chained, Skips, Exact, CodesFrom, Nests,
      Level, Extend, Off, Taken, InOrder, SymAt, LeafIs, Kept, PosAt, Complete;
    ghost var T := hp[..];
    CanFill(e, g, k, C, i, S, s, sh, T);
    r', p' := MakeEntry(tr, v, g, y, k, k - s.w, p, C - FirstCode(e.ext, k), r);
    FillTable(hp, s.q, s.z, k - s.w, Shr(i, s.w), r');
    CodePlaced(e, g, k, C, i, S, s, sh, T, r', hp[..]);
    assert forall x :: 0 <= x < e.base ==> hp[..][x] == T[x];
    if k == 1 {
      AtOneBit(e, g, C, i, S, s, sh, T);
      OneBitState(e, i, s, sh);
    }
  }

  lemma AtOneBit(e: Env, g: nat, C: nat, i: nat, S: nat, s: Regs, sh: Shadow, T: seq<Huft>)
    requires AtCode(e, g, 1, C, i, S, s, sh, T) && C < Pow2(1)
    ensures i < 2
  {
    hide Used, FirstCode, Count, Celled, Budgeted, Chained, Skips, Exact, Stacked, Top;
    PosFacts(1, C, i, S);
  }

  lemma LoneTaken(tr: Tree, ext: seq<nat>, p: nat, s: Regs)
    requires Progress(tr, ext, 1, 1, p, s) && Count(tr.lens, 1) == 1
    ensures p == 1
  {
    hide Count;
  }

  lemma PowOne()
    ensures Pow2(1) == 2
  {}

  lemma OneBitCodes(ext: seq<nat>, C: nat, i: nat, S: nat)
    requires PosAt(1, C, i, S)
    ensures FirstCode(ext, 1) == 0 && (C == 0 ==> i == 0) && (C == 1 ==> i == 1)
  {}

  /** The code has a gap that tables of l bits cannot bridge, and the space was new. */
  ghost predicate Doomed(e: Env) {
    Skips(e.ext, e.l) && Blank(e.init, e.base)
  }

  lemma LastCodeJams(e: Env, g: nat, y: nat, k: nat, C: nat, i: nat, S: nat, s: Regs, sh: Shadow, T: seq<Huft>)
    requires e.Valid() && PosAt(k, C, i, S) && C + 1 == Pow2(k) && k <= s.w + e.l && s.h >= 0 && s.w < k
    requires Stacked(e, i, s, sh) && Kept(e, g, k, C + 1, Shl(C + 1, BMAX - k), s, sh, T) && s.hn <= |T|
    requires e.ext == Extend(e.tr.lens, g, y) && g == Longest(e.tr.lens) && k == g && Count(e.ext, g) > 0
    requires Doomed(e)
    ensures !Follows(T, s.u[0], e.l, e.tr)
  {
    hide Pow2, Shl, Rev, Used, FirstCode, Longest, Complete, Celled, Budgeted, Chained, Skips, Exact, Blank, Stacked,
      Extend;
    ExtendLongest(e.tr.lens, g, y);
    Jams(e, g, y, k, C, i, S, s, sh, T);
  }

  lemma ExtendLongest(lens: seq<nat>, g: nat, y: nat)
    requires g == Longest(lens)
    ensures Longest(Extend(lens, g, y)) == g
  {
    var ext := Extend(lens, g, y);
    assert forall i :: 0 <= i < |ext| ==> ext[i] <= g;
    if g > 0 {
      var i :| 0 <= i < |lens| && lens[i] == g;
      assert ext[i] == g;
    }
  }

  /** One codeword: open its tables, write its entries, step to the next codeword and close finished tables. */
  method PlaceCode(ghost e: Env, tr: Tree, v: seq<nat>, c: seq<nat>, k: nat, g: nat, ghost y: nat, l: nat, a: nat,
      ghost C: nat, i: nat, ghost S: nat, p: nat, s: Regs, ghost sh: Shadow, r: Huft, hp: array<Huft>, ghost lone: bool)
      returns (ok: bool, i': nat, p': nat, s': Regs, ghost sh': Shadow, r': Huft)
    requires AtCode(e, g, k, C, i, S, s, sh, hp[..]) && C + a + 1 == FirstCode(e.ext, k) + Count(e.ext, k)
    requires l == e.l && hp.Length == MANY && Counts(e.ext, c) && Used(e.ext, g) == Pow2(BMAX)
    requires tr == e.tr && e.ext == Extend(tr.lens, g, y) && InOrder(tr.lens, v) && g == Longest(tr.lens)
    requires k < g ==> Count(e.ext, k) == Count(tr.lens, k)
    requires k == g ==> Off(tr.lens, k) + Count(tr.lens, k) == |v|
    requires Progress(tr, e.ext, k, C, p, s)
    requires k == 1 ==> LoneStep(C, i, s, r, hp[..], lone)
    requires lone ==> Count(tr.lens, 1) == |v| == 1
    modifies hp
    ensures ok ==> AtCode(e, g, k, C + 1, i', Shl(C + 1, BMAX - k), s', sh', hp[..])
    ensures ok ==> Progress(tr, e.ext, k, C + 1, p', s') && s'.h >= 0
    ensures ok && k == 1 ==> LoneStep(C + 1, i', s', r', hp[..], lone)
    ensures ok && k == g && C + 1 == Pow2(k) && Doomed(e) ==> !Follows(hp[..], s'.u[0], e.l, e.tr)
    ensures !ok ==> NoSpace(e, g)
    ensures e.base <= hp.Length && hp[..e.base] == old(hp[..e.base])
  {
    hide Pow2, Shl, Rev, RevInc, Shr, Used, FirstCode, Count, Complete, Celled, Budgeted, Chained, Skips, Exact,
      Level, Nests, Extend, Off, Taken, InOrder, CodesFrom, Counts, Follows, Doomed, Longest, End;
    i', p' := i, p;
    if k == 1 {
      OneBitCodes(e.ext, C, i, S);
      if C == 1 && lone { LoneTaken(tr, e.ext, p, s); }
    }
    ok, s', sh', r' := OpenTables(e, c, k, g, l, a, C, i, S, s, sh, r, hp);
    if !ok { return; }
    p', r' := FillCode(e, tr, v, k, g, y, C, i, S, p, s', sh', r', hp);
    if k == g && C + 1 == Pow2(k) && Doomed(e) { LastCodeJams(e, g, y, k, C, i, S, s', sh', hp[..]); }
    ReadyToBackUp(e, k, C, i, S, s', sh');
    i' := BackwardIncrement(k, i);
    s', sh' := BackUp(e, g, k, l, C, i, S, i', s', sh', hp[..]);
    LaterExact(e, g, k, C, i, S, i', s', sh');
    if k == 1 {
      PowOne();
      NextPos(1, C, i, S);
      OneBitState(e, i', s', sh');
      OneBitCodes(e.ext, C + 1, i', Shl(C + 1, BMAX - k));
    }
  }
}
