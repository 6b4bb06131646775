/** The invariant of huft_build's table loop: a stack of open tables under the current codeword,
    and every entry whose codes have been assigned right for its role. */
module HuftStack {
  import opened Bits
  import opened Canonical
  import opened CodeSpace
  import opened HuftTable

  /** What the loop keeps fixed: the code with its dummy symbols (ext is complete), the bits per table, where the new
      tables start and how many entries they may take, and what the space held before. */
  datatype Env = Env(tr: Tree, ext: seq<nat>, l: nat, base: nat, total: nat, init: seq<Huft>) {
    ghost predicate Valid() {
      tr.Valid() && ValidLengths(ext) && Complete(ext) && 1 <= l <= BMAX
    }
  }

  /** The source's locals: level h, bits before the current table w, code stack x, table stack u,
      current table q of z entries, and entries used hn. */
  datatype Regs = Regs(h: int, w: int, x: seq<nat>, u: seq<nat>, q: nat, z: nat, hn: nat)

  /** How the entries the tables may take are shared out. For each number w of bits before a table: the entries left for
      tables not yet opened there, and for the table open there, the length of the first code behind it and how many
      codes there are behind it, or bounds for these. */
  datatype Ledger = Ledger(left: seq<nat>, from: seq<nat>, codes: seq<nat>)

  /** Ghost companions: the role of each entry, and per open table its level in bits and its size in bits.
      `skip`: some table was opened with more than l bits. */
  datatype Shadow = Shadow(cells: seq<Cell>, ws: seq<nat>, js: seq<nat>, skip: bool, led: Ledger)

  /** The current codeword: the C-th of length k, reversed in i, at position S of the code space. */
  predicate PosAt(k: nat, C: nat, i: nat, S: nat) {
    && 1 <= k <= BMAX && C <= Pow2(k)
    && S == Shl(C, BMAX - k)
    && i == (if C == Pow2(k) then 0 else Rev(k, C))
  }

  /** w is a multiple of l. */
  predicate OnGrid(l: nat, w: nat) {
    w == 0 || (1 <= l <= w && OnGrid(l, w - l))
  }

  predicate Level(e: Env, i: nat, s: Regs, sh: Shadow, t: nat)
    requires t < |s.x| && t < |s.u| && t < |sh.ws| && t < |sh.js|
  {
    && t <= sh.ws[t] && OnGrid(e.l, sh.ws[t]) && 1 <= sh.js[t] && sh.ws[t] + sh.js[t] <= BMAX
    && s.x[t] == Low(i, sh.ws[t])
    && e.base <= s.u[t] && s.u[t] + Pow2(sh.js[t]) <= s.hn
  }

  predicate Shaped(e: Env, s: Regs, sh: Shadow) {
    && -1 <= s.h < BMAX && |s.x| == BMAX + 1 && |s.u| == BMAX
    && |sh.ws| == s.h + 1 == |sh.js|
    && s.w == (if s.h < 0 then 0 - e.l else sh.ws[s.h])
    && (s.h >= 0 ==> sh.ws[0] == 0)
  }

  predicate Nests(l: nat, s: Regs, sh: Shadow, t: nat)
    requires t + 1 < |sh.ws| && t + 1 < |s.u| && t < |sh.js|
  {
    sh.ws[t + 1] == sh.ws[t] + l && sh.js[t] >= l && s.u[t] + Pow2(sh.js[t]) <= s.u[t + 1]
  }

  /** The open tables nest, each reached through l more bits of the current codeword and placed behind the one before.
      */
  ghost predicate Stacked(e: Env, i: nat, s: Regs, sh: Shadow) {
    && Shaped(e, s, sh)
    && (forall t {:trigger Nests(e.l, s, sh, t)} :: 0 <= t < s.h ==> Nests(e.l, s, sh, t))
    && (forall t {:trigger Level(e, i, s, sh, t)} :: 0 <= t <= s.h ==> Level(e, i, s, sh, t))
  }

  /** The current table is the innermost one whenever it can take codes of length k, and is as small as it is
      only because its codes end there. */
  predicate Top(e: Env, k: nat, i: nat, s: Regs, sh: Shadow)
    requires Shaped(e, s, sh)
  {
    && s.w + e.l >= 0 && Shr(i, s.w + e.l) == 0 && k > s.w
    && (k <= s.w + e.l ==> s.h >= 0 && s.q == s.u[s.h] && s.z == Pow2(sh.js[s.h]))
    && (s.h >= 0 ==>
          && sh.ws[s.h] + sh.js[s.h] <= BMAX
          && (sh.js[s.h] >= e.l || End(sh.ws[s.h], s.x[s.h]) <= Used(e.ext, sh.ws[s.h] + sh.js[s.h])))
  }

  predicate StackLink(e: Env, s: Regs, sh: Shadow, T: seq<Huft>, t: nat)
    requires Shaped(e, s, sh) && t < s.h && t + 1 < |s.x|
  {
    var c := s.u[t] + Shr(s.x[t + 1], sh.ws[t]);
    && c < |T| && T[c].exop == sh.js[t + 1] && T[c].bits == e.l && c + T[c].base == s.u[t + 1]
  }

  /** Each open table is reached through its link in the one before. */
  ghost predicate Linked(e: Env, s: Regs, sh: Shadow, T: seq<Huft>) {
    && Shaped(e, s, sh)
    && (forall t {:trigger StackLink(e, s, sh, T, t)} :: 0 <= t < s.h ==> StackLink(e, s, sh, T, t))
  }

  predicate OnStack(s: Regs, sh: Shadow, c: nat)
    requires c < |sh.cells| && |s.u| == BMAX && s.h < BMAX && |sh.js| == s.h + 1
  {
    var lev := sh.cells[c].lev;
    lev <= s.h && s.u[lev] <= c < s.u[lev] + Pow2(sh.js[lev])
  }

  /** An entry is right once the assigned codes reach past its start; its table is open or completely assigned. */
  predicate CellInv(e: Env, S: nat, s: Regs, sh: Shadow, c: nat, en: Huft)
    requires e.tr.Valid() && c < |sh.cells| && |s.u| == BMAX && s.h < BMAX && |sh.js| == s.h + 1
  {
    var cl := sh.cells[c];
    && cl.w + cl.j <= BMAX && cl.tpat < Pow2(cl.w) && cl.e < Pow2(cl.j)
    && (Start(cl.w + cl.j, cl.Pat()) < S ==> CellOK(e.tr, e.ext, e.l, sh.cells, c, en))
    && (End(cl.w, cl.tpat) <= S || OnStack(s, sh, c))
  }

  predicate OpenTableAt(e: Env, s: Regs, sh: Shadow, t: nat)
    requires Shaped(e, s, sh) && t <= s.h
  {
    && TableAt(sh.cells, s.u[t], t, sh.ws[t], sh.js[t], s.x[t])
    && Sized(e.ext, e.l, sh.ws[t], s.x[t], sh.js[t])
  }

  ghost predicate Tabled(e: Env, s: Regs, sh: Shadow)
  {
    && Shaped(e, s, sh)
    && (forall t {:trigger OpenTableAt(e, s, sh, t)} :: 0 <= t <= s.h ==> OpenTableAt(e, s, sh, t))
  }

  /** Every entry written so far is right for the codes assigned so far. */
  ghost predicate Celled(e: Env, S: nat, s: Regs, sh: Shadow, T: seq<Huft>)
    requires e.tr.Valid()
  {
    && Tabled(e, s, sh)
    && |sh.cells| == s.hn <= |T|
    && (forall c {:trigger CellInv(e, S, s, sh, c, T[c])} :: e.base <= c < s.hn ==> CellInv(e, S, s, sh, c, T[c]))
  }

  // ----- positions -----

  lemma PosFacts(k: nat, C: nat, i: nat, S: nat)
    requires PosAt(k, C, i, S) && C < Pow2(k)
    ensures i < Pow2(k) && Rev(k, i) == C
    ensures S == Start(k, i) && Shl(C + 1, BMAX - k) == End(k, i)
  {
    RevBound(k, C);
    RevRev(k, C);
    LowSmall(C, k);
  }

  /** The current codeword lies in the slot of each of its prefixes. */
  lemma InOwnPrefix(k: nat, C: nat, i: nat, S: nat, w: nat)
    requires PosAt(k, C, i, S) && C < Pow2(k) && w <= k
    ensures Start(w, Low(i, w)) <= S < Shl(C + 1, BMAX - k) <= End(w, Low(i, w))
  {
    hide Pow2, Shl, Rev, Low;
    PosFacts(k, C, i, S);
    Nested(w, k, i);
    StartLow(w, w, i);
  }

  /** At the start of a prefix the codeword's own slot starts where the prefix's does. */
  lemma AtPrefixStart(k: nat, C: nat, i: nat, S: nat, w: nat)
    requires PosAt(k, C, i, S) && C < Pow2(k) && w <= k && Shr(i, w) == 0
    ensures Low(i, w) == i && i < Pow2(w) && Start(w, i) == S && C == Shl(Rev(w, i), k - w)
  {
    hide Pow2, Shl, Rev, Shr;
    PosFacts(k, C, i, S);
    ShrZeroBound(i, w);
    LowSmall(i, w);
    RevSplit(w, k - w, i);
    RevZero(k - w);
    Scale(Rev(w, i), w, k, k - w);
  }

  lemma RevZero(n: nat)
    ensures Rev(n, 0) == 0
  {
    if n > 0 {
      RevZero(n - 1);
      ShlOne(n - 1);
    }
  }

  /** Codes shorter than the current one do not reach the end of any prefix of the current codeword. */
  lemma PrefixUnfinished(ext: seq<nat>, k: nat, C: nat, i: nat, S: nat, w: nat, n: nat)
    requires PosAt(k, C, i, S) && C < Pow2(k) && FirstCode(ext, k) <= C && w <= k && n < k
    ensures Used(ext, n) < End(w, Low(i, w))
  {
    hide Pow2, Shl, Rev, Used, FirstCode, Count, Low;
    InOwnPrefix(k, C, i, S, w);
    FirstCodePosition(ext, k);
    ShlMono(FirstCode(ext, k), C, BMAX - k);
    UsedMono(ext, n, k - 1);
  }

  /** A table whose codes end before the requested size cannot need a further table. */
  lemma ParentFull(e: Env, k: nat, C: nat, i: nat, S: nat, s: Regs, sh: Shadow)
    requires PosAt(k, C, i, S) && C < Pow2(k) && FirstCode(e.ext, k) <= C
    requires Shaped(e, s, sh) && s.h >= 0 && Level(e, i, s, sh, s.h) && Top(e, k, i, s, sh) && k > s.w + e.l
    ensures sh.js[s.h] >= e.l
  {
    hide Pow2, Low, Used, FirstCode, PosAt, Shr, OnGrid, End;
    if sh.js[s.h] < e.l {
      PrefixUnfinished(e.ext, k, C, i, S, sh.ws[s.h], sh.ws[s.h] + sh.js[s.h]);
    }
  }

  lemma TopFits(e: Env, k: nat, C: nat, i: nat, S: nat, s: Regs, sh: Shadow)
    requires PosAt(k, C, i, S) && C < Pow2(k) && FirstCode(e.ext, k) <= C
    requires Shaped(e, s, sh) && s.h >= 0 && Level(e, i, s, sh, s.h) && Top(e, k, i, s, sh) && k <= s.w + e.l
    ensures k <= s.w + sh.js[s.h]
  {
    hide Pow2, Low, Used, FirstCode, PosAt, Shr, OnGrid, End;
    if k > s.w + sh.js[s.h] {
      PrefixUnfinished(e.ext, k, C, i, S, sh.ws[s.h], sh.ws[s.h] + sh.js[s.h]);
    }
  }

  // ----- opening a table -----

  function NewCells(h: nat, w: nat, j: nat, i: nat): (cells: seq<Cell>)
    ensures |cells| == Pow2(j)
  {
    seq(Pow2(j), c requires c >= 0 => Cell(h, w, j, i, c))
  }

  function OpenedRegs(i: nat, j: nat, l: nat, s: Regs): Regs
    requires -1 <= s.h < BMAX - 1 && |s.x| == BMAX + 1 && |s.u| == BMAX
  {
    s.(h := s.h + 1, w := s.w + l, x := s.x[s.h + 1 := i], u := s.u[s.h + 1 := s.hn],
       q := s.hn, z := Pow2(j), hn := s.hn + Pow2(j))
  }

  function OpenedShadow(e: Env, i: nat, j: nat, s: Regs, sh: Shadow, led: Ledger): Shadow
    requires s.h >= -1 && s.w + e.l >= 0
  {
    Shadow(sh.cells + NewCells(s.h + 1, s.w + e.l, j, i), sh.ws + [s.w + e.l], sh.js + [j], sh.skip || j > e.l, led)
  }

  lemma OpenLevel(e: Env, i: nat, j: nat, s: Regs, sh: Shadow, led: Ledger, t: nat)
    requires Shaped(e, s, sh) && s.h < BMAX - 1 && e.base <= s.hn && t <= s.h + 1 && s.w + e.l >= 0
    requires t <= s.h ==> Level(e, i, s, sh, t)
    requires s.h >= 0 ==> Level(e, i, s, sh, s.h)
    requires 1 <= e.l && 1 <= j && s.w + e.l + j <= BMAX && Shr(i, s.w + e.l) == 0
    ensures var s' := OpenedRegs(i, j, e.l, s);
            var sh' := OpenedShadow(e, i, j, s, sh, led);
            Shaped(e, s', sh') && Level(e, i, s', sh', t)
  {
    hide Pow2, Low, Shr, NewCells;
    if t == s.h + 1 {
      ShrZeroBound(i, s.w + e.l);
      LowSmall(i, s.w + e.l);
    }
  }

  lemma OpenStacked(e: Env, i: nat, j: nat, s: Regs, sh: Shadow, led: Ledger)
    requires Stacked(e, i, s, sh) && s.h < BMAX - 1 && e.base <= s.hn && s.w + e.l >= 0
    requires s.h >= 0 ==> sh.js[s.h] >= e.l
    requires 1 <= e.l && 1 <= j && s.w + e.l + j <= BMAX && Shr(i, s.w + e.l) == 0
    ensures Stacked(e, i, OpenedRegs(i, j, e.l, s), OpenedShadow(e, i, j, s, sh, led))
  {
    hide Pow2, Low, Shr, NewCells, OnGrid;
    var s', sh' := OpenedRegs(i, j, e.l, s), OpenedShadow(e, i, j, s, sh, led);
    if s.h >= 0 { assert Level(e, i, s, sh, s.h); }
    forall t | 0 <= t <= s'.h ensures Level(e, i, s', sh', t) {
      if t <= s.h { assert Level(e, i, s, sh, t); }
      OpenLevel(e, i, j, s, sh, led, t);
    }
    OpenLevel(e, i, j, s, sh, led, 0);
    forall t | 0 <= t < s'.h ensures Nests(e.l, s', sh', t) {
      if t < s.h { assert Nests(e.l, s, sh, t); }
    }
  }

  lemma TableAtExtends(cells: seq<Cell>, more: seq<Cell>, off: nat, lev: nat, w: nat, j: nat, tpat: nat)
    requires TableAt(cells, off, lev, w, j, tpat)
    ensures TableAt(cells + more, off, lev, w, j, tpat)
  {
    hide Pow2;
    forall c | off <= c < off + Pow2(j) ensures (cells + more)[c] == Cell(lev, w, j, tpat, c - off) {
      assert (cells + more)[c] == cells[c];
    }
  }

  lemma CellOKExtends(tr: Tree, ext: seq<nat>, l: nat, cells: seq<Cell>, more: seq<Cell>, c: nat, en: Huft)
    requires tr.Valid() && c < |cells| && CellOK(tr, ext, l, cells, c, en)
    ensures CellOK(tr, ext, l, cells + more, c, en)
  {
    hide LeafCode, Sized, TableAt;
    var cl := cells[c];
    assert (cells + more)[c] == cl;
    if IsLink(en) {
      TableAtExtends(cells, more, c + en.base, cl.lev + 1, cl.w + cl.j, en.exop, cl.Pat());
    }
  }

  /** An entry of the current codeword's own table at level t: the link that leads on towards the codeword. */
  lemma LinkCell(e: Env, i: nat, s: Regs, sh: Shadow, t: nat, w': nat)
    requires Shaped(e, s, sh) && t <= s.h && OpenTableAt(e, s, sh, t)
    requires s.x[t] == Low(i, sh.ws[t]) && w' == sh.ws[t] + sh.js[t]
    ensures var c := s.u[t] + Low(Shr(i, sh.ws[t]), sh.js[t]);
            && c < |sh.cells| && sh.cells[c].Pat() == Low(i, w')
            && sh.cells[c] == Cell(t, sh.ws[t], sh.js[t], s.x[t], c - s.u[t])
  {
    hide Pow2, Low, Shr, Sized;
    LowBound(Shr(i, sh.ws[t]), sh.js[t]);
    CellPattern(i, sh.ws[t], sh.js[t]);
  }

  lemma ShrOfPrefix(i: nat, w: nat, l: nat)
    ensures Shr(Low(i, w + l), w) == Low(Shr(i, w), l)
  {
    ShrLow(i, w, l);
  }

  lemma CellStarts(w: nat, j: nat, tpat: nat, c: nat)
    requires w + j <= BMAX && tpat < Pow2(w)
    ensures Start(w, tpat) <= Start(w + j, tpat + Shl(c, w)) < End(w, tpat)
  {
    hide Pow2, Rev;
    Compose(tpat, c, w);
    Nested(w, w + j, tpat + Shl(c, w));
    StartLow(w, w, tpat + Shl(c, w));
  }

  /** An entry of a new table: no assigned code reaches it yet. */
  lemma OpenCell(e: Env, S: nat, i: nat, j: nat, s: Regs, sh: Shadow, led: Ledger, en: Huft, c: nat)
    requires e.tr.Valid() && Shaped(e, s, sh) && s.h < BMAX - 1 && |sh.cells| == s.hn
    requires 0 <= s.w + e.l && s.w + e.l + j <= BMAX && i < Pow2(s.w + e.l) && Start(s.w + e.l, i) == S
    requires s.hn <= c < s.hn + Pow2(j)
    ensures CellInv(e, S, OpenedRegs(i, j, e.l, s), OpenedShadow(e, i, j, s, sh, led), c, en)
  {
    hide Start, End, CellOK, Shl, Pow2;
    var sh' := OpenedShadow(e, i, j, s, sh, led);
    assert sh'.cells[c] == Cell(s.h + 1, s.w + e.l, j, i, c - s.hn) by {
      assert sh'.cells[c] == NewCells(s.h + 1, s.w + e.l, j, i)[c - s.hn];
    }
    CellStarts(s.w + e.l, j, i, c - s.hn);
  }

  lemma KeepCell(e: Env, S: nat, i: nat, j: nat, s: Regs, sh: Shadow, led: Ledger, en: Huft, en': Huft, c: nat)
    requires e.tr.Valid() && Shaped(e, s, sh) && s.h < BMAX - 1 && |sh.cells| == s.hn && s.w + e.l >= 0
    requires c < s.hn && CellInv(e, S, s, sh, c, en)
    requires en' == en || Start(sh.cells[c].w + sh.cells[c].j, sh.cells[c].Pat()) >= S
    ensures CellInv(e, S, OpenedRegs(i, j, e.l, s), OpenedShadow(e, i, j, s, sh, led), c, en')
  {
    hide Start, End, CellOK, Shl, Pow2, NewCells;
    var sh' := OpenedShadow(e, i, j, s, sh, led);
    assert sh'.cells[c] == sh.cells[c];
    if Start(sh.cells[c].w + sh.cells[c].j, sh.cells[c].Pat()) < S {
      CellOKExtends(e.tr, e.ext, e.l, sh.cells, NewCells(s.h + 1, s.w + e.l, j, i), c, en);
    }
  }
}
