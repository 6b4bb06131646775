/** The three things huft_build's table loop does keep its invariant: opening a table, filling in one code,
    and backing up over the tables the next code has left. */
module HuftAdvance {
  import opened Bits
  import opened Canonical
  import opened CodeSpace
  import opened HuftTable
  import opened HuftStack
  import opened HuftChain

  // ----- opening a table -----

  /** The entry of the innermost table that the current codeword leads through. */
  lemma ParentEntry(e: Env, k: nat, C: nat, i: nat, S: nat, s: Regs, sh: Shadow)
    requires e.tr.Valid() && PosAt(k, C, i, S) && C < Pow2(k)
    requires Shaped(e, s, sh) && s.h >= 0 && Level(e, i, s, sh, s.h) && OpenTableAt(e, s, sh, s.h)
    requires sh.js[s.h] == e.l && s.w + e.l <= k && Shr(i, s.w + e.l) == 0
    ensures var c := s.u[s.h] + Shr(i, sh.ws[s.h]);
            && c < |sh.cells| && c < s.u[s.h] + Pow2(e.l)
            && sh.cells[c] == Cell(s.h, sh.ws[s.h], e.l, s.x[s.h], c - s.u[s.h])
            && Start(sh.cells[c].w + sh.cells[c].j, sh.cells[c].Pat()) == S
  {
    hide Pow2, Shr, Low, Start, PosAt, Sized, OnGrid;
    var w := sh.ws[s.h];
    AtPrefixStart(k, C, i, S, w + e.l);
    LinkCell(e, i, s, sh, s.h, w + e.l);
    ShrOfPrefix(i, w, e.l);
    LowBound(Shr(i, w), e.l);
  }

  lemma OpenedTableAt(e: Env, i: nat, j: nat, s: Regs, sh: Shadow, led: Ledger, t: nat)
    requires Shaped(e, s, sh) && s.h < BMAX - 1 && |sh.cells| == s.hn && s.w + e.l >= 0
    requires Sized(e.ext, e.l, s.w + e.l, i, j) && i < Pow2(s.w + e.l)
    requires t <= s.h + 1 && (t <= s.h ==> OpenTableAt(e, s, sh, t))
    ensures var s' := OpenedRegs(i, j, e.l, s);
            var sh' := OpenedShadow(e, i, j, s, sh, led);
            Shaped(e, s', sh') && OpenTableAt(e, s', sh', t)
  {
    hide Used, End, Pow2;
    var w: nat := s.w + e.l;
    var sh' := OpenedShadow(e, i, j, s, sh, led);
    if t <= s.h {
      TableAtExtends(sh.cells, NewCells(s.h + 1, w, j, i), s.u[t], t, sh.ws[t], sh.js[t], s.x[t]);
    } else {
      forall c | s.hn <= c < s.hn + Pow2(j) ensures sh'.cells[c] == Cell(t, w, j, i, c - s.hn) {
        assert sh'.cells[c] == NewCells(s.h + 1, w, j, i)[c - s.hn];
      }
    }
  }

  /** Linking the new table in changes only an entry that no assigned code reaches. */
  lemma LinkedElsewhere(e: Env, k: nat, C: nat, i: nat, S: nat, j: nat, s: Regs, sh: Shadow,
      T: seq<Huft>, r: Huft, T': seq<Huft>, c: nat)
    requires e.tr.Valid() && PosAt(k, C, i, S) && C < Pow2(k)
    requires Shaped(e, s, sh) && 0 <= s.w + e.l <= k && Shr(i, s.w + e.l) == 0
    requires s.h >= 0 ==> Level(e, i, s, sh, s.h) && OpenTableAt(e, s, sh, s.h) && sh.js[s.h] == e.l
    requires |sh.cells| <= |T| && c < |sh.cells| && sh.cells[c].w + sh.cells[c].j <= BMAX
    requires Connects(e, i, j, s, sh, T, r, T')
    ensures T'[c] == T[c] || Start(sh.cells[c].w + sh.cells[c].j, sh.cells[c].Pat()) >= S
  {
    hide Pow2, Shr, Low, Start, Shl, Rev, Sized, PosAt, OnGrid;
    if s.h >= 0 { ParentEntry(e, k, C, i, S, s, sh); }
  }

  lemma OpenTop(e: Env, k: nat, C: nat, i: nat, S: nat, s: Regs, sh: Shadow)
    requires e.tr.Valid() && PosAt(k, C, i, S) && C < Pow2(k)
    requires Stacked(e, i, s, sh) && Tabled(e, s, sh) && s.h >= 0 && sh.js[s.h] >= e.l
    requires s.w + e.l <= k && Shr(i, s.w + e.l) == 0
    ensures Level(e, i, s, sh, s.h) && OpenTableAt(e, s, sh, s.h) && sh.js[s.h] == e.l
  {
    hide Pow2, Shr, Low, Used, End, PosAt;
    assert Level(e, i, s, sh, s.h) && OpenTableAt(e, s, sh, s.h);
  }

  lemma OpenTabled(e: Env, i: nat, j: nat, s: Regs, sh: Shadow, led: Ledger)
    requires Tabled(e, s, sh) && |sh.cells| == s.hn && s.h < BMAX - 1 && s.w + e.l >= 0
    requires Sized(e.ext, e.l, s.w + e.l, i, j) && i < Pow2(s.w + e.l)
    ensures Tabled(e, OpenedRegs(i, j, e.l, s), OpenedShadow(e, i, j, s, sh, led))
  {
    hide Pow2, OpenTableAt, Sized;
    var s', sh' := OpenedRegs(i, j, e.l, s), OpenedShadow(e, i, j, s, sh, led);
    OpenedTableAt(e, i, j, s, sh, led, s.h + 1);
    forall t | 0 <= t <= s'.h ensures OpenTableAt(e, s', sh', t) {
      if t <= s.h { assert OpenTableAt(e, s, sh, t); }
      OpenedTableAt(e, i, j, s, sh, led, t);
    }
  }

  lemma OpenedCell(e: Env, k: nat, C: nat, i: nat, S: nat, j: nat, s: Regs, sh: Shadow, led: Ledger,
      T: seq<Huft>, r: Huft, T': seq<Huft>, c: nat)
    requires e.tr.Valid() && PosAt(k, C, i, S) && C < Pow2(k)
    requires Shaped(e, s, sh) && s.h < BMAX - 1 && 0 <= s.w + e.l <= k && Shr(i, s.w + e.l) == 0
    requires s.h >= 0 ==> Level(e, i, s, sh, s.h) && OpenTableAt(e, s, sh, s.h) && sh.js[s.h] == e.l
    requires |sh.cells| == s.hn <= |T| && 1 <= j && s.w + e.l + j <= BMAX && s.hn + Pow2(j) <= |T|
    requires Connects(e, i, j, s, sh, T, r, T')
    requires c < s.hn ==> CellInv(e, S, s, sh, c, T[c])
    requires c < s.hn + Pow2(j) && |T'| == |T|
    ensures CellInv(e, S, OpenedRegs(i, j, e.l, s), OpenedShadow(e, i, j, s, sh, led), c, T'[c])
  {
    hide PosAt, Connects, Start, CellOK, Level, OpenTableAt, Pow2, Shr, Low;
    if c < s.hn {
      LinkedElsewhere(e, k, C, i, S, j, s, sh, T, r, T', c);
      KeepCell(e, S, i, j, s, sh, led, T[c], T'[c], c);
    } else {
      AtPrefixStart(k, C, i, S, s.w + e.l);
      OpenCell(e, S, i, j, s, sh, led, T'[c], c);
    }
  }

  /** Opening a table for the current codeword, linked from the table above it, keeps every entry right. */
  lemma OpenCelled(e: Env, k: nat, C: nat, i: nat, S: nat, j: nat, s: Regs, sh: Shadow, led: Ledger,
      T: seq<Huft>, r: Huft, T': seq<Huft>)
    requires e.Valid() && PosAt(k, C, i, S) && C < Pow2(k)
    requires Stacked(e, i, s, sh) && Celled(e, S, s, sh, T) && e.base <= s.hn
    requires s.h < BMAX - 1 && 0 <= s.w + e.l <= k && Shr(i, s.w + e.l) == 0
    requires s.h >= 0 ==> sh.js[s.h] >= e.l
    requires Sized(e.ext, e.l, s.w + e.l, i, j) && s.hn + Pow2(j) <= |T|
    requires Connects(e, i, j, s, sh, T, r, T')
    ensures Celled(e, S, OpenedRegs(i, j, e.l, s), OpenedShadow(e, i, j, s, sh, led), T')
  {
    hide PosAt, Connects, Stacked, Level, OpenTableAt, Pow2, Shr, CellInv, Used, Complete, NewCells;
    var s', sh' := OpenedRegs(i, j, e.l, s), OpenedShadow(e, i, j, s, sh, led);
    ConnectsLength(e, i, j, s, sh, T, r, T');
    if s.h >= 0 { OpenTop(e, k, C, i, S, s, sh); }
    ShrZeroBound(i, s.w + e.l);
    OpenTabled(e, i, j, s, sh, led);
    forall c | e.base <= c < s'.hn ensures CellInv(e, S, s', sh', c, T'[c]) {
      if c < s.hn { assert CellInv(e, S, s, sh, c, T[c]); }
      OpenedCell(e, k, C, i, S, j, s, sh, led, T, r, T', c);
    }
  }

  lemma ConnectsLength(e: Env, i: nat, j: nat, s: Regs, sh: Shadow, T: seq<Huft>, r: Huft, T': seq<Huft>)
    requires Shaped(e, s, sh) && Connects(e, i, j, s, sh, T, r, T')
    ensures |T'| == |T|
  {}

  // ----- filling in one code -----

  /** An entry of the current table belongs to the codeword exactly when its index continues it. */
  lemma EntryOfCode(k: nat, i: nat, w: nat, c: nat)
    requires w <= k && i < Pow2(k)
    ensures Low(Low(i, w) + Shl(c, w), k) == i <==> Low(c, k - w) == Shr(i, w)
  {
    hide Pow2, Shr;
    var pat := Low(i, w) + Shl(c, w);
    LowBound(i, w);
    Compose(Low(i, w), c, w);
    LowSplit(pat, w, k - w);
    LowSplit(i, w, k - w);
    LowSmall(i, k);
    ShrLow(i, w, k - w);
    if Low(pat, k) == i {
      ShlInjective(Low(c, k - w), Low(Shr(i, w), k - w), w);
    }
  }

  lemma SlotOfCode(k: nat, C: nat, i: nat, S: nat, n: nat, pat: nat)
    requires PosAt(k, C, i, S) && C < Pow2(k) && k <= n <= BMAX
    ensures Low(pat, k) == i <==> S <= Start(n, pat) < Shl(C + 1, BMAX - k)
  {
    hide Pow2, Rev, Shl, Low;
    PosFacts(k, C, i, S);
    Nested(k, n, pat);
    StartLow(k, k, pat);
    LowSmall(i, k);
    if S <= Start(n, pat) < Shl(C + 1, BMAX - k) {
      SameSlot(k, pat, i, Start(n, pat));
    }
  }

  lemma PatternOfPrefix(k: nat, C: nat, i: nat, S: nat, n: nat, pat: nat)
    requires PosAt(k, C, i, S) && C < Pow2(k) && n <= k && pat < Pow2(n)
    requires S <= Start(n, pat) < Shl(C + 1, BMAX - k)
    ensures pat == Low(i, n)
  {
    hide Pow2, Rev, Shl, Low;
    InOwnPrefix(k, C, i, S, n);
    EndBound(n, pat);
    SameSlot(n, pat, Low(i, n), Start(n, pat));
    LowSmall(pat, n);
    LowLow(i, n, n);
  }

  lemma CellPatBound(cl: Cell)
    requires cl.tpat < Pow2(cl.w) && cl.e < Pow2(cl.j)
    ensures cl.Pat() < Pow2(cl.w + cl.j) && Shr(cl.Pat(), cl.w) == cl.e
  {
    hide Pow2, Shl, Shr;
    Compose(cl.tpat, cl.e, cl.w);
    ShlMono(cl.e + 1, Pow2(cl.j), cl.w);
    ShlAdd(cl.e, 1, cl.w);
    ShlOne(cl.w);
    Pow2Add(cl.j, cl.w);
  }

  /** The link in an open table that leads to the next one further in. */
  lemma LinkOK(e: Env, s: Regs, sh: Shadow, T: seq<Huft>, t: nat, c: nat)
    requires e.tr.Valid() && Tabled(e, s, sh) && t < s.h && |sh.cells| <= |T|
    requires StackLink(e, s, sh, T, t) && 1 <= sh.js[t + 1] <= BMAX
    requires c == s.u[t] + Shr(s.x[t + 1], sh.ws[t]) < |sh.cells|
    requires sh.cells[c].lev == t && sh.cells[c].w == sh.ws[t] && sh.cells[c].j == e.l
    requires sh.ws[t + 1] == sh.ws[t] + e.l && sh.cells[c].Pat() == s.x[t + 1]
    ensures CellOK(e.tr, e.ext, e.l, sh.cells, c, T[c])
  {
    hide TableAt, Sized, Pow2, Shr, LeafCode;
    assert OpenTableAt(e, s, sh, t + 1);
  }

  /** The entry is one of table t, which is not the innermost and so has l bits. */
  lemma OuterTable(e: Env, i: nat, s: Regs, sh: Shadow, t: nat, c: nat)
    requires Stacked(e, i, s, sh) && Tabled(e, s, sh) && t < s.h
    requires s.u[t] <= c < s.u[t] + Pow2(sh.js[t]) && c < |sh.cells|
    ensures sh.cells[c] == Cell(t, sh.ws[t], e.l, s.x[t], c - s.u[t]) && 1 <= sh.js[t + 1] <= BMAX
    ensures c - s.u[t] < Pow2(e.l) && s.x[t] < Pow2(sh.ws[t])
    ensures sh.ws[t + 1] == sh.ws[t] + e.l <= sh.ws[s.h] == s.w && s.x[t + 1] == Low(i, sh.ws[t] + e.l)
  {
    hide Pow2, Low, Used, End, OnGrid;
    assert OpenTableAt(e, s, sh, t);
    assert Nests(e.l, s, sh, t) && Level(e, i, s, sh, t + 1);
    LevelsAscend(e, i, s, sh, t + 1, s.h);
  }

  /** In the open tables further out, the code passes only through the links to the current one. */
  lemma OuterCell(e: Env, k: nat, C: nat, i: nat, S: nat, s: Regs, sh: Shadow, t: nat, c: nat)
    requires PosAt(k, C, i, S) && C < Pow2(k)
    requires Stacked(e, i, s, sh) && Tabled(e, s, sh) && s.w <= k && t < s.h
    requires s.u[t] <= c < s.u[t] + Pow2(sh.js[t]) && c < |sh.cells|
    requires var cl := sh.cells[c];
             cl.w + cl.j <= BMAX && S <= Start(cl.w + cl.j, cl.Pat()) < Shl(C + 1, BMAX - k)
    ensures var cl := sh.cells[c];
            && c == s.u[t] + Shr(s.x[t + 1], sh.ws[t])
            && cl.lev == t && cl.w == sh.ws[t] && cl.j == e.l && sh.ws[t + 1] == sh.ws[t] + e.l
            && cl.Pat() == s.x[t + 1] && 1 <= sh.js[t + 1] <= BMAX
  {
    hide Pow2, Low, Shr, Start, PosAt, Stacked, Tabled;
    var cl := sh.cells[c];
    OuterTable(e, i, s, sh, t, c);
    CellPatBound(cl);
    PatternOfPrefix(k, C, i, S, cl.w + cl.j, cl.Pat());
  }

  lemma CodeEntry(k: nat, C: nat, i: nat, S: nat, w: nat, j: nat, c: nat)
    requires PosAt(k, C, i, S) && C < Pow2(k) && w < k <= w + j <= BMAX
    ensures Low(c, k - w) == Shr(i, w) <==> S <= Start(w + j, Low(i, w) + Shl(c, w)) < Shl(C + 1, BMAX - k)
    ensures Low(c, k - w) == Shr(i, w) <==> Low(Low(i, w) + Shl(c, w), k) == i
  {
    hide Pow2, Rev, Shl, Shr, Low, Start;
    PosFacts(k, C, i, S);
    EntryOfCode(k, i, w, c);
    SlotOfCode(k, C, i, S, w + j, Low(i, w) + Shl(c, w));
  }

  lemma LeafOK(e: Env, k: nat, i: nat, cells: seq<Cell>, c: nat, r: Huft)
    requires e.tr.Valid() && c < |cells|
    requires !IsLink(r) && cells[c].w + r.bits == k && 1 <= r.bits <= cells[c].j
    requires LeafCode(e.tr, e.ext, k, i, r) && Low(cells[c].Pat(), k) == i
    ensures CellOK(e.tr, e.ext, e.l, cells, c, r)
  {
    hide LeafCode, Low, TableAt, Sized;
    LeafCodeAgrees(e.tr, e.ext, k, k, cells[c].Pat(), r);
  }

  lemma AdvanceLeaf(e: Env, k: nat, C: nat, i: nat, S: nat, s: Regs, sh: Shadow, r: Huft, old_: Huft, new_: Huft,
      c: nat, w: nat, j: nat)
    requires e.tr.Valid() && PosAt(k, C, i, S) && C < Pow2(k) && w < k <= w + j
    requires c < |sh.cells| && |s.u| == BMAX && s.h < BMAX && |sh.js| == s.h + 1
    requires sh.cells[c].w == w && sh.cells[c].j == j && sh.cells[c].tpat == Low(i, w)
    requires CellInv(e, S, s, sh, c, old_)
    requires !IsLink(r) && r.bits == k - w && LeafCode(e.tr, e.ext, k, i, r)
    requires new_ == if Low(sh.cells[c].e, k - w) == Shr(i, w) then r else old_
    ensures CellInv(e, Shl(C + 1, BMAX - k), s, sh, c, new_)
  {
    hide Pow2, Shr, Low, Start, End, CellOK, Shl, LeafCode;
    CodeEntry(k, C, i, S, w, j, sh.cells[c].e);
    if new_ != old_ || Low(sh.cells[c].e, k - w) == Shr(i, w) {
      LeafOK(e, k, i, sh.cells, c, r);
    }
    ShlMono(C, C + 1, BMAX - k);
  }

  lemma AdvanceLink(e: Env, k: nat, C: nat, i: nat, S: nat, s: Regs, sh: Shadow, T: seq<Huft>, c: nat, t: nat)
    requires e.tr.Valid() && PosAt(k, C, i, S) && C < Pow2(k)
    requires Stacked(e, i, s, sh) && Celled(e, S, s, sh, T) && Linked(e, s, sh, T) && s.w <= k
    requires t < s.h && s.u[t] <= c < s.u[t] + Pow2(sh.js[t]) && c < |sh.cells|
    requires var cl := sh.cells[c];
             cl.w + cl.j <= BMAX && S <= Start(cl.w + cl.j, cl.Pat()) < Shl(C + 1, BMAX - k)
    ensures CellOK(e.tr, e.ext, e.l, sh.cells, c, T[c])
  {
    hide Pow2, Low, Shr, Start, PosAt, Stacked, Tabled, CellOK, CellInv;
    OuterCell(e, k, C, i, S, s, sh, t, c);
    assert StackLink(e, s, sh, T, t);
    LinkOK(e, s, sh, T, t, c);
  }

  lemma AdvanceOuter(e: Env, k: nat, C: nat, i: nat, S: nat, s: Regs, sh: Shadow, T: seq<Huft>, c: nat)
    requires e.tr.Valid() && PosAt(k, C, i, S) && C < Pow2(k)
    requires Stacked(e, i, s, sh) && Celled(e, S, s, sh, T) && Linked(e, s, sh, T) && s.w <= k
    requires c < s.hn && !(s.h >= 0 && s.u[s.h] <= c < s.u[s.h] + Pow2(sh.js[s.h]))
    requires CellInv(e, S, s, sh, c, T[c])
    ensures CellInv(e, Shl(C + 1, BMAX - k), s, sh, c, T[c])
  {
    hide Pow2, Low, Shr, Shl, Start, End, Stacked, Tabled, CellOK, Linked;
    var cl := sh.cells[c];
    ShlMono(C, C + 1, BMAX - k);
    if S <= Start(cl.w + cl.j, cl.Pat()) < Shl(C + 1, BMAX - k) {
      CellStarts(cl.w, cl.j, cl.tpat, cl.e);
      AdvanceLink(e, k, C, i, S, s, sh, T, c, cl.lev);
    }
  }

  lemma AdvanceTop(e: Env, k: nat, C: nat, i: nat, S: nat, s: Regs, sh: Shadow, T: seq<Huft>, r: Huft,
      T': seq<Huft>, c: nat)
    requires e.tr.Valid() && PosAt(k, C, i, S) && C < Pow2(k)
    requires Shaped(e, s, sh) && s.h >= 0 && OpenTableAt(e, s, sh, s.h) && s.x[s.h] == Low(i, sh.ws[s.h])
    requires s.w < k <= s.w + sh.js[s.h] && s.q == s.u[s.h] && s.z == Pow2(sh.js[s.h])
    requires !IsLink(r) && r.bits == k - s.w && LeafCode(e.tr, e.ext, k, i, r)
    requires Filled(k - s.w, Shr(i, s.w), s.q, s.z, T, r, T')
    requires s.q <= c < s.q + s.z && c < |sh.cells| && CellInv(e, S, s, sh, c, T[c])
    ensures CellInv(e, Shl(C + 1, BMAX - k), s, sh, c, T'[c])
  {
    hide Pow2, Shr, Low, LeafCode, Start, End, PosAt, CellInv;
    AdvanceLeaf(e, k, C, i, S, s, sh, r, T[c], T'[c], c, sh.ws[s.h], sh.js[s.h]);
  }

  /** Filling in the codeword makes right every entry up to the start of the next one. */
  lemma AdvanceCells(e: Env, k: nat, C: nat, i: nat, S: nat, s: Regs, sh: Shadow, T: seq<Huft>, r: Huft, T': seq<Huft>)
    requires e.tr.Valid() && PosAt(k, C, i, S) && C < Pow2(k)
    requires Stacked(e, i, s, sh) && Celled(e, S, s, sh, T) && Linked(e, s, sh, T) && s.h >= 0
    requires s.w < k <= s.w + sh.js[s.h] && s.q == s.u[s.h] && s.z == Pow2(sh.js[s.h])
    requires !IsLink(r) && r.bits == k - s.w && LeafCode(e.tr, e.ext, k, i, r)
    requires Filled(k - s.w, Shr(i, s.w), s.q, s.z, T, r, T')
    ensures Celled(e, Shl(C + 1, BMAX - k), s, sh, T')
  {
    hide Pow2, Low, Shr, Shl, Start, End, CellInv, LeafCode, Linked, OnGrid;
    var S' := Shl(C + 1, BMAX - k);
    assert OpenTableAt(e, s, sh, s.h) && Level(e, i, s, sh, s.h);
    forall c | e.base <= c < s.hn ensures CellInv(e, S', s, sh, c, T'[c]) {
      assert CellInv(e, S, s, sh, c, T[c]);
      if s.q <= c < s.q + s.z {
        AdvanceTop(e, k, C, i, S, s, sh, T, r, T', c);
      } else {
        AdvanceOuter(e, k, C, i, S, s, sh, T, c);
      }
    }
  }

  // ----- backing up -----

  lemma PopCell(e: Env, S: nat, s: Regs, sh: Shadow, c: nat, en: Huft)
    requires e.tr.Valid() && Tabled(e, s, sh) && s.h >= 1 && c < |sh.cells| && sh.ws[s.h] <= BMAX
    requires End(sh.ws[s.h], s.x[s.h]) <= S && CellInv(e, S, s, sh, c, en)
    ensures CellInv(e, S, PoppedRegs(e.l, s), PoppedShadow(sh), c, en)
  {
    hide Pow2, Low, Start, End, CellOK, Sized;
    if OnStack(s, sh, c) && sh.cells[c].lev == s.h {
      assert OpenTableAt(e, s, sh, s.h);
    }
  }

  /** A table whose codes are all assigned can be closed. */
  lemma PopCelled(e: Env, i: nat, S: nat, s: Regs, sh: Shadow, T: seq<Huft>)
    requires e.tr.Valid() && Stacked(e, i, s, sh) && Celled(e, S, s, sh, T) && s.h >= 1 && sh.ws[s.h] <= BMAX
    requires End(sh.ws[s.h], s.x[s.h]) <= S
    ensures Celled(e, S, PoppedRegs(e.l, s), PoppedShadow(sh), T)
  {
    hide Pow2, Low, Level, End, CellInv, Sized, TableAt;
    var s', sh' := PoppedRegs(e.l, s), PoppedShadow(sh);
    assert Nests(e.l, s, sh, s.h - 1);
    forall t | 0 <= t <= s'.h ensures OpenTableAt(e, s', sh', t) {
      assert OpenTableAt(e, s, sh, t);
    }
    forall c | e.base <= c < s.hn ensures CellInv(e, S, s', sh', c, T[c]) {
      assert CellInv(e, S, s, sh, c, T[c]);
      PopCell(e, S, s, sh, c, T[c]);
    }
  }

  /** Once the next codeword no longer starts with a prefix, all codes with that prefix are assigned. */
  lemma PrefixFinished(k: nat, C: nat, i: nat, S: nat, w: nat, i': nat)
    requires PosAt(k, C, i, S) && C < Pow2(k) && w <= k
    requires PosAt(k, C + 1, i', Shl(C + 1, BMAX - k)) && Low(i', w) != Low(i, w)
    ensures End(w, Low(i, w)) <= Shl(C + 1, BMAX - k)
  {
    hide Pow2, Shl, Rev, Low, Start, End;
    var S' := Shl(C + 1, BMAX - k);
    InOwnPrefix(k, C, i, S, w);
    EndBound(w, Low(i, w));
    if C + 1 == Pow2(k) {
      Pow2Add(k, BMAX - k);
    } else if S' < End(w, Low(i, w)) {
      InOwnPrefix(k, C + 1, i', S', w);
      SameSlot(w, Low(i, w), Low(i', w), S');
      LowLow(i, w, w);
      LowLow(i', w, w);
    }
  }
}
