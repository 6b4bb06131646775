/** Multi-level Huffman lookup tables and what it means for one to decode a canonical code. */
module HuftTable {
  import opened Bits
  import opened Canonical
  import opened CodeSpace

  /** One table entry: an operation or number of extra bits, the bits it consumes, and a value or offset. */
  datatype Huft = Huft(exop: nat, bits: nat, base: nat)

  /** The entry points to a further table of exop bits, base entries further on. */
  predicate IsLink(en: Huft) {
    0 < en.exop < 16
  }

  const EOB_OP: nat := 96      // 32 + 64
  const INVALID_OP: nat := 192 // 128 + 64

  /** A prefix code together with the values its leaves stand for: symbols below `simple` stand for
      themselves, the others for a base value and a number of extra bits. */
  datatype Tree = Tree(lens: seq<nat>, simple: nat, bases: seq<nat>, extra: seq<nat>) {
    predicate Valid() {
      ValidLengths(lens)
      && |lens| <= simple + |bases| && |bases| == |extra|
      && forall i :: 0 <= i < |extra| ==> extra[i] <= 112
    }
  }

  /** The entry that stands for a symbol. A symbol past the end of the code is one the code lacks. */
  predicate LeafIs(tr: Tree, sym: nat, en: Huft)
    requires tr.Valid()
  {
    if sym >= |tr.lens| then en.exop == INVALID_OP
    else if sym < tr.simple then en.exop == (if sym < 256 then 0 else EOB_OP) && en.base == sym
    else en.exop == tr.extra[sym - tr.simple] + 80 && en.base == tr.bases[sym - tr.simple]
  }

  /** What following the tables from `t` on the bits of v arrives at: `used` counts the bits consumed and `ahead` the
      bits looked at. Stuck: the walk would leave the tables, need more than `budget` bits, or pass a link that
      consumes fewer bits than were looked at. */
  datatype Walked = Stuck | Leaf(entry: Huft, used: nat, ahead: nat)

  function Walk(T: seq<Huft>, t: nat, need: nat, v: nat, budget: nat): (r: Walked)
    ensures r.Leaf? ==> 1 <= r.used <= r.ahead <= budget && need <= r.ahead && !IsLink(r.entry)
    decreases budget
  {
    if need > budget || t + Low(v, need) >= |T| then Stuck
    else
      var en := T[t + Low(v, need)];
      if IsLink(en) then
        if en.bits != need || need == 0 then Stuck
        else
          match Walk(T, t + Low(v, need) + en.base, en.exop, Shr(v, need), budget - need)
          case Stuck => Stuck
          case Leaf(e, used, ahead) => Leaf(e, need + used, need + ahead)
      else if 1 <= en.bits <= need then Leaf(en, en.bits, need)
      else Stuck
  }

  /** The tables at t, entered with `need` bits, decode the code of tr on every input: they reach the leaf of the symbol
      whose codeword the input starts with, using exactly its length, or an invalid entry if there is none, after as
      many bits as the longest code has. And they look no further ahead than the code makes them. */
  ghost predicate Decodes(T: seq<Huft>, t: nat, need: nat, tr: Tree)
    requires tr.Valid()
  {
    forall v: nat :: DecodesOn(T, t, need, tr, v)
  }

  predicate DecodesOn(T: seq<Huft>, t: nat, need: nat, tr: Tree, v: nat)
    requires tr.Valid()
  {
    var r := Walk(T, t, need, v, BMAX);
    && r.Leaf?
    && match Decode(tr.lens, v)
       case Some(c) => r.used == c.len && LeafIs(tr, c.sym, r.entry) && r.ahead == Lookahead(tr.lens, need, v, c.len, 0)
       case None => r.entry.exop == INVALID_OP && r.used == r.ahead == Longest(tr.lens)
  }

  // ----- the walk as the decoder makes it -----

  /** The same walk without any check: a link consumes the bits it says, a leaf counts whatever it says. */
  function Follow(T: seq<Huft>, t: nat, need: nat, v: nat, budget: nat): Walked
    decreases budget
  {
    if t + Low(v, need) >= |T| then Stuck
    else
      var en := T[t + Low(v, need)];
      if IsLink(en) then
        if en.bits == 0 || en.bits > budget then Stuck
        else
          match Follow(T, t + Low(v, need) + en.base, en.exop, Shr(v, en.bits), budget - en.bits)
          case Stuck => Stuck
          case Leaf(e, used, ahead) => Leaf(e, en.bits + used, en.bits + ahead)
      else Leaf(en, en.bits, need)
  }

  /** The decoder finds the right entry on every input. */
  ghost predicate Follows(T: seq<Huft>, t: nat, need: nat, tr: Tree)
    requires tr.Valid()
  {
    forall v: nat :: FollowsOn(T, t, need, tr, v)
  }

  predicate FollowsOn(T: seq<Huft>, t: nat, need: nat, tr: Tree, v: nat)
    requires tr.Valid()
  {
    var r := Follow(T, t, need, v, BMAX);
    && r.Leaf?
    && match Decode(tr.lens, v)
       case Some(c) => r.used == c.len && LeafIs(tr, c.sym, r.entry)
       case None => r.entry.exop == INVALID_OP && r.used == Longest(tr.lens)
  }

  lemma {:induction false} WalkIsFollowed(T: seq<Huft>, t: nat, need: nat, v: nat, budget: nat)
    requires Walk(T, t, need, v, budget).Leaf?
    ensures Follow(T, t, need, v, budget) == Walk(T, t, need, v, budget)
    decreases budget
  {
    hide Low, Shr;
    var c := t + Low(v, need);
    if IsLink(T[c]) { WalkIsFollowed(T, c + T[c].base, T[c].exop, Shr(v, need), budget - need); }
  }

  lemma DecodesFollows(T: seq<Huft>, t: nat, need: nat, tr: Tree)
    requires tr.Valid() && Decodes(T, t, need, tr)
    ensures Follows(T, t, need, tr)
  {
    hide Walk, Follow;
    forall v: nat ensures FollowsOn(T, t, need, tr, v) {
      assert DecodesOn(T, t, need, tr, v);
      WalkIsFollowed(T, t, need, v, BMAX);
    }
  }

  /** Entries added after a table do not change what walking it finds. */
  lemma {:induction false} WalkExtends(T: seq<Huft>, T': seq<Huft>, t: nat, need: nat, v: nat, budget: nat)
    requires |T| <= |T'| && T'[..|T|] == T
    requires Walk(T, t, need, v, budget).Leaf?
    ensures Walk(T', t, need, v, budget) == Walk(T, t, need, v, budget)
    decreases budget
  {
    var c := t + Low(v, need);
    assert T'[c] == T'[..|T|][c] == T[c];
    if IsLink(T[c]) {
      WalkExtends(T, T', c + T[c].base, T[c].exop, Shr(v, need), budget - need);
    }
  }

  lemma DecodesExtends(T: seq<Huft>, T': seq<Huft>, t: nat, need: nat, tr: Tree)
    requires tr.Valid()
    requires |T| <= |T'| && T'[..|T|] == T
    requires Decodes(T, t, need, tr)
    ensures Decodes(T', t, need, tr)
  {
    forall v: nat ensures DecodesOn(T', t, need, tr, v) {
      assert DecodesOn(T, t, need, tr, v);
      WalkExtends(T, T', t, need, v, BMAX);
    }
  }

  // ----- where each table entry sits among the codes -----

  /** The role of one entry: it is entry e of a table of 2^j entries at stack level `lev`, reached by inputs
      that start with the w bits tpat; so the entry itself is reached by those that start with Pat(). */
  datatype Cell = Cell(lev: nat, w: nat, j: nat, tpat: nat, e: nat) {
    function Pat(): nat { tpat + Shl(e, w) }
  }

  predicate TableAt(cells: seq<Cell>, off: nat, lev: nat, w: nat, j: nat, tpat: nat) {
    && off + Pow2(j) <= |cells|
    && tpat < Pow2(w) && 1 <= j && w + j <= BMAX
    && forall c :: off <= c < off + Pow2(j) ==> cells[c] == Cell(lev, w, j, tpat, c - off)
  }

  predicate LeafCode(tr: Tree, ext: seq<nat>, k: nat, pat: nat, en: Huft)
    requires tr.Valid()
  {
    && 1 <= k <= BMAX
    && FirstCode(ext, k) <= Rev(k, pat) < FirstCode(ext, k) + Count(ext, k)
    && LeafIs(tr, SymAt(ext, k, Rev(k, pat) - FirstCode(ext, k)), en)
  }

  /** A table of j bits for the codewords that start with the w bits tpat: large enough for all of them unless it has l
      bits, and no larger. */
  predicate Sized(ext: seq<nat>, l: nat, w: nat, tpat: nat, j: nat) {
    && 1 <= j <= l && w + j <= BMAX
    && Used(ext, w + j - 1) < End(w, tpat)
    && (j == l || End(w, tpat) <= Used(ext, w + j))
  }

  lemma SizedIs(ext: seq<nat>, l: nat, w: nat, tpat: nat, j: nat)
    requires Sized(ext, l, w, tpat, j) && w > 0
    ensures TableSize(ext, l, w, tpat) == j
  {
    hide Used, End;
    UsedMono(ext, w, w + j - 1);
    LongestUnderIs(ext, w, tpat, w, w + j);
  }

  /** The entry is right for its role: the leaf of the code its inputs start with, or a link to the table
      for exactly those inputs. */
  predicate CellOK(tr: Tree, ext: seq<nat>, l: nat, cells: seq<Cell>, c: nat, en: Huft)
    requires tr.Valid() && c < |cells|
  {
    var cl := cells[c];
    if IsLink(en) then
      && en.bits == cl.j == l
      && TableAt(cells, c + en.base, cl.lev + 1, cl.w + cl.j, en.exop, cl.Pat())
      && Sized(ext, l, cl.w + cl.j, cl.Pat(), en.exop)
    else
      1 <= en.bits <= cl.j && LeafCode(tr, ext, cl.w + en.bits, cl.Pat(), en)
  }

  ghost predicate AllCellsOK(T: seq<Huft>, tr: Tree, ext: seq<nat>, l: nat, cells: seq<Cell>, base: nat)
    requires tr.Valid() && |cells| <= |T|
  {
    forall c {:trigger CellOK(tr, ext, l, cells, c, T[c])} ::
      base <= c < |cells| ==> CellOK(tr, ext, l, cells, c, T[c])
  }

  lemma CellPattern(v: nat, w: nat, j: nat)
    ensures Low(v, w + j) == Low(v, w) + Shl(Low(Shr(v, w), j), w)
  {
    LowSplit(v, w, j);
  }

  lemma LeafCodeAgrees(tr: Tree, ext: seq<nat>, k: nat, n: nat, v: nat, en: Huft)
    requires tr.Valid() && k <= n
    ensures LeafCode(tr, ext, k, Low(v, n), en) == LeafCode(tr, ext, k, v, en)
  {
    RevLow(k, v, n);
  }

  /** From a table at level w, the walk on v arrives at the leaf of the code v starts with, having looked ahead as far
      as the code makes it. */
  predicate WalksTo(T: seq<Huft>, tr: Tree, ext: seq<nat>, l: nat, t: nat, w: nat, j: nat, v: nat)
    requires tr.Valid() && w <= BMAX
  {
    var r := Walk(T, t, j, Shr(v, w), BMAX - w);
    && r.Leaf? && LeafCode(tr, ext, w + r.used, v, r.entry)
    && w + r.ahead == Lookahead(ext, l, v, w + r.used, w)
  }

  lemma WalkLeaf(T: seq<Huft>, tr: Tree, ext: seq<nat>, l: nat, t: nat, w: nat, j: nat, v: nat)
    requires tr.Valid() && w + j <= BMAX && t + Low(Shr(v, w), j) < |T|
    requires var en := T[t + Low(Shr(v, w), j)];
             !IsLink(en) && 1 <= en.bits <= j && LeafCode(tr, ext, w + en.bits, Low(v, w + j), en)
    requires j == TableSize(ext, l, w, v)
    ensures WalksTo(T, tr, ext, l, t, w, j, v)
  {
    hide LeafCode, Low, TableSize;
    var en := T[t + Low(Shr(v, w), j)];
    LeafCodeAgrees(tr, ext, w + en.bits, w + j, v, en);
    assert Walk(T, t, j, Shr(v, w), BMAX - w) == Leaf(en, en.bits, j);
  }

  lemma WalkLink(T: seq<Huft>, tr: Tree, ext: seq<nat>, l: nat, t: nat, w: nat, v: nat)
    requires tr.Valid() && 1 <= l && w + l <= BMAX && t + Low(Shr(v, w), l) < |T|
    requires var en := T[t + Low(Shr(v, w), l)];
             && IsLink(en) && en.bits == l
             && WalksTo(T, tr, ext, l, t + Low(Shr(v, w), l) + en.base, w + l, en.exop, v)
    ensures WalksTo(T, tr, ext, l, t, w, l, v)
  {
    hide LeafCode, Low, Shr, Lookahead, Walk;
    ShrShr(v, w, l);
    var en := T[t + Low(Shr(v, w), l)];
    WalkOverLink(T, t, l, Shr(v, w), BMAX - w);
    var r := Walk(T, t + Low(Shr(v, w), l) + en.base, en.exop, Shr(v, w + l), BMAX - w - l);
    LookAgain(ext, l, v, w + l + r.used, w);
  }

  lemma WalkOverLink(T: seq<Huft>, t: nat, need: nat, v: nat, budget: nat)
    requires 1 <= need <= budget && t + Low(v, need) < |T|
    requires var en := T[t + Low(v, need)]; IsLink(en) && en.bits == need
    ensures var c := t + Low(v, need);
            var r := Walk(T, c + T[c].base, T[c].exop, Shr(v, need), budget - need);
            r.Leaf? ==> Walk(T, t, need, v, budget) == Leaf(r.entry, need + r.used, need + r.ahead)
  {
    hide Low, Shr;
  }

  lemma LookAgain(ext: seq<nat>, l: nat, v: nat, len: nat, w: nat)
    requires 1 <= l && w + l < len <= BMAX
    ensures Lookahead(ext, l, v, len, w) == Lookahead(ext, l, v, len, w + l)
  {
    hide TableSize;
  }

  lemma SizeLow(ext: seq<nat>, l: nat, w: nat, v: nat)
    requires w <= BMAX
    ensures TableSize(ext, l, w, Low(v, w)) == TableSize(ext, l, w, v)
  {
    if w > 0 { LongestUnderLow(ext, w, v, w); }
  }

  /** Tables all of whose entries are right walk every input to its code. */
  lemma {:induction false} WalkCells(T: seq<Huft>, tr: Tree, ext: seq<nat>, l: nat, cells: seq<Cell>, base: nat,
      t: nat, lev: nat, w: nat, j: nat, v: nat)
    requires tr.Valid() && base <= t && |cells| <= |T|
    requires AllCellsOK(T, tr, ext, l, cells, base)
    requires TableAt(cells, t, lev, w, j, Low(v, w)) && j == TableSize(ext, l, w, v)
    ensures WalksTo(T, tr, ext, l, t, w, j, v)
    decreases BMAX - w
  {
    hide Walk, Low, Pow2, LeafCode, WalksTo, TableSize, Sized;
    LowBound(Shr(v, w), j);
    var c := t + Low(Shr(v, w), j);
    var en := T[c];
    assert CellOK(tr, ext, l, cells, c, en);
    assert cells[c].Pat() == Low(v, w + j) by { CellPattern(v, w, j); }
    if IsLink(en) {
      SizedIs(ext, l, w + j, Low(v, w + j), en.exop);
      SizeLow(ext, l, w + j, v);
      WalkCells(T, tr, ext, l, cells, base, c + en.base, lev + 1, w + j, en.exop, v);
      WalkLink(T, tr, ext, l, t, w, v);
    } else {
      WalkLeaf(T, tr, ext, l, t, w, j, v);
    }
  }
}
