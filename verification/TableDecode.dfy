/** Decoding symbols by walking lookup tables, and that tables for a code decode what the code does. */
module TableDecode {
  import opened Bits
  import opened Canonical
  import opened HuftTable
  import opened Deflate
  import opened BitBuffer

  datatype NextEntry = Entry(en: Huft, pos: nat) | NoBits | Lost

  /** The leaf the walk from t arrives at on the bits at pos, if all the bits it looks at are there. */
  function NextLeaf(T: seq<Huft>, t: nat, need: nat, budget: nat, input: seq<byte>, pos: nat): NextEntry {
    match Walk(T, t, need, Rest(input, pos), budget)
    case Stuck => Lost
    case Leaf(en, used, ahead) => if pos + ahead > 8 * |input| then NoBits else Entry(en, pos + used)
  }

  /** e & 16, e & 32, e & 64 of the source. */
  predicate Bit16(e: nat) { e / 16 % 2 == 1 }
  predicate Bit32(e: nat) { e / 32 % 2 == 1 }
  predicate Bit64(e: nat) { e / 64 % 2 == 1 }

  /** What a literal/length entry stands for, in the order in which the source asks. */
  function LitEntry(input: seq<byte>, cd: Code, en: Huft, pos: nat, hist: seq<byte>): Step {
    if en.exop == 0 then More(pos, hist + [en.base % 256])
    else if Bit16(en.exop) then LengthExtra(input, cd, en.base, en.exop % 16, pos, hist)
    else if Bit32(en.exop) then Ends(pos)
    else Invalid
  }

  function DistEntry(input: seq<byte>, len: nat, en: Huft, pos: nat, hist: seq<byte>): Step {
    if Bit16(en.exop) then DistanceExtra(input, len, en.base, en.exop % 16, pos, hist)
    else Invalid
  }

  function LitStep(input: seq<byte>, cd: Code, ne: NextEntry, hist: seq<byte>): Step {
    match ne
    case NoBits => NoInput
    case Lost => Invalid
    case Entry(en, pos) => LitEntry(input, cd, en, pos, hist)
  }

  function DistStep(input: seq<byte>, len: nat, ne: NextEntry, hist: seq<byte>): Step {
    match ne
    case NoBits => NoInput
    case Lost => Invalid
    case Entry(en, pos) => DistEntry(input, len, en, pos, hist)
  }

  lemma LinkBits(en: Huft)
    ensures IsLink(en) ==> en.exop != 0 && !Bit16(en.exop) && !Bit64(en.exop)
  {}

  lemma ExopBits(e: nat)
    requires e <= 112
    ensures Bit16(e + 80) <==> e < 16 || (32 <= e < 48) || (64 <= e < 80) || (96 <= e < 112)
    ensures e < 16 ==> (e + 80) % 16 == e
  {}

  lemma SmallPowers()
    ensures Pow2(0) == 1 && Pow2(1) == 2 && Pow2(2) == 4 && Pow2(3) == 8 && Pow2(4) == 16 && Pow2(5) == 32
    ensures Pow2(6) == 64 && Pow2(7) == 128 && Pow2(8) == 256 && Pow2(9) == 512 && Pow2(10) == 1024
    ensures Pow2(11) == 2048 && Pow2(12) == 4096 && Pow2(13) == 8192
  {}

  lemma LengthExtras(i: nat)
    requires i < 31
    ensures if i < 29 then CPLEXT[i] <= 5 && 3 <= CPLENS[i] && CPLENS[i] + Pow2(CPLEXT[i]) <= 259 else CPLEXT[i] == 112
  {
    SmallPowers();
    hide Pow2;
  }

  lemma DistanceExtras(i: nat)
    requires i < 30
    ensures CPDEXT[i] <= 13 && 1 <= CPDIST[i] && CPDIST[i] + Pow2(CPDEXT[i]) <= 32769
  {
    SmallPowers();
    hide Pow2;
  }

  /** The entry for a literal/length symbol stands for what the symbol does. */
  lemma LitLeafMeans(input: seq<byte>, cd: Code, s: nat, en: Huft, pos: nat, hist: seq<byte>)
    requires s < |cd.lit| <= 288 && LitTree(cd.lit).Valid() && LeafIs(LitTree(cd.lit), s, en) && pos <= 8 * |input|
    ensures LitEntry(input, cd, en, pos, hist) == Symbol(input, cd, s, pos, hist)
  {
    hide Pow2, LengthExtra;
    if s >= 257 {
      LengthExtras(s - 257);
      ExopBits(CPLEXT[s - 257]);
    }
  }

  lemma DistLeafMeans(input: seq<byte>, lens: seq<nat>, len: nat, s: nat, en: Huft, pos: nat, hist: seq<byte>)
    requires s < |lens| <= 32 && DistTree(lens).Valid() && LeafIs(DistTree(lens), s, en)
    ensures DistEntry(input, len, en, pos, hist) ==
            if s >= 30 then Invalid else DistanceExtra(input, len, CPDIST[s], CPDEXT[s], pos, hist)
  {
    hide Pow2;
    if s < 30 {
      DistanceExtras(s);
      ExopBits(CPDEXT[s]);
    }
  }

  /** Walking tables that decode a code finds the next symbol of the code. */
  lemma LeafOfSymbol(T: seq<Huft>, t: nat, m: nat, tr: Tree, input: seq<byte>, pos: nat)
    requires m >= 1 && tr.Valid() && Decodes(T, t, RootBits(m, tr.lens), tr)
    ensures var ne := NextLeaf(T, t, RootBits(m, tr.lens), BMAX, input, pos);
            match NextSymbol(tr.lens, m, input, pos)
            case Short => ne == NoBits
            case Bad => ne.Entry? && ne.en.exop == INVALID_OP
            case Got(s, pos') => ne.Entry? && ne.pos == pos' && LeafIs(tr, s, ne.en)
  {
    hide Walk, Decode, Rest, LeafIs, RootBits, Longest;
    assert DecodesOn(T, t, RootBits(m, tr.lens), tr, Rest(input, pos));
  }

  /** Tables for the literal/length code decode what the code does, at every position of every input. */
  lemma LitTables(T: seq<Huft>, t: nat, need: nat, input: seq<byte>, cd: Code, pos: nat, hist: seq<byte>)
    requires |cd.lit| <= 288 && LitTree(cd.lit).Valid() && Decodes(T, t, need, LitTree(cd.lit))
    requires need == RootBits(LBITS, cd.lit)
    ensures LitStep(input, cd, NextLeaf(T, t, need, BMAX, input, pos), hist) == Token(input, cd, pos, hist)
  {
    hide NextLeaf, LengthExtra, Symbol, Decodes, RootBits, Rest;
    LeafOfSymbol(T, t, LBITS, LitTree(cd.lit), input, pos);
    var ne := NextLeaf(T, t, need, BMAX, input, pos);
    match NextSymbol(cd.lit, LBITS, input, pos)
    case Got(s, pos') => LitLeafMeans(input, cd, s, ne.en, pos', hist);
    case _ =>
  }

  lemma DistTables(T: seq<Huft>, t: nat, need: nat, input: seq<byte>, cd: Code, len: nat, pos: nat, hist: seq<byte>)
    requires |cd.dist| <= 32 && DistTree(cd.dist).Valid() && Decodes(T, t, need, DistTree(cd.dist))
    requires need == RootBits(DBITS, cd.dist)
    ensures DistStep(input, len, NextLeaf(T, t, need, BMAX, input, pos), hist) == Distance(input, cd, len, pos, hist)
  {
    hide NextLeaf, DistanceExtra, Decodes, RootBits, Rest;
    LeafOfSymbol(T, t, DBITS, DistTree(cd.dist), input, pos);
    var ne := NextLeaf(T, t, need, BMAX, input, pos);
    match NextSymbol(cd.dist, DBITS, input, pos)
    case Got(s, pos') => DistLeafMeans(input, cd.dist, len, s, ne.en, pos', hist);
    case _ =>
  }

  /** The tables at t decode a literal/length code, with at most 9 bits for the first lookup and, unless that
      already takes the longest codeword, at least 6. */
  ghost predicate LitTable(T: seq<Huft>, t: nat, bits: nat, lens: seq<nat>) {
    && |lens| <= 288 && LitTree(lens).Valid() && Decodes(T, t, bits, LitTree(lens)) && bits == RootBits(LBITS, lens)
    && bits <= 9 && (bits >= 6 || Longest(lens) <= bits)
  }

  ghost predicate DistTable(T: seq<Huft>, t: nat, bits: nat, lens: seq<nat>) {
    && |lens| <= 32 && DistTree(lens).Valid() && Decodes(T, t, bits, DistTree(lens)) && bits == RootBits(DBITS, lens)
    && bits <= 9 && (bits >= 6 || Longest(lens) <= bits)
  }

  /** Following a link moves the walk on by the link's bits; and a lookup that wants more bits than there are finds
      nothing. */
  lemma LinkStep(T: seq<Huft>, t: nat, need: nat, budget: nat, input: seq<byte>, pos: nat)
    requires Walk(T, t, need, Rest(input, pos), budget).Leaf?
    ensures need <= budget && t + Peek(input, pos, need) < |T|
    ensures pos + need > 8 * |input| ==> NextLeaf(T, t, need, budget, input, pos) == NoBits
    ensures var c := t + Peek(input, pos, need);
            if IsLink(T[c]) then
              && T[c].bits == need >= 1 && T[c].exop <= budget - need
              && Walk(T, c + T[c].base, T[c].exop, Rest(input, pos + need), budget - need).Leaf?
              && Walk(T, c + T[c].base, T[c].exop, Rest(input, pos + need), budget - need).entry
                 == Walk(T, t, need, Rest(input, pos), budget).entry
              && NextLeaf(T, t, need, budget, input, pos)
                 == NextLeaf(T, c + T[c].base, T[c].exop, budget - need, input, pos + need)
            else
              && 1 <= T[c].bits <= need && Walk(T, t, need, Rest(input, pos), budget).entry == T[c]
              && (pos + need <= 8 * |input| ==>
                    NextLeaf(T, t, need, budget, input, pos) == Entry(T[c], pos + T[c].bits))
  {
    hide Rest, Low, Shr;
    RestSplit(input, pos, need);
  }

  // ----- what the entries of tables for a code can be -----

  /** A literal is a byte, a length base has room for its extra bits up to 258, and lengths come with distances. */
  predicate GoodLit(en: Huft, cd: Code) {
    && (en.exop == 0 || Bit64(en.exop))
    && (en.exop == 0 ==> en.base < 256)
    && (Bit16(en.exop) ==>
        en.exop % 16 <= 5 && 3 <= en.base && en.base + Pow2(en.exop % 16) <= 259 && !NoCodes(cd.dist))
  }

  /** A distance base has room for its extra bits up to 32768. */
  predicate GoodDist(en: Huft) {
    && Bit64(en.exop)
    && (Bit16(en.exop) ==> en.exop % 16 <= 13 && 1 <= en.base && en.base + Pow2(en.exop % 16) <= 32769)
  }

  predicate WalkGoodLit(T: seq<Huft>, t: nat, need: nat, budget: nat, input: seq<byte>, pos: nat, cd: Code) {
    var r := Walk(T, t, need, Rest(input, pos), budget);
    r.Leaf? && GoodLit(r.entry, cd)
  }

  predicate WalkGoodDist(T: seq<Huft>, t: nat, need: nat, budget: nat, input: seq<byte>, pos: nat) {
    var r := Walk(T, t, need, Rest(input, pos), budget);
    r.Leaf? && GoodDist(r.entry)
  }

  lemma LitLeafGood(cd: Code, s: nat, en: Huft)
    requires s < |cd.lit| <= 288 && LitTree(cd.lit).Valid() && LeafIs(LitTree(cd.lit), s, en)
    requires NoCodes(cd.dist) ==> |cd.lit| <= 257
    ensures GoodLit(en, cd)
  {
    hide Pow2;
    if s >= 257 {
      LengthExtras(s - 257);
      ExopBits(CPLEXT[s - 257]);
    }
  }

  lemma DistLeafGood(lens: seq<nat>, s: nat, en: Huft)
    requires s < |lens| <= 32 && DistTree(lens).Valid() && LeafIs(DistTree(lens), s, en)
    ensures GoodDist(en)
  {
    hide Pow2;
    if s < 30 {
      DistanceExtras(s);
      ExopBits(CPDEXT[s]);
    }
  }

  lemma LitTablesGood(T: seq<Huft>, t: nat, need: nat, cd: Code, input: seq<byte>, pos: nat)
    requires |cd.lit| <= 288 && LitTree(cd.lit).Valid() && Decodes(T, t, need, LitTree(cd.lit))
    requires NoCodes(cd.dist) ==> |cd.lit| <= 257
    ensures WalkGoodLit(T, t, need, BMAX, input, pos, cd)
  {
    hide Walk, Rest, Pow2;
    assert DecodesOn(T, t, need, LitTree(cd.lit), Rest(input, pos));
    var en := Walk(T, t, need, Rest(input, pos), BMAX).entry;
    match Decode(cd.lit, Rest(input, pos))
    case Some(c) => LitLeafGood(cd, c.sym, en);
    case None =>
  }

  lemma DistTablesGood(T: seq<Huft>, t: nat, need: nat, lens: seq<nat>, input: seq<byte>, pos: nat)
    requires |lens| <= 32 && DistTree(lens).Valid() && Decodes(T, t, need, DistTree(lens))
    ensures WalkGoodDist(T, t, need, BMAX, input, pos)
  {
    assert DecodesOn(T, t, need, DistTree(lens), Rest(input, pos));
    var en := Walk(T, t, need, Rest(input, pos), BMAX).entry;
    match Decode(lens, Rest(input, pos))
    case Some(c) => DistLeafGood(lens, c.sym, en);
    case None =>
  }

  lemma LitWalkExop(T: seq<Huft>, t: nat, need: nat, cd: Code, input: seq<byte>, pos: nat)
    requires WalkGoodLit(T, t, need, BMAX, input, pos, cd)
    ensures Walk(T, t, need, Rest(input, pos), BMAX).Leaf?
    ensures var en := Walk(T, t, need, Rest(input, pos), BMAX).entry;
            GoodLit(en, cd) && (en.exop == 0 || Bit64(en.exop))
  {
    hide Walk, Rest, Bit16, Bit64;
  }

  lemma DistWalkExop(T: seq<Huft>, t: nat, need: nat, input: seq<byte>, pos: nat)
    requires WalkGoodDist(T, t, need, BMAX, input, pos)
    ensures Walk(T, t, need, Rest(input, pos), BMAX).Leaf? && GoodDist(Walk(T, t, need, Rest(input, pos), BMAX).entry)
    ensures Bit64(Walk(T, t, need, Rest(input, pos), BMAX).entry.exop)
  {}

  /** Tables whose first lookup already takes as many bits as the longest code never link further. */
  lemma NoLinks(T: seq<Huft>, t: nat, need: nat, tr: Tree, v: nat)
    requires tr.Valid() && Decodes(T, t, need, tr) && Longest(tr.lens) <= need
    ensures t + Low(v, need) < |T| && !IsLink(T[t + Low(v, need)])
  {
    hide Low, Longest, DecodeFrom;
    assert DecodesOn(T, t, need, tr, v);
    DecodeFromSound(tr.lens, v, 1);
  }
}
