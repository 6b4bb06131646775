/** inflate_trees_bits and inflate_trees_dynamic: the three codes a dynamic block is described with. */
module InflateTrees {
  import opened Bits
  import opened Wrappers
  import opened Canonical
  import opened CodeSpace
  import opened HuftTable
  import opened HuftSort
  import opened HuftSkip
  import opened HuftLedger
  import opened HuftSpace
  import opened HuftOpen
  import opened HuftLoop
  import opened HuftBuild
  import opened Deflate
  import opened TableDecode

  // ----- no complete code is made of long codewords only -----

  lemma UsedFromShortest(lens: seq<nat>, s: nat, k: nat)
    requires 1 <= s <= BMAX && s - 1 <= k <= BMAX
    requires forall x :: 1 <= x < s ==> Count(lens, x) == 0
    ensures Used(lens, k) <= Shl(Off(lens, k + 1), BMAX - s)
  {
    if k < s {
      UsedFlat(lens, 0, k);
    } else {
      UsedFromShortest(lens, s, k - 1);
      ShlAdd(Off(lens, k), Count(lens, k), BMAX - s);
      ShlNarrow(Count(lens, k), BMAX - k, BMAX - s);
    }
  }

  lemma ShlNarrow(x: nat, a: nat, b: nat)
    requires a <= b
    ensures Shl(x, a) <= Shl(x, b)
  {}

  /** A complete code whose shortest codeword has s bits has at least 2^s codewords. */
  lemma ShortestBound(lens: seq<nat>)
    requires ValidLengths(lens) && Complete(lens)
    ensures Pow2(Shortest(lens)) <= |lens|
  {
    hide Used, Count, Off, Shl;
    var s := Shortest(lens);
    if s == 0 {
      if |lens| == 0 { EmptyUnused(lens, BMAX); }
    } else {
      forall x | 1 <= x < s ensures Count(lens, x) == 0 {
        if Count(lens, x) > 0 { var i := SymAt(lens, x, 0); }
      }
      UsedFromShortest(lens, s, BMAX);
      OffBound(lens, BMAX + 1);
      ShlMono(Off(lens, BMAX + 1), |lens|, BMAX - s);
      Pow2Add(s, BMAX - s);
      if |lens| < Pow2(s) { ShlMono(|lens|, Pow2(s), BMAX - s); }
    }
  }

  lemma EmptyUnused(lens: seq<nat>, k: nat)
    requires |lens| == 0 && k <= BMAX
    ensures Used(lens, k) == 0
  {
    if k > 0 {
      EmptyUnused(lens, k - 1);
      ShlOne(BMAX - k);
    }
  }

  // ----- the bit-length code -----

  function BitTree(cl: seq<nat>): Tree { Tree(cl, 19, [], []) }

  /** The entry the decoder looks up for v. */
  predicate BitEntry(T: seq<Huft>, t: nat, bb: nat, cl: seq<nat>, v: nat) {
    t + Low(v, bb) < |T| &&
    var en := T[t + Low(v, bb)];
    match Decode(cl, v)
    case Some(c) => en.bits == c.len <= bb && en.base == c.sym
    case None => bb == 1 && Count(cl, 1) > 0 && en.bits == 1 && en.base == SymAt(cl, 1, 0)
  }

  /** One lookup of bb bits finds the next bit-length symbol on every input. */
  ghost predicate BitTable(T: seq<Huft>, t: nat, bb: nat, cl: seq<nat>) {
    && 1 <= bb <= 7 && bb == Longest(cl)
    && forall v: nat {:trigger BitEntry(T, t, bb, cl, v)} :: BitEntry(T, t, bb, cl, v)
  }

  lemma LoneDecode(cl: seq<nat>, v: nat)
    requires Longest(cl) == 1 && Count(cl, 1) > 0 && v % 2 == 0
    ensures Decode(cl, v) == Some(Coded(SymAt(cl, 1, 0), 1))
  {
    assert Rev(1, v) == 0;
  }

  /** The root entry is the leaf of the symbol v starts with. */
  lemma RootLeaf(T: seq<Huft>, t: nat, bb: nat, cl: seq<nat>, v: nat)
    requires |cl| == 19 && ValidLengths(cl) && Decodes(T, t, bb, BitTree(cl)) && Longest(cl) <= bb
    requires Decode(cl, v).Some?
    ensures BitEntry(T, t, bb, cl, v)
  {
    hide Longest, DecodeFrom, Low, Shr, Lookahead;
    NoLinks(T, t, bb, BitTree(cl), v);
    assert DecodesOn(T, t, bb, BitTree(cl), v);
  }

  lemma LoneEntry(T: seq<Huft>, t: nat, cl: seq<nat>, e: nat)
    requires e % 2 == 0 && Count(cl, 1) > 0 && LonePair(T, t)
    requires Decode(cl, e) == Some(Coded(SymAt(cl, 1, 0), 1)) && Decode(cl, e + 1).None?
    requires BitEntry(T, t, 1, cl, e)
    ensures BitEntry(T, t, 1, cl, e + 1)
  {
    hide Decode, SymAt, Count;
    assert Low(e, 1) == 0 && Low(e + 1, 1) == 1;
  }

  lemma BitEntryFound(T: seq<Huft>, t: nat, bb: nat, cl: seq<nat>, v: nat)
    requires |cl| == 19 && ValidLengths(cl) && Verdict(cl) == Ok && !NoCodes(cl)
    requires Decodes(T, t, bb, BitTree(cl)) && bb == Longest(cl)
    requires Complete(cl) || LonePair(T, t)
    ensures BitEntry(T, t, bb, cl, v)
  {
    hide Decodes, Longest, Decode, BitEntry, Count, LonePair, OverSubscribed, Complete;
    LongestCount(cl);
    CompleteIffTotal(cl);
    if Decode(cl, v).Some? {
      RootLeaf(T, t, bb, cl, v);
    } else {
      var e: nat := v - v % 2;
      LoneDecode(cl, e);
      RootLeaf(T, t, bb, cl, e);
      LoneEntry(T, t, cl, e);
    }
  }

  lemma BitTableBuilt(T: seq<Huft>, hn: nat, t: nat, bb: nat, cl: seq<nat>)
    requires |cl| == 19 && ValidLengths(cl) && Verdict(cl) == Ok && !NoCodes(cl)
    requires hn <= |T| && Decodes(T[..hn], t, bb, BitTree(cl)) && bb == Longest(cl) <= 7
    requires Complete(cl) || LonePair(T, t)
    ensures BitTable(T, t, bb, cl)
  {
    hide Decodes, Longest, Verdict, Complete, LonePair, BitEntry, NoCodes;
    DecodesExtends(T[..hn], T, t, bb, BitTree(cl));
    LongestCount(cl);
    forall v: nat ensures BitEntry(T, t, bb, cl, v) {
      BitEntryFound(T, t, bb, cl, v);
    }
  }

  lemma OneLookup(cl: seq<nat>, v: nat)
    requires Decode(cl, v).Some? && Longest(cl) <= BBITS
    ensures BitsWanted(cl, BBITS, v, Lookups) == Longest(cl)
  {
    hide DecodeFrom;
    var c := Decode(cl, v).value;
    DecodeFromSound(cl, v, 1);
    assert cl[c.sym] == c.len;
  }

  /** The lookup gives the symbol the reference decoder takes, if there are as many bits as it wants. */
  lemma BitSymbolFound(T: seq<Huft>, t: nat, bb: nat, cl: seq<nat>, input: seq<byte>, pos: nat)
    requires BitTable(T, t, bb, cl) && |cl| == 19
    ensures pos + bb > 8 * |input| ==> BitLengthSymbol(cl, input, pos) == Short
    ensures pos + bb <= 8 * |input| ==>
              && t + Peek(input, pos, bb) < |T|
              && var en := T[t + Peek(input, pos, bb)];
                 1 <= en.bits <= bb && en.base < 19 && BitLengthSymbol(cl, input, pos) == Got(en.base, pos + en.bits)
  {
    hide Rest, DecodeFrom, Longest, SymAt, BitsWanted, Count;
    assert BitEntry(T, t, bb, cl, Rest(input, pos));
    if Decode(cl, Rest(input, pos)).Some? {
      OneLookup(cl, Rest(input, pos));
    }
  }

  /** inflate_trees_bits. Its table always fits the space. */
  method TreesBits(c: seq<nat>, hp: array<Huft>) returns (r: Ret, bb: nat, tb: nat)
    requires |c| == 19 && (forall i :: 0 <= i < 19 ==> c[i] <= 7) && hp.Length == MANY
    modifies hp
    ensures r == if Verdict(c) == Ok && !NoCodes(c) then Ok else DataError
    ensures r == Ok ==> BitTable(hp[..], tb, bb, c)
  {
    hide Verdict, Longest, Shortest, Decodes, Skips, Follows, TableSpace, BitTable, LonePair, Complete, TableEntries;
    var v := new nat[19];
    var hn;
    BitRoot(c);
    r, tb, bb, hn := Build(BitTree(c), BBITS, hp, 0, v);
    if !NoCodes(c) && Verdict(c) != DataError { BitEntries(c); }
    if r == BufError || bb == 0 { r := DataError; }
    if r == Ok { BitTableBuilt(hp[..], hn, tb, bb, c); }
  }

  /** Bit lengths of up to 7 take one table of at most 128 entries. */
  lemma BitRoot(c: seq<nat>)
    requires forall i :: 0 <= i < |c| ==> c[i] <= 7
    ensures ValidLengths(c) && Longest(c) <= 7 && RootBits(BBITS, c) == Longest(c) && Pow2(Longest(c)) <= MANY
    ensures Verdict(c) in {Ok, DataError, BufError} && (NoCodes(c) ==> Verdict(c) == Ok)
    ensures !NoCodes(c) ==> Longest(c) > 0 && !Skips(c, Longest(c))
  {
    hide Used, Skips;
    if !NoCodes(c) {
      LongestCount(c);
      ShortNeverSkips(c, Longest(c));
    }
    if Shortest(c) > 0 { var i :| 0 <= i < |c| && c[i] == Shortest(c); }
    Pow2Mono(Longest(c), 7);
    assert Pow2(7) == 128;
  }

  lemma BitEntries(c: seq<nat>)
    requires ValidLengths(c) && !NoCodes(c) && Verdict(c) != DataError && RootBits(BBITS, c) == Longest(c)
    ensures TableEntries(BBITS, c) == Pow2(Longest(c))
  {
    hide Longest, Shortest, Pow2, Used, EntriesFrom;
    RootEntries(BBITS, c);
  }

  // ----- the codes of a dynamic block -----

  lemma RootUsed(lens: seq<nat>, m: nat)
    requires !NoCodes(lens) && m >= 1
    ensures 1 <= RootBits(m, lens) && 1 <= Shortest(lens) <= Longest(lens)
  {
    var i :| 0 <= i < |lens| && lens[i] != 0;
  }

  /** m bits, or all that the longest codeword has: enough for the walk, and never more than m. */
  lemma RootFits(lens: seq<nat>, m: nat)
    requires ValidLengths(lens) && !NoCodes(lens) && Verdict(lens) == Ok && 1 <= m && |lens| < Pow2(m + 1)
    ensures var l := RootBits(m, lens);
            1 <= l <= m && (l == m || Longest(lens) == l) && !Skips(lens, l) && Longest(lens) <= BMAX
  {
    hide Used, Pow2, Longest, Shortest, Skips;
    LongestCount(lens);
    RootUsed(lens, m);
    var l := RootBits(m, lens);
    if Complete(lens) {
      ShortestBound(lens);
      if Shortest(lens) > m { Pow2Mono(m + 1, Shortest(lens)); }
      if l == m { FewNeverSkip(lens, m); }
    }
    if Longest(lens) <= 2 * l { ShortNeverSkips(lens, l); }
  }

  lemma TenPowers()
    ensures Pow2(9) == 512 && Pow2(10) == 1024
  {
    assert Pow2(5) == 32;
    assert Pow2(8) == 256;
  }

  /** The tables for a literal/length code take at most 922 entries. */
  lemma LitSpace(lens: seq<nat>)
    requires LitOK(lens) && ValidLengths(lens) && |lens| <= 286
    ensures TableSpace(RootBits(LBITS, lens), Longest(lens), |lens|) <= 922 && !Skips(lens, RootBits(LBITS, lens))
  {
    hide TableSpace, Longest, Shortest, RootBits, Skips, Verdict, Pow2;
    TenPowers();
    RootFits(lens, LBITS);
    var l := RootBits(LBITS, lens);
    if l == LBITS {
      NineBitSpace(Longest(lens), |lens|);
    } else {
      OneTableSpace(l, |lens|);
      Pow2Mono(l, 9);
    }
  }

  /** Those for a distance code at most 452, so that both are within the 1440 there are. */
  lemma DistSpace(lens: seq<nat>)
    requires ValidLengths(lens) && !NoCodes(lens) && Verdict(lens) == Ok && |lens| <= 30
    ensures TableSpace(RootBits(DBITS, lens), Longest(lens), |lens|) <= 452 && !Skips(lens, RootBits(DBITS, lens))
  {
    assert Pow2(7) == 128 && Pow2(6) == 64;
    hide TableSpace, Longest, Shortest, RootBits, Skips, Verdict, Pow2;
    RootFits(lens, DBITS);
    var l := RootBits(DBITS, lens);
    if l == DBITS {
      SixBitSpace(Longest(lens), |lens|);
    } else {
      OneTableSpace(l, |lens|);
      Pow2Mono(l, 6);
    }
  }

  lemma LitBuilt(T: seq<Huft>, t: nat, l: nat, lens: seq<nat>)
    requires ValidLengths(lens) && LitOK(lens) && |lens| <= 288 && l == RootBits(LBITS, lens)
    requires LitTree(lens).Valid() && Decodes(T, t, l, LitTree(lens))
    ensures LitTable(T, t, l, lens)
  {
    hide Decodes, Longest, Shortest, Verdict, Skips, LitTree, Pow2, RootBits;
    TenPowers();
    RootFits(lens, LBITS);
  }

  lemma DistBuilt(T: seq<Huft>, t: nat, l: nat, lens: seq<nat>)
    requires ValidLengths(lens) && !NoCodes(lens) && Verdict(lens) == Ok && |lens| <= 32 && l == RootBits(DBITS, lens)
    requires DistTree(lens).Valid() && Decodes(T, t, l, DistTree(lens))
    ensures DistTable(T, t, l, lens)
  {
    assert Pow2(7) == 128;
    hide Decodes, Longest, Shortest, Verdict, Skips, DistTree, Pow2, RootBits;
    RootFits(lens, DBITS);
  }

  lemma CodesValid(c: seq<nat>, nl: nat)
    requires 1 <= nl <= 286 && nl < |c| <= nl + 30 && ValidLengths(c)
    ensures ValidLengths(c[..nl]) && ValidLengths(c[nl..])
    ensures LitTree(c[..nl]).Valid() && DistTree(c[nl..]).Valid()
  {
    hide LitTree, DistTree;
    LitTreeValid(c[..nl]);
    DistTreeValid(c[nl..]);
  }

  /** The first call of huft_build: for an acceptable code the tables are right and leave room for the second. */
  method BuildLit(lit: seq<nat>, hp: array<Huft>, v: array<nat>) returns (r: Ret, t: nat, l: nat, hn: nat)
    requires ValidLengths(lit) && LitTree(lit).Valid() && 1 <= |lit| <= 286 && v.Length == 288 && hp.Length == MANY
    modifies hp, v
    ensures r in {Ok, BufError, DataError, MemError} && l == if NoCodes(lit) then 0 else RootBits(LBITS, lit)
    ensures hn <= MANY && (LitOK(lit) <==> r == Ok && l != 0)
    ensures LitOK(lit) ==> hn <= 922 && Decodes(hp[..hn], t, l, LitTree(lit))
    ensures r == MemError <==> Verdict(lit) != DataError && TableEntries(LBITS, lit) > MANY
    ensures r == Ok ==> hn == TableEntries(LBITS, lit)
  {
    hide Decodes, Longest, Shortest, Skips, Complete, RootBits, Pow2, TableSpace, Follows, LonePair, LitTree,
      OverSubscribed, TableEntries;
    r, t, l, hn := Build(LitTree(lit), LBITS, hp, 0, v);
    if !NoCodes(lit) { RootUsed(lit, LBITS); }
    if LitOK(lit) { LitSpace(lit); }
    if r !in {Ok, BufError} { hn := 0; }
  }

  /** The second call. */
  method BuildDist(dist: seq<nat>, hp: array<Huft>, hn: nat, v: array<nat>) returns (r: Ret, t: nat, l: nat)
    requires ValidLengths(dist) && DistTree(dist).Valid() && 1 <= |dist| <= 30 && v.Length == 288
    requires hp.Length == MANY && hn <= 922
    modifies hp, v
    ensures r in {Ok, BufError, DataError, MemError} && l == if NoCodes(dist) then 0 else RootBits(DBITS, dist)
    ensures (r == Ok <==> Verdict(dist) == Ok) && (l == 0 <==> NoCodes(dist))
    ensures r == MemError <==> Verdict(dist) != DataError && hn + TableEntries(DBITS, dist) > MANY
    ensures hp[..hn] == old(hp[..hn])
    ensures r == Ok && !NoCodes(dist) ==> Decodes(hp[..], t, l, DistTree(dist))
  {
    hide Decodes, Longest, Shortest, Skips, Complete, RootBits, Pow2, TableSpace, Follows, LonePair, DistTree,
      OverSubscribed, TableEntries;
    var hn';
    r, t, l, hn' := Build(DistTree(dist), DBITS, hp, hn, v);
    if NoCodes(dist) {
      NoEntries(DBITS, dist);
    } else {
      RootUsed(dist, DBITS);
      if Verdict(dist) == Ok {
        DistSpace(dist);
        DecodesExtends(hp[..hn'], hp[..], t, l, DistTree(dist));
      }
    }
  }

  /** The tables of the literal/length code, or of both codes together, take more entries than there are; and no verdict
      comes before that. */
  predicate OutOfEntries(lit: seq<nat>, dist: seq<nat>)
    requires ValidLengths(lit) && ValidLengths(dist)
  {
    || (Verdict(lit) != DataError && TableEntries(LBITS, lit) > MANY)
    || (LitOK(lit) && Verdict(dist) != DataError && TableEntries(LBITS, lit) + TableEntries(DBITS, dist) > MANY)
  }

  /** inflate_trees_dynamic: builds both tables, the second behind the first. For the codes a block may have there is
      always enough space; others are invalid, but if their tables take too many entries, it says that instead. */
  method TreesDynamic(nl: nat, nd: nat, c: seq<nat>, hp: array<Huft>)
      returns (r: Ret, bl: nat, bd: nat, tl: nat, td: nat)
    requires 257 <= nl <= 286 && 1 <= nd <= 30 && |c| == nl + nd && ValidLengths(c) && hp.Length == MANY
    modifies hp
    ensures r in {Ok, DataError, MemError} && (r == Ok <==> LitOK(c[..nl]) && DistOK(c[nl..], nl))
    ensures r == Ok ==> LitTable(hp[..], tl, bl, c[..nl])
    ensures r == Ok ==> if NoCodes(c[nl..]) then nl <= 257 else DistTable(hp[..], td, bd, c[nl..])
    ensures r == MemError <==> OutOfEntries(c[..nl], c[nl..])
  {
    hide Decodes, Verdict, RootBits, Pow2, LitTable, DistTable, LitTree, DistTree, NoCodes, TableEntries;
    var v := new nat[288];
    var lit, dist := c[..nl], c[nl..];
    CodesValid(c, nl);
    VerdictOfNone(lit);
    bd, td := 0, 0;
    var hn;
    r, tl, bl, hn := BuildLit(lit, hp, v);
    if r != Ok || bl == 0 {
      if r != DataError && r != MemError { r := DataError; }
      return;
    }
    ghost var T := hp[..hn];
    r, td, bd := BuildDist(dist, hp, hn, v);
    if r != Ok || (bd == 0 && nl > 257) {
      if r != DataError && r != MemError { r := DataError; }
      return;
    }
    DecodesExtends(T, hp[..], tl, bl, LitTree(lit));
    LitBuilt(hp[..], tl, bl, lit);
    if !NoCodes(dist) { DistBuilt(hp[..], td, bd, dist); }
  }

  lemma VerdictOfNone(lens: seq<nat>)
    ensures NoCodes(lens) ==> Verdict(lens) == Ok
  {}
}
