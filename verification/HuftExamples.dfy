/** Codes on both sides of the conditions for huft_build: tables that cannot decode, and too little space. */
module HuftExamples {
  import opened Bits
  import opened Canonical
  import opened HuftTable
  import opened HuftSkip
  import opened HuftSpace
  import opened HuftOpen
  import opened HuftBuild
  import opened Deflate
  import opened InflateTrees

  // ----- tables of one bit -----

  /** After the 1-bit codeword 0, all codewords that start with 1 have 3 bits: one level is skipped. */
  const GAPPED: seq<nat> := [1, 3, 3, 3, 3]

  /** Here the codewords go down one bit at a time. */
  const STEPPED: seq<nat> := [1, 2, 3, 3]

  function Narrow(stepped: bool): seq<nat> {
    if stepped then STEPPED else GAPPED
  }

  lemma CountOfFive(a: nat, b: nat, c: nat, d: nat, e: nat, k: nat)
    ensures Count([a, b, c, d, e], k) ==
            (if a == k then 1 else 0) + (if b == k then 1 else 0) + (if c == k then 1 else 0)
            + (if d == k then 1 else 0) + (if e == k then 1 else 0)
  {
    CountOfFour(a, b, c, d, k);
    assert [a, b, c, d, e][..4] == [a, b, c, d];
  }

  lemma CountOfFour(a: nat, b: nat, c: nat, d: nat, k: nat)
    ensures Count([a, b, c, d], k) ==
            (if a == k then 1 else 0) + (if b == k then 1 else 0)
            + (if c == k then 1 else 0) + (if d == k then 1 else 0)
  {
    assert [a, b, c, d][..3] == [a, b, c] && [a, b, c][..2] == [a, b] && [a, b][..1] == [a] && [a][..0] == [];
    assert Count([a, b], k) == (if a == k then 1 else 0) + (if b == k then 1 else 0);
  }

  /** The partial Kraft sums of a code of up to 3 bits. */
  lemma ThreeBitSums(lens: seq<nat>)
    requires forall k :: k > 3 ==> Count(lens, k) == 0
    ensures Used(lens, 1) == 16384 * Count(lens, 1)
    ensures Used(lens, 2) == Used(lens, 1) + 8192 * Count(lens, 2)
    ensures Used(lens, BMAX) == Used(lens, 3) == Used(lens, 2) + 4096 * Count(lens, 3)
  {
    FewPowers();
    ShlIsProduct(Count(lens, 1), 14);
    ShlIsProduct(Count(lens, 2), 13);
    ShlIsProduct(Count(lens, 3), 12);
    UsedFlatFrom3(lens, BMAX);
  }

  lemma UsedFlatFrom3(lens: seq<nat>, n: nat)
    requires 3 <= n <= BMAX && forall k :: k > 3 ==> Count(lens, k) == 0
    ensures Used(lens, n) == Used(lens, 3)
  {
    if n > 3 {
      UsedFlatFrom3(lens, n - 1);
      ShlOne(BMAX - n);
    }
  }

  lemma FewPowers()
    ensures Pow2(12) == 4096 && Pow2(13) == 8192 && Pow2(14) == 16384 && Pow2(15) == 32768
  {
    assert Pow2(10) == 1024;
  }

  /** Up to two bits, the codewords of a narrow code come up to u1 and u2. */
  predicate NarrowUsed(lens: seq<nat>, u1: nat, u2: nat) {
    && Used(lens, 0) == 0 && Used(lens, 1) == u1 && Used(lens, 2) == u2
    && u1 == 16384 && (u2 == 16384 || u2 == 24576)
  }

  lemma NoneUsedYet(lens: seq<nat>)
    ensures Used(lens, 0) == 0
  {}

  lemma GappedCode()
    ensures Complete(GAPPED) && Verdict(GAPPED) == Ok && Longest(GAPPED) == 3 && RootBits(1, GAPPED) == 1
    ensures Skips(GAPPED, 1) && NarrowUsed(GAPPED, 16384, 16384)
  {
    hide Used, Count, Pow2;
    forall k: nat ensures Count(GAPPED, k) == if k == 1 then 1 else if k == 3 then 4 else 0 {
      CountOfFive(1, 3, 3, 3, 3, k);
    }
    ThreeBitSums(GAPPED);
    NoneUsedYet(GAPPED);
    FewPowers();
    assert GAPPED[0] == 1 && GAPPED[1] == 3;
    assert SkipsAt(GAPPED, 1, 1);
  }

  lemma SteppedCode()
    ensures Complete(STEPPED) && Verdict(STEPPED) == Ok && Longest(STEPPED) == 3 && RootBits(1, STEPPED) == 1
    ensures !Skips(STEPPED, 1) && NarrowUsed(STEPPED, 16384, 24576)
  {
    hide Used, Count, Pow2;
    forall k: nat ensures Count(STEPPED, k) == if k == 1 || k == 2 then 1 else if k == 3 then 2 else 0 {
      CountOfFour(1, 2, 3, 3, k);
    }
    ThreeBitSums(STEPPED);
    NoneUsedYet(STEPPED);
    FewPowers();
    assert STEPPED[0] == 1 && STEPPED[2] == 3;
  }

  // ----- the entries they take -----

  lemma NarrowRoot(lens: seq<nat>, u1: nat, u2: nat)
    requires NarrowUsed(lens, u1, u2)
    ensures LevelEntries(lens, 1, 3, 0, 1) == 2
  {
    hide Used;
    FewPowers();
    ShlOne(BMAX);
    assert Reaching(lens, 3, 1, 1) == 1 && Reaching(lens, 3, 32768, 1) == 3;
    assert LevelEntries(lens, 1, 3, 0, 0) == 0;
  }

  lemma NarrowMiddle(lens: seq<nat>, u1: nat, u2: nat)
    requires NarrowUsed(lens, u1, u2)
    ensures LevelEntries(lens, 1, 3, 1, 2) == if u2 == 16384 then 4 else 2
  {
    hide Used;
    FewPowers();
    ShlOne(14);
    assert EntriesAt(lens, 1, 3, 1, 0) == 0;
    assert Reaching(lens, 3, 16385, 2) == if u2 == 16384 then 3 else 2;
    assert Reaching(lens, 3, 32768, 2) == 3;
    assert LevelEntries(lens, 1, 3, 1, 0) == 0;
    assert LevelEntries(lens, 1, 3, 1, 1) == 0;
  }

  lemma NarrowLast(lens: seq<nat>, u1: nat, u2: nat)
    requires NarrowUsed(lens, u1, u2)
    ensures LevelEntries(lens, 1, 3, 2, 4) == if u2 == 16384 then 4 else 2
  {
    hide Used;
    FewPowers();
    ShlOne(13);
    ShlIsProduct(2, 13);
    ShlIsProduct(3, 13);
    assert LevelEntries(lens, 1, 3, 2, 0) == 0;
    assert LevelEntries(lens, 1, 3, 2, 1) == 0;
    assert LevelEntries(lens, 1, 3, 2, 2) == 0;
    assert EntriesAt(lens, 1, 3, 2, 16384) == if u2 == 16384 then 2 else 0;
    assert EntriesAt(lens, 1, 3, 2, 24576) == 2;
    assert LevelEntries(lens, 1, 3, 2, 3) == if u2 == 16384 then 2 else 0;
  }

  lemma NarrowEntries(lens: seq<nat>, u1: nat, u2: nat)
    requires ValidLengths(lens) && NarrowUsed(lens, u1, u2) && RootBits(1, lens) == 1 && Longest(lens) == 3
    ensures TableEntries(1, lens) == if u2 == 16384 then 10 else 6
  {
    hide Used, LevelEntries, RootBits, Longest;
    NarrowRoot(lens, u1, u2);
    NarrowMiddle(lens, u1, u2);
    NarrowLast(lens, u1, u2);
    assert Pow2(0) == 1 && Pow2(1) == 2 && Pow2(2) == 4;
    assert EntriesFrom(lens, 1, 3, 3) == 0;
  }

  /** Builds tables of one bit in new space: they decode the code without a gap, and only that one. */
  method NarrowTables(stepped: bool) returns (ret: Ret, hp: array<Huft>, t: nat, hn: nat)
    ensures ret == Ok && Tree(Narrow(stepped), 5, [], []).Valid() && hn == if stepped then 6 else 10
    ensures Follows(hp[..], t, 1, Tree(Narrow(stepped), 5, [], [])) <==> stepped
  {
    hide Narrow, Follows, Decodes, Skips, Verdict, Complete, Longest, RootBits, NoCodes, TableEntries;
    NarrowCode(stepped);
    hp := new Huft[MANY](_ => Huft(0, 0, 0));
    var v := new nat[5];
    var l;
    ret, t, l, hn := Build(Tree(Narrow(stepped), 5, [], []), 1, hp, 0, v);
  }

  lemma NarrowCode(stepped: bool)
    ensures var lens := Narrow(stepped);
            && 1 <= |lens| <= 5 && Tree(lens, 5, [], []).Valid()
            && Complete(lens) && Verdict(lens) == Ok && RootBits(1, lens) == 1 && !NoCodes(lens)
            && TableEntries(1, lens) == (if stepped then 6 else 10) && (Skips(lens, 1) <==> !stepped)
  {
    hide Used, Skips, Verdict, Complete, Longest, RootBits, TableEntries;
    GappedCode();
    SteppedCode();
    NarrowEntries(GAPPED, 16384, 16384);
    NarrowEntries(STEPPED, 16384, 24576);
    assert Narrow(stepped)[0] == 1;
  }

  // ----- codes that take too much space, and one that just does not -----

  /** A literal/length code of two codewords, of 1 and of g bits; so it is incomplete. */
  function Forked(g: nat): (lens: seq<nat>)
    ensures |lens| == 257 && lens[0] == 1 && lens[256] == g && forall i :: 0 < i < 256 ==> lens[i] == 0
  {
    [1] + Repeat(0, 255) + [g]
  }

  lemma {:induction false} OneIn(lens: seq<nat>, i: nat, k: nat)
    requires i <= |lens| && k > 0 && forall x :: 0 <= x < i ==> lens[x] == if x == 0 then 1 else 0
    ensures Count(lens[..i], k) == if k == 1 && i > 0 then 1 else 0
  {
    if i > 0 {
      OneIn(lens, i - 1, k);
      assert lens[..i][..i - 1] == lens[..i - 1];
    }
  }

  lemma ForkedCounts(g: nat, k: nat)
    requires 1 < g && k > 0
    ensures Count(Forked(g), k) == if k == 1 || k == g then 1 else 0
  {
    hide Forked;
    OneIn(Forked(g), 256, k);
    LastCounts(Forked(g), k);
  }

  lemma LastCounts(lens: seq<nat>, k: nat)
    requires |lens| == 257
    ensures Count(lens, k) == Count(lens[..256], k) + if lens[256] == k then 1 else 0
  {}

  lemma {:induction false} ForkedUsed(g: nat, k: nat)
    requires 1 < g <= BMAX && 1 <= k <= BMAX
    ensures Used(Forked(g), k) == 16384 + if k >= g then Pow2(BMAX - g) else 0
  {
    hide Forked, Count;
    ForkedCounts(g, k);
    ShlOne(BMAX - k);
    if k == 1 { FewPowers(); } else { ForkedUsed(g, k - 1); }
  }

  lemma ForkedVerdict(g: nat)
    requires 10 <= g <= BMAX
    ensures var lens := Forked(g);
            ValidLengths(lens) && Verdict(lens) == BufError && RootBits(LBITS, lens) == 9 && Longest(lens) == g
  {
    hide Forked, Used;
    var lens := Forked(g);
    ForkedUsed(g, BMAX);
    FewPowers();
    Pow2Mono(BMAX - g, 5);
    assert lens[0] == 1 && lens[256] == g;
  }

  /** Behind 9 bits, every prefix in the upper half of the code space takes a table. */
  lemma {:induction false} ForkedLevel(g: nat, n: nat)
    requires 10 <= g <= BMAX && n <= 512
    ensures LevelEntries(Forked(g), 9, g, 9, n) == if n <= 256 then 0 else (n - 256) * Pow2(g - 9)
  {
    hide Forked, EntriesAt, Shl, Pow2;
    if n > 0 {
      ForkedLevel(g, n - 1);
      ForkedTable(g, n - 1);
      if n > 256 { OneMoreTime(n - 257, Pow2(g - 9)); }
    }
  }

  lemma OneMoreTime(n: nat, p: nat)
    ensures (n + 1) * p == n * p + p
  {}

  lemma ForkedTable(g: nat, P: nat)
    requires 10 <= g <= BMAX && P < 512
    ensures EntriesAt(Forked(g), 9, g, 9, Shl(P, 6)) == if P < 256 then 0 else Pow2(g - 9)
  {
    hide Forked, Used, Reaching, Pow2, Shl;
    var lens, x := Forked(g), Shl(P, 6);
    ShlIsProduct(P, 6);
    SixtyFour();
    ForkedUsed(g, 9);
    if P >= 256 {
      ForkedUsed(g, g - 1);
      ReachingIs(lens, g, x + 1, 10, g);
      ReachingIs(lens, g, x + 64, 10, g);
    }
  }

  lemma SixtyFour()
    ensures Pow2(6) == 64 && Pow2(9) == 512
  {
    assert Pow2(8) == 256;
  }

  /** 256 tables of 2^(g - 9) entries each, behind the first one of 512. */
  lemma ForkedEntries(g: nat)
    requires 10 <= g <= BMAX
    ensures ValidLengths(Forked(g)) && TableEntries(LBITS, Forked(g)) == 512 + 256 * Pow2(g - 9)
  {
    hide Forked, Used, LevelEntries, RootBits, Longest, Reaching, Verdict, Pow2;
    var lens := Forked(g);
    ForkedVerdict(g);
    FewPowers();
    SixtyFour();
    ForkedUsed(g, 1);
    ForkedUsed(g, g - 1);
    ReachingIs(lens, g, 1, 1, 1);
    ReachingIs(lens, g, 32768, 1, g);
    RootLevel(lens, 9, g);
    FirstLevel(lens, 9, g);
    ForkedLevel(g, 512);
    assert EntriesFrom(lens, 9, g, 18) == 0;
  }

  /** The block is invalid either way. With 10 bits there is space to find that out; with more, memory runs out
      before. */
  method OutOfSpace(g: nat) returns (r: Ret)
    requires 10 <= g <= BMAX
    ensures !LitOK(Forked(g)) && r == if g == 10 then DataError else MemError
  {
    hide Verdict, RootBits, Forked, DistOK, TableEntries;
    ForkedVerdict(g);
    ForkedEntries(g);
    Pow2Mono(1, g - 9);
    if g > 10 { Pow2Mono(2, g - 9); }
    assert Pow2(1) == 2 && Pow2(2) == 4;
    var hp := new Huft[MANY](_ => Huft(0, 0, 0));
    var c := Forked(g) + [1];
    assert c[..257] == Forked(g);
    var bl, bd, tl, td;
    r, bl, bd, tl, td := TreesDynamic(257, 1, c, hp);
  }
}
