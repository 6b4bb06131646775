/** A complete stream whose last two bytes of output the decoder never delivers, with all the input and room to spare:
    the last literals and the end of the block are short codewords in a code that has longer ones. Its code lengths use
    all three repeat codes. */
module LostOutput {
  import opened Bits
  import opened Wrappers
  import opened Canonical
  import opened CodeSpace
  import opened Deflate
  import opened BitBuffer
  import opened InflateTrees
  import opened Window
  import opened Inflater
  import opened Runs

  /** The last block, with codes of its own: nine zeros of one bit each, and two bits for the end of the block. */
  function Lost(): seq<byte> { [5, 192, 183, 13, 0, 48, 0, 195, 48, 58, 229, 255, 111, 119, 1, 64] }

  lemma LostBytes()
    ensures |Lost()| == 16
    ensures Lost()[0] == 5 && Lost()[1] == 192 && Lost()[2] == 183 && Lost()[3] == 13 && Lost()[4] == 0
    ensures Lost()[5] == 48 && Lost()[6] == 0 && Lost()[7] == 195 && Lost()[8] == 48 && Lost()[9] == 58
    ensures Lost()[10] == 229 && Lost()[11] == 255 && Lost()[12] == 111 && Lost()[13] == 119 && Lost()[14] == 1
    ensures Lost()[15] == 64
  {}

  // ----- the bits -----

  lemma ByteFirst(i: nat, b: nat, x: nat)
    requires i < |Lost()| && Lost()[i] == b && x == b + 256 * StreamVal(Lost()[i + 1..])
    ensures StreamVal(Lost()[i..]) == x
  {
    hide Lost;
    assert Lost()[i..][1..] == Lost()[i + 1..];
  }

  lemma NoBytes(input: seq<byte>)
    requires input == []
    ensures StreamVal(input) == 0
  {}

  lemma LostBits()
    ensures Rest(Lost(), 0) == 85078206507357820639479853158044778501
  {
    hide StreamVal, Lost;
    LostBytes();
    NoBytes(Lost()[16..]);
    ByteFirst(15, 64, 64);
    ByteFirst(14, 1, 16385);
    ByteFirst(13, 119, 4194679);
    ByteFirst(12, 111, 1073837935);
    ByteFirst(11, 255, 274902511615);
    ByteFirst(10, 229, 70375042973669);
    ByteFirst(9, 58, 18016011001259322);
    ByteFirst(8, 48, 4612098816322386480);
    ByteFirst(7, 195, 1180697296978530939075);
    ByteFirst(6, 0, 302258508026503920403200);
    ByteFirst(5, 48, 77378178054785003623219248);
    ByteFirst(4, 0, 19808813582024960927544127488);
    ByteFirst(3, 13, 5071056276998389997451296636941);
    ByteFirst(2, 183, 1298190406911587839347531939057079);
    ByteFirst(1, 192, 332336744169366486872968176398612416);
    ByteFirst(0, 5, 85078206507357820639479853158044778501);
    assert Lost()[0..] == Lost();
    NoShift(StreamVal(Lost()));
  }

  lemma NoShift(x: nat)
    ensures Shr(x, 0) == x
  {}

  /** The next n bits, and what comes behind them. */
  lemma Field(p: nat, n: nat, x: nat, d: nat)
    requires Rest(Lost(), p) == x && Pow2(n) == d
    ensures Peek(Lost(), p, n) == x % d && Rest(Lost(), p + n) == x / d
  {
    hide Lost, StreamVal;
    RestSplit(Lost(), p, n);
    ShiftIsDivision(x, n);
  }

  lemma SmallPowers()
    ensures Pow2(0) == 1 && Pow2(1) == 2 && Pow2(2) == 4 && Pow2(3) == 8 && Pow2(4) == 16 && Pow2(5) == 32
    ensures Pow2(7) == 128
  {}

  // ----- the header of the block -----

  /** The lengths of the bit-length code, and those of the code for literals. There are no distances. */
  function BitLens(): (cl: seq<nat>)
    ensures |cl| == 19 && forall i :: 0 <= i < 19 ==> cl[i] == if i < 4 || i == 5 || i >= 16 then 3 else 0
  {
    [3, 3, 3, 3, 0, 3] + Repeat(0, 10) + [3, 3, 3]
  }

  function LitLens(): (lens: seq<nat>)
    ensures |lens| == 257 && lens[0] == 1 && lens[1] == 3 && lens[256] == 2
    ensures forall i :: 2 <= i < 256 ==> lens[i] == if i < 6 then 5 else 0
  {
    [1, 3, 5, 5, 5, 5] + Repeat(0, 138) + Repeat(0, 102) + Repeat(0, 10) + [2]
  }

  const HEAD: Header := Header(257, 1, 18, true)

  /** What is left of the stream at the i-th length of the bit-length code. */
  function Ahead(i: nat): nat { if i == 0 then 649095203455793919673765969528539 else Ahead(i - 1) / 8 }

  lemma AheadNext(i: nat)
    requires i > 0
    ensures Ahead(i) == Ahead(i - 1) / 8
  {}

  /** The lengths after i of them have been put in their places. */
  function Placed(i: nat): (cl: seq<nat>)
    requires i <= 18
    ensures |cl| == 19
  {
    if i == 0 then Repeat(0, 19)
    else
      BorderIndex(i - 1);
      Placed(i - 1)[BORDER[i - 1] := Ahead(i - 1) % 8]
  }

  lemma BorderIndex(i: nat)
    requires i < 19
    ensures 0 <= BORDER[i] < 19
  {}

  lemma HeaderFields(input: seq<byte>)
    requires input == Lost()
    ensures Peek(input, 0, 1) == 1 && Peek(input, 1, 2) == 2 && Peek(input, 3, 5) == 0
    ensures Peek(input, 8, 5) == 0 && Peek(input, 13, 4) == 14 && Rest(input, 17) == Ahead(0)
  {
    hide Lost, StreamVal, Peek, Rest, Pow2;
    LostBits();
    SmallPowers();
    Field(0, 1, 85078206507357820639479853158044778501, 2);
    Field(1, 2, 42539103253678910319739926579022389250, 4);
    Field(3, 5, 10634775813419727579934981644755597312, 32);
    Field(8, 5, 332336744169366486872968176398612416, 32);
    Field(13, 4, 10385523255292702714780255512456638, 16);
  }

  lemma {:induction false} LengthField(i: nat)
    requires i <= 18
    ensures Rest(Lost(), 17 + 3 * i) == Ahead(i) && Peek(Lost(), 17 + 3 * i, 3) == Ahead(i) % 8
  {
    hide Lost, StreamVal, Peek, Rest, Pow2, Ahead;
    SmallPowers();
    if i == 0 {
      HeaderFields(Lost());
    } else {
      LengthField(i - 1);
      AheadNext(i);
      Field(17 + 3 * (i - 1), 3, Ahead(i - 1), 8);
      assert 17 + 3 * (i - 1) + 3 == 17 + 3 * i;
    }
    Field(17 + 3 * i, 3, Ahead(i), 8);
  }

  lemma {:induction false} BitLengthsPlaced(i: nat, h: seq<byte>, how: Reading)
    requires i <= 18
    ensures BitLengths(Lost(), HEAD, i, Placed(i), 17 + 3 * i, h, how)
         == BitLengths(Lost(), HEAD, 18, Placed(18), 71, h, how)
    decreases 18 - i
  {
    hide Lost, Peek, Verdict, NoCodes, Lengths;
    if i < 18 {
      LostLength();
      LengthField(i);
      BorderIndex(i);
      BitLengthsPlaced(i + 1, h, how);
    }
  }

  lemma LostLength()
    ensures |Lost()| == 16
  {}

  lemma PlaceOne(i: nat, x: nat, at: nat, v: nat)
    requires i < 18 && Ahead(i) == x && BORDER[i] == at < 19 && v == x % 8
    ensures Placed(i + 1) == Placed(i)[at := v] && Ahead(i + 1) == x / 8
  {}

  lemma BorderStart()
    ensures BORDER[0] == 16 && BORDER[1] == 17 && BORDER[2] == 18 && BORDER[3] == 0 && BORDER[4] == 8
    ensures BORDER[5] == 7 && BORDER[6] == 9 && BORDER[7] == 6 && BORDER[8] == 10
  {}

  lemma BorderRest()
    ensures BORDER[9] == 5 && BORDER[10] == 11 && BORDER[11] == 4 && BORDER[12] == 12 && BORDER[13] == 3
    ensures BORDER[14] == 13 && BORDER[15] == 2 && BORDER[16] == 14 && BORDER[17] == 1
  {}

  lemma FirstPlaced()
    ensures Placed(9) == Repeat(0, 19)[16 := 3][17 := 3][18 := 3][0 := 3] && Ahead(9) == 4836136128424062726451203
  {
    BorderStart();
    assert Placed(0) == Repeat(0, 19);
    hide Placed, Ahead;
    NoneAhead();
    PlaceOne(0, 649095203455793919673765969528539, 16, 3);
    PlaceOne(1, 81136900431974239959220746191067, 17, 3);
    PlaceOne(2, 10142112553996779994902593273883, 18, 3);
    PlaceOne(3, 1267764069249597499362824159235, 0, 3);
    PlaceOne(4, 158470508656199687420353019904, 8, 0);
    PlaceOne(5, 19808813582024960927544127488, 7, 0);
    PlaceOne(6, 2476101697753120115943015936, 9, 0);
    PlaceOne(7, 309512712219140014492876992, 6, 0);
    PlaceOne(8, 38689089027392501811609624, 10, 0);
  }

  lemma NoneAhead()
    ensures Ahead(0) == 649095203455793919673765969528539
  {}

  lemma AllPlaced()
    ensures Placed(18) == BitLens() && Ahead(18) == 36032022002518644
  {
    hide Placed, Ahead;
    FirstPlaced();
    BorderRest();
    PlaceOne(9, 4836136128424062726451203, 5, 3);
    PlaceOne(10, 604517016053007840806400, 11, 0);
    PlaceOne(11, 75564627006625980100800, 4, 0);
    PlaceOne(12, 9445578375828247512600, 12, 0);
    PlaceOne(13, 1180697296978530939075, 3, 3);
    PlaceOne(14, 147587162122316367384, 13, 0);
    PlaceOne(15, 18448395265289545923, 2, 3);
    PlaceOne(16, 2306049408161193240, 14, 0);
    PlaceOne(17, 288256176020149155, 1, 3);
  }

  // ----- the codes -----

  lemma {:induction false} BitCounts(i: nat, k: nat)
    requires i <= 19 && k > 0
    ensures Count(BitLens()[..i], k) ==
            if k != 3 then 0 else if i < 4 then i else if i < 6 then 4 else if i <= 16 then 5 else i - 11
  {
    hide BitLens;
    if i > 0 {
      BitCounts(i - 1, k);
      var l := BitLens()[..i];
      assert l[|l| - 1] == BitLens()[i - 1];
      assert l[..|l| - 1] == BitLens()[..i - 1];
    }
  }

  lemma {:induction false} LitCounts(i: nat, k: nat)
    requires i <= 257 && k > 0
    ensures Count(LitLens()[..i], k) ==
            if k == 1 then (if i > 0 then 1 else 0)
            else if k == 2 then (if i > 256 then 1 else 0)
            else if k == 3 then (if i > 1 then 1 else 0)
            else if k == 5 then (if i >= 6 then 4 else if i >= 2 then i - 2 else 0)
            else 0
  {
    hide LitLens;
    if i > 0 {
      LitCounts(i - 1, k);
      var l := LitLens()[..i];
      assert l[|l| - 1] == LitLens()[i - 1];
      assert l[..|l| - 1] == LitLens()[..i - 1];
    }
  }

  lemma {:induction false} NoLonger(lens: seq<nat>, n: nat, k: nat)
    requires n <= k <= BMAX && forall x :: n < x <= BMAX ==> Count(lens, x) == 0
    ensures Used(lens, k) == Used(lens, n)
  {
    hide Count;
    if k > n {
      NoLonger(lens, n, k - 1);
      ShlOne(BMAX - k);
    }
  }

  lemma LongPowers()
    ensures Shl(1, 14) == 16384 && Shl(1, 13) == 8192 && Shl(1, 12) == 4096 && Shl(8, 12) == 32768
    ensures Shl(0, 11) == 0 && Shl(4, 10) == 4096 && Shl(0, 14) == 0 && Shl(0, 13) == 0 && Pow2(15) == 32768
  {
    assert Pow2(10) == 1024 && Pow2(12) == 4096 && Pow2(14) == 16384;
    ShlOne(14);
    ShlOne(13);
    ShlOne(12);
    ShlOne(11);
    ShlIsProduct(8, 12);
    ShlIsProduct(4, 10);
  }

  lemma BitCode()
    ensures ValidLengths(BitLens()) && Verdict(BitLens()) == Ok && !NoCodes(BitLens()) && Longest(BitLens()) == 3
    ensures FirstCode(BitLens(), 3) == 0
  {
    hide BitLens, Count, Used, Pow2;
    var cl := BitLens();
    assert cl[..19] == cl && cl[0] == 3;
    forall k: nat | k > 0 ensures Count(cl, k) == if k == 3 then 8 else 0 { BitCounts(19, k); }
    NoLonger(cl, 3, BMAX);
    BitSum(cl);
  }

  lemma BitSum(cl: seq<nat>)
    requires Count(cl, 1) == Count(cl, 2) == 0 && Count(cl, 3) == 8
    ensures Used(cl, 3) == Pow2(BMAX)
  {
    hide Count, Shl, Pow2;
    LongPowers();
    assert Used(cl, 1) == 0;
    assert Used(cl, 2) == 0;
  }

  lemma LitCode()
    ensures ValidLengths(LitLens()) && LitOK(LitLens()) && Longest(LitLens()) == 5 && RootBits(LBITS, LitLens()) == 5
    ensures FirstCode(LitLens(), 1) == 0 && FirstCode(LitLens(), 2) == 2
  {
    hide LitLens, Count, Used, Pow2;
    var lens := LitLens();
    assert lens[..257] == lens && lens[0] == 1 && lens[2] == 5;
    forall k: nat | k > 0 ensures Count(lens, k) == if k <= 3 then 1 else if k == 5 then 4 else 0 { LitCounts(257, k); }
    NoLonger(lens, 5, BMAX);
    LitSum(lens);
  }

  lemma LitSum(lens: seq<nat>)
    requires Count(lens, 1) == Count(lens, 2) == Count(lens, 3) == 1 && Count(lens, 4) == 0 && Count(lens, 5) == 4
    ensures Used(lens, 5) == Pow2(BMAX)
  {
    hide Count, Shl, Pow2;
    LongPowers();
    assert Used(lens, 1) == 16384;
    assert Used(lens, 2) == 24576;
    assert Used(lens, 3) == 28672;
    assert Used(lens, 4) == 28672;
  }

  lemma FewBits(x: nat)
    ensures x % 2 == 0 ==> Rev(1, x) == 0
    ensures x % 4 == 1 ==> Rev(2, x) == 2
    ensures Rev(3, x) == Turned(x % 8)
  {
    RevLow(1, x, 1);
    RevLow(2, x, 2);
    RevLow(3, x, 3);
    LowMods(x);
    TurnedIs(x % 8);
    assert Shl(1, 1) == 2 && Rev(2, 1) == 2;
    assert Rev(1, 0) == 0;
    hide Rev, Low;
  }

  /** Three bits in the opposite order. */
  function Turned(x: nat): nat {
    if x == 1 then 4 else if x == 3 then 6 else if x == 4 then 1 else if x == 6 then 3 else x
  }

  lemma TurnedIs(x: nat)
    requires x < 8
    ensures Rev(3, x) == Turned(x)
  {
    assert Shl(1, 2) == 4 && Shl(0, 2) == 0;
  }

  lemma LowMods(x: nat)
    ensures Low(x, 1) == x % 2 && Low(x, 2) == x % 4 && Low(x, 3) == x % 8
  {
    SmallPowers();
    ShiftIsDivision(x, 1);
    ShiftIsDivision(x, 2);
    ShiftIsDivision(x, 3);
  }

  /** The eight bit-length symbols in their order. */
  function SymbolOf(r: nat): nat {
    if r < 4 then r else if r == 4 then 5 else r + 11
  }

  /** The bit-length symbols, by the next three bits. */
  lemma BitDecodes(x: nat, s: nat)
    requires s == SymbolOf(Turned(x % 8))
    ensures s < 19 && BitLens()[s] == 3 && Decode(BitLens(), x) == Some(Coded(s, 3))
  {
    hide BitLens, Count, DecodeFrom, Rev, FirstCode, Verdict, Longest;
    BitCode();
    FewBits(x);
    BitCounts(s, 3);
    MatchDecodes(BitLens(), x, s);
  }

  lemma LitDecodes(x: nat)
    ensures x % 2 == 0 ==> Decode(LitLens(), x) == Some(Coded(0, 1))
    ensures x % 4 == 1 ==> Decode(LitLens(), x) == Some(Coded(256, 2))
  {
    hide LitLens, Count, DecodeFrom, Rev, FirstCode, LitOK, Longest, RootBits;
    LitCode();
    FewBits(x);
    LitCounts(0, 1);
    LitCounts(256, 2);
    if x % 2 == 0 { MatchDecodes(LitLens(), x, 0); }
    if x % 4 == 1 { MatchDecodes(LitLens(), x, 256); }
  }

  // ----- the lengths, one symbol after the other -----

  lemma BitSymbol(p: nat, x: nat, s: nat, how: Reading)
    requires Rest(Lost(), p) == x && p + 3 <= 128 && s == SymbolOf(Turned(x % 8))
    ensures BitLengthSymbol(BitLens(), Lost(), p, how) == Got(s, p + 3) && Rest(Lost(), p + 3) == x / 8
  {
    hide Lost, BitLens, DecodeFrom, Longest, Verdict, RootBits, Lookahead, StreamVal, Rest;
    SmallPowers();
    LostLength();
    BitCode();
    BitDecodes(x, s);
    OneLookup(BitLens(), x);
    Field(p, 3, x, 8);
  }

  /** A symbol below 16 is the next length itself. */
  lemma OneMoreLength(lens: seq<nat>, p: nat, x: nat, s: nat, h: seq<byte>, how: Reading)
    requires Rest(Lost(), p) == x && p + 3 <= 128 && s == SymbolOf(Turned(x % 8)) < 16 && |lens| < 258
    ensures Rest(Lost(), p + 3) == x / 8
    ensures Lengths(Lost(), HEAD, BitLens(), lens, p, h, how)
         == Lengths(Lost(), HEAD, BitLens(), lens + [s], p + 3, h, how)
  {
    hide Lost, StreamVal, Rest, BitLengthSymbol, Trees, Peek, Repeat, Turned, SymbolOf;
    BitSymbol(p, x, s, how);
  }

  /** A repeat code: three and the next two bits copies of the last length, three and the next three bits zeros, or
      eleven and the next seven bits zeros. */
  lemma MoreLengths(lens: seq<nat>, p: nat, x: nat, s: nat, n: nat, h: seq<byte>, how: Reading)
    requires Rest(Lost(), p) == x && p + 10 <= 128 && s == SymbolOf(Turned(x % 8)) && 16 <= s <= 18
    requires n == if s == 16 then 3 + x / 8 % 4 else if s == 17 then 3 + x / 8 % 8 else 11 + x / 8 % 128
    requires 0 < |lens| && |lens| + n < 258
    ensures var bits := if s == 16 then 2 else if s == 17 then 3 else 7;
            && Rest(Lost(), p + 3 + bits) == x / 8 / (if s == 16 then 4 else if s == 17 then 8 else 128)
            && Lengths(Lost(), HEAD, BitLens(), lens, p, h, how)
               == Lengths(Lost(), HEAD, BitLens(), lens + Repeat(if s == 16 then lens[|lens| - 1] else 0, n),
                          p + 3 + bits, h, how)
  {
    hide Lost, StreamVal, Rest, BitLengthSymbol, Trees, Peek, Repeat, Turned, SymbolOf;
    SmallPowers();
    LostLength();
    BitSymbol(p, x, s, how);
    if s == 16 {
      Field(p + 3, 2, x / 8, 4);
    } else if s == 17 {
      Field(p + 3, 3, x / 8, 8);
    } else {
      Field(p + 3, 7, x / 8, 128);
    }
  }

  lemma SixLengths(h: seq<byte>, how: Reading)
    requires Rest(Lost(), 71) == 36032022002518644
    ensures Rest(Lost(), 85) == 2199220092927
    ensures Lengths(Lost(), HEAD, BitLens(), [], 71, h, how)
         == Lengths(Lost(), HEAD, BitLens(), [1, 3, 5] + Repeat(5, 3), 85, h, how)
  {
    hide Lost, BitLens, Rest, Lengths, Repeat;
    assert [] + [1] == [1] && [1] + [3] == [1, 3] && [1, 3] + [5] == [1, 3, 5];
    OneMoreLength([], 71, 36032022002518644, 1, h, how);
    OneMoreLength([1], 74, 4504002750314830, 3, h, how);
    OneMoreLength([1, 3], 77, 563000343789353, 5, h, how);
    MoreLengths([1, 3, 5], 80, 70375042973669, 16, 3, h, how);
  }

  lemma OtherLengths(l: seq<nat>, h: seq<byte>, how: Reading)
    requires Rest(Lost(), 85) == 2199220092927 && |l| == 6
    ensures Rest(Lost(), 117) == 512
    ensures Lengths(Lost(), HEAD, BitLens(), l, 85, h, how)
         == Lengths(Lost(), HEAD, BitLens(), l + Repeat(0, 138) + Repeat(0, 102) + Repeat(0, 10) + [2] + [0], 117,
                   h, how)
  {
    hide Lost, BitLens, Rest, Lengths, Repeat;
    MoreLengths(l, 85, 2199220092927, 18, 138, h, how);
    MoreLengths(l + Repeat(0, 138), 95, 2147675871, 18, 102, h, how);
    MoreLengths(l + Repeat(0, 138) + Repeat(0, 102), 105, 2097339, 17, 10, h, how);
    var l' := l + Repeat(0, 138) + Repeat(0, 102) + Repeat(0, 10);
    OneMoreLength(l', 111, 32770, 2, h, how);
    OneMoreLength(l' + [2], 114, 4096, 0, h, how);
  }

  lemma LengthsRead(h: seq<byte>, how: Reading)
    requires Rest(Lost(), 71) == 36032022002518644
    ensures Rest(Lost(), 117) == 512
    ensures Lengths(Lost(), HEAD, BitLens(), [], 71, h, how) == Trees(Lost(), HEAD, LitLens() + [0], 117, h, how)
  {
    hide Lost, BitLens, LitLens, Rest, Lengths, Repeat, Trees;
    var l := [1, 3, 5] + Repeat(5, 3);
    SixLengths(h, how);
    OtherLengths(l, h, how);
    AllLengths(l + Repeat(0, 138) + Repeat(0, 102) + Repeat(0, 10) + [2] + [0], h, how);
  }

  lemma AllLengths(lens: seq<nat>, h: seq<byte>, how: Reading)
    requires lens == [1, 3, 5] + Repeat(5, 3) + Repeat(0, 138) + Repeat(0, 102) + Repeat(0, 10) + [2] + [0]
    ensures lens == LitLens() + [0]
    ensures Lengths(Lost(), HEAD, BitLens(), lens, 117, h, how) == Trees(Lost(), HEAD, lens, 117, h, how)
  {
    hide Lost, BitLens, Trees;
  }

  // ----- the symbols of the block -----

  /** A lookup takes 5 bits, more than the symbol has. */
  lemma LitSymbol(p: nat, x: nat, how: Reading)
    requires Rest(Lost(), p) == x && p < 128 && (x % 2 == 0 || (x % 4 == 1 && p < 127))
    ensures NextSymbol(LitLens(), LBITS, Lost(), p, how)
         == if how.Lookups? && p > 123 then Short else if x % 2 == 0 then Got(0, p + 1) else Got(256, p + 2)
  {
    hide Lost, LitLens, DecodeFrom, Longest, LitOK, RootBits;
    LostLength();
    LitCode();
    LitDecodes(x);
  }

  function LostCode(): Code { Code(LitLens(), [0], true) }

  lemma ZeroToken(p: nat, x: nat, h: seq<byte>, how: Reading)
    requires Rest(Lost(), p) == x && p < 128 && x % 2 == 0
    ensures Rest(Lost(), p + 1) == x / 2
    ensures Token(Lost(), LostCode(), p, h, how) == if how.Lookups? && p > 123 then NoInput else More(p + 1, h + [0])
  {
    hide Lost, LitLens, NextSymbol, StreamVal, Rest;
    SmallPowers();
    LitSymbol(p, x, how);
    Field(p, 1, x, 2);
  }

  lemma LastToken(h: seq<byte>, how: Reading)
    requires Rest(Lost(), 126) == 1 && !how.Lookups?
    ensures Codes(Lost(), LostCode(), 126, h, how) == Finished(128, h)
  {
    hide Lost, LitLens, NextSymbol, StreamVal, Rest;
    LitSymbol(126, 1, how);
  }

  /** n literals in a row. */
  lemma {:induction false} ZeroTokens(n: nat, h: seq<byte>, how: Reading)
    requires n <= (if how.Lookups? then 7 else 9) && Rest(Lost(), 117) == 512
    ensures Rest(Lost(), 117 + n) == Shr(512, n)
    ensures Codes(Lost(), LostCode(), 117, h, how) == Codes(Lost(), LostCode(), 117 + n, h + Zeros(n), how)
  {
    hide Lost, Rest, Token, LostCode, Shr;
    if n == 0 {
      NoShift(512);
      assert h + Zeros(0) == h;
    } else {
      ZeroTokens(n - 1, h, how);
      HalfOf512(n - 1);
      ZeroToken(117 + n - 1, Shr(512, n - 1), h + Zeros(n - 1), how);
      assert h + Zeros(n - 1) + [0] == h + Zeros(n);
    }
  }

  lemma HalfOf512(n: nat)
    requires n < 9
    ensures Shr(512, n) % 2 == 0 && Shr(512, n) / 2 == Shr(512, n + 1)
  {
    assert Shr(512, 9) == 1 && Shr(512, 8) == 2 && Shr(512, 7) == 4 && Shr(512, 6) == 8 && Shr(512, 5) == 16;
    assert Shr(512, 4) == 32 && Shr(512, 3) == 64 && Shr(512, 2) == 128 && Shr(512, 1) == 256;
  }

  lemma LostCodes(h: seq<byte>, how: Reading)
    requires Rest(Lost(), 117) == 512
    ensures Codes(Lost(), LostCode(), 117, h, how)
         == if how.Lookups? then Starved(h + Zeros(7)) else Finished(128, h + Zeros(9))
  {
    hide Lost, Rest, LostCode, Token;
    assert Shr(512, 7) == 4 && Shr(512, 9) == 1;
    if how.Lookups? {
      ZeroTokens(7, h, how);
      ZeroToken(124, 4, h + Zeros(7), how);
    } else {
      ZeroTokens(9, h, how);
      LastToken(h + Zeros(9), how);
    }
  }

  // ----- the outcome -----

  lemma LostTrees(h: seq<byte>, how: Reading)
    ensures Trees(Lost(), HEAD, LitLens() + [0], 117, h, how) == Codes(Lost(), LostCode(), 117, h, how)
  {
    hide Lost, LitLens, Codes, LitOK, Verdict;
    LitCode();
    NoDistances();
    var lens := LitLens() + [0];
    assert lens[..257] == LitLens() && lens[257..] == [0];
  }

  lemma NoDistances()
    ensures DistOK([0], 257)
  {}

  lemma LostDynamic(h: seq<byte>, how: Reading)
    ensures Dynamic(Lost(), true, 3, h, how)
         == if how.Lookups? then Starved(h + Zeros(7)) else Finished(128, h + Zeros(9))
  {
    hide Lost, BitLens, LitLens, Lengths, Placed, Verdict, Ahead, Codes, Rest;
    LostLength();
    HeaderFields(Lost());
    BitLengthsPlaced(0, h, how);
    NonePlaced();
    AllPlaced();
    BitCode();
    LengthField(18);
    LengthsRead(h, how);
    LostTrees(h, how);
    LostCodes(h, how);
  }

  lemma NonePlaced()
    ensures Placed(0) == Repeat(0, 19)
  {}

  /** The stream is complete and stands for nine zeros. But the lookup for the eighth asks for one bit more than there
      is. */
  lemma LostOutcome(prior: seq<byte>, how: Reading)
    ensures Inflate(Lost(), prior, how)
         == if how.Lookups? then Starved(prior + Zeros(7)) else Finished(128, prior + Zeros(9))
  {
    hide Lost, Dynamic, Peek;
    LostLength();
    HeaderFields(Lost());
    LostDynamic(prior, how);
  }

  /** All the input, and room for more than the output: the decoder delivers seven bytes of nine and asks for more
      input. */
  method LostRun() returns (r: Ret, output: seq<byte>)
    ensures r in {Ok, BufError} && output == Zeros(7)
    ensures Standard(Lost()) == Finished(128, Zeros(9))
  {
    hide Inflate, Lost;
    LostLength();
    LostOutcome([], Strict);
    LostOutcome(Blank(), Lookups);
    assert [] + Zeros(9) == Zeros(9);
    OneCall(16, 100);
    assert (Blank() + Zeros(7))[WSIZE..] == Zeros(7);
    r, output := Decompress(Lost(), [(16, 100)]);
  }
}
