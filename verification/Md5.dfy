/** The MD5 message digest (RFC 1321), fed in pieces. */
module Md5 {
  import opened Bits

  // ----- one block (section 3.4) -----

  function Not(x: nat): nat { if x < WORD then WORD - 1 - x else 0 }

  /** x & y */
  function And(x: nat, y: nat): nat {
    if x == 0 || y == 0 then 0
    else (if x % 2 == 1 && y % 2 == 1 then 1 else 0) + 2 * And(x / 2, y / 2)
  }

  function F(x: nat, y: nat, z: nat): nat { Or(And(x, y), And(Not(x), z)) }
  function G(x: nat, y: nat, z: nat): nat { Or(And(x, z), And(y, Not(z))) }
  function H(x: nat, y: nat, z: nat): nat { Xor(Xor(x, y), z) }
  function I(x: nat, y: nat, z: nat): nat { Xor(y, Or(x, Not(z))) }

  function RotateLeft(x: nat, n: nat): nat
    requires n <= 32
  {
    Or(Low(Shl(x, n), 32), Shr(x, 32 - n))
  }

  // ----- what they do, bit by bit -----

  /** Bit i of x. */
  function Bit(x: nat, i: nat): (b: nat)
    ensures b <= 1
  {
    x / Pow2(i) % 2
  }

  lemma BitNext(x: nat, i: nat)
    requires i > 0
    ensures Bit(x, i) == Bit(x / 2, i - 1)
  {
    ShiftIsDivision(x, i);
    ShiftIsDivision(x / 2, i - 1);
  }

  lemma BitFirst(x: nat)
    ensures Bit(x, 0) == x % 2
  {}

  lemma {:induction false} AndBit(x: nat, y: nat, i: nat)
    ensures Bit(And(x, y), i) == 1 <==> Bit(x, i) == 1 && Bit(y, i) == 1
  {
    hide Bit;
    AndStep(x, y);
    if i == 0 {
      BitFirst(x);
      BitFirst(y);
      BitFirst(And(x, y));
    } else {
      BitNext(x, i);
      BitNext(y, i);
      BitNext(And(x, y), i);
      AndBit(x / 2, y / 2, i - 1);
    }
  }

  lemma AndStep(x: nat, y: nat)
    ensures And(x, y) % 2 == (if x % 2 == 1 && y % 2 == 1 then 1 else 0) && And(x, y) / 2 == And(x / 2, y / 2)
  {}

  lemma {:induction false} OrBit(x: nat, y: nat, i: nat)
    ensures Bit(Or(x, y), i) == 1 <==> Bit(x, i) == 1 || Bit(y, i) == 1
  {
    hide Bit, Or;
    OrStep(x, y);
    if i == 0 {
      BitFirst(x);
      BitFirst(y);
      BitFirst(Or(x, y));
    } else {
      BitNext(x, i);
      BitNext(y, i);
      BitNext(Or(x, y), i);
      OrBit(x / 2, y / 2, i - 1);
    }
  }

  lemma {:induction false} XorBit(x: nat, y: nat, i: nat)
    ensures Bit(Xor(x, y), i) == 1 <==> Bit(x, i) != Bit(y, i)
  {
    hide Bit, Xor;
    XorStep(x, y);
    if i == 0 {
      BitFirst(x);
      BitFirst(y);
      BitFirst(Xor(x, y));
    } else {
      BitNext(x, i);
      BitNext(y, i);
      BitNext(Xor(x, y), i);
      XorBit(x / 2, y / 2, i - 1);
    }
  }

  lemma {:induction false} BelowBit(n: nat, x: nat, i: nat)
    requires x < Pow2(n) && i < n
    ensures Bit(Pow2(n) - 1 - x, i) == 1 - Bit(x, i)
  {
    hide Bit;
    var y := Pow2(n) - 1 - x;
    if i == 0 {
      BitFirst(x);
      BitFirst(y);
    } else {
      BitNext(x, i);
      BitNext(y, i);
      assert y / 2 == Pow2(n - 1) - 1 - x / 2;
      BelowBit(n - 1, x / 2, i - 1);
    }
  }

  lemma NotBit(x: nat, i: nat)
    requires x < WORD && i < 32
    ensures Bit(Not(x), i) == 1 - Bit(x, i)
  {
    WordSizes();
    BelowBit(32, x, i);
  }

  /** Section 3.4 of RFC 1321: F takes each bit from y or z as x says, G takes it from x or y as z says, H is the parity
      of the three bits, and I flips the bit of y where x has a one or z has none. */
  lemma MixBits(x: nat, y: nat, z: nat, i: nat)
    requires x < WORD && y < WORD && z < WORD && i < 32
    ensures Bit(F(x, y, z), i) == if Bit(x, i) == 1 then Bit(y, i) else Bit(z, i)
    ensures Bit(G(x, y, z), i) == if Bit(z, i) == 1 then Bit(x, i) else Bit(y, i)
    ensures Bit(H(x, y, z), i) == (Bit(x, i) + Bit(y, i) + Bit(z, i)) % 2
    ensures Bit(I(x, y, z), i) == if Bit(x, i) == 1 || Bit(z, i) == 0 then 1 - Bit(y, i) else Bit(y, i)
  {
    hide Bit, And, Or, Xor, Not;
    NotBit(x, i);
    NotBit(z, i);
    AndBit(x, y, i);
    AndBit(Not(x), z, i);
    OrBit(And(x, y), And(Not(x), z), i);
    AndBit(x, z, i);
    AndBit(y, Not(z), i);
    OrBit(And(x, z), And(y, Not(z)), i);
    XorBit(x, y, i);
    XorBit(Xor(x, y), z, i);
    OrBit(x, Not(z), i);
    XorBit(y, Or(x, Not(z)), i);
  }

  /** Rotating moves the high bits round to the low end. */
  lemma RotateMoves(x: nat, n: nat)
    requires x < WORD && n <= 32
    ensures RotateLeft(x, n) == x * Pow2(n) % WORD + x / Pow2(32 - n)
  {
    hide Low, Shl, Shr, Or, Pow2;
    WordSizes();
    var m := 32 - n;
    Split(x, m);
    LowBound(x, m);
    ShlAdd(Low(x, m), Shl(Shr(x, m), m), n);
    ShlShl(Shr(x, m), m, n);
    ShlMono(Low(x, m) + 1, Pow2(m), n);
    ShlMono(Low(x, m), Low(x, m) + 1, n);
    Pow2Add(m, n);
    Compose(Shl(Low(x, m), n), Shr(x, m), 32);
    ShiftIsDivision(x, m);
    HighBits(x, n);
    OrPack(Low(x, m), Shr(x, m), n);
    ShiftIsDivision(Shl(x, n), 32);
    ShlIsProduct(x, n);
  }

  lemma HighBits(x: nat, n: nat)
    requires x < Pow2(32) && n <= 32
    ensures Shr(x, 32 - n) < Pow2(n)
  {
    hide Low, Shl, Shr, Pow2;
    LowSmall(x, 32);
    ShrLow(x, 32 - n, n);
    LowBound(Shr(x, 32 - n), n);
  }

  datatype Regs = Regs(a: nat, b: nat, c: nat, d: nat)

  const SHIFTS: seq<seq<nat>> := [[7, 12, 17, 22], [5, 9, 14, 20], [4, 11, 16, 23], [6, 10, 15, 21]]

  const SINES1: seq<nat> := [
    0xd76aa478, 0xe8c7b756, 0x242070db, 0xc1bdceee,
    0xf57c0faf, 0x4787c62a, 0xa8304613, 0xfd469501,
    0x698098d8, 0x8b44f7af, 0xffff5bb1, 0x895cd7be,
    0x6b901122, 0xfd987193, 0xa679438e, 0x49b40821]

  const SINES2: seq<nat> := [
    0xf61e2562, 0xc040b340, 0x265e5a51, 0xe9b6c7aa,
    0xd62f105d, 0x2441453, 0xd8a1e681, 0xe7d3fbc8,
    0x21e1cde6, 0xc33707d6, 0xf4d50d87, 0x455a14ed,
    0xa9e3e905, 0xfcefa3f8, 0x676f02d9, 0x8d2a4c8a]

  const SINES3: seq<nat> := [
    0xfffa3942, 0x8771f681, 0x6d9d6122, 0xfde5380c,
    0xa4beea44, 0x4bdecfa9, 0xf6bb4b60, 0xbebfbc70,
    0x289b7ec6, 0xeaa127fa, 0xd4ef3085, 0x4881d05,
    0xd9d4d039, 0xe6db99e5, 0x1fa27cf8, 0xc4ac5665]

  const SINES4: seq<nat> := [
    0xf4292244, 0x432aff97, 0xab9423a7, 0xfc93a039,
    0x655b59c3, 0x8f0ccc92, 0xffeff47d, 0x85845dd1,
    0x6fa87e4f, 0xfe2ce6e0, 0xa3014314, 0x4e0811a1,
    0xf7537e82, 0xbd3af235, 0x2ad7d2bb, 0xeb86d391]

  /** The part of the sine table that round g uses. */
  function Sines(g: nat): (t: seq<nat>)
    requires g < 4
    ensures |t| == 16
  {
    if g == 0 then SINES1 else if g == 1 then SINES2 else if g == 2 then SINES3 else SINES4
  }

  /** The word of the block that operation j of round g takes. */
  function WordIndex(g: nat, j: nat): (k: nat)
    ensures k < 16
  {
    (if g == 0 then j else if g == 1 then 1 + 5 * j else if g == 2 then 5 + 3 * j else 7 * j) % 16
  }

  function Mix(g: nat, x: nat, y: nat, z: nat): nat {
    if g == 0 then F(x, y, z) else if g == 1 then G(x, y, z) else if g == 2 then H(x, y, z) else I(x, y, z)
  }

  /** Operation j of round g: a becomes b + ((a + Mix(b, c, d) + X[k] + T[i]) <<< s), and the registers move on by
      one. */
  function Operation(g: nat, j: nat, x: seq<nat>, r: Regs): Regs
    requires g < 4 && j < 16 && |x| == 16
  {
    var sum := Plus(Plus(Plus(r.a, Mix(g, r.b, r.c, r.d)), x[WordIndex(g, j)]), Sines(g)[j]);
    Regs(r.d, Plus(RotateLeft(sum, SHIFTS[g][j % 4]), r.b), r.b, r.c)
  }

  /** The operations of round g up to the n-th. */
  function Operations(g: nat, n: nat, x: seq<nat>, r: Regs): Regs
    requires g < 4 && n <= 16 && |x| == 16
  {
    if n == 0 then r else Operation(g, n - 1, x, Operations(g, n - 1, x, r))
  }

  function Rounds(x: seq<nat>, r: Regs): Regs
    requires |x| == 16
  {
    Operations(3, 16, x, Operations(2, 16, x, Operations(1, 16, x, Operations(0, 16, x, r))))
  }

  // ----- the operations as the source writes them -----

  function FF(a: nat, b: nat, c: nat, d: nat, x: nat, s: nat, ac: nat): nat
    requires s <= 32
  {
    Plus(RotateLeft(Plus(Plus(Plus(a, F(b, c, d)), x), ac), s), b)
  }

  function GG(a: nat, b: nat, c: nat, d: nat, x: nat, s: nat, ac: nat): nat
    requires s <= 32
  {
    Plus(RotateLeft(Plus(Plus(Plus(a, G(b, c, d)), x), ac), s), b)
  }

  function HH(a: nat, b: nat, c: nat, d: nat, x: nat, s: nat, ac: nat): nat
    requires s <= 32
  {
    Plus(RotateLeft(Plus(Plus(Plus(a, H(b, c, d)), x), ac), s), b)
  }

  function II(a: nat, b: nat, c: nat, d: nat, x: nat, s: nat, ac: nat): nat
    requires s <= 32
  {
    Plus(RotateLeft(Plus(Plus(Plus(a, I(b, c, d)), x), ac), s), b)
  }

  /** Four operations bring the registers back in place. */
  lemma FourOperations(g: nat, n: nat, x: seq<nat>, r: Regs, p: Regs)
    requires g < 4 && n <= 12 && n % 4 == 0 && |x| == 16 && p == Operations(g, n, x, r)
    ensures Operations(g, n + 4, x, r)
         == Operation(g, n + 3, x, Operation(g, n + 2, x, Operation(g, n + 1, x, Operation(g, n, x, p))))
  {
    hide Operation;
    assert Operations(g, n + 1, x, r) == Operation(g, n, x, p);
    assert Operations(g, n + 2, x, r) == Operation(g, n + 1, x, Operations(g, n + 1, x, r));
    assert Operations(g, n + 3, x, r) == Operation(g, n + 2, x, Operations(g, n + 2, x, r));
  }

  method RoundOne(x: seq<nat>, r: Regs) returns (r': Regs)
    requires |x| == 16
    ensures r' == Operations(0, 16, x, r)
  {
    hide F, RotateLeft, Plus;
    var a, b, c, d := r.a, r.b, r.c, r.d;
    a := FF(a, b, c, d, x[0], 7, 0xd76aa478);
    d := FF(d, a, b, c, x[1], 12, 0xe8c7b756);
    c := FF(c, d, a, b, x[2], 17, 0x242070db);
    b := FF(b, c, d, a, x[3], 22, 0xc1bdceee);
    FourOperations(0, 0, x, r, Operations(0, 0, x, r));
    a := FF(a, b, c, d, x[4], 7, 0xf57c0faf);
    d := FF(d, a, b, c, x[5], 12, 0x4787c62a);
    c := FF(c, d, a, b, x[6], 17, 0xa8304613);
    b := FF(b, c, d, a, x[7], 22, 0xfd469501);
    FourOperations(0, 4, x, r, Operations(0, 4, x, r));
    a := FF(a, b, c, d, x[8], 7, 0x698098d8);
    d := FF(d, a, b, c, x[9], 12, 0x8b44f7af);
    c := FF(c, d, a, b, x[10], 17, 0xffff5bb1);
    b := FF(b, c, d, a, x[11], 22, 0x895cd7be);
    FourOperations(0, 8, x, r, Operations(0, 8, x, r));
    a := FF(a, b, c, d, x[12], 7, 0x6b901122);
    d := FF(d, a, b, c, x[13], 12, 0xfd987193);
    c := FF(c, d, a, b, x[14], 17, 0xa679438e);
    b := FF(b, c, d, a, x[15], 22, 0x49b40821);
    FourOperations(0, 12, x, r, Operations(0, 12, x, r));
    r' := Regs(a, b, c, d);
  }

  method RoundTwo(x: seq<nat>, r: Regs) returns (r': Regs)
    requires |x| == 16
    ensures r' == Operations(1, 16, x, r)
  {
    hide G, RotateLeft, Plus;
    var a, b, c, d := r.a, r.b, r.c, r.d;
    a := GG(a, b, c, d, x[1], 5, 0xf61e2562);
    d := GG(d, a, b, c, x[6], 9, 0xc040b340);
    c := GG(c, d, a, b, x[11], 14, 0x265e5a51);
    b := GG(b, c, d, a, x[0], 20, 0xe9b6c7aa);
    FourOperations(1, 0, x, r, Operations(1, 0, x, r));
    a := GG(a, b, c, d, x[5], 5, 0xd62f105d);
    d := GG(d, a, b, c, x[10], 9, 0x2441453);
    c := GG(c, d, a, b, x[15], 14, 0xd8a1e681);
    b := GG(b, c, d, a, x[4], 20, 0xe7d3fbc8);
    FourOperations(1, 4, x, r, Operations(1, 4, x, r));
    a := GG(a, b, c, d, x[9], 5, 0x21e1cde6);
    d := GG(d, a, b, c, x[14], 9, 0xc33707d6);
    c := GG(c, d, a, b, x[3], 14, 0xf4d50d87);
    b := GG(b, c, d, a, x[8], 20, 0x455a14ed);
    FourOperations(1, 8, x, r, Operations(1, 8, x, r));
    a := GG(a, b, c, d, x[13], 5, 0xa9e3e905);
    d := GG(d, a, b, c, x[2], 9, 0xfcefa3f8);
    c := GG(c, d, a, b, x[7], 14, 0x676f02d9);
    b := GG(b, c, d, a, x[12], 20, 0x8d2a4c8a);
    FourOperations(1, 12, x, r, Operations(1, 12, x, r));
    r' := Regs(a, b, c, d);
  }

  method RoundThree(x: seq<nat>, r: Regs) returns (r': Regs)
    requires |x| == 16
    ensures r' == Operations(2, 16, x, r)
  {
    hide H, RotateLeft, Plus;
    var a, b, c, d := r.a, r.b, r.c, r.d;
    a := HH(a, b, c, d, x[5], 4, 0xfffa3942);
    d := HH(d, a, b, c, x[8], 11, 0x8771f681);
    c := HH(c, d, a, b, x[11], 16, 0x6d9d6122);
    b := HH(b, c, d, a, x[14], 23, 0xfde5380c);
    FourOperations(2, 0, x, r, Operations(2, 0, x, r));
    a := HH(a, b, c, d, x[1], 4, 0xa4beea44);
    d := HH(d, a, b, c, x[4], 11, 0x4bdecfa9);
    c := HH(c, d, a, b, x[7], 16, 0xf6bb4b60);
    b := HH(b, c, d, a, x[10], 23, 0xbebfbc70);
    FourOperations(2, 4, x, r, Operations(2, 4, x, r));
    a := HH(a, b, c, d, x[13], 4, 0x289b7ec6);
    d := HH(d, a, b, c, x[0], 11, 0xeaa127fa);
    c := HH(c, d, a, b, x[3], 16, 0xd4ef3085);
    b := HH(b, c, d, a, x[6], 23, 0x4881d05);
    FourOperations(2, 8, x, r, Operations(2, 8, x, r));
    a := HH(a, b, c, d, x[9], 4, 0xd9d4d039);
    d := HH(d, a, b, c, x[12], 11, 0xe6db99e5);
    c := HH(c, d, a, b, x[15], 16, 0x1fa27cf8);
    b := HH(b, c, d, a, x[2], 23, 0xc4ac5665);
    FourOperations(2, 12, x, r, Operations(2, 12, x, r));
    r' := Regs(a, b, c, d);
  }

  method RoundFour(x: seq<nat>, r: Regs) returns (r': Regs)
    requires |x| == 16
    ensures r' == Operations(3, 16, x, r)
  {
    hide I, RotateLeft, Plus;
    var a, b, c, d := r.a, r.b, r.c, r.d;
    a := II(a, b, c, d, x[0], 6, 0xf4292244);
    d := II(d, a, b, c, x[7], 10, 0x432aff97);
    c := II(c, d, a, b, x[14], 15, 0xab9423a7);
    b := II(b, c, d, a, x[5], 21, 0xfc93a039);
    FourOperations(3, 0, x, r, Operations(3, 0, x, r));
    a := II(a, b, c, d, x[12], 6, 0x655b59c3);
    d := II(d, a, b, c, x[3], 10, 0x8f0ccc92);
    c := II(c, d, a, b, x[10], 15, 0xffeff47d);
    b := II(b, c, d, a, x[1], 21, 0x85845dd1);
    FourOperations(3, 4, x, r, Operations(3, 4, x, r));
    a := II(a, b, c, d, x[8], 6, 0x6fa87e4f);
    d := II(d, a, b, c, x[15], 10, 0xfe2ce6e0);
    c := II(c, d, a, b, x[6], 15, 0xa3014314);
    b := II(b, c, d, a, x[13], 21, 0x4e0811a1);
    FourOperations(3, 8, x, r, Operations(3, 8, x, r));
    a := II(a, b, c, d, x[4], 6, 0xf7537e82);
    d := II(d, a, b, c, x[11], 10, 0xbd3af235);
    c := II(c, d, a, b, x[2], 15, 0x2ad7d2bb);
    b := II(b, c, d, a, x[9], 21, 0xeb86d391);
    FourOperations(3, 12, x, r, Operations(3, 12, x, r));
    r' := Regs(a, b, c, d);
  }

  // ----- words and bytes, low byte first -----

  function Joined(b0: nat, b1: nat, b2: nat, b3: nat): nat {
    b0 + 256 * b1 + 0x1_0000 * b2 + 0x100_0000 * b3
  }

  /** The words of a sequence of bytes. */
  function Words(b: seq<byte>): (w: seq<nat>)
    requires |b| % 4 == 0
    ensures |w| == |b| / 4
  {
    var n := |b| - 4;
    if n < 0 then [] else Words(b[..n]) + [Joined(b[n], b[n + 1], b[n + 2], b[n + 3])]
  }

  /** The bytes of a sequence of words. */
  function Bytes(w: seq<nat>): (b: seq<byte>)
    ensures |b| == 4 * |w|
  {
    if |w| == 0 then []
    else Bytes(w[..|w| - 1]) + WordBytes(w[|w| - 1])
  }

  function WordBytes(w: nat): (b: seq<byte>)
    ensures |b| == 4
  {
    [w % 256, w / 256 % 256, w / 256 / 256 % 256, w / 256 / 256 / 256 % 256]
  }

  lemma WordsAppend(b: seq<byte>, c: seq<byte>)
    requires |b| % 4 == 0 && |c| == 4
    ensures Words(b + c) == Words(b) + [Joined(c[0], c[1], c[2], c[3])]
  {
    hide Joined;
    assert (b + c)[..|b|] == b;
  }

  /** Splitting words into bytes and joining them again gives the words back. */
  lemma {:induction false} WordsOfBytes(w: seq<nat>)
    requires forall i :: 0 <= i < |w| ==> w[i] < WORD
    ensures Words(Bytes(w)) == w
  {
    if |w| > 0 {
      hide Words, Joined, WordBytes;
      var v, l := w[..|w| - 1], w[|w| - 1];
      WordsOfBytes(v);
      WordsAppend(Bytes(v), WordBytes(l));
      OneWord(l);
      assert w == v + [l];
    }
  }

  lemma OneWord(l: nat)
    requires l < WORD
    ensures var c := WordBytes(l); Joined(c[0], c[1], c[2], c[3]) == l
  {
    var q1 := l / 256;
    var q2 := q1 / 256;
    var q3 := q2 / 256;
    assert l == l % 256 + 256 * q1 && q1 == q1 % 256 + 256 * q2 && q2 == q2 % 256 + 256 * q3;
  }

  /** Or-ing bytes shifted into place adds them up. */
  lemma JoinBytes(b0: nat, b1: nat, b2: nat, b3: nat)
    requires b0 < 256 && b1 < 256 && b2 < 256 && b3 < 256
    ensures Or(Or(Or(b0, Shl(b1, 8)), Shl(b2, 16)), Shl(b3, 24)) == Joined(b0, b1, b2, b3)
  {
    hide Or, Shl, Pow2;
    WordSizes();
    Pow2Add(16, 8);
    ShlIsProduct(0x1_0000, 8);
    ShlIsProduct(b1, 8);
    ShlIsProduct(b2, 16);
    ShlIsProduct(b3, 24);
    OrPack(b1, b0, 8);
    OrComm(b0, Shl(b1, 8));
    OrPack(b2, b0 + 256 * b1, 16);
    OrComm(b0 + 256 * b1, Shl(b2, 16));
    OrPack(b3, b0 + 256 * b1 + 0x1_0000 * b2, 24);
    OrComm(b0 + 256 * b1 + 0x1_0000 * b2, Shl(b3, 24));
  }

  /** MD5::decode */
  method Decode(input: seq<byte>) returns (output: seq<nat>)
    requires |input| % 4 == 0
    ensures output == Words(input)
  {
    hide Or, Shl;
    output := [];
    var j := 0;
    while j < |input|
      invariant 0 <= j <= |input| && j % 4 == 0 && output == Words(input[..j])
    {
      JoinBytes(input[j], input[j + 1], input[j + 2], input[j + 3]);
      assert input[..j + 4][..j] == input[..j];
      output := output + [Or(Or(Or(input[j], Shl(input[j + 1], 8)), Shl(input[j + 2], 16)), Shl(input[j + 3], 24))];
      j := j + 4;
    }
    assert input[..j] == input;
  }

  lemma ByteOf(w: nat)
    ensures [Low(w, 8), Low(Shr(w, 8), 8), Low(Shr(w, 16), 8), Low(Shr(w, 24), 8)] == WordBytes(w)
  {
    hide Low, Shr, Pow2;
    WordSizes();
    ShrShr(w, 8, 8);
    ShrShr(w, 16, 8);
    ShiftIsDivision(w, 8);
    ShiftIsDivision(Shr(w, 8), 8);
    ShiftIsDivision(Shr(w, 16), 8);
    ShiftIsDivision(Shr(w, 24), 8);
  }

  /** MD5::encode */
  method Encode(input: seq<nat>) returns (output: seq<byte>)
    ensures output == Bytes(input)
  {
    output := [];
    var i := 0;
    while i < |input|
      invariant 0 <= i <= |input| && output == Bytes(input[..i])
    {
      ByteOf(input[i]);
      assert input[..i + 1][..i] == input[..i];
      output := output
          + [Low(input[i], 8), Low(Shr(input[i], 8), 8), Low(Shr(input[i], 16), 8), Low(Shr(input[i], 24), 8)];
      i := i + 1;
    }
    assert input[..i] == input;
  }
}
