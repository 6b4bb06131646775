/** A known digest: that of "abc", as in appendix A.5 of RFC 1321. The 64 operations are followed one by one, with the
    words as bit vectors for the logical functions. */
module Md5Known {
  import opened Bits
  import opened Md5
  import opened Md5Stream
  import opened BitWords

  function Mixed(g: nat, b: bv32, c: bv32, d: bv32): bv32 {
    if g == 0 then Or32(And32(b, c), And32(Not32(b), d))
    else if g == 1 then Or32(And32(b, d), And32(c, Not32(d)))
    else if g == 2 then Xor32(Xor32(b, c), d)
    else Xor32(c, Or32(b, Not32(d)))
  }

  lemma MixIsMixed(g: nat, b: bv32, c: bv32, d: bv32)
    ensures Mix(g, V(b), V(c), V(d)) == V(Mixed(g, b, c, d))
  {
    hide And, Or, Xor, Not, V, And32, Or32, Xor32, Not32;
    WordNot(b);
    WordNot(d);
    if g == 0 {
      WordOps(b, c);
      WordOps(Not32(b), d);
      WordOps(And32(b, c), And32(Not32(b), d));
    } else if g == 1 {
      WordOps(b, d);
      WordOps(c, Not32(d));
      WordOps(And32(b, d), And32(c, Not32(d)));
    } else if g == 2 {
      WordOps(b, c);
      WordOps(Xor32(b, c), d);
    } else {
      WordOps(b, Not32(d));
      WordOps(c, Or32(b, Not32(d)));
    }
  }

  // ----- one operation -----

  function Four(a: bv32, b: bv32, c: bv32, d: bv32): Regs { Regs(V(a), V(b), V(c), V(d)) }

  lemma WrapsTo(n: nat, x: nat, u: nat)
    requires x < WORD && n == x + u * WORD
    ensures n % WORD == x
  {
    QuotientUnique(n, WORD, u, x);
  }

  /** Operation j of round g, on the registers the operations before it have left; u and v are how often the sums wrap
      around. */
  lemma Step(g: nat, j: nat, x: seq<nat>, r: Regs, a: bv32, b: bv32, c: bv32, d: bv32, k: nat, s: nat, t: nat,
      m: bv32, sum: nat, u: nat, p: nat, q: nat, e: bv32, v: nat)
    requires q > 0 && V(e) + v * WORD == sum * p % WORD + sum / q + V(b)
    requires m == Mixed(g, b, c, d) && sum < WORD && sum + u * WORD == V(a) + V(m) + k + t
    requires g < 4 && j < 16 && s <= 23 && Power(s) == p && Power(32 - s) == q && Table(g, j) == (k, s, t)
    requires |x| == 16 && AbcWords(x) && Operations(g, j, x, r) == Four(a, b, c, d)
    ensures Operations(g, j + 1, x, r) == Four(d, e, b, c)
  {
    hide Mix, Mixed, V, RotateLeft, Pow2, Power, Operations, Operation;
    MixIsMixed(g, b, c, d);
    Powers(s);
    Powers(32 - s);
    PlusPlus(V(a), V(m), k, t);
    RotateMoves(sum, s);
    WrapsTo(V(a) + V(m) + k + t, sum, u);
    WrapsTo(sum * p % WORD + sum / q + V(b), V(e), v);
    assert RotateLeft(sum, s) == sum * p % WORD + sum / q;
    assert Plus(RotateLeft(sum, s), V(b)) == V(e);
    OperationOn(g, j, x, a, b, c, d, k, s, t);
    NextOperation(g, j, x, r);
  }

  lemma NextOperation(g: nat, j: nat, x: seq<nat>, r: Regs)
    requires g < 4 && j < 16 && |x| == 16
    ensures Operations(g, j + 1, x, r) == Operation(g, j, x, Operations(g, j, x, r))
  {}

  lemma OperationOn(g: nat, j: nat, x: seq<nat>, a: bv32, b: bv32, c: bv32, d: bv32, k: nat, s: nat, t: nat)
    requires g < 4 && j < 16 && s <= 23 && |x| == 16 && AbcWords(x) && Table(g, j) == (k, s, t)
    ensures var sum := Plus(Plus(Plus(V(a), Mix(g, V(b), V(c), V(d))), k), t);
            Operation(g, j, x, Four(a, b, c, d)) == Regs(V(d), Plus(RotateLeft(sum, s), V(b)), V(b), V(c))
  {
    hide Mix, V, RotateLeft, Plus, Sines, WordIndex;
  }

  /** The word of the block, the shift and the sine for operation j of round g. */
  function Table(g: nat, j: nat): (nat, nat, nat)
    requires g < 4 && j < 16
  {
    (AbcWord(WordIndex(g, j)), SHIFTS[g][j % 4], Sines(g)[j])
  }

  lemma PlusPlus(a: nat, f: nat, k: nat, t: nat)
    ensures Plus(Plus(Plus(a, f), k), t) == (a + f + k + t) % WORD
  {}

  /** The powers of two for the shifts that occur. */
  function Power(n: nat): nat {
    match n
    case 4 => 16
    case 5 => 32
    case 6 => 64
    case 7 => 128
    case 9 => 512
    case 10 => 1024
    case 11 => 2048
    case 12 => 4096
    case 14 => 0x4000
    case 15 => 0x8000
    case 16 => 0x1_0000
    case 17 => 0x2_0000
    case 18 => 0x4_0000
    case 20 => 0x10_0000
    case 21 => 0x20_0000
    case 22 => 0x40_0000
    case 23 => 0x80_0000
    case 25 => 0x200_0000
    case 26 => 0x400_0000
    case 27 => 0x800_0000
    case 28 => 0x1000_0000
    case _ => Pow2(n)
  }

  lemma Powers(n: nat)
    requires n <= 28
    ensures Power(n) == Pow2(n)
  {
    var p := Pow2(5);
    assert Pow2(10) == 0x400;
    assert Pow2(15) == 0x8000;
    assert Pow2(20) == 0x10_0000;
    assert Pow2(25) == 0x200_0000;
    assert Pow2(28) == 0x1000_0000;
  }

  // ----- the block -----

  /** "abc" */
  const ABC: seq<byte> := [97, 98, 99]

  function AbcWord(i: nat): nat { if i == 0 then 0x80636261 else if i == 14 then 24 else 0 }

  predicate AbcWords(x: seq<nat>) {
    |x| == 16 && forall i :: 0 <= i < 16 ==> x[i] == AbcWord(i)
  }

  lemma {:induction false} WordOfBlock(b: seq<byte>, i: nat)
    requires |b| % 4 == 0 && 4 * i < |b|
    ensures Words(b)[i] == Joined(b[4 * i], b[4 * i + 1], b[4 * i + 2], b[4 * i + 3])
  {
    var n := |b| - 4;
    if 4 * i < n { WordOfBlock(b[..n], i); }
  }

  lemma AbcBlock()
    ensures |ABC + Trailer(3)| == 64 && AbcWords(Words(ABC + Trailer(3)))
  {
    hide Trailer, Words, Joined;
    AbcTrailer();
    var b := ABC + Trailer(3);
    forall i | 0 <= i < 16 ensures Words(b)[i] == AbcWord(i) {
      WordOfBlock(b, i);
      AbcJoined(b, i);
    }
  }

  lemma AbcJoined(b: seq<byte>, i: nat)
    requires |b| == 64 && i < 16 && b[0] == 97 && b[1] == 98 && b[2] == 99 && b[3] == 0x80
    requires forall k :: 4 <= k < 64 ==> b[k] == if k == 56 then 24 else 0
    ensures Joined(b[4 * i], b[4 * i + 1], b[4 * i + 2], b[4 * i + 3]) == AbcWord(i)
  {}

  lemma AbcTrailer()
    ensures |Trailer(3)| == 61 && Trailer(3)[0] == 0x80 && Trailer(3)[53] == 24
    ensures forall i :: 0 < i < 61 && i != 53 ==> Trailer(3)[i] == 0
  {
    var c := BitCount(3);
    assert c == [24, 0];
    assert c[..1] == [24] && c[..1][..0] == [];
    assert Bytes(c) == [24, 0, 0, 0] + [0, 0, 0, 0];
  }

  // ----- the 64 operations -----

  lemma TableOneA()
    ensures Table(0, 0) == (0x80636261, 7, 0xd76aa478) && Table(0, 1) == (0x0, 12, 0xe8c7b756)
    ensures Table(0, 2) == (0x0, 17, 0x242070db) && Table(0, 3) == (0x0, 22, 0xc1bdceee)
  {}

  lemma RoundOneA(x: seq<nat>, r: Regs)
    requires |x| == 16 && AbcWords(x) && Operations(0, 0, x, r) == Four(0x67452301, 0xefcdab89, 0x98badcfe, 0x10325476)
    ensures Operations(0, 4, x, r) == Four(0xd6d117b4, 0x7ad956f2, 0x2f6fbd72, 0x344a8432)
  {
    hide Operation, Operations, AbcWords, Table, Four;
    TableOneA();
    Step(0, 0, x, r, 0x67452301, 0xefcdab89, 0x98badcfe, 0x10325476, 0x80636261, 7, 0xd76aa478,
         0x98badcfe, 0x57ce06d8, 2, 0x80, 0x2000000, 0xd6d117b4, 1);
    Step(0, 1, x, r, 0x10325476, 0xd6d117b4, 0xefcdab89, 0x98badcfe, 0x0, 12, 0xe8c7b756,
         0xceebcbca, 0xc7e5d796, 1, 0x1000, 0x100000, 0x344a8432, 1);
    Step(0, 2, x, r, 0x98badcfe, 0x344a8432, 0xd6d117b4, 0xefcdab89, 0x0, 17, 0x242070db,
         0xdfc52fb9, 0x9ca07d92, 1, 0x20000, 0x8000, 0x2f6fbd72, 1);
    Step(0, 3, x, r, 0xefcdab89, 0x2f6fbd72, 0x344a8432, 0xd6d117b4, 0x0, 22, 0xc1bdceee,
         0xf4da86b6, 0xa666012d, 2, 0x400000, 0x400, 0x7ad956f2, 0);
  }

  lemma TableOneB()
    ensures Table(0, 4) == (0x0, 7, 0xf57c0faf) && Table(0, 5) == (0x0, 12, 0x4787c62a)
    ensures Table(0, 6) == (0x0, 17, 0xa8304613) && Table(0, 7) == (0x0, 22, 0xfd469501)
  {}

  lemma RoundOneB(x: seq<nat>, r: Regs)
    requires |x| == 16 && AbcWords(x) && Operations(0, 4, x, r) == Four(0xd6d117b4, 0x7ad956f2, 0x2f6fbd72, 0x344a8432)
    ensures Operations(0, 8, x, r) == Four(0xc73741ef, 0x928d99f6, 0x207dc67b, 0x8bac3051)
  {
    hide Operation, Operations, AbcWords, Table, Four;
    TableOneB();
    Step(0, 4, x, r, 0xd6d117b4, 0x7ad956f2, 0x2f6fbd72, 0x344a8432, 0x0, 7, 0xf57c0faf,
         0x2e4b9472, 0xfa98bbd5, 1, 0x80, 0x2000000, 0xc73741ef, 0);
    Step(0, 5, x, r, 0x344a8432, 0xc73741ef, 0x7ad956f2, 0x2f6fbd72, 0x0, 12, 0x4787c62a,
         0x6a59fcf2, 0xe62c474e, 0, 0x1000, 0x100000, 0x8bac3051, 1);
    Step(0, 6, x, r, 0x2f6fbd72, 0x8bac3051, 0xc73741ef, 0x7ad956f2, 0x0, 17, 0xa8304613,
         0xf37546e3, 0xcb154a68, 1, 0x20000, 0x8000, 0x207dc67b, 1);
    Step(0, 7, x, r, 0x7ad956f2, 0x207dc67b, 0x8bac3051, 0xc73741ef, 0x0, 22, 0xfd469501,
         0xc72e01d5, 0x3f4dedc8, 2, 0x400000, 0x400, 0x928d99f6, 0);
  }

  lemma TableOneC()
    ensures Table(0, 8) == (0x0, 7, 0x698098d8) && Table(0, 9) == (0x0, 12, 0x8b44f7af)
    ensures Table(0, 10) == (0x0, 17, 0xffff5bb1) && Table(0, 11) == (0x0, 22, 0x895cd7be)
  {}

  lemma RoundOneC(x: seq<nat>, r: Regs)
    requires |x| == 16 && AbcWords(x) && Operations(0, 8, x, r) == Four(0xc73741ef, 0x928d99f6, 0x207dc67b, 0x8bac3051)
    ensures Operations(0, 12, x, r) == Four(0x854b3712, 0x5ed49596, 0x3020401c, 0x74e2f284)
  {
    hide Operation, Operations, AbcWords, Table, Four;
    TableOneC();
    Step(0, 8, x, r, 0xc73741ef, 0x928d99f6, 0x207dc67b, 0x8bac3051, 0x0, 7, 0x698098d8,
         0x92da073, 0x39e57b3a, 1, 0x80, 0x2000000, 0x854b3712, 1);
    Step(0, 9, x, r, 0x8bac3051, 0x854b3712, 0x928d99f6, 0x207dc67b, 0x0, 12, 0x8b44f7af,
         0xa03dd17b, 0xb72ef97b, 1, 0x1000, 0x100000, 0x74e2f284, 1);
    Step(0, 10, x, r, 0x207dc67b, 0x74e2f284, 0x854b3712, 0x928d99f6, 0x0, 17, 0xffff5bb1,
         0x864f3b72, 0xa6cc5d9e, 1, 0x20000, 0x8000, 0x3020401c, 1);
    Step(0, 11, x, r, 0x928d99f6, 0x3020401c, 0x74e2f284, 0x854b3712, 0x0, 22, 0x895cd7be,
         0xb56b7706, 0xd155e8ba, 1, 0x400000, 0x400, 0x5ed49596, 0);
  }

  lemma TableOneD()
    ensures Table(0, 12) == (0x0, 7, 0x6b901122) && Table(0, 13) == (0x0, 12, 0xfd987193)
    ensures Table(0, 14) == (0x18, 17, 0xa679438e) && Table(0, 15) == (0x0, 22, 0x49b40821)
  {}

  lemma RoundOneD(x: seq<nat>, r: Regs)
    requires |x| == 16 && AbcWords(x) && Operations(0, 12, x, r) == Four(0x854b3712, 0x5ed49596, 0x3020401c, 0x74e2f284)
    ensures Operations(0, 16, x, r) == Four(0xdda9b9a6, 0x72aff2e0, 0xe396856b, 0xa1051895)
  {
    hide Operation, Operations, AbcWords, Table, Four;
    TableOneD();
    Step(0, 12, x, r, 0x854b3712, 0x5ed49596, 0x3020401c, 0x74e2f284, 0x0, 7, 0x6b901122,
         0x30226214, 0x20fdaa48, 1, 0x80, 0x2000000, 0xdda9b9a6, 0);
    Step(0, 13, x, r, 0x74e2f284, 0xdda9b9a6, 0x5ed49596, 0x3020401c, 0x0, 12, 0xfd987193,
         0x7c80d19e, 0xeefc35b5, 1, 0x1000, 0x100000, 0xa1051895, 1);
    Step(0, 14, x, r, 0x3020401c, 0xa1051895, 0xdda9b9a6, 0x5ed49596, 0x18, 17, 0xa679438e,
         0xdfd19d86, 0xb66b2148, 1, 0x20000, 0x8000, 0xe396856b, 0);
    Step(0, 15, x, r, 0x5ed49596, 0xe396856b, 0xa1051895, 0xdda9b9a6, 0x0, 22, 0x49b40821,
         0xbd2d3885, 0x65b5d63c, 1, 0x400000, 0x400, 0x72aff2e0, 1);
  }

  lemma TableTwoA()
    ensures Table(1, 0) == (0x0, 5, 0xf61e2562) && Table(1, 1) == (0x0, 9, 0xc040b340)
    ensures Table(1, 2) == (0x0, 14, 0x265e5a51) && Table(1, 3) == (0x80636261, 20, 0xe9b6c7aa)
  {}

  lemma RoundTwoA(x: seq<nat>, r: Regs)
    requires |x| == 16 && AbcWords(x) && Operations(1, 0, x, r) == Four(0xdda9b9a6, 0x72aff2e0, 0xe396856b, 0xa1051895)
    ensures Operations(1, 4, x, r) == Four(0x3e9e9126, 0xb5b204e4, 0xe25e1652, 0x4a1d804e)
  {
    hide Operation, Operations, AbcWords, Table, Four;
    TableTwoA();
    Step(1, 0, x, r, 0xdda9b9a6, 0x72aff2e0, 0xe396856b, 0xa1051895, 0x0, 5, 0xf61e2562,
         0x629795ea, 0x365f74f2, 2, 0x20, 0x8000000, 0x3e9e9126, 1);
    Step(1, 1, x, r, 0xa1051895, 0x3e9e9126, 0x72aff2e0, 0xe396856b, 0x0, 9, 0xc040b340,
         0x32bff3a2, 0x9405bf77, 1, 0x200, 0x800000, 0x4a1d804e, 0);
    Step(1, 2, x, r, 0xe396856b, 0x4a1d804e, 0x3e9e9126, 0x72aff2e0, 0x0, 14, 0x265e5a51,
         0x4e1d8146, 0x58126102, 1, 0x4000, 0x40000, 0xe25e1652, 0);
    Step(1, 3, x, r, 0x72aff2e0, 0xe25e1652, 0x4a1d804e, 0x3e9e9126, 0x80636261, 20, 0xe9b6c7aa,
         0x621f104a, 0x3ee92d35, 2, 0x100000, 0x1000, 0xb5b204e4, 1);
  }

  lemma TableTwoB()
    ensures Table(1, 4) == (0x0, 5, 0xd62f105d) && Table(1, 5) == (0x0, 9, 0x2441453)
    ensures Table(1, 6) == (0x0, 14, 0xd8a1e681) && Table(1, 7) == (0x0, 20, 0xe7d3fbc8)
  {}

  lemma RoundTwoB(x: seq<nat>, r: Regs)
    requires |x| == 16 && AbcWords(x) && Operations(1, 4, x, r) == Four(0x3e9e9126, 0xb5b204e4, 0xe25e1652, 0x4a1d804e)
    ensures Operations(1, 8, x, r) == Four(0x59a8ffda, 0x47092c07, 0xabfc7920, 0x6d002f1e)
  {
    hide Operation, Operations, AbcWords, Table, Four;
    TableTwoB();
    Step(1, 4, x, r, 0x3e9e9126, 0xb5b204e4, 0xe25e1652, 0x4a1d804e, 0x0, 5, 0xd62f105d,
         0xa0521654, 0xb51fb7d7, 1, 0x20, 0x8000000, 0x59a8ffda, 1);
    Step(1, 5, x, r, 0x4a1d804e, 0x59a8ffda, 0xb5b204e4, 0xe25e1652, 0x0, 9, 0x2441453,
         0x55a816f6, 0xa209ab97, 0, 0x200, 0x800000, 0x6d002f1e, 0);
    Step(1, 6, x, r, 0xe25e1652, 0x6d002f1e, 0x59a8ffda, 0xb5b204e4, 0x0, 14, 0xd8a1e681,
         0x6d08ff1e, 0x2808fbf1, 2, 0x4000, 0x40000, 0xabfc7920, 0);
    Step(1, 7, x, r, 0xb5b204e4, 0xabfc7920, 0x6d002f1e, 0x59a8ffda, 0x0, 20, 0xe7d3fbc8,
         0x2da87904, 0xcb2e79b0, 1, 0x100000, 0x1000, 0x47092c07, 1);
  }

  lemma TableTwoC()
    ensures Table(1, 8) == (0x0, 5, 0x21e1cde6) && Table(1, 9) == (0x18, 9, 0xc33707d6)
    ensures Table(1, 10) == (0x0, 14, 0xf4d50d87) && Table(1, 11) == (0x0, 20, 0x455a14ed)
  {}

  lemma RoundTwoC(x: seq<nat>, r: Regs)
    requires |x| == 16 && AbcWords(x) && Operations(1, 8, x, r) == Four(0x59a8ffda, 0x47092c07, 0xabfc7920, 0x6d002f1e)
    ensures Operations(1, 12, x, r) == Four(0xb7f268cf, 0x786acb8f, 0xfe1623b1, 0x9388eff)
  {
    hide Operation, Operations, AbcWords, Table, Four;
    TableTwoC();
    Step(1, 8, x, r, 0x59a8ffda, 0x47092c07, 0xabfc7920, 0x6d002f1e, 0x0, 5, 0x21e1cde6,
         0xc7fc7c26, 0x438749e6, 1, 0x20, 0x8000000, 0xb7f268cf, 0);
    Step(1, 9, x, r, 0x6d002f1e, 0xb7f268cf, 0x47092c07, 0xabfc7920, 0x18, 9, 0xc33707d6,
         0xe7f16c07, 0x1828a313, 2, 0x200, 0x800000, 0x9388eff, 1);
    Step(1, 10, x, r, 0xabfc7920, 0x9388eff, 0xb7f268cf, 0x47092c07, 0x0, 14, 0xf4d50d87,
         0xb1fa4ccf, 0x52cbd376, 2, 0x4000, 0x40000, 0xfe1623b1, 0);
    Step(1, 11, x, r, 0x47092c07, 0xfe1623b1, 0x9388eff, 0xb7f268cf, 0x0, 20, 0x455a14ed,
         0xbe1aa6b1, 0x4a7de7a5, 1, 0x100000, 0x1000, 0x786acb8f, 1);
  }

  lemma TableTwoD()
    ensures Table(1, 12) == (0x0, 5, 0xa9e3e905) && Table(1, 13) == (0x0, 9, 0xfcefa3f8)
    ensures Table(1, 14) == (0x0, 14, 0x676f02d9) && Table(1, 15) == (0x0, 20, 0x8d2a4c8a)
  {}

  lemma RoundTwoD(x: seq<nat>, r: Regs)
    requires |x| == 16 && AbcWords(x) && Operations(1, 12, x, r) == Four(0xb7f268cf, 0x786acb8f, 0xfe1623b1, 0x9388eff)
    ensures Operations(1, 16, x, r) == Four(0x790a77fb, 0x726342d3, 0xa62884aa, 0x9f47e4f8)
  {
    hide Operation, Operations, AbcWords, Table, Four;
    TableTwoD();
    Step(1, 12, x, r, 0xb7f268cf, 0x786acb8f, 0xfe1623b1, 0x9388eff, 0x0, 5, 0xa9e3e905,
         0xfe2eab8f, 0x6004fd63, 2, 0x20, 0x8000000, 0x790a77fb, 0);
    Step(1, 13, x, r, 0x9388eff, 0x790a77fb, 0x786acb8f, 0xfe1623b1, 0x0, 9, 0xfcefa3f8,
         0x786aebbf, 0x7e931eb6, 1, 0x200, 0x800000, 0x9f47e4f8, 0);
    Step(1, 14, x, r, 0xfe1623b1, 0x9f47e4f8, 0x790a77fb, 0x786acb8f, 0x0, 14, 0x676f02d9,
         0x1942f4f8, 0x7ec81b82, 1, 0x4000, 0x40000, 0xa62884aa, 0);
    Step(1, 15, x, r, 0x786acb8f, 0xa62884aa, 0x9f47e4f8, 0x790a77fb, 0x0, 20, 0x8d2a4c8a,
         0xa64d84aa, 0xabe29cc3, 1, 0x100000, 0x1000, 0x726342d3, 1);
  }

  lemma TableThreeA()
    ensures Table(2, 0) == (0x0, 4, 0xfffa3942) && Table(2, 1) == (0x0, 11, 0x8771f681)
    ensures Table(2, 2) == (0x0, 16, 0x6d9d6122) && Table(2, 3) == (0x18, 23, 0xfde5380c)
  {}

  lemma RoundThreeA(x: seq<nat>, r: Regs)
    requires |x| == 16 && AbcWords(x) && Operations(2, 0, x, r) == Four(0x790a77fb, 0x726342d3, 0xa62884aa, 0x9f47e4f8)
    ensures Operations(2, 4, x, r) == Four(0xb3707ebf, 0x3b0875c7, 0x8d212ff5, 0x60127b2e)
  {
    hide Operation, Operations, AbcWords, Table, Four;
    TableThreeA();
    Step(2, 0, x, r, 0x790a77fb, 0x726342d3, 0xa62884aa, 0x9f47e4f8, 0x0, 4, 0xfffa3942,
         0x4b0c2281, 0xc410d3be, 1, 0x10, 0x10000000, 0xb3707ebf, 0);
    Step(2, 1, x, r, 0x9f47e4f8, 0xb3707ebf, 0x726342d3, 0xa62884aa, 0x0, 11, 0x8771f681,
         0x673bb8c6, 0x8df5943f, 1, 0x800, 0x200000, 0x60127b2e, 1);
    Step(2, 2, x, r, 0xa62884aa, 0x60127b2e, 0xb3707ebf, 0x726342d3, 0x0, 16, 0x6d9d6122,
         0xa1014742, 0xb4c72d0e, 1, 0x10000, 0x10000, 0x8d212ff5, 0);
    Step(2, 3, x, r, 0x726342d3, 0x8d212ff5, 0x60127b2e, 0xb3707ebf, 0x18, 23, 0xfde5380c,
         0x5e432a64, 0xce8ba55b, 1, 0x800000, 0x200, 0x3b0875c7, 1);
  }

  lemma TableThreeB()
    ensures Table(2, 4) == (0x0, 4, 0xa4beea44) && Table(2, 5) == (0x0, 11, 0x4bdecfa9)
    ensures Table(2, 6) == (0x0, 16, 0xf6bb4b60) && Table(2, 7) == (0x0, 23, 0xbebfbc70)
  {}

  lemma RoundThreeB(x: seq<nat>, r: Regs)
    requires |x| == 16 && AbcWords(x) && Operations(2, 4, x, r) == Four(0xb3707ebf, 0x3b0875c7, 0x8d212ff5, 0x60127b2e)
    ensures Operations(2, 6, x, r) == Four(0x8d212ff5, 0x6e7429d5, 0x21b117b9, 0x3b0875c7)
  {
    hide Operation, Operations, AbcWords, Table, Four;
    TableThreeB();
    Step(2, 4, x, r, 0xb3707ebf, 0x3b0875c7, 0x8d212ff5, 0x60127b2e, 0x0, 4, 0xa4beea44,
         0xd63b211c, 0x2e6a8a1f, 2, 0x10, 0x10000000, 0x21b117b9, 1);
    Step(2, 5, x, r, 0x60127b2e, 0x21b117b9, 0x3b0875c7, 0x8d212ff5, 0x0, 11, 0x4bdecfa9,
         0x97984d8b, 0x43899862, 1, 0x800, 0x200000, 0x6e7429d5, 0);
  }

  lemma RoundThreeB2(x: seq<nat>, r: Regs)
    requires |x| == 16 && AbcWords(x) && Operations(2, 6, x, r) == Four(0x8d212ff5, 0x6e7429d5, 0x21b117b9, 0x3b0875c7)
    ensures Operations(2, 8, x, r) == Four(0x21b117b9, 0x5a2f5ea5, 0x3575227e, 0x6e7429d5)
  {
    hide Operation, Operations, AbcWords, Table, Four;
    TableThreeB();
    Step(2, 6, x, r, 0x8d212ff5, 0x6e7429d5, 0x21b117b9, 0x3b0875c7, 0x0, 16, 0xf6bb4b60,
         0x74cd4bab, 0xf8a9c700, 1, 0x10000, 0x10000, 0x3575227e, 1);
    Step(2, 7, x, r, 0x3b0875c7, 0x3575227e, 0x6e7429d5, 0x21b117b9, 0x0, 23, 0xbebfbc70,
         0x7ab01c12, 0x74784e49, 1, 0x800000, 0x200, 0x5a2f5ea5, 0);
  }

  lemma TableThreeC()
    ensures Table(2, 8) == (0x0, 4, 0x289b7ec6) && Table(2, 9) == (0x80636261, 11, 0xeaa127fa)
    ensures Table(2, 10) == (0x0, 16, 0xd4ef3085) && Table(2, 11) == (0x0, 23, 0x4881d05)
  {}

  lemma RoundThreeC(x: seq<nat>, r: Regs)
    requires |x| == 16 && AbcWords(x) && Operations(2, 8, x, r) == Four(0x21b117b9, 0x5a2f5ea5, 0x3575227e, 0x6e7429d5)
    ensures Operations(2, 12, x, r) == Four(0x11de1779, 0x4c6124f4, 0x31c465ca, 0xfadcaa38)
  {
    hide Operation, Operations, AbcWords, Table, Four;
    TableThreeC();
    Step(2, 8, x, r, 0x21b117b9, 0x5a2f5ea5, 0x3575227e, 0x6e7429d5, 0x0, 4, 0x289b7ec6,
         0x12e550e, 0x4b7aeb8d, 0, 0x10, 0x10000000, 0x11de1779, 1);
    Step(2, 9, x, r, 0x6e7429d5, 0x11de1779, 0x5a2f5ea5, 0x3575227e, 0x80636261, 11, 0xeaa127fa,
         0x7e846ba2, 0x57fd1fd2, 2, 0x800, 0x200000, 0xfadcaa38, 0);
    Step(2, 10, x, r, 0x3575227e, 0xfadcaa38, 0x11de1779, 0x5a2f5ea5, 0x0, 16, 0xd4ef3085,
         0xb12de3e4, 0xbb9236e7, 1, 0x10000, 0x10000, 0x31c465ca, 1);
    Step(2, 11, x, r, 0x5a2f5ea5, 0x31c465ca, 0xfadcaa38, 0x11de1779, 0x0, 23, 0x4881d05,
         0xdac6d88b, 0x397e5435, 1, 0x800000, 0x200, 0x4c6124f4, 0);
  }

  lemma TableThreeD()
    ensures Table(2, 12) == (0x0, 4, 0xd9d4d039) && Table(2, 13) == (0x0, 11, 0xe6db99e5)
    ensures Table(2, 14) == (0x0, 16, 0x1fa27cf8) && Table(2, 15) == (0x0, 23, 0xc4ac5665)
  {}

  lemma RoundThreeD(x: seq<nat>, r: Regs)
    requires |x| == 16 && AbcWords(x) && Operations(2, 12, x, r) == Four(0x11de1779, 0x4c6124f4, 0x31c465ca, 0xfadcaa38)
    ensures Operations(2, 16, x, r) == Four(0x7f2e507b, 0x7beb9700, 0x8fae6399, 0x99d9679d)
  {
    hide Operation, Operations, AbcWords, Table, Four;
    TableThreeD();
    Step(2, 12, x, r, 0x11de1779, 0x4c6124f4, 0x31c465ca, 0xfadcaa38, 0x0, 4, 0xd9d4d039,
         0x8779eb06, 0x732cd2b8, 1, 0x10, 0x10000000, 0x7f2e507b, 0);
    Step(2, 13, x, r, 0xfadcaa38, 0x7f2e507b, 0x4c6124f4, 0x31c465ca, 0x0, 11, 0xe6db99e5,
         0x28b1145, 0xe4435562, 1, 0x800, 0x200000, 0x99d9679d, 0);
    Step(2, 14, x, r, 0x31c465ca, 0x99d9679d, 0x7f2e507b, 0x4c6124f4, 0x0, 16, 0x1fa27cf8,
         0xaa961312, 0xfbfcf5d4, 0, 0x10000, 0x10000, 0x8fae6399, 1);
    Step(2, 15, x, r, 0x4c6124f4, 0x8fae6399, 0x99d9679d, 0x7f2e507b, 0x0, 23, 0xc4ac5665,
         0x6959547f, 0x7a66cfd8, 1, 0x800000, 0x200, 0x7beb9700, 1);
  }

  lemma TableFourA()
    ensures Table(3, 0) == (0x80636261, 6, 0xf4292244) && Table(3, 1) == (0x0, 10, 0x432aff97)
    ensures Table(3, 2) == (0x18, 15, 0xab9423a7) && Table(3, 3) == (0x0, 21, 0xfc93a039)
  {}

  lemma RoundFourA(x: seq<nat>, r: Regs)
    requires |x| == 16 && AbcWords(x) && Operations(3, 0, x, r) == Four(0x7f2e507b, 0x7beb9700, 0x8fae6399, 0x99d9679d)
    ensures Operations(3, 4, x, r) == Four(0x7b201df8, 0x8bf025c4, 0xb298cefd, 0xf4e8e96e)
  {
    hide Operation, Operations, AbcWords, Table, Four;
    TableFourA();
    Step(3, 0, x, r, 0x7f2e507b, 0x7beb9700, 0x8fae6399, 0x99d9679d, 0x80636261, 6, 0xf4292244,
         0xf041fcfb, 0xe3fcd21b, 2, 0x40, 0x4000000, 0x7b201df8, 1);
    Step(3, 1, x, r, 0x99d9679d, 0x7b201df8, 0x7beb9700, 0x8fae6399, 0x0, 10, 0x432aff97,
         0x9a0afe, 0xdd9e7232, 0, 0x400, 0x400000, 0xf4e8e96e, 0);
    Step(3, 2, x, r, 0x8fae6399, 0xf4e8e96e, 0x7b201df8, 0x7beb9700, 0x18, 15, 0xab9423a7,
         0x8fdcf407, 0xcb1f7b5f, 1, 0x8000, 0x20000, 0xb298cefd, 1);
    Step(3, 3, x, r, 0x7beb9700, 0xb298cefd, 0xf4e8e96e, 0x7b201df8, 0x0, 21, 0xfc93a039,
         0x42370791, 0xbab63eca, 1, 0x200000, 0x800, 0x8bf025c4, 1);
  }

  lemma TableFourB()
    ensures Table(3, 4) == (0x0, 6, 0x655b59c3) && Table(3, 5) == (0x0, 10, 0x8f0ccc92)
    ensures Table(3, 6) == (0x0, 15, 0xffeff47d) && Table(3, 7) == (0x0, 21, 0x85845dd1)
  {}

  lemma RoundFourB(x: seq<nat>, r: Regs)
    requires |x| == 16 && AbcWords(x) && Operations(3, 4, x, r) == Four(0x7b201df8, 0x8bf025c4, 0xb298cefd, 0xf4e8e96e)
    ensures Operations(3, 8, x, r) == Four(0x6cc5e8a, 0x3bfa2c27, 0x7d632dd0, 0x5b0d97aa)
  {
    hide Operation, Operations, AbcWords, Table, Four;
    TableFourB();
    Step(3, 4, x, r, 0x7b201df8, 0x8bf025c4, 0xb298cefd, 0xf4e8e96e, 0x0, 6, 0x655b59c3,
         0x396ff928, 0x19eb70e3, 1, 0x40, 0x4000000, 0x6cc5e8a, 1);
    Step(3, 5, x, r, 0xf4e8e96e, 0x6cc5e8a, 0x8bf025c4, 0xb298cefd, 0x0, 10, 0x8f0ccc92,
         0xc41f5a4e, 0x4815104e, 2, 0x400, 0x400000, 0x5b0d97aa, 0);
    Step(3, 6, x, r, 0xb298cefd, 0x5b0d97aa, 0x6cc5e8a, 0x8bf025c4, 0x0, 15, 0xffeff47d,
         0x79c38131, 0x2c4c44ab, 2, 0x8000, 0x20000, 0x7d632dd0, 0);
    Step(3, 7, x, r, 0x8bf025c4, 0x7d632dd0, 0x5b0d97aa, 0x6cc5e8a, 0x0, 21, 0x85845dd1,
         0xa67e3a5f, 0xb7f2bdf4, 1, 0x200000, 0x800, 0x3bfa2c27, 1);
  }

  lemma TableFourC()
    ensures Table(3, 8) == (0x0, 6, 0x6fa87e4f) && Table(3, 9) == (0x0, 10, 0xfe2ce6e0)
    ensures Table(3, 10) == (0x0, 15, 0xa3014314) && Table(3, 11) == (0x0, 21, 0x4e0811a1)
  {}

  lemma RoundFourC(x: seq<nat>, r: Regs)
    requires |x| == 16 && AbcWords(x) && Operations(3, 8, x, r) == Four(0x6cc5e8a, 0x3bfa2c27, 0x7d632dd0, 0x5b0d97aa)
    ensures Operations(3, 12, x, r) == Four(0x7f81cc35, 0x7327d604, 0x4f9dbe3f, 0x94454ab)
  {
    hide Operation, Operations, AbcWords, Table, Four;
    TableFourC();
    Step(3, 8, x, r, 0x6cc5e8a, 0x3bfa2c27, 0x7d632dd0, 0x5b0d97aa, 0x0, 6, 0x6fa87e4f,
         0xc29941a7, 0x390e1e80, 1, 0x40, 0x4000000, 0x7f81cc35, 0);
    Step(3, 9, x, r, 0x5b0d97aa, 0x7f81cc35, 0x3bfa2c27, 0x7d632dd0, 0x0, 10, 0xfe2ce6e0,
         0xc467f218, 0x1da270a2, 2, 0x400, 0x400000, 0x94454ab, 1);
    Step(3, 10, x, r, 0x7d632dd0, 0x94454ab, 0x7f81cc35, 0x3bfa2c27, 0x0, 15, 0xa3014314,
         0xb2c41bce, 0xd3288cb2, 1, 0x8000, 0x20000, 0x4f9dbe3f, 0);
    Step(3, 11, x, r, 0x3bfa2c27, 0x4f9dbe3f, 0x94454ab, 0x7f81cc35, 0x0, 21, 0x4e0811a1,
         0xc6bbeb54, 0x50be291c, 1, 0x200000, 0x800, 0x7327d604, 0);
  }

  lemma TableFourD()
    ensures Table(3, 12) == (0x0, 6, 0xf7537e82) && Table(3, 13) == (0x0, 10, 0xbd3af235)
    ensures Table(3, 14) == (0x0, 15, 0x2ad7d2bb) && Table(3, 15) == (0x0, 21, 0xeb86d391)
  {}

  lemma RoundFourD(x: seq<nat>, r: Regs)
    requires |x| == 16 && AbcWords(x) && Operations(3, 12, x, r) == Four(0x7f81cc35, 0x7327d604, 0x4f9dbe3f, 0x94454ab)
    ensures Operations(3, 16, x, r) == Four(0x310ade8f, 0xc08226b3, 0xe484b9d8, 0x624d8cb2)
  {
    hide Operation, Operations, AbcWords, Table, Four;
    TableFourD();
    Step(3, 12, x, r, 0x7f81cc35, 0x7327d604, 0x4f9dbe3f, 0x94454ab, 0x0, 6, 0xf7537e82,
         0xb822416b, 0x2ef78c22, 2, 0x40, 0x4000000, 0x310ade8f, 1);
    Step(3, 13, x, r, 0x94454ab, 0x310ade8f, 0x7327d604, 0x4f9dbe3f, 0x0, 10, 0xbd3af235,
         0xc24d09cb, 0x88cc50ab, 1, 0x400, 0x400000, 0x624d8cb2, 0);
    Step(3, 14, x, r, 0x4f9dbe3f, 0x624d8cb2, 0x310ade8f, 0x7327d604, 0x0, 15, 0x2ad7d2bb,
         0xdfd77374, 0x5a4d046e, 1, 0x8000, 0x20000, 0xe484b9d8, 0);
    Step(3, 15, x, r, 0x7327d604, 0xe484b9d8, 0x624d8cb2, 0x310ade8f, 0x0, 21, 0xeb86d391,
         0x8cb8354a, 0xeb66dedf, 1, 0x200000, 0x800, 0xc08226b3, 1);
  }

  lemma AbcRounds(x: seq<nat>)
    requires |x| == 16 && AbcWords(x)
    ensures Rounds(x, INIT) == Regs(0x310ade8f, 0xc08226b3, 0xe484b9d8, 0x624d8cb2)
  {
    hide Operations, AbcWords, Four;
    Ends();
    var r := INIT;
    NoOperations(0, x, r);
    RoundOneA(x, r);
    RoundOneB(x, r);
    RoundOneC(x, r);
    RoundOneD(x, r);
    r := Operations(0, 16, x, r);
    NoOperations(1, x, r);
    RoundTwoA(x, r);
    RoundTwoB(x, r);
    RoundTwoC(x, r);
    RoundTwoD(x, r);
    r := Operations(1, 16, x, r);
    NoOperations(2, x, r);
    RoundThreeA(x, r);
    RoundThreeB(x, r);
    RoundThreeB2(x, r);
    RoundThreeC(x, r);
    RoundThreeD(x, r);
    r := Operations(2, 16, x, r);
    NoOperations(3, x, r);
    RoundFourA(x, r);
    RoundFourB(x, r);
    RoundFourC(x, r);
    RoundFourD(x, r);
    r := Operations(3, 16, x, r);
  }

  lemma Ends()
    ensures Four(0x67452301, 0xefcdab89, 0x98badcfe, 0x10325476) == INIT
    ensures Four(0x310ade8f, 0xc08226b3, 0xe484b9d8, 0x624d8cb2) == Regs(0x310ade8f, 0xc08226b3, 0xe484b9d8, 0x624d8cb2)
  {}

  lemma NoOperations(g: nat, x: seq<nat>, r: Regs)
    requires g < 4 && |x| == 16
    ensures Operations(g, 0, x, r) == r
  {}

  /** The digest of "abc". */
  lemma AbcDigest()
    ensures Md5Of(ABC) == [0x90, 0x1, 0x50, 0x98, 0x3c, 0xd2, 0x4f, 0xb0,
                           0xd6, 0x96, 0x3f, 0x7d, 0x28, 0xe1, 0x7f, 0x72]
  {
    hide Rounds, Trailer, Words, Bytes;
    AbcBlock();
    var b := ABC + Trailer(3);
    OneBlock(b);
    AbcRounds(Words(b));
    FinalBytes();
  }

  /** The same through the class, from two pieces. */
  method DigestOfAbc() returns (d: seq<byte>)
    ensures d == [0x90, 0x1, 0x50, 0x98, 0x3c, 0xd2, 0x4f, 0xb0,
                  0xd6, 0x96, 0x3f, 0x7d, 0x28, 0xe1, 0x7f, 0x72]
  {
    hide Md5Of;
    AbcDigest();
    var pieces: seq<seq<byte>> := [[97], [98, 99]];
    assert pieces[..1] == [[97]] && pieces[..1][..0] == [];
    assert Concat(pieces[..1][..0]) == [];
    assert Concat(pieces[..1]) == [97];
    assert Concat(pieces) == ABC;
    d := DigestOf(pieces);
  }

  lemma OneBlock(b: seq<byte>)
    requires |b| == BLOCK
    ensures AddBlocks(INIT, b) == AddBlock(INIT, b)
  {
    assert b[..0] == [] && b[0..] == b;
    assert AddBlocks(INIT, b[..0]) == INIT;
  }

  lemma FinalBytes()
    ensures RegBytes(Regs(0x98500190, 0xb04fd23c, 0x7d3f96d6, 0x727fe128))
         == [0x90, 0x1, 0x50, 0x98, 0x3c, 0xd2, 0x4f, 0xb0,
             0xd6, 0x96, 0x3f, 0x7d, 0x28, 0xe1, 0x7f, 0x72]
  {
    hide WordBytes;
    FourWords(0x98500190, 0xb04fd23c, 0x7d3f96d6, 0x727fe128);
    assert WordBytes(0x98500190) == [0x90, 0x1, 0x50, 0x98] by { FinalWord(0x98500190); }
    assert WordBytes(0xb04fd23c) == [0x3c, 0xd2, 0x4f, 0xb0] by { FinalWord(0xb04fd23c); }
    assert WordBytes(0x7d3f96d6) == [0xd6, 0x96, 0x3f, 0x7d] by { FinalWord(0x7d3f96d6); }
    assert WordBytes(0x727fe128) == [0x28, 0xe1, 0x7f, 0x72] by { FinalWord(0x727fe128); }
  }

  lemma FinalWord(w: nat)
    ensures WordBytes(w) == [w % 256, w / 256 % 256, w / 256 / 256 % 256, w / 256 / 256 / 256 % 256]
  {}

  lemma FourWords(a: nat, b: nat, c: nat, d: nat)
    ensures RegBytes(Regs(a, b, c, d)) == WordBytes(a) + WordBytes(b) + WordBytes(c) + WordBytes(d)
  {
    hide WordBytes;
    var w := [a, b, c, d];
    assert w[..3] == [a, b, c] && w[..3][..2] == [a, b] && w[..3][..2][..1] == [a] && w[..1][..0] == [];
    assert Bytes([a]) == WordBytes(a);
    assert Bytes([a, b]) == Bytes([a]) + WordBytes(b);
    assert Bytes([a, b, c]) == Bytes([a, b]) + WordBytes(c);
  }
}
