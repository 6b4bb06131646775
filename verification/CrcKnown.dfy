/** What pins the CRC down: its polynomial, an entry of the table, and the check value of the CRC-32 of ZIP files. */
module CrcKnown {
  import opened Bits
  import opened Crc
  import opened BitWords

  /** The coefficient of x^e is at bit 31 - e: x^26 + x^23 + x^22 + x^16 + x^12 + x^11 + x^10 + x^8 + x^7 + x^5 + x^4
      + x^2 + x + 1, above which x^32 is left out. */
  lemma Polynomial()
    ensures POLYNOMIAL == Pow2(31 - 26) + Pow2(31 - 23) + Pow2(31 - 22) + Pow2(31 - 16) + Pow2(31 - 12)
                          + Pow2(31 - 11) + Pow2(31 - 10) + Pow2(31 - 8) + Pow2(31 - 7) + Pow2(31 - 5) + Pow2(31 - 4)
                          + Pow2(31 - 2) + Pow2(31 - 1) + Pow2(31 - 0)
  {
    assert Pow2(5) == 0x20;
    assert Pow2(9) == 0x200;
    assert Pow2(15) == 0x8000;
    assert Pow2(20) == 0x10_0000;
    assert Pow2(24) == 0x100_0000;
    assert Pow2(27) == 0x800_0000;
    assert Pow2(31) == 0x8000_0000;
  }

  // ----- shifting as bit vectors -----

  function Shift32(c: bv32): bv32 { if Low32(c) == 1 then Xor32(Half32(c), 0xedb88320) else Half32(c) }

  function Shifted8(c: bv32): bv32 {
    Shift32(Shift32(Shift32(Shift32(Shift32(Shift32(Shift32(Shift32(c))))))))
  }

  lemma PolynomialWord()
    ensures V(0xedb88320) == POLYNOMIAL
  {}

  lemma ShiftWord(c: bv32)
    ensures Shift(V(c)) == V(Shift32(c))
  {
    hide V, Half32, Low32, Xor32, Xor;
    PolynomialWord();
    HalfWord(c);
    WordOps(Half32(c), 0xedb88320);
  }

  lemma EightShifts(c: bv32)
    ensures Shifts(V(c), 8) == V(Shifted8(c))
  {
    hide V, Shift32, Shift;
    ShiftWord(c);
    var c1 := Shift32(c);
    ShiftWord(c1);
    var c2 := Shift32(c1);
    ShiftWord(c2);
    var c3 := Shift32(c2);
    ShiftWord(c3);
    var c4 := Shift32(c3);
    ShiftWord(c4);
    var c5 := Shift32(c4);
    ShiftWord(c5);
    var c6 := Shift32(c5);
    ShiftWord(c6);
    var c7 := Shift32(c6);
    ShiftWord(c7);
    ShiftsChain(V(c));
  }

  lemma ShiftsChain(x: nat)
    ensures Shifts(x, 8) == Shift(Shift(Shift(Shift(Shift(Shift(Shift(Shift(x))))))))
  {
    hide Shift;
    assert Shifts(x, 8) == Shifts(Shift(Shift(x)), 6);
    assert Shifts(Shift(Shift(x)), 6) == Shifts(Shift(Shift(Shift(Shift(x)))), 4);
  }

  /** The second entry of the source's table. */
  lemma SecondEntry()
    ensures Table(1) == 0x7707_3096
  {
    hide Shifts;
    EightShifts(1);
    OneWord();
  }

  lemma OneWord()
    ensures V(1) == 1 && V(Shifted8(1)) == 0x7707_3096
  {}

  // ----- the check value -----

  /** "123456789" */
  const DIGITS: seq<byte> := [0x31, 0x32, 0x33, 0x34, 0x35, 0x36, 0x37, 0x38, 0x39]

  /** The register after the first i digits. */
  predicate Register(i: nat, c: bv32)
    requires i <= 9
  {
    Divide(0xffff_ffff, DIGITS[..i]) == V(c)
  }

  lemma TakeByte(i: nat, c: bv32, b: bv32, d: bv32)
    requires i < 9 && Register(i, c) && V(b) == DIGITS[i] && d == Shifted8(Xor32(c, b))
    ensures Register(i + 1, d)
  {
    hide V, Shifted8, Xor32, Xor, Shifts, FeedBits;
    assert DIGITS[..i + 1][..i] == DIGITS[..i];
    WordOps(c, b);
    FeedIsShift(V(c), DIGITS[i], 8);
    NothingLeft(DIGITS[i]);
    EightShifts(Xor32(c, b));
    XorZero(Shifts(Xor(V(c), V(b)), 8));
  }

  lemma NothingLeft(b: byte)
    ensures Shr(b, 8) == 0
  {
    assert Pow2(8) == 256;
    LowSmall(b, 8);
  }

  lemma CheckRegister()
    ensures Divide(0xffff_ffff, DIGITS) == V(0x340bc6d9)
  {
    hide Register, Divide, V, Shifted8, Xor32;
    FirstFive();
    LastFour();
    LastRegister();
  }

  lemma FirstFive()
    ensures Register(5, 0x340ac5e3)
  {
    hide Register;
    Started();
    TakeByte(0, 0xffffffff, 0x31, 0x7c231048);
    TakeByte(1, 0x7c231048, 0x32, 0xb0acbb32);
    TakeByte(2, 0xb0acbb32, 0x33, 0x77b79c2d);
    TakeByte(3, 0x77b79c2d, 0x34, 0x641c1f5c);
    TakeByte(4, 0x641c1f5c, 0x35, 0x340ac5e3);
  }

  lemma LastFour()
    requires Register(5, 0x340ac5e3)
    ensures Register(9, 0x340bc6d9)
  {
    hide Register;
    TakeByte(5, 0x340ac5e3, 0x36, 0xf68d2c9e);
    TakeByte(6, 0xf68d2c9e, 0x37, 0xaffc9660);
    TakeByte(7, 0xaffc9660, 0x38, 0x651f2550);
    TakeByte(8, 0x651f2550, 0x39, 0x340bc6d9);
  }

  lemma LastRegister()
    ensures Register(9, 0x340bc6d9) <==> Divide(0xffff_ffff, DIGITS) == V(0x340bc6d9)
  {
    hide Divide, V;
    assert DIGITS[..9] == DIGITS;
  }

  lemma Started()
    ensures Register(0, 0xffff_ffff)
  {}

  lemma CheckValue()
    ensures Crc32(0, DIGITS) == 0xcbf4_3926
  {
    hide Divide, Xor, V;
    CheckRegister();
    XorZero(ONES);
    WordOps(0x340bc6d9, 0xffff_ffff);
    LastWords();
  }

  lemma LastWords()
    ensures V(0xffff_ffff) == ONES && V(Xor32(0x340bc6d9, 0xffff_ffff)) == 0xcbf4_3926
  {}

  /** The check value, by the unrolled loop. */
  method CheckRun() returns (r: nat)
    ensures r == 0xcbf4_3926
  {
    hide Crc32;
    CheckValue();
    r := Ucrc32(0, DIGITS);
  }
}
