/** ucrc32: the table-driven CRC-32, eight bytes a round. */
module Crc {
  import opened Bits

  // ----- division by the polynomial, one bit at a time, least significant bit first -----

  const POLYNOMIAL: nat := 0xedb88320
  const ONES: nat := 0xffffffff

  function Shift(c: nat): nat {
    if c % 2 == 1 then Xor(c / 2, POLYNOMIAL) else c / 2
  }

  /** Takes one more bit of the message into the register. */
  function FeedBit(c: nat, bit: nat): nat {
    Shift(Xor(c, bit))
  }

  /** The n low bits of b, the lowest first. */
  function FeedBits(c: nat, b: nat, n: nat): nat
    decreases n
  {
    if n == 0 then c else FeedBits(FeedBit(c, b % 2), b / 2, n - 1)
  }

  function Divide(c: nat, buf: seq<byte>): nat {
    if |buf| == 0 then c
    else FeedBits(Divide(c, buf[..|buf| - 1]), buf[|buf| - 1], 8)
  }

  /** The CRC of buf, continued from the CRC of what came before. */
  function Crc32(crc: nat, buf: seq<byte>): nat {
    Xor(Divide(Xor(crc, ONES), buf), ONES)
  }

  lemma {:induction false} DivideConcat(c: nat, a: seq<byte>, b: seq<byte>)
    ensures Divide(c, a + b) == Divide(Divide(c, a), b)
  {
    hide FeedBits;
    if |b| == 0 {
      assert a + b == a;
    } else {
      DivideConcat(c, a, b[..|b| - 1]);
      assert (a + b)[..|a + b| - 1] == a + b[..|b| - 1];
    }
  }

  lemma Complement(c: nat)
    ensures Xor(Xor(c, ONES), ONES) == c
  {
    XorAssoc(c, ONES, ONES);
    XorSelf(ONES);
    XorZero(c);
  }

  /** The CRC of consecutive pieces is the CRC of the whole: what the reader's running checksum relies on. */
  lemma Crc32Concat(crc: nat, a: seq<byte>, b: seq<byte>)
    ensures Crc32(Crc32(crc, a), b) == Crc32(crc, a + b)
  {
    DivideConcat(Xor(crc, ONES), a, b);
    Complement(Divide(Xor(crc, ONES), a));
  }

  // ----- the table -----

  function Shifts(c: nat, n: nat): nat
    decreases n
  {
    if n == 0 then c else Shifts(Shift(c), n - 1)
  }

  /** crc_table[i] */
  function Table(i: byte): nat { Shifts(i, 8) }

  /** (x ^ p) ^ (y ^ q) == (x ^ y) ^ (p ^ q) */
  lemma XorPairs(x: nat, y: nat, p: nat, q: nat)
    ensures Xor(Xor(x, p), Xor(y, q)) == Xor(Xor(x, y), Xor(p, q))
  {
    XorAssoc(x, p, Xor(y, q));
    XorAssoc(p, y, q);
    XorComm(p, y);
    XorAssoc(y, p, q);
    XorAssoc(x, y, Xor(p, q));
  }

  lemma ShiftLinear(x: nat, y: nat)
    ensures Shift(Xor(x, y)) == Xor(Shift(x), Shift(y))
  {
    var p, q := if x % 2 == 1 then POLYNOMIAL else 0, if y % 2 == 1 then POLYNOMIAL else 0;
    XorStep(x, y);
    XorZero(x / 2);
    XorZero(y / 2);
    XorZero(Xor(x / 2, y / 2));
    XorPairs(x / 2, y / 2, p, q);
    XorSelf(POLYNOMIAL);
    XorZero(POLYNOMIAL);
  }

  lemma {:induction false} ShiftsLinear(x: nat, y: nat, n: nat)
    ensures Shifts(Xor(x, y), n) == Xor(Shifts(x, n), Shifts(y, n))
    decreases n
  {
    if n > 0 {
      ShiftLinear(x, y);
      ShiftsLinear(Shift(x), Shift(y), n - 1);
    }
  }

  lemma FirstBit(c: nat, b: nat)
    ensures Shift(Xor(c, b)) == Xor(Shift(Xor(c, b % 2)), b / 2)
  {
    hide Xor;
    XorStep(c, b);
    XorStep(c, b % 2);
    assert b % 2 / 2 == 0;
    XorZero(c / 2);
    XorAssoc(c / 2, b / 2, POLYNOMIAL);
    XorComm(b / 2, POLYNOMIAL);
    XorAssoc(c / 2, POLYNOMIAL, b / 2);
  }

  /** Bits of the message may be taken in ahead of time. */
  lemma {:induction false} FeedIsShift(c: nat, b: nat, n: nat)
    ensures FeedBits(c, b, n) == Xor(Shifts(Xor(c, b), n), Shr(b, n))
    decreases n
  {
    if n > 0 {
      FirstBit(c, b);
      FeedIsShift(FeedBit(c, b % 2), b / 2, n - 1);
    } else {
      XorAssoc(c, b, b);
      XorSelf(b);
      XorZero(c);
    }
  }

  /** Shifting a register whose low bits are clear only moves it. */
  lemma {:induction false} HighBytes(y: nat, n: nat)
    requires Low(y, n) == 0
    ensures Shifts(y, n) == Shr(y, n)
  {
    if n > 0 { HighBytes(y / 2, n - 1); }
  }

  /** One table lookup does the work of eight single bits. */
  lemma TableStep(c: nat, b: byte)
    ensures Low(Xor(c, b), 8) < 256
    ensures Xor(Table(Low(Xor(c, b), 8)), Shr(c, 8)) == FeedBits(c, b, 8)
  {
    var x := Xor(c, b);
    assert Pow2(8) == 256;
    LowBound(x, 8);
    FeedIsShift(c, b, 8);
    LowSmall(b, 8);
    XorZero(Shifts(x, 8));
    XorSplit(x, 8);
    ShiftsLinear(Low(x, 8), Shl(Shr(x, 8), 8), 8);
    Compose(0, Shr(x, 8), 8);
    HighBytes(Shl(Shr(x, 8), 8), 8);
    XorShr(c, b, 8);
    XorZero(Shr(c, 8));
  }

  // ----- 32 bits are enough -----

  lemma ShiftBound(c: nat)
    requires c < Pow2(32)
    ensures Shift(c) < Pow2(32)
  {
    WordSizes();
    XorBound(c / 2, POLYNOMIAL, 32);
  }

  lemma FeedBound(c: nat, b: nat, n: nat)
    requires c < Pow2(32)
    ensures FeedBits(c, b, n) < Pow2(32)
    decreases n
  {
    if n > 0 {
      XorBound(c, b % 2, 32);
      ShiftBound(Xor(c, b % 2));
      FeedBound(FeedBit(c, b % 2), b / 2, n - 1);
    }
  }

  lemma Crc32Bound(crc: nat, buf: seq<byte>)
    requires crc < Pow2(32)
    ensures Crc32(crc, buf) < Pow2(32)
  {
    WordSizes();
    XorBound(crc, ONES, 32);
    DivideBound(Xor(crc, ONES), buf);
    XorBound(Divide(Xor(crc, ONES), buf), ONES, 32);
  }

  lemma DivideBound(c: nat, buf: seq<byte>)
    requires c < Pow2(32)
    ensures Divide(c, buf) < Pow2(32)
  {
    if |buf| > 0 {
      DivideBound(c, buf[..|buf| - 1]);
      FeedBound(Divide(c, buf[..|buf| - 1]), buf[|buf| - 1], 8);
    }
  }

  // ----- ucrc32 -----

  /** CRC_DO1 */
  method Do1(crc: nat, buf: seq<byte>, pos: nat, ghost c: nat) returns (r: nat)
    requires pos < |buf| && crc == Divide(c, buf[..pos])
    ensures r == Divide(c, buf[..pos + 1])
  {
    TableStep(crc, buf[pos]);
    r := Xor(Table(Low(Xor(crc, buf[pos]), 8)), Shr(crc, 8));
    assert buf[..pos + 1][..pos] == buf[..pos];
  }

  method Do2(crc: nat, buf: seq<byte>, pos: nat, ghost c: nat) returns (r: nat)
    requires pos + 2 <= |buf| && crc == Divide(c, buf[..pos])
    ensures r == Divide(c, buf[..pos + 2])
  {
    r := Do1(crc, buf, pos, c);
    r := Do1(r, buf, pos + 1, c);
  }

  method Do4(crc: nat, buf: seq<byte>, pos: nat, ghost c: nat) returns (r: nat)
    requires pos + 4 <= |buf| && crc == Divide(c, buf[..pos])
    ensures r == Divide(c, buf[..pos + 4])
  {
    r := Do2(crc, buf, pos, c);
    r := Do2(r, buf, pos + 2, c);
  }

  method Do8(crc: nat, buf: seq<byte>, pos: nat, ghost c: nat) returns (r: nat)
    requires pos + 8 <= |buf| && crc == Divide(c, buf[..pos])
    ensures r == Divide(c, buf[..pos + 8])
  {
    r := Do4(crc, buf, pos, c);
    r := Do4(r, buf, pos + 4, c);
  }

  /** ucrc32: eight bytes a round, then the rest one by one. */
  method Ucrc32(crc: nat, buf: seq<byte>) returns (r: nat)
    requires crc < Pow2(32)
    ensures r == Crc32(crc, buf) < Pow2(32)
  {
    hide Xor, Divide, Pow2;
    Crc32Bound(crc, buf);
    r := Xor(crc, ONES);
    ghost var c := r;
    DivideNothing(c, buf);
    var pos, len := 0, |buf|;
    while len >= 8
      invariant 0 <= pos <= |buf| && pos + len == |buf| && r == Divide(c, buf[..pos])
    {
      r := Do8(r, buf, pos, c);
      pos, len := pos + 8, len - 8;
    }
    while len != 0
      invariant 0 <= pos <= |buf| && pos + len == |buf| && r == Divide(c, buf[..pos])
    {
      r := Do1(r, buf, pos, c);
      pos, len := pos + 1, len - 1;
    }
    assert buf[..pos] == buf;
    r := Xor(r, ONES);
  }

  lemma DivideNothing(c: nat, buf: seq<byte>)
    ensures Divide(c, buf[..0]) == c
  {}
}
