/** The fixed-width fields at the start of a block, and splitting the bytes of a stored one. */
module BlockHeader {
  import opened Bits
  import opened Deflate
  import opened BitBuffer

  /** A field within a peeked field. */
  lemma PeekWithin(input: seq<byte>, pos: nat, n: nat, i: nat, j: nat)
    requires i + j <= n
    ensures Low(Shr(Peek(input, pos, n), i), j) == Peek(input, pos + i, j)
    ensures i + j == n ==> Shr(Peek(input, pos, n), i) == Peek(input, pos + i, j)
  {
    ShrLow(Rest(input, pos), i, n - i);
    RestSplit(input, pos, i);
    LowLow(Rest(input, pos + i), j, n - i);
  }

  /** The last-block bit and the block type, as (b & 7) & 1 and (b & 7) >> 1. */
  lemma TypeFields(input: seq<byte>, pos: nat)
    ensures Low(Peek(input, pos, 3), 1) == Peek(input, pos, 1)
    ensures Shr(Peek(input, pos, 3), 1) == Peek(input, pos + 1, 2) <= 3
  {
    PeekWithin(input, pos, 3, 0, 1);
    PeekWithin(input, pos, 3, 1, 2);
    LowBound(Rest(input, pos + 1), 2);
    assert Pow2(2) == 4;
  }

  /** The three table sizes of a dynamic block. */
  lemma TableFields(input: seq<byte>, pos: nat)
    ensures var t := Peek(input, pos, 14);
            && Low(t, 5) == Peek(input, pos, 5)
            && Low(Shr(t, 5), 5) == Peek(input, pos + 5, 5)
            && Shr(t, 10) == Peek(input, pos + 10, 4) <= 15
  {
    PeekWithin(input, pos, 14, 0, 5);
    PeekWithin(input, pos, 14, 5, 5);
    PeekWithin(input, pos, 14, 10, 4);
    LowBound(Rest(input, pos + 10), 4);
    assert Pow2(4) == 16;
  }

  /** (~b) >> 16 & 0xffff, for a 32-bit b. */
  lemma ComplementHigh(b: nat)
    requires b < Pow2(32)
    ensures Low(Shr(Pow2(32) - 1 - b, 16), 16) == 0xffff - Shr(b, 16)
  {
    var lo, hi := Low(b, 16), Shr(b, 16);
    Split(b, 16);
    LowBound(b, 16);
    Pow2Add(16, 16);
    WordSizes();
    if hi >= Pow2(16) { ShlMono(Pow2(16), hi, 16); }
    ShlAdd(hi, 0xffff - hi, 16);
    ShlAdd(0xffff, 1, 16);
    ShlOne(16);
    Compose(0xffff - lo, 0xffff - hi, 16);
    LowSmall(0xffff - hi, 16);
  }

  /** The two halves of a 32-bit buffer are the two length fields. */
  lemma LengthFields(input: seq<byte>, b: nat, p: nat)
    requires Holds(input, b, 32, p)
    ensures b < Pow2(32)
    ensures Low(b, 16) == Peek(input, 8 * p - 32, 16)
    ensures Shr(b, 16) == Peek(input, 8 * p - 16, 16)
    ensures Low(Shr(Pow2(32) - 1 - b, 16), 16) != Low(b, 16)
       <==> Peek(input, 8 * p - 32, 16) + Peek(input, 8 * p - 16, 16) != 0xffff
  {
    hide Low, Rest;
    LowSmall(b, 32);
    PeekWithin(input, 8 * p - 32, 32, 0, 16);
    PeekWithin(input, 8 * p - 32, 32, 16, 16);
    ComplementHigh(b);
  }

  /** Some of the bytes of a stored block, then the rest. */
  lemma StoredSplit(input: seq<byte>, last: bool, left: nat, p: nat, hist: seq<byte>, t: nat)
    requires t <= left && p + t <= |input|
    ensures StoredBytes(input, last, left, 8 * p, hist)
         == StoredBytes(input, last, left - t, 8 * (p + t), hist + input[p..p + t])
  {
    hide EndOfBlock;
    var h := hist + input[p..p + t];
    assert 8 * (p + t) / 8 == p + t;
    if p + left > |input| {
      assert hist + input[p..] == h + input[p + t..];
    } else {
      assert hist + input[p..p + left] == h + input[p + t..p + left];
      assert 8 * p + 8 * left == 8 * (p + t) + 8 * (left - t);
      if left == 0 {
        assert h == hist;
      } else if left == t {
        assert h + input[p + t..p + left] == h;
      }
    }
  }

  lemma StoredDone(input: seq<byte>, last: bool, pos: nat, hist: seq<byte>)
    ensures StoredBytes(input, last, 0, pos, hist) == EndOfBlock(input, last, pos, hist)
  {}
}
