/** The decoder's bit buffer: b holds at least the k unconsumed bits before input byte p. */
module BitBuffer {
  import opened Bits
  import opened Deflate

  /** The low k bits of b are the next bits of the stream; what else b holds agrees with the stream;
      and b fits the 32-bit word. */
  predicate Holds(input: seq<byte>, b: nat, k: nat, p: nat) {
    && p <= |input| && k <= 8 * p
    && Low(b, k) == Peek(input, 8 * p - k, k)
    && Sub(b, Rest(input, 8 * p - k))
    && b < Pow2(32)
  }

  lemma RestSplit(input: seq<byte>, pos: nat, n: nat)
    ensures Rest(input, pos + n) == Shr(Rest(input, pos), n)
  {
    ShrShr(StreamVal(input), pos, n);
  }

  lemma ShrByte(x: nat, c: nat)
    requires c < 256
    ensures Shr(c + 256 * x, 8) == x && Low(c + 256 * x, 8) == c
  {
    ShlIsProduct(x, 8);
    assert Pow2(8) == 256;
    Compose(c, x, 8);
  }

  lemma RestAtByte(input: seq<byte>, p: nat)
    requires p <= |input|
    ensures Rest(input, 8 * p) == StreamVal(input[p..])
  {
    if p == 0 {
      assert input[0..] == input;
    } else {
      RestAtByte(input[1..], p - 1);
      assert input[1..][p - 1..] == input[p..];
      ShrByte(StreamVal(input[1..]), input[0]);
      ShrShr(StreamVal(input), 8, 8 * (p - 1));
      assert 8 + 8 * (p - 1) == 8 * p;
    }
  }

  lemma ByteAt(input: seq<byte>, p: nat)
    requires p < |input|
    ensures Peek(input, 8 * p, 8) == input[p]
  {
    RestAtByte(input, p);
    ShrByte(StreamVal(input[p + 1..]), input[p]);
    assert input[p..][1..] == input[p + 1..];
  }

  lemma ShlByteBound(c: nat, k: nat)
    requires c < 256 && k <= 24
    ensures Shl(c, k) < Pow2(32)
  {
    ShlMono(c + 1, 256, k);
    ShlMono(c, c + 1, k);
    assert Pow2(8) == 256;
    Pow2Add(8, k);
    Pow2Mono(8 + k, 32);
  }

  lemma NextByteBits(input: seq<byte>, k: nat, p: nat)
    requires p < |input| && k <= 8 * p
    ensures Low(Shr(Rest(input, 8 * p - k), k), 8) == input[p]
  {
    RestSplit(input, 8 * p - k, k);
    ByteAt(input, p);
  }

  /** The next byte goes into the buffer above the k bits that are there. For k up to 24 no bit is shifted out of the
      word, and bits already above position k do no harm. */
  lemma TakeByte(input: seq<byte>, b: nat, k: nat, p: nat)
    requires Holds(input, b, k, p) && p < |input| && k <= 24
    ensures Low(Shl(input[p], k), 32) == Shl(input[p], k)
    ensures Holds(input, Or(b, Shl(input[p], k)), k + 8, p + 1)
  {
    var pos: nat := 8 * p - k;
    assert 8 * (p + 1) - (k + 8) == pos;
    assert Low(Shl(input[p], k), 32) == Shl(input[p], k) && Or(b, Shl(input[p], k)) < Pow2(32) by {
      ShlByteBound(input[p], k);
      LowSmall(Shl(input[p], k), 32);
      OrBound(b, Shl(input[p], k), 32);
    }
    NextByteBits(input, k, p);
    OrExtends(b, Rest(input, pos), k, 8);
  }

  lemma ShrBound(b: nat, j: nat)
    ensures Shr(b, j) <= b
  {}

  lemma DumpBits(input: seq<byte>, b: nat, k: nat, p: nat, j: nat)
    requires Holds(input, b, k, p) && j <= k
    ensures Holds(input, Shr(b, j), k - j, p)
  {
    var pos: nat := 8 * p - k;
    var z := Rest(input, pos);
    RestSplit(input, pos, j);
    SubShr(b, z, j);
    ShrBound(b, j);
    ShrLow(b, j, k - j);
    ShrLow(z, j, k - j);
    assert 8 * p - (k - j) == pos + j;
  }

  /** Giving back whole bytes leaves b as it is: its extra bits are the bits given back. */
  lemma GiveBack(input: seq<byte>, b: nat, k: nat, p: nat, c: nat)
    requires Holds(input, b, k, p) && c <= p && 8 * c <= k
    ensures Holds(input, b, k - 8 * c, p - c)
  {
    var pos: nat := 8 * p - k;
    assert 8 * (p - c) - (k - 8 * c) == pos;
    LowLow(b, k - 8 * c, k);
    LowLow(Rest(input, pos), k - 8 * c, k);
  }

  lemma BufferBits(input: seq<byte>, b: nat, k: nat, p: nat, j: nat)
    requires Holds(input, b, k, p) && j <= k
    ensures Low(b, j) == Peek(input, 8 * p - k, j)
  {
    LowLow(b, j, k);
    LowLow(Rest(input, 8 * p - k), j, k);
  }

  lemma EmptyBuffer(input: seq<byte>, p: nat)
    requires p <= |input|
    ensures Holds(input, 0, 0, p)
  {}
}
