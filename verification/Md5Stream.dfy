/** The MD5 class: a digest computed from pieces of a message. */
module Md5Stream {
  import opened Bits
  import opened Md5

  const BLOCK: nat := 64
  const INIT: Regs := Regs(0x67452301, 0xefcdab89, 0x98badcfe, 0x10325476)

  // ----- the digest of a whole message (sections 3.1 to 3.5 of RFC 1321) -----

  function AddBlock(r: Regs, block: seq<byte>): Regs
    requires |block| == BLOCK
  {
    var q := Rounds(Words(block), r);
    Regs(Plus(r.a, q.a), Plus(r.b, q.b), Plus(r.c, q.c), Plus(r.d, q.d))
  }

  function AddBlocks(r: Regs, m: seq<byte>): Regs
    requires |m| % BLOCK == 0
  {
    var n := |m| - BLOCK;
    if n < 0 then r else AddBlock(AddBlocks(r, m[..n]), m[n..])
  }

  function Zeros(n: nat): (z: seq<byte>)
    ensures |z| == n
  {
    seq(n, _ => 0)
  }

  /** The length in bits, modulo 2^64, as its low and its high word. */
  function BitCount(n: nat): seq<nat> { [8 * n % WORD, 8 * n / WORD % WORD] }

  /** How many bytes bring a length to 56 modulo 64, at least one. */
  function PadLength(n: nat): nat { if n % BLOCK < 56 then 56 - n % BLOCK else 120 - n % BLOCK }

  /** A one bit, zeros, and the length. */
  function Trailer(n: nat): (t: seq<byte>)
    ensures (n + |t|) % BLOCK == 0 && 9 <= |t| <= 72
  {
    [0x80] + Zeros(PadLength(n) - 1) + Bytes(BitCount(n))
  }

  function RegBytes(r: Regs): (b: seq<byte>)
    ensures |b| == 16
  {
    Bytes([r.a, r.b, r.c, r.d])
  }

  /** The digest of a message, from some start of the registers. */
  function DigestFrom(r: Regs, m: seq<byte>): seq<byte> {
    RegBytes(AddBlocks(r, m + Trailer(|m|)))
  }

  function Md5Of(m: seq<byte>): seq<byte> {
    DigestFrom(INIT, m)
  }

  lemma AddBlocksAppend(r: Regs, m: seq<byte>, block: seq<byte>)
    requires |m| % BLOCK == 0 && |block| == BLOCK
    ensures AddBlocks(r, m + block) == AddBlock(AddBlocks(r, m), block)
  {
    assert (m + block)[..|m|] == m && (m + block)[|m|..] == block;
  }

  // ----- the counter -----

  /** The two words hold 8 n modulo 2^64. */
  predicate Counts(c: seq<nat>, n: nat) { c == BitCount(n) }

  /** Adding length * 8 to the split counter, with the carry found by comparing. */
  lemma CountStep(lo: nat, hi: nat, n: nat, len: nat)
    requires [lo, hi] == BitCount(n) && len < WORD
    ensures var l := 8 * len % WORD;
            var lo' := (lo + l) % WORD;
            [lo', (hi + (if lo' < l then 1 else 0) + len / 0x2000_0000) % WORD] == BitCount(n + len)
  {
    var l, h := 8 * len % WORD, len / 0x2000_0000;
    assert 8 * len == WORD * h + l;
    var q := 8 * n / WORD;
    assert 8 * n == WORD * q + lo;
    var carry := if lo + l >= WORD then 1 else 0;
    var lo' := lo + l - WORD * carry;
    assert (lo + l) % WORD == lo';
    assert 8 * (n + len) == WORD * (q + h + carry) + lo';
    assert 8 * (n + len) / WORD == q + h + carry;
    assert (hi + carry + h) % WORD == (q + h + carry) % WORD;
  }

  lemma PlusPlus(x: nat, y: nat, z: nat)
    ensures Plus(Plus(x, y), z) == (x + y + z) % WORD
  {}

  lemma IndexOf(n: nat)
    ensures 8 * n % WORD / 8 % BLOCK == n % BLOCK
  {
    var q := 8 * n / WORD;
    assert 8 * n % WORD == 8 * (n - 0x2000_0000 * q);
    assert n - 0x2000_0000 * q == n - BLOCK * (0x80_0000 * q);
  }

  class Digester {
    var finalized: bool
    const buffer: array<byte>
    const count: array<nat>
    const state: array<nat>
    const digest: array<byte>

    // the message since the counter was last zero, and the state it started from
    ghost var message: seq<byte>
    ghost var start: Regs

    predicate Shape() {
      && buffer.Length == BLOCK && count.Length == 2 && state.Length == 4 && digest.Length == 16
      && buffer != digest && count != state
    }

    function Registers(): Regs
      requires Shape()
      reads state
    {
      Regs(state[0], state[1], state[2], state[3])
    }

    /** The state has taken in all whole blocks of m, the buffer holds the rest. */
    ghost predicate Absorbed(m: seq<byte>)
      requires Shape()
      reads `start, buffer, state
    {
      var n := |m| - |m| % BLOCK;
      buffer[..|m| % BLOCK] == m[n..] && Registers() == AddBlocks(start, m[..n])
    }

    ghost predicate Valid()
      reads `message, `start, buffer, count, state
    {
      Shape() && Absorbed(message) && Counts(count[..], |message|)
    }

    constructor ()
      ensures Valid() && message == [] && start == INIT && !finalized
      ensures fresh(buffer) && fresh(count) && fresh(state) && fresh(digest)
    {
      finalized := false;
      buffer := new byte[BLOCK](_ => 0);
      count := new nat[2](_ => 0);
      state := new nat[4](_ => 0);
      digest := new byte[16](_ => 0);
      message, start := [], INIT;
      new;
      state[0], state[1], state[2], state[3] := INIT.a, INIT.b, INIT.c, INIT.d;
    }

    /** MD5::transform */
    method Transform(block: seq<byte>)
      requires Shape() && |block| == BLOCK
      modifies state
      ensures Registers() == AddBlock(old(Registers()), block)
    {
      hide Rounds, Operations, Words, Plus;
      var x := Decode(block);
      var r := RoundOne(x, Registers());
      r := RoundTwo(x, r);
      r := RoundThree(x, r);
      r := RoundFour(x, r);
      RoundsAre(x, Registers());
      state[0] := Plus(state[0], r.a);
      state[1] := Plus(state[1], r.b);
      state[2] := Plus(state[2], r.c);
      state[3] := Plus(state[3], r.d);
    }

    /** The counter, before the data is looked at. */
    method AddToCount(length: nat)
      requires Shape() && Counts(count[..], |message|) && length < WORD
      modifies count
      ensures Counts(count[..], |message| + length)
    {
      hide BitCount;
      ghost var lo, hi := count[0], count[1];
      assert count[..] == [lo, hi];
      CountStep(lo, hi, |message|, length);
      PlusPlus(hi, 1, length / 0x2000_0000);
      var l := 8 * length % WORD;
      count[0] := Plus(count[0], l);
      if count[0] < l { count[1] := Plus(count[1], 1); }
      count[1] := Plus(count[1], length / 0x2000_0000);
      assert count[..] == [count[0], count[1]];
    }

    /** Copies a piece of the input into the buffer at index. */
    method Store(index: nat, piece: seq<byte>)
      requires Shape() && index + |piece| <= BLOCK
      modifies buffer
      ensures buffer[..index + |piece|] == old(buffer[..index]) + piece
    {
      forall k | 0 <= k < |piece| { buffer[index + k] := piece[k]; }
    }

    /** Fills the buffer up and takes it in. */
    method TakeFirst(input: seq<byte>, index: nat)
      requires Shape() && Absorbed(message) && index == |message| % BLOCK && |input| == BLOCK - index
      modifies buffer, state
      ensures (|message| + |input|) % BLOCK == 0 && Registers() == AddBlocks(start, message + input)
    {
      hide AddBlock, AddBlocks;
      ghost var whole := message[..|message| - index];
      Store(index, input);
      AddBlocksAppend(start, whole, buffer[..]);
      assert buffer[..] == message[|message| - index..] + input;
      assert message + input == whole + buffer[..];
      Transform(buffer[..]);
    }

    /** A first piece that completes the buffer, and the whole blocks after it. */
    method TakeBlocks(input: seq<byte>, index: nat) returns (i: nat)
      requires Shape() && Absorbed(message) && index == |message| % BLOCK && index + |input| >= BLOCK
      modifies buffer, state
      ensures i <= |input| < i + BLOCK && (|message| + i) % BLOCK == 0
      ensures Registers() == AddBlocks(start, message + input[..i])
    {
      hide AddBlock, AddBlocks;
      i := BLOCK - index;
      TakeFirst(input[..i], index);
      while i + BLOCK <= |input|
        invariant i <= |input| && (|message| + i) % BLOCK == 0
        invariant Registers() == AddBlocks(start, message + input[..i])
      {
        AddBlocksAppend(start, message + input[..i], input[i..i + BLOCK]);
        assert message + input[..i] + input[i..i + BLOCK] == message + input[..i + BLOCK];
        Transform(input[i..i + BLOCK]);
        i := i + BLOCK;
      }
    }

    method TakeAll(input: seq<byte>, index: nat)
      requires Shape() && Absorbed(message) && index == |message| % BLOCK && index + |input| >= BLOCK
      modifies buffer, state
      ensures Absorbed(message + input)
    {
      hide AddBlock, AddBlocks;
      var i := TakeBlocks(input, index);
      Store(0, input[i..]);
      ghost var m, n := message + input, |message| + i;
      assert m[..n] == message + input[..i] && m[n..] == input[i..];
      WholePart(|m|, n);
    }

    method TakeTail(input: seq<byte>, index: nat)
      requires Shape() && Absorbed(message) && index == |message| % BLOCK && index + |input| < BLOCK
      modifies buffer
      ensures Absorbed(message + input)
    {
      hide AddBlock, AddBlocks;
      Store(index, input);
      ghost var m, n := message + input, |message| - index;
      assert m[..n] == message[..n] && m[n..] == message[n..] + input;
      WholePart(|m|, n);
    }

    /** count[0] / 8 % blocksize */
    function Index(): (i: nat)
      requires Shape() && Counts(count[..], |message|)
      reads `message, count
      ensures i == |message| % BLOCK
    {
      IndexOf(|message|);
      assert count[0] == count[..][0];
      count[0] / 8 % BLOCK
    }

    /** MD5::update, whatever the pieces. */
    method Update(input: seq<byte>)
      requires Valid() && |input| < WORD
      modifies buffer, count, state, `message
      ensures Valid() && message == old(message) + input
    {
      hide AddBlock, AddBlocks, BitCount, Words, Absorbed;
      var index := Index();
      AddToCount(|input|);
      if |input| >= BLOCK - index {
        TakeAll(input, index);
      } else {
        TakeTail(input, index);
      }
      message := message + input;
    }

    /** The padding and the length, taken in like any other data. */
    method AppendTrailer()
      requires Valid()
      modifies buffer, count, state, `message
      ensures Valid() && message == old(message) + Trailer(|old(message)|)
    {
      hide AddBlock, AddBlocks, Absorbed, Bytes;
      var bits := Encode(count[..]);
      var index := Index();
      var padLen := if index < 56 then 56 - index else 120 - index;
      Update(PADDING[..padLen]);
      Update(bits);
      assert PADDING[..padLen] == [0x80] + Zeros(padLen - 1);
    }

    /** MD5::finalize: the digest of everything since the counter was last zero. A second call does nothing. */
    method Finalize()
      requires Valid()
      modifies buffer, count, state, digest, `message, `start, `finalized
      ensures Valid() && finalized
      ensures old(finalized) ==> digest[..] == old(digest[..]) && message == old(message) && start == old(start)
      ensures !old(finalized) ==> digest[..] == DigestFrom(old(start), old(message))
      ensures !old(finalized) ==> message == [] && start == Registers()
    {
      hide AddBlock, AddBlocks, BitCount, Bytes, Words;
      if !finalized {
        AppendTrailer();
        var bytes := Encode(state[..]);
        assert state[..] == [state[0], state[1], state[2], state[3]];
        assert message[..|message|] == message;
        forall k | 0 <= k < 16 { digest[k] := bytes[k]; }
        assert digest[..] == bytes;
        forall k | 0 <= k < BLOCK { buffer[k] := 0; }
        count[0], count[1] := 0, 0;
        message, start := [], Registers();
        finalized := true;
        ZeroCount();
        assert count[..] == [0, 0];
        NoBlocks(start);
      }
    }
  }

  const PADDING: seq<byte> := [0x80] + Zeros(63)

  lemma ZeroCount()
    ensures BitCount(0) == [0, 0]
  {}

  lemma NoBlocks(r: Regs)
    ensures AddBlocks(r, []) == r
  {}

  function Concat(pieces: seq<seq<byte>>): seq<byte> {
    if |pieces| == 0 then [] else Concat(pieces[..|pieces| - 1]) + pieces[|pieces| - 1]
  }

  /** For every way to split a message, the digest of the pieces is the digest of the message. */
  method DigestOf(pieces: seq<seq<byte>>) returns (d: seq<byte>)
    requires forall i :: 0 <= i < |pieces| ==> |pieces[i]| < WORD
    ensures d == Md5Of(Concat(pieces))
  {
    hide AddBlocks, Bytes, BitCount;
    var md5 := new Digester();
    for i := 0 to |pieces|
      invariant md5.Valid() && md5.message == Concat(pieces[..i]) && md5.start == INIT && !md5.finalized
      invariant fresh(md5) && fresh(md5.buffer) && fresh(md5.count) && fresh(md5.state) && fresh(md5.digest)
    {
      assert pieces[..i + 1][..i] == pieces[..i];
      md5.Update(pieces[i]);
    }
    assert pieces[..|pieces|] == pieces;
    md5.Finalize();
    d := md5.digest[..];
  }

  lemma WholePart(m: nat, n: nat)
    requires n % BLOCK == 0 && n <= m < n + BLOCK
    ensures m % BLOCK == m - n && m - m % BLOCK == n
  {}

  lemma RoundsAre(x: seq<nat>, r: Regs)
    requires |x| == 16
    ensures Rounds(x, r) == Operations(3, 16, x, Operations(2, 16, x, Operations(1, 16, x, Operations(0, 16, x, r))))
  {
    hide Operations;
  }
}
