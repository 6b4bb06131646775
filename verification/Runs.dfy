/** A new decoder driven over a stream, compared with RFC 1951; and a stream at the end of which it waits in vain. */
module Runs {
  import opened Bits
  import opened Canonical
  import opened Deflate
  import opened Progress
  import opened FixedTables
  import opened Readings
  import opened Distances
  import opened Written
  import opened Window
  import opened Inflater

  /** What the stream stands for by RFC 1951, a lone bit-length codeword being taken for both values of its bit. */
  function Standard(data: seq<byte>): Outcome {
    Inflate(data, [], Strict)
  }

  /** The same with zeros before the first byte for distances that reach there; and by the decoder's own lookups. */
  function Zeroed(data: seq<byte>): Outcome {
    Inflate(data, Blank(), BitByBit)
  }

  function Decoded(data: seq<byte>): Outcome {
    Inflate(data, Blank(), Lookups)
  }

  /** The output, without what the window held before it. */
  function Output(o: Outcome): seq<byte> {
    if |o.hist| >= WSIZE then o.hist[WSIZE..] else []
  }

  /** All the input, and room for the output. */
  predicate Ample(data: seq<byte>, schedule: seq<(nat, nat)>, output: seq<byte>) {
    schedule != [] && Offered(schedule) >= |data| && Rooms(schedule) >= |output|
  }

  /** A new decoder, driven by any schedule of input and room for output. For a stream that is right by RFC 1951, or
      so far without an error, the output is always the beginning of what it stands for; Z_STREAM_END and errors mean
      what they say. In particular, a stream written as blocks gives their contents. With all the input and room
      enough, the decoder comes to the end exactly if every field and every lookup fits before the end of the input;
      one byte behind the stream is enough for that. */
  method Decompress(data: seq<byte>, schedule: seq<(nat, nat)>) returns (r: Ret, output: seq<byte>)
    ensures output <= Output(Decoded(data)) <= Output(Zeroed(data))
    ensures r == StreamEnd ==> Zeroed(data).Finished? && output == Output(Zeroed(data))
    ensures r in {DataError, MemError} ==> Zeroed(data).Corrupt?
    ensures Ample(data, schedule, Output(Decoded(data))) ==>
              && (r == StreamEnd <==> Decoded(data).Finished?)
              && (r in {DataError, MemError} <==> Decoded(data).Corrupt?)
              && (r in {Ok, BufError} <==> Decoded(data).Starved?)
              && (!Decoded(data).Corrupt? ==> output == Output(Decoded(data)))
    ensures Zeroed(data).Finished? && Zeroed(data).pos + 8 <= 8 * |data| ==> Decoded(data) == Zeroed(data)
    ensures !Standard(data).Corrupt? ==>
              Zeroed(data) == Behind(Blank(), Standard(data)) && Output(Zeroed(data)) == Standard(data).hist
    ensures forall blocks {:trigger BlocksAt(data, 0, [], blocks)} :: BlocksAt(data, 0, [], blocks) ==>
              && output <= Contents([], blocks) && r !in {DataError, MemError}
              && (r == StreamEnd ==> output == Contents([], blocks))
              && (Ample(data, schedule, Contents([], blocks)) && BlocksEnd(0, blocks) + 8 <= 8 * |data| ==>
                    r == StreamEnd)
  {
    hide Blocks, FarCopy, BlocksAt, BlocksEnd, Contents;
    ReadIffWritten(data);
    var d := new Inflater(data);
    BlocksExtends(data, 0, Blank(), Lookups);
    BlocksExtends(data, 0, Blank(), BitByBit);
    ghost var cd, at := ReadingsRelate(data, Blank());
    if !Standard(data).Corrupt? { StandardIsZeroed(data); }
    r := d.Drive(schedule);
    output := d.output;
  }

  lemma StandardIsZeroed(data: seq<byte>)
    requires !Standard(data).Corrupt?
    ensures Zeroed(data) == Behind(Blank(), Standard(data)) && Output(Zeroed(data)) == Standard(data).hist
  {
    hide Blocks, Token, Codes;
    var cd, at := PriorMatters(data, Blank());
    assert (Blank() + Standard(data).hist)[WSIZE..] == Standard(data).hist;
  }

  // ----- a stream whose end the decoder does not see -----

  /** The last block, with the fixed codes: a zero, a copy of eleven bytes from one byte back, the end of the block. */
  const LATE: seq<byte> := [99, 64, 2, 0]

  function Zeros(n: nat): (h: seq<byte>)
    ensures |h| == n
  {
    seq(n, _ => 0)
  }

  lemma LateBits()
    ensures StreamVal(LATE) == 147555
    ensures Rest(LATE, 0) == 147555 && Rest(LATE, 1) == 73777 && Rest(LATE, 3) == 18444
    ensures Rest(LATE, 11) == 72 && Rest(LATE, 18) == 0 && Rest(LATE, 19) == 0 && Rest(LATE, 24) == 0
  {
    assert LATE[1..] == [64, 2, 0] && LATE[1..][1..] == [2, 0] && LATE[1..][1..][1..] == [0];
    assert LATE[1..][1..][1..][1..] == [];
    assert StreamVal(LATE) == 147555;
    ShiftBy8(147555, 3);
    assert Shr(147555, 3) == 18444;
    ShiftBy8(18444, 3);
    assert Shr(18444, 8) == 72 && Shr(72, 7) == 0;
    ShrShr(147555, 3, 8);
    ShrShr(147555, 11, 7);
    ShrShr(147555, 18, 1);
    ShrShr(147555, 18, 6);
    ShrOfNothing(1);
    ShrOfNothing(6);
  }

  lemma ShrOfNothing(n: nat)
    ensures Shr(0, n) == 0
  {}

  lemma ShiftBy8(x: nat, n: nat)
    ensures n > 0 ==> Shr(x, n) == Shr(x / 2, n - 1)
  {}

  lemma FixedCodes()
    ensures CodeOf(FixedLit(), 0) == 48 && FixedLit()[0] == 8
    ensures CodeOf(FixedLit(), 265) == 9 && FixedLit()[265] == 7
    ensures CodeOf(FixedLit(), 256) == 0 && FixedLit()[256] == 7
  {
    FixedCode(0);
    FixedCode(265);
    FixedCode(256);
  }

  lemma DistCode()
    ensures CodeOf(FixedDist(), 0) == 0 && FixedDist()[0] == 5
  {
    FixedDistCode(0);
  }

  lemma LateReversed()
    ensures Rev(8, 18444) == 48 && Rev(7, 72) == 9 && Rev(7, 0) == 0 && Rev(5, 0) == 0
  {
    assert Shl(1, 5) == 32 && Shl(1, 4) == 16;
    assert Rev(4, 1152) == 0;
    assert Rev(8, 18444) == Shl(0, 7) + Shl(0, 6) + Shl(1, 5) + Shl(1, 4) + Rev(4, 1152);
    assert Shl(1, 3) == 8;
    assert Rev(3, 4) == 1;
    assert Rev(7, 72) == Shl(0, 6) + Shl(0, 5) + Shl(0, 4) + Shl(1, 3) + Rev(3, 4);
    NothingReversed(7);
    NothingReversed(5);
  }

  lemma NothingReversed(n: nat)
    ensures Rev(n, 0) == 0
  {
    if n > 0 {
      NothingReversed(n - 1);
      ShlOne(n - 1);
    }
  }

  /** A lookup that takes 9 bits, or 5 for a distance. */
  lemma FixedWanted(v: nat)
    ensures Decode(FixedLit(), v).Some? ==> BitsWanted(FixedLit(), LBITS, v, Lookups) == 9
    ensures Decode(FixedDist(), v).Some? ==> BitsWanted(FixedDist(), DBITS, v, Lookups) == 5
  {
    hide FixedLit, FixedDist, Longest, RootBits, DecodeFrom;
    FixedLengths();
    if Decode(FixedLit(), v).Some? { DecodedLength(FixedLit(), v); }
    if Decode(FixedDist(), v).Some? { DecodedLength(FixedDist(), v); }
  }

  /** The symbols of the block. */
  lemma LateSymbols(how: Reading)
    ensures NextSymbol(FixedLit(), LBITS, LATE, 3, how) == Got(0, 11)
    ensures NextSymbol(FixedLit(), LBITS, LATE, 11, how) == Got(265, 18)
    ensures NextSymbol(FixedDist(), DBITS, LATE, 19, how) == Got(0, 24)
    ensures NextSymbol(FixedLit(), LBITS, LATE, 24, how) == if how.Lookups? then Short else Got(256, 31)
  {
    hide Rest, Rev, DecodeFrom, RootBits, CodeOf, BitsWanted;
    LateBits();
    LateReversed();
    FixedCodes();
    DistCode();
    MatchDecodes(FixedLit(), 18444, 0);
    MatchDecodes(FixedLit(), 72, 265);
    MatchDecodes(FixedDist(), 0, 0);
    MatchDecodes(FixedLit(), 0, 256);
    FixedWanted(18444);
    FixedWanted(72);
    FixedWanted(0);
  }

  lemma {:induction false} CopyZeros(h: seq<byte>, n: nat)
    requires |h| > 0 && h[|h| - 1] == 0
    ensures Copied(h, n, 1) == h + Zeros(n)
    decreases n
  {
    if n == 0 {
      assert h + Zeros(0) == h;
    } else {
      CopyZeros(h + [0], n - 1);
      assert h + [0] + Zeros(n - 1) == h + Zeros(n);
    }
  }

  lemma LatePeeks()
    ensures Peek(LATE, 0, 1) == 1 && Peek(LATE, 1, 2) == 1 && Peek(LATE, 18, 1) == 0 && Peek(LATE, 24, 0) == 0
  {
    hide Rest;
    LateBits();
    assert Low(147555, 1) == 1 && Low(73777, 2) == 1;
  }

  lemma LateTokens(cd: Code, hist: seq<byte>, how: Reading)
    requires cd == Code(FixedLit(), FixedDist(), true)
    ensures Token(LATE, cd, 3, hist, how) == More(11, hist + [0])
    ensures Token(LATE, cd, 11, hist + [0], how) == More(24, hist + Zeros(12))
    ensures Token(LATE, cd, 24, hist + Zeros(12), how) == if how.Lookups? then NoInput else Ends(31)
  {
    hide NextSymbol, Peek, FixedLit, FixedDist, Copied;
    LateSymbols(how);
    LatePeeks();
    CopyZeros(hist + [0], 11);
    assert hist + [0] + Zeros(11) == hist + Zeros(12);
  }

  /** The stream is complete: twelve zeros, and the end of the block takes its 7 bits within the last byte. But the
      lookup for it asks for 9 bits, so the decoder runs out of input. */
  lemma LateOutcome(prior: seq<byte>)
    ensures forall how: Reading :: !how.Lookups? ==> Inflate(LATE, prior, how) == Finished(31, prior + Zeros(12))
    ensures Inflate(LATE, prior, Lookups) == Starved(prior + Zeros(12))
  {
    hide Token, Peek, FixedLit, FixedDist;
    LatePeeks();
    var cd := Code(FixedLit(), FixedDist(), true);
    forall how: Reading
      ensures Inflate(LATE, prior, how) ==
              if how.Lookups? then Starved(prior + Zeros(12)) else Finished(31, prior + Zeros(12))
    {
      LateTokens(cd, prior, how);
      assert Codes(LATE, cd, 24, prior + Zeros(12), how) ==
             if how.Lookups? then Starved(prior + Zeros(12)) else Finished(31, prior + Zeros(12));
    }
  }

  /** All the input, and room for more than the output: everything comes out, but the decoder asks for more input. */
  method LateRun() returns (r: Ret, output: seq<byte>)
    ensures r in {Ok, BufError} && output == Zeros(12) == Standard(LATE).hist && Standard(LATE).Finished?
  {
    hide Inflate;
    LateOutcome([]);
    LateOutcome(Blank());
    assert [] + Zeros(12) == Zeros(12);
    OneCall(4, 100);
    r, output := Decompress(LATE, [(4, 100)]);
    assert (Blank() + Zeros(12))[WSIZE..] == Zeros(12);
  }

  lemma OneCall(more: nat, room: nat)
    ensures Offered([(more, room)]) == more && Rooms([(more, room)]) == room
  {
    OneMoreCall([(more, room)], 0);
    assert [(more, room)][..1] == [(more, room)];
    assert [(more, room)][..0] == [];
  }
}
