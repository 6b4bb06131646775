/** A one-shot DEFLATE decoder over a bit sequence (section 3.2.3 of RFC 1951): the reference for the suspendable
    decoder. The output is appended to `hist`, which starts with whatever the sliding window holds, so that a distance
    always refers to some byte. The stream is read in one of three ways, which differ only near its end and in what
    they make of distances beyond its start. */
module Deflate {
  import opened Bits
  import opened Wrappers
  import opened Canonical
  import opened CodeSpace
  import opened HuftTable

  // ----- the bit sequence -----

  /** The bytes as one number; its bits from the low end are the bits of the stream. */
  function StreamVal(input: seq<byte>): nat {
    if |input| == 0 then 0 else input[0] + 256 * StreamVal(input[1..])
  }

  function Rest(input: seq<byte>, pos: nat): nat {
    Shr(StreamVal(input), pos)
  }

  /** The n bits at pos, the first of them least significant. */
  function Peek(input: seq<byte>, pos: nat, n: nat): nat {
    Low(Rest(input, pos), n)
  }

  // ----- the alphabets (sections 3.2.5 and 3.2.6) -----

  const CPLENS: seq<nat> := [3, 4, 5, 6, 7, 8, 9, 10, 11, 13, 15, 17, 19, 23, 27, 31,
                             35, 43, 51, 59, 67, 83, 99, 115, 131, 163, 195, 227, 258, 0, 0]
  const CPLEXT: seq<nat> := [0, 0, 0, 0, 0, 0, 0, 0, 1, 1, 1, 1, 2, 2, 2, 2,
                             3, 3, 3, 3, 4, 4, 4, 4, 5, 5, 5, 5, 0, 112, 112]
  const CPDIST: seq<nat> := [1, 2, 3, 4, 5, 7, 9, 13, 17, 25, 33, 49, 65, 97, 129, 193,
                             257, 385, 513, 769, 1025, 1537, 2049, 3073, 4097, 6145,
                             8193, 12289, 16385, 24577]
  const CPDEXT: seq<nat> := [0, 0, 0, 0, 1, 1, 2, 2, 3, 3, 4, 4, 5, 5, 6, 6,
                             7, 7, 8, 8, 9, 9, 10, 10, 11, 11, 12, 12, 13, 13]
  const BORDER: seq<nat> := [16, 17, 18, 0, 8, 7, 9, 6, 10, 5, 11, 4, 12, 3, 13, 2, 14, 1, 15]

  const EOB: nat := 256

  function LitTree(lens: seq<nat>): (tr: Tree)
    ensures tr.lens == lens
  {
    Tree(lens, 257, CPLENS, CPLEXT)
  }

  /** The distance alphabet; the two codes the fixed code has beyond 29 are invalid. */
  function DistTree(lens: seq<nat>): (tr: Tree)
    ensures tr.lens == lens
  {
    Tree(lens, 0, CPDIST + [24577, 24577], CPDEXT + [112, 112])
  }

  lemma LitTreeValid(lens: seq<nat>)
    requires ValidLengths(lens) && |lens| <= 288
    ensures LitTree(lens).Valid()
  {
    hide ValidLengths;
  }

  lemma DistTreeValid(lens: seq<nat>)
    requires ValidLengths(lens) && |lens| <= 32
    ensures DistTree(lens).Valid()
  {
    hide ValidLengths;
    var extra := DistTree(lens).extra;
    forall i | 0 <= i < |extra| ensures extra[i] <= 112 {
      DistanceExtraBits(i);
      if i < 30 { assert extra[i] == CPDEXT[i]; }
    }
  }

  lemma DistanceExtraBits(i: nat)
    ensures |CPDEXT| == 30 && (i < 30 ==> CPDEXT[i] <= 13)
  {}

  /** The lengths of the fixed codes. */
  function FixedLit(): (lens: seq<nat>)
    ensures |lens| == 288
  {
    seq(288, i => if i < 144 then 8 else if i < 256 then 9 else if i < 280 then 7 else 8)
  }

  function FixedDist(): (lens: seq<nat>)
    ensures |lens| == 32
  {
    Repeat(5, 32)
  }

  /** The codes of a compressed block and whether it is the last one. */
  datatype Code = Code(lit: seq<nat>, dist: seq<nat>, last: bool)

  /** How many lengths a dynamic block's header announces. */
  datatype Header = Header(nl: nat, nd: nat, ncl: nat, last: bool)

  /** Finished at bit pos; invalid data; or out of input. With everything decoded so far. */
  datatype Outcome = Finished(pos: nat, hist: seq<byte>) | Corrupt(hist: seq<byte>) | Starved(hist: seq<byte>)

  // ----- symbols -----

  datatype Next = Got(sym: nat, pos: nat) | Bad | Short

  /** How a symbol is read: bit by bit, so that a codeword needs no more than its own bits to be there, as RFC 1951
      has it; or by lookups in tables, each of which needs as many bits as its table takes. A strict reader, bit by bit
      as well, takes no distance beyond the first byte (section 3.2.3 of RFC 1951). */
  datatype Reading = Strict | BitByBit | Lookups

  /** The bits wanted per table, for the bit-length, literal/length and distance codes. */
  const BBITS: nat := 7
  const LBITS: nat := 9
  const DBITS: nat := 6

  /** How many bits must be there before the symbol that v starts with is found, with tables of m bits wanted. */
  function BitsWanted(lens: seq<nat>, m: nat, v: nat, how: Reading): (n: nat)
    requires m >= 1
    ensures Decode(lens, v).Some? ==> Decode(lens, v).value.len <= n
    ensures !how.Lookups? && Decode(lens, v).Some? ==> n == Decode(lens, v).value.len
  {
    match Decode(lens, v)
    case None => Longest(lens)
    case Some(c) =>
      if !how.Lookups? then c.len
      else
        UsableRoot(lens, m, v);
        LookaheadCovers(lens, RootBits(m, lens), v, 0);
        Lookahead(lens, RootBits(m, lens), v, c.len, 0)
  }

  lemma UsableRoot(lens: seq<nat>, m: nat, v: nat)
    requires m >= 1 && Decode(lens, v).Some?
    ensures RootBits(m, lens) >= 1
  {
    hide Rev, FirstCode, Count, SymAt;
    var c := Decode(lens, v).value;
    DecodeFromSound(lens, v, 1);
    assert lens[c.sym] == c.len >= 1;
  }

  /** The symbol at pos. An input that starts with no codeword is bad once it is as long as the longest one. */
  function NextSymbol(lens: seq<nat>, m: nat, input: seq<byte>, pos: nat, how: Reading := Lookups): (r: Next)
    requires m >= 1
    ensures r.Got? ==> pos < r.pos <= 8 * |input| && r.sym < |lens|
  {
    if pos + BitsWanted(lens, m, Rest(input, pos), how) > 8 * |input| then Short
    else
      match Decode(lens, Rest(input, pos))
      case Some(c) => Got(c.sym, pos + c.len)
      case None => Bad
  }

  /** The byte d back from the end. */
  function Back(hist: seq<byte>, d: nat): byte {
    if 1 <= d <= |hist| then hist[|hist| - d] else 0
  }

  /** Copies byte by byte, so that a copy may overlap its own output. */
  function Copied(hist: seq<byte>, len: nat, dist: nat): (h: seq<byte>)
    ensures |h| == |hist| + len && hist <= h
    decreases len
  {
    if len == 0 then hist else Copied(hist + [Back(hist, dist)], len - 1, dist)
  }

  function Left(input: seq<byte>, pos: nat): nat {
    if pos <= 8 * |input| then 8 * |input| - pos else 0
  }

  // ----- compressed data -----

  /** What one symbol (with its extra bits and distance) does: move on, with more output; end the block; or fail. */
  datatype Step = More(pos: nat, hist: seq<byte>) | Ends(pos: nat) | Invalid | NoInput

  function Token(input: seq<byte>, cd: Code, pos: nat, hist: seq<byte>, how: Reading := Lookups): (r: Step)
    ensures r.More? || r.Ends? ==> pos < r.pos <= 8 * |input|
  {
    match NextSymbol(cd.lit, LBITS, input, pos, how)
    case Short => NoInput
    case Bad => Invalid
    case Got(s, pos') => Symbol(input, cd, s, pos', hist, how)
  }

  function Symbol(input: seq<byte>, cd: Code, s: nat, pos: nat, hist: seq<byte>, how: Reading := Lookups): (r: Step)
    requires pos <= 8 * |input|
    ensures r.More? || r.Ends? ==> pos <= r.pos <= 8 * |input|
  {
    if s < EOB then More(pos, hist + [s as byte])
    else if s == EOB then Ends(pos)
    else if s - 257 >= 29 then Invalid
    else LengthExtra(input, cd, CPLENS[s - 257], CPLEXT[s - 257], pos, hist, how)
  }

  function LengthExtra(input: seq<byte>, cd: Code, base: nat, get: nat, pos: nat, hist: seq<byte>,
      how: Reading := Lookups): (r: Step)
    ensures r.More? || r.Ends? ==> pos <= r.pos <= 8 * |input|
  {
    if pos + get > 8 * |input| then NoInput
    else Distance(input, cd, base + Peek(input, pos, get), pos + get, hist, how)
  }

  function Distance(input: seq<byte>, cd: Code, len: nat, pos: nat, hist: seq<byte>, how: Reading := Lookups): (r: Step)
    ensures r.More? || r.Ends? ==> pos <= r.pos <= 8 * |input|
  {
    match NextSymbol(cd.dist, DBITS, input, pos, how)
    case Short => NoInput
    case Bad => Invalid
    case Got(s, pos') =>
      if s >= 30 then Invalid
      else DistanceExtra(input, len, CPDIST[s], CPDEXT[s], pos', hist, how)
  }

  function DistanceExtra(input: seq<byte>, len: nat, base: nat, get: nat, pos: nat, hist: seq<byte>,
      how: Reading := Lookups): (r: Step)
    ensures r.More? || r.Ends? ==> pos <= r.pos <= 8 * |input|
  {
    if pos + get > 8 * |input| then NoInput
    else if how.Strict? && base + Peek(input, pos, get) > |hist| then Invalid
    else More(pos + get, Copied(hist, len, base + Peek(input, pos, get)))
  }

  /** The symbols up to the end of the block. */
  function Codes(input: seq<byte>, cd: Code, pos: nat, hist: seq<byte>, how: Reading := Lookups): Outcome
    decreases Left(input, pos), 3
  {
    match Token(input, cd, pos, hist, how)
    case NoInput => Starved(hist)
    case Invalid => Corrupt(hist)
    case Ends(pos') => EndOfBlock(input, cd.last, pos', hist, how)
    case More(pos', hist') => Codes(input, cd, pos', hist', how)
  }

  /** The effect of n symbols in a row, if none of them ends the block or fails. */
  function Run(input: seq<byte>, cd: Code, n: nat, pos: nat, hist: seq<byte>): Option<(nat, seq<byte>)> {
    if n == 0 then Some((pos, hist))
    else
      match Run(input, cd, n - 1, pos, hist)
      case None => None
      case Some(at) =>
        match Token(input, cd, at.0, at.1)
        case More(pos', hist') => Some((pos', hist'))
        case _ => None
  }

  lemma {:induction false} RunKeepsOutcome(input: seq<byte>, cd: Code, n: nat, pos: nat, hist: seq<byte>)
    requires Run(input, cd, n, pos, hist).Some?
    ensures var at := Run(input, cd, n, pos, hist).value;
            Codes(input, cd, at.0, at.1) == Codes(input, cd, pos, hist)
  {
    hide Token, EndOfBlock;
    if n > 0 { RunKeepsOutcome(input, cd, n - 1, pos, hist); }
  }

  /** One more symbol. */
  lemma RunMore(input: seq<byte>, cd: Code, n: nat, pos: nat, hist: seq<byte>, at: nat, h: seq<byte>)
    requires Run(input, cd, n, pos, hist) == Some((at, h)) && Token(input, cd, at, h).More?
    ensures var st := Token(input, cd, at, h); Run(input, cd, n + 1, pos, hist) == Some((st.pos, st.hist))
  {
    hide Token;
  }

  lemma RunNone(input: seq<byte>, cd: Code, pos: nat, hist: seq<byte>)
    ensures Run(input, cd, 0, pos, hist) == Some((pos, hist))
  {}

  lemma CopiedTwice(hist: seq<byte>, a: nat, b: nat, dist: nat)
    ensures Copied(Copied(hist, a, dist), b, dist) == Copied(hist, a + b, dist)
    decreases a
  {
    if a > 0 { CopiedTwice(hist + [Back(hist, dist)], a - 1, b, dist); }
  }

  // ----- blocks -----

  function EndOfBlock(input: seq<byte>, last: bool, pos: nat, hist: seq<byte>, how: Reading := Lookups): Outcome
    decreases Left(input, pos), 2
  {
    if last then Finished(pos, hist) else Blocks(input, pos, hist, how)
  }

  function Blocks(input: seq<byte>, pos: nat, hist: seq<byte>, how: Reading := Lookups): Outcome
    decreases Left(input, pos), 1
  {
    if pos + 3 > 8 * |input| then Starved(hist)
    else
      var last, kind := Peek(input, pos, 1) == 1, Peek(input, pos + 1, 2);
      if kind == 0 then Stored(input, last, (pos + 10) / 8 * 8, hist, how)
      else if kind == 1 then Codes(input, Code(FixedLit(), FixedDist(), last), pos + 3, hist, how)
      else if kind == 2 then Dynamic(input, last, pos + 3, hist, how)
      else Corrupt(hist)
  }

  /** A stored block from the byte boundary on: its length, the complement of its length, and the bytes. */
  function Stored(input: seq<byte>, last: bool, pos: nat, hist: seq<byte>, how: Reading := Lookups): Outcome
    decreases Left(input, pos), 9
  {
    if pos + 32 > 8 * |input| then Starved(hist)
    else if Peek(input, pos, 16) + Peek(input, pos + 16, 16) != 0xffff then Corrupt(hist)
    else StoredBytes(input, last, Peek(input, pos, 16), pos + 32, hist, how)
  }

  function StoredBytes(input: seq<byte>, last: bool, left: nat, pos: nat, hist: seq<byte>,
      how: Reading := Lookups): Outcome
    decreases Left(input, pos), 4
  {
    var p := pos / 8;
    if left == 0 then EndOfBlock(input, last, pos, hist, how)
    else if p + left > |input| then Starved(hist + (if p <= |input| then input[p..] else []))
    else EndOfBlock(input, last, pos + 8 * left, hist + input[p..p + left], how)
  }

  // ----- dynamic block headers (section 3.2.7) -----

  function Dynamic(input: seq<byte>, last: bool, pos: nat, hist: seq<byte>, how: Reading := Lookups): Outcome
    decreases Left(input, pos), 13
  {
    if pos + 14 > 8 * |input| then Starved(hist)
    else
      var hlit, hdist, hclen := Peek(input, pos, 5), Peek(input, pos + 5, 5), Peek(input, pos + 10, 4);
      if hlit > 29 || hdist > 29 then Corrupt(hist)
      else BitLengths(input, Header(257 + hlit, 1 + hdist, 4 + hclen, last), 0, Repeat(0, 19), pos + 14, hist, how)
  }

  /** The lengths of the bit-length code, in their peculiar order. */
  function BitLengths(input: seq<byte>, hd: Header, index: nat, cl: seq<nat>, pos: nat, hist: seq<byte>,
      how: Reading := Lookups): Outcome
    decreases Left(input, pos), 12, 19 - index
  {
    if |cl| == 19 && index < hd.ncl && index < 19 then
      if pos + 3 > 8 * |input| then Starved(hist)
      else BitLengths(input, hd, index + 1, cl[BORDER[index] := Peek(input, pos, 3)], pos + 3, hist, how)
    else if Verdict(cl) != Ok || NoCodes(cl) then Corrupt(hist)
    else Lengths(input, hd, cl, [], pos, hist, how)
  }

  /** The symbol the decoder takes from the bit-length code. If that code is a lone codeword of one bit,
      the decoder takes the other bit for the same symbol. */
  function BitLengthSymbol(cl: seq<nat>, input: seq<byte>, pos: nat, how: Reading := Lookups): (r: Next)
    ensures r.Got? ==> pos < r.pos <= 8 * |input| && r.sym < |cl|
  {
    if Decode(cl, Rest(input, pos)).None? && Count(cl, 1) > 0 then
      if pos + 1 > 8 * |input| then Short else Got(SymAt(cl, 1, 0), pos + 1)
    else NextSymbol(cl, BBITS, input, pos, how)
  }

  function Repeat(v: nat, n: nat): (r: seq<nat>)
    ensures |r| == n
  {
    seq(n, _ => v)
  }

  /** The literal/length and distance lengths, as one sequence. */
  function Lengths(input: seq<byte>, hd: Header, cl: seq<nat>, lens: seq<nat>, pos: nat, hist: seq<byte>,
      how: Reading := Lookups): Outcome
    decreases Left(input, pos), 11
  {
    if |lens| >= hd.nl + hd.nd then Trees(input, hd, lens, pos, hist, how)
    else
      match BitLengthSymbol(cl, input, pos, how)
      case Short => Starved(hist)
      case Bad => Corrupt(hist)
      case Got(s, pos') =>
        if s < 16 then Lengths(input, hd, cl, lens + [s], pos', hist, how)
        else
          var get, least := if s == 18 then 7 else s - 14, if s == 18 then 11 else 3;
          if pos' + get > 8 * |input| then Starved(hist)
          else
            var n := least + Peek(input, pos', get);
            if |lens| + n > hd.nl + hd.nd || (s == 16 && |lens| == 0) then Corrupt(hist)
            else
              var v := if s == 16 then lens[|lens| - 1] else 0;
              Lengths(input, hd, cl, lens + Repeat(v, n), pos' + get, hist, how)
  }

  predicate LitOK(lens: seq<nat>) {
    Verdict(lens) == Ok && !NoCodes(lens)
  }

  /** A block without distance codes is allowed if it has no length codes either. */
  predicate DistOK(lens: seq<nat>, nl: nat) {
    Verdict(lens) == Ok && !(NoCodes(lens) && nl > 257)
  }

  function Trees(input: seq<byte>, hd: Header, lens: seq<nat>, pos: nat, hist: seq<byte>,
      how: Reading := Lookups): Outcome
    decreases Left(input, pos), 10
  {
    if |lens| == hd.nl + hd.nd && LitOK(lens[..hd.nl]) && DistOK(lens[hd.nl..], hd.nl) then
      Codes(input, Code(lens[..hd.nl], lens[hd.nl..], hd.last), pos, hist, how)
    else Corrupt(hist)
  }

  /** What a raw deflate stream stands for, given the contents of the window before it. */
  function Inflate(input: seq<byte>, prior: seq<byte>, how: Reading := Lookups): Outcome {
    Blocks(input, 0, prior, how)
  }
}
