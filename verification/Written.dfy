/** What a compressed stream looks like by RFC 1951, bit by bit and without any decoding: the blocks as values, and the
    bits that stand for them. Reading such a stream gives its blocks back. */
module Written {
  import opened Bits
  import opened Wrappers
  import opened Canonical
  import opened Deflate
  import opened BitBuffer
  import opened HuftBuild
  import opened LengthCode
  import opened FixedTables

  // ----- bits, fields and codewords (section 3.1.1) -----

  /** Bit p of the stream, counted from the low end of each byte. */
  predicate IsBit(input: seq<byte>, p: nat, b: nat) {
    p < 8 * |input| && input[p / 8] / Pow2(p % 8) % 2 == b
  }

  /** A number of n bits stands at p, its lowest bit first. */
  predicate FieldAt(input: seq<byte>, p: nat, n: nat, v: nat)
    decreases n
  {
    if n == 0 then v == 0 else IsBit(input, p, v % 2) && FieldAt(input, p + 1, n - 1, v / 2)
  }

  /** A codeword of n bits stands at p, its highest bit first. */
  predicate WordAt(input: seq<byte>, p: nat, n: nat, c: nat) {
    if n == 0 then c == 0 else WordAt(input, p, n - 1, c / 2) && IsBit(input, p + n - 1, c % 2)
  }

  /** The codeword of symbol s stands at p. */
  predicate SymbolAt(lens: seq<nat>, s: nat, input: seq<byte>, p: nat) {
    s < |lens| && 1 <= lens[s] <= BMAX && WordAt(input, p, lens[s], CodeOf(lens, s))
  }

  lemma ByteBit(x: nat, j: nat)
    requires j < 8
    ensures Shr(x, j) % 2 == Low(x, 8) / Pow2(j) % 2
  {
    ShrLow(x, j, 8 - j);
    ShiftIsDivision(Low(x, 8), j);
    LowStep(Shr(x, j), 8 - j);
  }

  lemma BitOfRest(input: seq<byte>, p: nat)
    requires p < 8 * |input|
    ensures IsBit(input, p, Rest(input, p) % 2)
  {
    hide Low, Shr, Pow2, StreamVal;
    var q, j := p / 8, p % 8;
    ByteAt(input, q);
    RestSplit(input, 8 * q, j);
    assert p == 8 * q + j;
    ByteBit(Rest(input, 8 * q), j);
  }

  lemma IsBitOfRest(input: seq<byte>, p: nat, b: nat)
    ensures IsBit(input, p, b) <==> p < 8 * |input| && Rest(input, p) % 2 == b
  {
    if p < 8 * |input| { BitOfRest(input, p); }
  }

  lemma HalfOfRest(input: seq<byte>, p: nat)
    ensures Rest(input, p + 1) == Rest(input, p) / 2
  {
    hide StreamVal;
    RestSplit(input, p, 1);
    assert Shr(Rest(input, p), 1) == Shr(Rest(input, p) / 2, 0);
  }

  lemma {:induction false} FieldIsPeek(input: seq<byte>, p: nat, n: nat, v: nat)
    requires n > 0
    ensures FieldAt(input, p, n, v) <==> p + n <= 8 * |input| && Peek(input, p, n) == v
    decreases n
  {
    hide Rest, IsBit;
    IsBitOfRest(input, p, v % 2);
    HalfOfRest(input, p);
    LowStep(Rest(input, p), n);
    if n > 1 { FieldIsPeek(input, p + 1, n - 1, v / 2); }
  }

  lemma {:induction false} WordIsRev(input: seq<byte>, p: nat, n: nat, c: nat)
    requires n > 0
    ensures WordAt(input, p, n, c) <==> p + n <= 8 * |input| && Rev(n, Rest(input, p)) == c
  {
    hide Rest, IsBit, Rev;
    IsBitOfRest(input, p + n - 1, c % 2);
    RevLast(n, Rest(input, p));
    RestSplit(input, p, n - 1);
    if n > 1 { WordIsRev(input, p, n - 1, c / 2); } else { RevEmpty(Rest(input, p)); }
  }

  lemma RevEmpty(x: nat)
    ensures Rev(0, x) == 0
  {}

  lemma RevLast(n: nat, x: nat)
    requires n > 0
    ensures Rev(n, x) == 2 * Rev(n - 1, x) + Shr(x, n - 1) % 2
  {
    RevSplit(n - 1, 1, x);
    assert Shl(Rev(n - 1, x), 1) == 2 * Rev(n - 1, x);
    assert Rev(1, Shr(x, n - 1)) == Shr(x, n - 1) % 2;
  }

  lemma SymbolMatches(lens: seq<nat>, s: nat, input: seq<byte>, p: nat)
    ensures SymbolAt(lens, s, input, p) <==>
              Matches(lens, s, Rest(input, p)) && p + lens[s] <= 8 * |input|
  {
    hide Rest, WordAt, Rev, CodeOf;
    if s < |lens| && lens[s] > 0 { WordIsRev(input, p, lens[s], CodeOf(lens, s)); }
  }

  /** Reading a symbol finds s exactly if its codeword stands there. */
  lemma SymbolRead(lens: seq<nat>, m: nat, input: seq<byte>, p: nat, s: nat)
    requires m >= 1
    ensures SymbolAt(lens, s, input, p) <==>
              s < |lens| && NextSymbol(lens, m, input, p, Strict) == Got(s, p + lens[s])
  {
    hide Rest, Matches, DecodeFrom, SymbolAt, Longest;
    SymbolMatches(lens, s, input, p);
    DecodeIffMatches(lens, Rest(input, p), s);
    DecodedLength(lens, Rest(input, p));
  }

  // ----- lengths of codewords (section 3.2.7) -----

  /** A length; 3 to 6 copies of the one before; 3 to 10 zeros; 11 to 138 zeros. */
  datatype LengthToken = Plain(len: nat) | Again(n: nat) | FewZeros(n: nat) | ManyZeros(n: nat)

  /** The symbol of a token, and how many bits follow it. */
  function TokenSymbol(tok: LengthToken): nat {
    match tok
    case Plain(len) => len
    case Again(_) => 16
    case FewZeros(_) => 17
    case ManyZeros(_) => 18
  }

  function TokenExtra(tok: LengthToken): nat {
    match tok
    case Plain(_) => 0
    case Again(_) => 2
    case FewZeros(_) => 3
    case ManyZeros(_) => 7
  }

  /** The lengths a token adds to those before it. */
  function Filled(lens: seq<nat>, tok: LengthToken): seq<nat> {
    match tok
    case Plain(len) => [len]
    case Again(n) => seq(n, _ => if |lens| > 0 then lens[|lens| - 1] else 0)
    case FewZeros(n) => seq(n, _ => 0)
    case ManyZeros(n) => seq(n, _ => 0)
  }

  /** The symbol s of the bit-length code stands at p. A lone codeword is taken for either bit. */
  predicate BitSymbolAt(cl: seq<nat>, s: nat, input: seq<byte>, p: nat) {
    SymbolAt(cl, s, input, p) || (!Complete(cl) && s < |cl| && cl[s] == 1 && p < 8 * |input|)
  }

  predicate TokenAt(cl: seq<nat>, lens: seq<nat>, input: seq<byte>, p: nat, tok: LengthToken)
    requires |cl| == 19
  {
    && TokenSymbol(tok) < 19 && BitSymbolAt(cl, TokenSymbol(tok), input, p)
    && var q := p + cl[TokenSymbol(tok)];
       match tok
       case Plain(len) => len < 16
       case Again(n) => |lens| > 0 && 3 <= n <= 6 && FieldAt(input, q, 2, n - 3)
       case FewZeros(n) => 3 <= n <= 10 && FieldAt(input, q, 3, n - 3)
       case ManyZeros(n) => 11 <= n <= 138 && FieldAt(input, q, 7, n - 11)
  }

  function TokenEnd(cl: seq<nat>, p: nat, tok: LengthToken): nat {
    p + (if TokenSymbol(tok) < |cl| then cl[TokenSymbol(tok)] else 0) + TokenExtra(tok)
  }

  /** The tokens stand one after the other, behind the lengths lens. */
  predicate TokensAt(cl: seq<nat>, lens: seq<nat>, input: seq<byte>, p: nat, toks: seq<LengthToken>)
    requires |cl| == 19
    decreases |toks|
  {
    toks == [] || (TokenAt(cl, lens, input, p, toks[0])
                   && TokensAt(cl, lens + Filled(lens, toks[0]), input, TokenEnd(cl, p, toks[0]), toks[1..]))
  }

  function TokensEnd(cl: seq<nat>, p: nat, toks: seq<LengthToken>): nat
    decreases |toks|
  {
    if toks == [] then p else TokensEnd(cl, TokenEnd(cl, p, toks[0]), toks[1..])
  }

  /** The lengths that tokens stand for, behind the lengths lens. */
  function Expanded(lens: seq<nat>, toks: seq<LengthToken>): (full: seq<nat>)
    ensures lens <= full
    decreases |toks|
  {
    if toks == [] then lens else Expanded(lens + Filled(lens, toks[0]), toks[1..])
  }

  lemma LoneSymbol(cl: seq<nat>, s: nat)
    requires ValidLengths(cl) && Verdict(cl) == Ok && !Complete(cl) && s < |cl| && cl[s] == 1
    ensures Count(cl, 1) == 1 && SymAt(cl, 1, 0) == s && Longest(cl) == 1
  {
    hide Count, Longest, SymAt;
    assert !NoCodes(cl);
    LongestCount(cl);
    LoneCount(cl);
    SymAtRank(cl, s);
  }

  lemma LoneDecodes(cl: seq<nat>, v: nat, s: nat)
    requires ValidLengths(cl) && Verdict(cl) == Ok && !Complete(cl) && s < |cl| && cl[s] == 1
    ensures Decode(cl, v).Some? ==> Decode(cl, v) == Some(Coded(s, 1))
  {
    hide Count, Longest, SymAt, DecodeFrom, Verdict;
    LoneSymbol(cl, s);
    DecodedLength(cl, v);
    if Decode(cl, v).Some? {
      DecodeFromSound(cl, v, 1);
      SymAtRank(cl, Decode(cl, v).value.sym);
    }
  }

  /** Reading a bit-length symbol finds s exactly if it stands there. */
  lemma BitSymbolRead(cl: seq<nat>, input: seq<byte>, p: nat, s: nat)
    requires |cl| == 19 && ValidLengths(cl) && Verdict(cl) == Ok && !NoCodes(cl)
    ensures BitSymbolAt(cl, s, input, p) <==>
              s < 19 && BitLengthSymbol(cl, input, p, Strict) == Got(s, p + cl[s])
  {
    hide Rest, DecodeFrom, SymbolAt, Verdict, Complete, NoCodes, Longest, SymAt, Count;
    SymbolRead(cl, BBITS, input, p, s);
    var v := Rest(input, p);
    if Complete(cl) {
      CompleteTotal(cl, v);
    } else {
      var t := LoneOne(cl);
      LoneSymbol(cl, t);
      LoneDecodes(cl, v, t);
      if s < 19 && cl[s] == 1 { LoneSymbol(cl, s); }
    }
  }

  lemma CompleteTotal(cl: seq<nat>, v: nat)
    requires Complete(cl)
    ensures Decode(cl, v).Some?
  {
    CompleteIffTotal(cl);
  }

  lemma LoneOne(cl: seq<nat>) returns (s: nat)
    requires ValidLengths(cl) && Verdict(cl) == Ok && !NoCodes(cl) && !Complete(cl)
    ensures s < |cl| && cl[s] == 1
  {
    hide Count;
    LongestCount(cl);
    s := SymAt(cl, 1, 0);
  }

  /** Reading over a token adds its lengths. */
  lemma TokenRead(input: seq<byte>, hd: Header, cl: seq<nat>, lens: seq<nat>, p: nat, tok: LengthToken, h: seq<byte>)
    requires |cl| == 19 && ValidLengths(cl) && Verdict(cl) == Ok && !NoCodes(cl)
    requires TokenAt(cl, lens, input, p, tok) && |lens| + |Filled(lens, tok)| <= hd.nl + hd.nd
    ensures |Filled(lens, tok)| > 0 && TokenEnd(cl, p, tok) > p
    ensures Lengths(input, hd, cl, lens, p, h, Strict)
         == Lengths(input, hd, cl, lens + Filled(lens, tok), TokenEnd(cl, p, tok), h, Strict)
  {
    hide BitLengthSymbol, BitSymbolAt, Verdict, NoCodes, Peek, FieldAt, Trees;
    var s := TokenSymbol(tok);
    BitSymbolRead(cl, input, p, s);
    var q := p + cl[s];
    match tok
    case Plain(_) =>
    case Again(n) =>
      FieldIsPeek(input, q, 2, n - 3);
      assert Repeat(lens[|lens| - 1], n) == Filled(lens, tok);
    case FewZeros(n) =>
      FieldIsPeek(input, q, 3, n - 3);
      assert Repeat(0, n) == Filled(lens, tok);
    case ManyZeros(n) =>
      FieldIsPeek(input, q, 7, n - 11);
      assert Repeat(0, n) == Filled(lens, tok);
  }

  /** The lengths read from where tokens stand are those the tokens stand for. */
  lemma {:induction false} TokensRead(input: seq<byte>, hd: Header, cl: seq<nat>, lens: seq<nat>, p: nat,
      toks: seq<LengthToken>, h: seq<byte>)
    requires |cl| == 19 && ValidLengths(cl) && Verdict(cl) == Ok && !NoCodes(cl)
    requires TokensAt(cl, lens, input, p, toks) && |Expanded(lens, toks)| == hd.nl + hd.nd
    ensures Lengths(input, hd, cl, lens, p, h, Strict)
         == Trees(input, hd, Expanded(lens, toks), TokensEnd(cl, p, toks), h, Strict)
    decreases |toks|
  {
    hide TokenAt, Verdict, NoCodes, Trees, Filled;
    if toks != [] {
      TokenRead(input, hd, cl, lens, p, toks[0], h);
      TokensRead(input, hd, cl, lens + Filled(lens, toks[0]), TokenEnd(cl, p, toks[0]), toks[1..], h);
    }
  }

  /** And lengths that can be read were written so. */
  lemma {:induction false} TokensWritten(input: seq<byte>, hd: Header, cl: seq<nat>, lens: seq<nat>, p: nat,
      h: seq<byte>) returns (toks: seq<LengthToken>)
    requires |cl| == 19 && ValidLengths(cl) && Verdict(cl) == Ok && !NoCodes(cl) && |lens| <= hd.nl + hd.nd
    requires Lengths(input, hd, cl, lens, p, h, Strict).Finished?
    ensures TokensAt(cl, lens, input, p, toks) && |Expanded(lens, toks)| == hd.nl + hd.nd
    decreases Left(input, p)
  {
    hide BitLengthSymbol, BitSymbolAt, Verdict, NoCodes, Peek, FieldAt, Trees;
    toks := [];
    if |lens| < hd.nl + hd.nd {
      var s, q := BitLengthSymbol(cl, input, p, Strict).sym, BitLengthSymbol(cl, input, p, Strict).pos;
      BitSymbolEnd(cl, input, p, s);
      var tok := if s < 16 then Plain(s) else RepeatToken(input, s, q);
      if s >= 16 {
        FieldIsPeek(input, q, if s == 18 then 7 else s - 14, Peek(input, q, if s == 18 then 7 else s - 14));
        CountRange(input, q);
        assert Repeat(if s == 16 then lens[|lens| - 1] else 0, tok.n) == Filled(lens, tok);
      }
      assert TokenAt(cl, lens, input, p, tok);
      TokenRead(input, hd, cl, lens, p, tok, h);
      toks := TokensWritten(input, hd, cl, lens + Filled(lens, tok), TokenEnd(cl, p, tok), h);
      toks := [tok] + toks;
    }
  }

  /** The token whose symbol s ends at q. */
  function RepeatToken(input: seq<byte>, s: nat, q: nat): (tok: LengthToken)
    ensures !tok.Plain?
  {
    if s == 16 then Again(3 + Peek(input, q, 2))
    else if s == 17 then FewZeros(3 + Peek(input, q, 3))
    else ManyZeros(11 + Peek(input, q, 7))
  }

  lemma BitSymbolEnd(cl: seq<nat>, input: seq<byte>, p: nat, s: nat)
    requires |cl| == 19 && ValidLengths(cl) && Verdict(cl) == Ok && !NoCodes(cl)
    requires BitLengthSymbol(cl, input, p, Strict).Got? && BitLengthSymbol(cl, input, p, Strict).sym == s
    ensures s < 19 && BitLengthSymbol(cl, input, p, Strict).pos == p + cl[s] && BitSymbolAt(cl, s, input, p)
  {
    hide Rest, DecodeFrom, Verdict, Longest, SymAt, Count, BitSymbolAt;
    DecodedLength(cl, Rest(input, p));
    DecodeFromSound(cl, Rest(input, p), 1);
    if Decode(cl, Rest(input, p)).None? && Count(cl, 1) > 0 { OneBitSymbol(cl); }
    BitSymbolRead(cl, input, p, s);
  }

  lemma OneBitSymbol(cl: seq<nat>)
    requires Count(cl, 1) > 0
    ensures cl[SymAt(cl, 1, 0)] == 1
  {}

  // ----- literals and copies (section 3.2.5) -----

  /** A literal; or a copy with its length code and distance code, each with the extra bits behind it. */
  datatype Item = Literal(b: byte) | Copy(lc: nat, lx: nat, dc: nat, dx: nat)

  /** Four length codes for each number of extra bits, from the ninth code on; the last stands for 258. */
  function LengthBits(lc: nat): nat { if lc < 8 || lc >= 28 then 0 else lc / 4 - 1 }

  function LengthOf(lc: nat, lx: nat): nat {
    if lc >= 28 then 258 else if lc < 8 then 3 + lc + lx else 3 + (4 + lc % 4) * Pow2(lc / 4 - 1) + lx
  }

  /** Two distance codes for each number of extra bits, from the fifth on. */
  function DistanceBits(dc: nat): nat { if dc < 4 then 0 else dc / 2 - 1 }

  function DistanceOf(dc: nat, dx: nat): (d: nat)
    ensures d >= 1
  {
    if dc < 4 then 1 + dc + dx else 1 + (2 + dc % 2) * Pow2(dc / 2 - 1) + dx
  }

  lemma EightPowers()
    ensures Pow2(0) == 1 && Pow2(1) == 2 && Pow2(2) == 4 && Pow2(3) == 8 && Pow2(4) == 16 && Pow2(5) == 32
    ensures Pow2(6) == 64 && Pow2(7) == 128 && Pow2(8) == 256
  {}

  lemma ThirteenPowers()
    ensures Pow2(9) == 512 && Pow2(10) == 1024 && Pow2(11) == 2048 && Pow2(12) == 4096 && Pow2(13) == 8192
  {
    EightPowers();
  }

  /** The tables of bases and extra bits are what these formulas give. */
  lemma LengthTable(lc: nat)
    requires lc < 29
    ensures CPLEXT[lc] == LengthBits(lc) && forall lx :: LengthOf(lc, lx) == CPLENS[lc] + if lc == 28 then 0 else lx
  {
    hide Pow2;
    EightPowers();
    if lc < 8 {
    } else if lc < 16 {
    } else if lc < 24 {
    }
  }

  lemma DistanceTable(dc: nat)
    requires dc < 30
    ensures CPDEXT[dc] == DistanceBits(dc) && forall dx :: DistanceOf(dc, dx) == CPDIST[dc] + dx
  {
    hide Pow2;
    EightPowers();
    ThirteenPowers();
    if dc < 8 {
    } else if dc < 16 {
    } else if dc < 24 {
    }
  }

  /** The codes tile the lengths from 3 to 258, and 258 has one more code of its own. */
  lemma LengthsTile(lc: nat)
    requires lc < 28
    ensures CPLENS[0] == 3 && CPLENS[28] == 258 && CPLEXT[28] == 0
    ensures CPLENS[lc] + Pow2(CPLEXT[lc]) == if lc < 27 then CPLENS[lc + 1] else 259
  {
    hide Pow2;
    EightPowers();
    if lc < 8 {
    } else if lc < 16 {
    } else if lc < 24 {
    }
  }

  /** The distance codes tile the distances from 1 to 32768. */
  lemma DistancesTile(dc: nat)
    requires dc < 30
    ensures CPDIST[0] == 1 && CPDIST[dc] + Pow2(CPDEXT[dc]) == if dc < 29 then CPDIST[dc + 1] else 32769
  {
    hide Pow2;
    EightPowers();
    ThirteenPowers();
    if dc < 8 {
    } else if dc < 16 {
    } else if dc < 24 {
    }
  }

  /** So every length up to the end of code c, and every distance, can be written. */
  lemma {:induction false} LengthCoded(len: nat, c: nat) returns (lc: nat, lx: nat)
    requires c < 28 && 3 <= len < CPLENS[c] + Pow2(CPLEXT[c])
    ensures lc <= c && lx < Pow2(LengthBits(lc)) && LengthOf(lc, lx) == len
  {
    hide LengthBits, LengthOf, Pow2;
    LengthTable(c);
    LengthsTile(c);
    if CPLENS[c] <= len {
      lc, lx := c, len - CPLENS[c];
    } else {
      LengthsTile(c - 1);
      lc, lx := LengthCoded(len, c - 1);
    }
  }

  lemma {:induction false} DistanceCoded(dist: nat, c: nat) returns (dc: nat, dx: nat)
    requires c < 30 && 1 <= dist < CPDIST[c] + Pow2(CPDEXT[c])
    ensures dc <= c && dx < Pow2(DistanceBits(dc)) && DistanceOf(dc, dx) == dist
  {
    hide DistanceBits, DistanceOf, Pow2;
    DistanceTable(c);
    DistancesTile(c);
    if CPDIST[c] <= dist {
      dc, dx := c, dist - CPDIST[c];
    } else {
      DistancesTile(c - 1);
      dc, dx := DistanceCoded(dist, c - 1);
    }
  }

  predicate ItemAt(cd: Code, input: seq<byte>, p: nat, item: Item) {
    match item
    case Literal(b) => SymbolAt(cd.lit, b, input, p)
    case Copy(lc, lx, dc, dx) =>
      && lc < 29 && dc < 30 && SymbolAt(cd.lit, 257 + lc, input, p)
      && var q := p + cd.lit[257 + lc];
         && FieldAt(input, q, LengthBits(lc), lx) && SymbolAt(cd.dist, dc, input, q + LengthBits(lc))
         && FieldAt(input, q + LengthBits(lc) + cd.dist[dc], DistanceBits(dc), dx)
  }

  function ItemEnd(cd: Code, p: nat, item: Item): nat {
    match item
    case Literal(b) => p + (if b < |cd.lit| then cd.lit[b] else 0)
    case Copy(lc, lx, dc, dx) =>
      p + (if 257 + lc < |cd.lit| then cd.lit[257 + lc] else 0) + LengthBits(lc)
      + (if dc < |cd.dist| then cd.dist[dc] else 0) + DistanceBits(dc)
  }

  /** A copy reaches back no further than to the first byte. */
  predicate Reaches(out: seq<byte>, item: Item) {
    item.Literal? || DistanceOf(item.dc, item.dx) <= |out|
  }

  /** What an item adds to the output: the byte; or the last bytes of the output, over and over if need be. */
  function Added(out: seq<byte>, item: Item): seq<byte>
    requires Reaches(out, item)
  {
    match item
    case Literal(b) => [b]
    case Copy(lc, lx, dc, dx) => Period(out, LengthOf(lc, lx), DistanceOf(dc, dx))
  }

  function Period(out: seq<byte>, len: nat, dist: nat): (r: seq<byte>)
    requires 1 <= dist <= |out|
    ensures |r| == len
  {
    seq(len, i requires i >= 0 => out[|out| - dist + i % dist])
  }

  lemma NextInPeriod(i: nat, dist: nat)
    requires dist >= 1
    ensures (i + 1) % dist == if i % dist + 1 < dist then i % dist + 1 else 0
  {
    var q, r := i / dist, i % dist;
    assert i == dist * q + r;
    if r + 1 < dist {
      QuotientUnique(i + 1, dist, q, r + 1);
    } else {
      assert i + 1 == dist * (q + 1);
      QuotientUnique(i + 1, dist, q + 1, 0);
    }
  }

  /** Copying byte by byte repeats the last bytes. */
  lemma {:induction false} CopiedIsPeriod(h: seq<byte>, len: nat, dist: nat)
    requires 1 <= dist <= |h|
    ensures Copied(h, len, dist) == h + Period(h, len, dist)
    decreases len
  {
    hide Copied, Period;
    if len == 0 {
      assert Copied(h, 0, dist) == h;
      assert Period(h, 0, dist) == [];
    } else {
      var h' := h + [h[|h| - dist]];
      OneCopied(h, len, dist);
      CopiedIsPeriod(h', len - 1, dist);
      PeriodMoves(h, len, dist);
    }
  }

  lemma OneCopied(h: seq<byte>, len: nat, dist: nat)
    requires 1 <= dist <= |h| && len > 0
    ensures Copied(h, len, dist) == Copied(h + [h[|h| - dist]], len - 1, dist)
  {}

  lemma PeriodMoves(h: seq<byte>, len: nat, dist: nat)
    requires 1 <= dist <= |h| && len > 0
    ensures Period(h, len, dist) == [h[|h| - dist]] + Period(h + [h[|h| - dist]], len - 1, dist)
  {
    var h' := h + [h[|h| - dist]];
    var l, r := Period(h, len, dist), [h[|h| - dist]] + Period(h', len - 1, dist);
    hide Period;
    forall i | 0 <= i < len ensures l[i] == r[i] {
      PeriodAt(h, len, dist, i);
      if i > 0 {
        PeriodAt(h', len - 1, dist, i - 1);
        NextInPeriod(i - 1, dist);
        if (i - 1) % dist + 1 < dist {
          assert h'[|h| - dist + i % dist] == h[|h| - dist + i % dist];
        }
      } else {
        assert i % dist == 0;
      }
    }
  }

  lemma PeriodAt(h: seq<byte>, len: nat, dist: nat, i: nat)
    requires 1 <= dist <= |h| && i < len
    ensures 0 <= i % dist < dist && Period(h, len, dist)[i] == h[|h| - dist + i % dist]
  {}

  lemma FieldRead(input: seq<byte>, p: nat, n: nat, v: nat)
    requires FieldAt(input, p, n, v) && p <= 8 * |input|
    ensures p + n <= 8 * |input| && Peek(input, p, n) == v
  {
    hide Rest;
    if n > 0 { FieldIsPeek(input, p, n, v); }
  }

  lemma FieldWritten(input: seq<byte>, p: nat, n: nat)
    requires p + n <= 8 * |input|
    ensures FieldAt(input, p, n, Peek(input, p, n))
  {
    hide Rest;
    if n > 0 { FieldIsPeek(input, p, n, Peek(input, p, n)); }
  }

  /** Reading the symbol of an item does what the item says. */
  lemma ItemRead(input: seq<byte>, cd: Code, p: nat, out: seq<byte>, item: Item)
    requires ItemAt(cd, input, p, item) && Reaches(out, item)
    ensures Token(input, cd, p, out, Strict) == More(ItemEnd(cd, p, item), out + Added(out, item))
  {
    hide Token, SymbolAt, FieldAt, Period, LengthOf, DistanceOf, LengthBits, DistanceBits, LengthExtra;
    match item
    case Literal(b) =>
      SymbolTaken(input, cd, p, out, b);
    case Copy(lc, lx, dc, dx) =>
      SymbolInRange(cd.lit, 257 + lc, input, p);
      SymbolInRange(cd.dist, dc, input, p + cd.lit[257 + lc] + LengthBits(lc));
      CopyRead(input, cd, p, p + cd.lit[257 + lc], out, lc, lx, dc, dx);
  }

  lemma CopyRead(input: seq<byte>, cd: Code, p: nat, q: nat, out: seq<byte>, lc: nat, lx: nat, dc: nat, dx: nat)
    requires SymbolAt(cd.lit, 257 + lc, input, p) && 257 + lc < |cd.lit| && q == p + cd.lit[257 + lc]
    requires lc < 29 && FieldAt(input, q, LengthBits(lc), lx)
    requires dc < 30 && SymbolAt(cd.dist, dc, input, q + LengthBits(lc))
    requires dc < |cd.dist| && FieldAt(input, q + LengthBits(lc) + cd.dist[dc], DistanceBits(dc), dx)
    requires DistanceOf(dc, dx) <= |out|
    ensures Token(input, cd, p, out, Strict)
         == More(q + LengthBits(lc) + cd.dist[dc] + DistanceBits(dc),
                 out + Period(out, LengthOf(lc, lx), DistanceOf(dc, dx)))
  {
    hide Token, Symbol, Distance, SymbolAt, FieldAt, Period, LengthOf, DistanceOf, LengthBits, DistanceBits;
    SymbolTaken(input, cd, p, out, 257 + lc);
    LengthRead(input, cd, q, out, lc, lx);
    DistanceRead(input, cd, LengthOf(lc, lx), q + LengthBits(lc), out, dc, dx);
  }

  lemma SymbolTaken(input: seq<byte>, cd: Code, p: nat, out: seq<byte>, s: nat)
    requires SymbolAt(cd.lit, s, input, p)
    ensures s < |cd.lit| && p + cd.lit[s] <= 8 * |input|
    ensures Token(input, cd, p, out, Strict) == Symbol(input, cd, s, p + cd.lit[s], out, Strict)
  {
    hide NextSymbol, SymbolAt, Symbol;
    SymbolRead(cd.lit, LBITS, input, p, s);
  }

  lemma LengthRead(input: seq<byte>, cd: Code, q: nat, out: seq<byte>, lc: nat, lx: nat)
    requires lc < 29 && FieldAt(input, q, LengthBits(lc), lx) && q <= 8 * |input|
    ensures Symbol(input, cd, 257 + lc, q, out, Strict)
         == Distance(input, cd, LengthOf(lc, lx), q + LengthBits(lc), out, Strict)
  {
    hide FieldAt, Peek, LengthOf, LengthBits, Distance;
    LengthTable(lc);
    FieldRead(input, q, LengthBits(lc), lx);
    NoExtra(lc, lx, input, q);
  }

  lemma NoExtra(lc: nat, lx: nat, input: seq<byte>, q: nat)
    requires lc < 29 && FieldAt(input, q, LengthBits(lc), lx)
    ensures lc == 28 ==> lx == 0
  {}

  lemma DistanceRead(input: seq<byte>, cd: Code, len: nat, p: nat, out: seq<byte>, dc: nat, dx: nat)
    requires dc < 30 && SymbolAt(cd.dist, dc, input, p) && FieldAt(input, p + cd.dist[dc], DistanceBits(dc), dx)
    requires 1 <= DistanceOf(dc, dx) <= |out|
    ensures Distance(input, cd, len, p, out, Strict)
         == More(p + cd.dist[dc] + DistanceBits(dc), out + Period(out, len, DistanceOf(dc, dx)))
  {
    hide NextSymbol, SymbolAt, FieldAt, Peek, Copied, Period, DistanceOf, DistanceBits;
    SymbolRead(cd.dist, DBITS, input, p, dc);
    DistanceTable(dc);
    FieldRead(input, p + cd.dist[dc], DistanceBits(dc), dx);
    CopiedIsPeriod(out, len, DistanceOf(dc, dx));
  }

  lemma SymbolWritten(lens: seq<nat>, m: nat, input: seq<byte>, p: nat)
    requires m >= 1 && NextSymbol(lens, m, input, p, Strict).Got?
    ensures var r := NextSymbol(lens, m, input, p, Strict);
            r.sym < |lens| && r.pos == p + lens[r.sym] && SymbolAt(lens, r.sym, input, p)
  {
    hide Rest, DecodeFrom, SymbolAt, Longest;
    DecodeFromSound(lens, Rest(input, p), 1);
    SymbolRead(lens, m, input, p, NextSymbol(lens, m, input, p, Strict).sym);
  }

  /** And a symbol that moves on was written as an item. */
  lemma ItemWritten(input: seq<byte>, cd: Code, p: nat, out: seq<byte>) returns (item: Item)
    requires Token(input, cd, p, out, Strict).More?
    ensures ItemAt(cd, input, p, item) && Reaches(out, item)
  {
    hide NextSymbol, SymbolAt, FieldAt, Peek, Copied, Period, LengthOf, DistanceOf, LengthBits, DistanceBits, Distance;
    SymbolWritten(cd.lit, LBITS, input, p);
    var r := NextSymbol(cd.lit, LBITS, input, p, Strict);
    if r.sym < 256 {
      item := Literal(r.sym);
    } else {
      var lc := r.sym - 257;
      LengthTable(lc);
      FieldWritten(input, r.pos, LengthBits(lc));
      var lx, q := Peek(input, r.pos, LengthBits(lc)), r.pos + LengthBits(lc);
      var dc, dx := DistanceWritten(input, cd, CPLENS[lc] + lx, q, out);
      item := Copy(lc, lx, dc, dx);
    }
  }

  lemma DistanceWritten(input: seq<byte>, cd: Code, len: nat, p: nat, out: seq<byte>) returns (dc: nat, dx: nat)
    requires Distance(input, cd, len, p, out, Strict).More?
    ensures dc < 30 && SymbolAt(cd.dist, dc, input, p) && FieldAt(input, p + cd.dist[dc], DistanceBits(dc), dx)
    ensures DistanceOf(dc, dx) <= |out|
  {
    hide NextSymbol, SymbolAt, FieldAt, Peek, Copied, DistanceOf, DistanceBits;
    SymbolWritten(cd.dist, DBITS, input, p);
    var r := NextSymbol(cd.dist, DBITS, input, p, Strict);
    dc := r.sym;
    DistanceTable(dc);
    FieldWritten(input, r.pos, DistanceBits(dc));
    dx := Peek(input, r.pos, DistanceBits(dc));
  }

  // ----- the symbols of a block -----

  predicate ItemsAt(cd: Code, input: seq<byte>, p: nat, out: seq<byte>, items: seq<Item>)
    decreases |items|
  {
    if items == [] then SymbolAt(cd.lit, 256, input, p)
    else
      && ItemAt(cd, input, p, items[0]) && Reaches(out, items[0])
      && ItemsAt(cd, input, ItemEnd(cd, p, items[0]), out + Added(out, items[0]), items[1..])
  }

  /** Behind the symbol for the end of the block. */
  function ItemsEnd(cd: Code, p: nat, items: seq<Item>): nat
    decreases |items|
  {
    if items == [] then p + (if |cd.lit| > 256 then cd.lit[256] else 0)
    else ItemsEnd(cd, ItemEnd(cd, p, items[0]), items[1..])
  }

  /** The output with that of the items behind it. */
  function Produced(out: seq<byte>, items: seq<Item>): seq<byte>
    decreases |items|
  {
    if items == [] || !Reaches(out, items[0]) then out else Produced(out + Added(out, items[0]), items[1..])
  }

  lemma EndRead(input: seq<byte>, cd: Code, p: nat, out: seq<byte>)
    requires SymbolAt(cd.lit, 256, input, p)
    ensures Token(input, cd, p, out, Strict) == Ends(p + cd.lit[256])
  {
    hide NextSymbol, SymbolAt;
    SymbolRead(cd.lit, LBITS, input, p, 256);
  }

  lemma EndWritten(input: seq<byte>, cd: Code, p: nat, out: seq<byte>)
    requires Token(input, cd, p, out, Strict).Ends?
    ensures SymbolAt(cd.lit, 256, input, p)
  {
    hide NextSymbol, SymbolAt, Distance, Peek;
    SymbolWritten(cd.lit, LBITS, input, p);
    if NextSymbol(cd.lit, LBITS, input, p, Strict).sym > 256 {
      var r := NextSymbol(cd.lit, LBITS, input, p, Strict);
      NoEndInDistance(input, cd, CPLENS[r.sym - 257] + Peek(input, r.pos, CPLEXT[r.sym - 257]),
                      r.pos + CPLEXT[r.sym - 257], out);
    }
  }

  lemma NoEndInDistance(input: seq<byte>, cd: Code, len: nat, p: nat, out: seq<byte>)
    ensures !Distance(input, cd, len, p, out, Strict).Ends?
  {
    hide NextSymbol, Peek, Copied;
  }

  lemma {:induction false} ItemsRead(input: seq<byte>, cd: Code, p: nat, out: seq<byte>, items: seq<Item>)
    requires ItemsAt(cd, input, p, out, items)
    ensures Codes(input, cd, p, out, Strict)
         == EndOfBlock(input, cd.last, ItemsEnd(cd, p, items), Produced(out, items), Strict)
    decreases |items|
  {
    hide Token, ItemAt, SymbolAt, Reaches, EndOfBlock, Added;
    if items == [] {
      EndRead(input, cd, p, out);
      SymbolInRange(cd.lit, 256, input, p);
    } else {
      ItemRead(input, cd, p, out, items[0]);
      ItemsRead(input, cd, ItemEnd(cd, p, items[0]), out + Added(out, items[0]), items[1..]);
    }
  }

  lemma SymbolInRange(lens: seq<nat>, s: nat, input: seq<byte>, p: nat)
    requires SymbolAt(lens, s, input, p)
    ensures s < |lens|
  {}

  lemma {:induction false} ItemsWritten(input: seq<byte>, cd: Code, p: nat, out: seq<byte>) returns (items: seq<Item>)
    requires Codes(input, cd, p, out, Strict).Finished?
    ensures ItemsAt(cd, input, p, out, items)
    decreases Left(input, p)
  {
    hide Token, ItemAt, SymbolAt, Reaches, EndOfBlock, Added;
    items := [];
    match Token(input, cd, p, out, Strict)
    case Ends(_) => EndWritten(input, cd, p, out);
    case More(p', out') =>
      var item := ItemWritten(input, cd, p, out);
      ItemRead(input, cd, p, out, item);
      items := ItemsWritten(input, cd, p', out');
      items := [item] + items;
    case _ =>
  }

  // ----- blocks (sections 3.2.3 to 3.2.7) -----

  /** The code is complete, or has a lone codeword of one bit. */
  predicate Usable(lens: seq<nat>) {
    Complete(lens) || exists s :: 0 <= s < |lens| && lens[s] == 1 && OnlyOne(lens, s)
  }

  predicate OnlyOne(lens: seq<nat>, s: nat) {
    forall i :: 0 <= i < |lens| && i != s ==> lens[i] == 0
  }

  /** Where the i-th length of the bit-length code belongs: 16, 17, 18, 0 and then from the middle outwards. */
  function Order(i: nat): (s: nat)
    requires i < 19
    ensures s < 19
  {
    if i < 3 then 16 + i else if i == 3 then 0 else if i % 2 == 0 then 8 + (i - 4) / 2 else 8 - (i - 3) / 2
  }

  lemma OrderIs(i: nat)
    requires i < 19
    ensures BORDER[i] == Order(i)
  {}

  datatype Block =
    | StoredBlock(data: seq<byte>)
    | FixedBlock(items: seq<Item>)
    | DynamicBlock(nl: nat, nd: nat, ncl: nat, cl: seq<nat>, toks: seq<LengthToken>, items: seq<Item>)

  function Kind(b: Block): nat {
    match b
    case StoredBlock(_) => 0
    case FixedBlock(_) => 1
    case DynamicBlock(_, _, _, _, _, _) => 2
  }

  /** The next byte boundary. */
  function Aligned(p: nat): nat { if p % 8 == 0 then p else p + 8 - p % 8 }

  predicate StoredAt(input: seq<byte>, p: nat, data: seq<byte>) {
    && |data| <= 0xffff && p % 8 == 0
    && FieldAt(input, p, 16, |data|) && FieldAt(input, p + 16, 16, 0xffff - |data|)
    && p / 8 + 4 + |data| <= |input| && input[p / 8 + 4..p / 8 + 4 + |data|] == data
  }

  /** The three numbers, the lengths of the bit-length code in their order, and the lengths of the two codes. */
  predicate HeaderAt(input: seq<byte>, p: nat, nl: nat, nd: nat, ncl: nat, cl: seq<nat>, toks: seq<LengthToken>) {
    && 257 <= nl <= 286 && 1 <= nd <= 30 && 4 <= ncl <= 19 && |cl| == 19
    && FieldAt(input, p, 5, nl - 257) && FieldAt(input, p + 5, 5, nd - 1) && FieldAt(input, p + 10, 4, ncl - 4)
    && (forall i {:trigger Order(i)} :: 0 <= i < 19 ==>
          if i < ncl then FieldAt(input, p + 14 + 3 * i, 3, cl[Order(i)]) else cl[Order(i)] == 0)
    && Usable(cl) && TokensAt(cl, [], input, p + 14 + 3 * ncl, toks)
    && var lens := Expanded([], toks);
       && |lens| == nl + nd && Usable(lens[..nl])
       && (Usable(lens[nl..]) || (nl == 257 && NoCodes(lens[nl..])))
  }

  function DynamicCode(nl: nat, toks: seq<LengthToken>, last: bool): Code {
    var lens := Expanded([], toks);
    if nl <= |lens| then Code(lens[..nl], lens[nl..], last) else Code([], [], last)
  }

  predicate BlockAt(input: seq<byte>, p: nat, last: bool, out: seq<byte>, b: Block) {
    && FieldAt(input, p, 1, if last then 1 else 0) && FieldAt(input, p + 1, 2, Kind(b))
    && match b
       case StoredBlock(data) => StoredAt(input, Aligned(p + 3), data)
       case FixedBlock(items) => ItemsAt(Code(FixedLit(), FixedDist(), last), input, p + 3, out, items)
       case DynamicBlock(nl, nd, ncl, cl, toks, items) =>
         && HeaderAt(input, p + 3, nl, nd, ncl, cl, toks)
         && ItemsAt(DynamicCode(nl, toks, last), input, TokensEnd(cl, p + 17 + 3 * ncl, toks), out, items)
  }

  function BlockEnd(p: nat, last: bool, b: Block): nat {
    match b
    case StoredBlock(data) => Aligned(p + 3) + 32 + 8 * |data|
    case FixedBlock(items) => ItemsEnd(Code(FixedLit(), FixedDist(), last), p + 3, items)
    case DynamicBlock(nl, nd, ncl, cl, toks, items) =>
      ItemsEnd(DynamicCode(nl, toks, last), TokensEnd(cl, p + 17 + 3 * ncl, toks), items)
  }

  /** The output with that of a block behind it. */
  function Out(out: seq<byte>, b: Block): seq<byte> {
    if b.StoredBlock? then out + b.data else Produced(out, b.items)
  }

  /** The blocks stand one after the other; the last one is marked. */
  predicate BlocksAt(input: seq<byte>, p: nat, out: seq<byte>, blocks: seq<Block>)
    decreases |blocks|
  {
    && blocks != [] && BlockAt(input, p, |blocks| == 1, out, blocks[0])
    && (|blocks| > 1 ==> BlocksAt(input, BlockEnd(p, false, blocks[0]), Out(out, blocks[0]), blocks[1..]))
  }

  function BlocksEnd(p: nat, blocks: seq<Block>): nat
    decreases |blocks|
  {
    if |blocks| == 0 then p
    else if |blocks| == 1 then BlockEnd(p, true, blocks[0])
    else BlocksEnd(BlockEnd(p, false, blocks[0]), blocks[1..])
  }

  function Contents(out: seq<byte>, blocks: seq<Block>): seq<byte>
    decreases |blocks|
  {
    if |blocks| == 0 then out else Contents(Out(out, blocks[0]), blocks[1..])
  }

  // ----- the codes a block may have -----

  lemma LoneUsed(lens: seq<nat>, s: nat, k: nat)
    requires s < |lens| && lens[s] == 1 && OnlyOne(lens, s) && 1 <= k <= BMAX
    ensures Count(lens, 1) == 1 && Used(lens, k) == Pow2(BMAX - 1)
    ensures forall j :: j > 1 ==> Count(lens, j) == 0
  {
    hide Count, Pow2;
    SymAtRank(lens, s);
    OneOnly(lens, s);
    forall j | j > 1 ensures Count(lens, j) == 0 {
      if Count(lens, j) > 0 { var t := SymAt(lens, j, 0); }
    }
    UsedFlatAfter(lens, k);
    ShlOne(BMAX - 1);
  }

  lemma OneOnly(lens: seq<nat>, s: nat)
    requires s < |lens| && lens[s] == 1 && OnlyOne(lens, s)
    ensures Count(lens, 1) == 1
  {
    hide Count;
    SymAtRank(lens, s);
    if Count(lens, 1) > 1 {
      var t, u := SymAt(lens, 1, 0), SymAt(lens, 1, 1);
    }
  }

  /** Usable codes are those huft_build accepts. */
  lemma UsableIff(lens: seq<nat>)
    requires ValidLengths(lens)
    ensures Usable(lens) <==> Verdict(lens) == Ok && !NoCodes(lens)
  {
    hide Count, Used, Longest, Pow2;
    if Usable(lens) {
      if Complete(lens) {
        if NoCodes(lens) { NothingUsed(lens, BMAX); }
      } else {
        var s :| 0 <= s < |lens| && lens[s] == 1 && OnlyOne(lens, s);
        LoneUsed(lens, s, BMAX);
        Pow2Mono(BMAX - 1, BMAX);
        assert Longest(lens) == 1;
      }
    }
    if Verdict(lens) == Ok && !NoCodes(lens) && !Complete(lens) {
      LongestCount(lens);
      LoneCount(lens);
      var s := SymAt(lens, 1, 0);
      forall i | 0 <= i < |lens| && i != s ensures lens[i] == 0 {
        if lens[i] != 0 { LoneSymbol(lens, i); LoneSymbol(lens, s); }
      }
      assert OnlyOne(lens, s);
    }
  }

  lemma NothingUsed(lens: seq<nat>, k: nat)
    requires NoCodes(lens) && k <= BMAX
    ensures Used(lens, k) == 0
  {
    if k > 0 {
      NothingUsed(lens, k - 1);
      NoneOf(lens, k);
      ShlOne(BMAX - k);
    }
  }

  lemma NoneOf(lens: seq<nat>, k: nat)
    requires NoCodes(lens) && k > 0
    ensures Count(lens, k) == 0
  {
    if Count(lens, k) > 0 { var t := SymAt(lens, k, 0); }
  }

  // ----- stored blocks -----

  lemma AlignedIs(p: nat)
    ensures (p + 7) / 8 * 8 == Aligned(p) && Aligned(p) % 8 == 0
  {}

  lemma StoredRead(input: seq<byte>, last: bool, q: nat, out: seq<byte>, data: seq<byte>)
    requires StoredAt(input, q, data)
    ensures Stored(input, last, q, out, Strict)
         == EndOfBlock(input, last, q + 32 + 8 * |data|, out + data, Strict)
  {
    hide FieldAt, Peek, EndOfBlock;
    FieldIsPeek(input, q, 16, |data|);
    FieldIsPeek(input, q + 16, 16, 0xffff - |data|);
    assert (q + 32) / 8 == q / 8 + 4;
    if |data| == 0 { assert out + data == out; }
  }

  lemma StoredWritten(input: seq<byte>, last: bool, q: nat, out: seq<byte>) returns (data: seq<byte>)
    requires q % 8 == 0 && Stored(input, last, q, out, Strict).Finished?
    ensures StoredAt(input, q, data)
  {
    hide FieldAt, Peek, EndOfBlock;
    var n, from := Peek(input, q, 16), q / 8 + 4;
    assert (q + 32) / 8 == from;
    data := input[from..from + n];
    FieldIsPeek(input, q, 16, |data|);
    FieldIsPeek(input, q + 16, 16, 0xffff - |data|);
  }

  // ----- the header of a dynamic block -----

  /** The place of length s in the order. */
  function Place(s: nat): (i: nat)
    requires s < 19
    ensures i < 19 && Order(i) == s
  {
    if s >= 16 then s - 16 else if s == 0 then 3 else if s >= 8 then 4 + 2 * (s - 8) else 3 + 2 * (8 - s)
  }

  lemma PlaceOfOrder(i: nat)
    requires i < 19
    ensures Place(Order(i)) == i
  {}

  /** The first i lengths in the order are in their places, the others are zero. */
  function Part(cl: seq<nat>, i: nat): (part: seq<nat>)
    requires |cl| == 19
    ensures |part| == 19
  {
    seq(19, s requires 0 <= s < 19 => if Place(s) < i then cl[s] else 0)
  }

  lemma NextPart(cl: seq<nat>, i: nat)
    requires |cl| == 19 && i < 19
    ensures Part(cl, i + 1) == Part(cl, i)[BORDER[i] := cl[Order(i)]]
  {
    hide Order, Place;
    OrderIs(i);
    PlaceOfOrder(i);
    var l, r := Part(cl, i + 1), Part(cl, i)[Order(i) := cl[Order(i)]];
    forall s | 0 <= s < 19 ensures l[s] == r[s] {
      if Place(s) == i { assert s == Order(i); }
    }
  }

  predicate BitLensAt(input: seq<byte>, p: nat, ncl: nat, cl: seq<nat>)
    requires |cl| == 19
  {
    forall i {:trigger Order(i)} :: 0 <= i < 19 ==>
        if i < ncl then FieldAt(input, p + 3 * i, 3, cl[Order(i)]) else cl[Order(i)] == 0
  }

  lemma {:induction false} BitLensRead(input: seq<byte>, hd: Header, i: nat, p: nat, cl: seq<nat>, h: seq<byte>)
    requires |cl| == 19 && i <= hd.ncl <= 19 && BitLensAt(input, p, hd.ncl, cl)
    ensures BitLengths(input, hd, i, Part(cl, i), p + 3 * i, h, Strict)
         == BitLengths(input, hd, hd.ncl, Part(cl, hd.ncl), p + 3 * hd.ncl, h, Strict)
    decreases hd.ncl - i
  {
    hide Order, FieldAt, Peek, Verdict, NoCodes, Lengths, Part;
    if i < hd.ncl {
      NextPart(cl, i);
      FieldIsPeek(input, p + 3 * i, 3, cl[Order(i)]);
      OrderIs(i);
      assert p + 3 * i + 3 == p + 3 * (i + 1);
      BitLensRead(input, hd, i + 1, p, cl, h);
    }
  }

  lemma WholePart(input: seq<byte>, p: nat, ncl: nat, cl: seq<nat>)
    requires |cl| == 19 && BitLensAt(input, p, ncl, cl)
    ensures Part(cl, 0) == Repeat(0, 19) && Part(cl, ncl) == cl
  {
    hide Order, Place, FieldAt;
    forall s | 0 <= s < 19 ensures Part(cl, ncl)[s] == cl[s] {
      assert Order(Place(s)) == s;
    }
  }

  lemma FieldBound(input: seq<byte>, p: nat, n: nat, v: nat)
    requires FieldAt(input, p, n, v)
    ensures v < Pow2(n)
    decreases n
  {
    if n > 0 { FieldBound(input, p + 1, n - 1, v / 2); }
  }

  lemma BitLensValid(input: seq<byte>, p: nat, ncl: nat, cl: seq<nat>)
    requires |cl| == 19 && BitLensAt(input, p, ncl, cl)
    ensures ValidLengths(cl)
  {
    hide Order, Place, FieldAt;
    assert Pow2(3) == 8;
    forall s | 0 <= s < 19 ensures cl[s] <= BMAX {
      assert Order(Place(s)) == s;
      if Place(s) < ncl { FieldBound(input, p + 3 * Place(s), 3, cl[s]); }
    }
  }

  lemma {:induction false} ExpandedValid(cl: seq<nat>, lens: seq<nat>, input: seq<byte>, p: nat, toks: seq<LengthToken>)
    requires |cl| == 19 && ValidLengths(lens) && TokensAt(cl, lens, input, p, toks)
    ensures ValidLengths(Expanded(lens, toks))
    decreases |toks|
  {
    hide BitSymbolAt, FieldAt;
    if toks != [] {
      ExpandedValid(cl, lens + Filled(lens, toks[0]), input, TokenEnd(cl, p, toks[0]), toks[1..]);
    }
  }

  lemma ValidParts(lens: seq<nat>, n: nat)
    requires ValidLengths(lens) && n <= |lens|
    ensures ValidLengths(lens[..n]) && ValidLengths(lens[n..])
  {}

  /** The two codes are accepted exactly if they are usable; without distance codes there may be no length codes. */
  lemma CodesAccepted(lens: seq<nat>, nl: nat)
    requires ValidLengths(lens) && 257 <= nl <= |lens|
    ensures LitOK(lens[..nl]) && DistOK(lens[nl..], nl) <==>
              Usable(lens[..nl]) && (Usable(lens[nl..]) || (nl == 257 && NoCodes(lens[nl..])))
  {
    hide Usable, OverSubscribed, Complete;
    ValidParts(lens, nl);
    UsableIff(lens[..nl]);
    UsableIff(lens[nl..]);
  }

  lemma HeaderFieldsRead(input: seq<byte>, last: bool, p: nat, out: seq<byte>, nl: nat, nd: nat, ncl: nat)
    requires 257 <= nl <= 286 && 1 <= nd <= 30 && 4 <= ncl <= 19
    requires FieldAt(input, p, 5, nl - 257) && FieldAt(input, p + 5, 5, nd - 1) && FieldAt(input, p + 10, 4, ncl - 4)
    ensures Dynamic(input, last, p, out, Strict)
         == BitLengths(input, Header(nl, nd, ncl, last), 0, Repeat(0, 19), p + 14, out, Strict)
  {
    hide FieldAt, Peek, BitLengths;
    FieldIsPeek(input, p, 5, nl - 257);
    FieldIsPeek(input, p + 5, 5, nd - 1);
    FieldIsPeek(input, p + 10, 4, ncl - 4);
  }

  lemma HeaderRead(input: seq<byte>, last: bool, p: nat, out: seq<byte>, nl: nat, nd: nat, ncl: nat, cl: seq<nat>,
      toks: seq<LengthToken>)
    requires HeaderAt(input, p, nl, nd, ncl, cl, toks)
    ensures Dynamic(input, last, p, out, Strict)
         == Codes(input, DynamicCode(nl, toks, last), TokensEnd(cl, p + 14 + 3 * ncl, toks), out, Strict)
  {
    hide FieldAt, Peek, Lengths, Codes, Usable, TokensAt, Part, Order, Verdict, Expanded, TokensEnd;
    var hd := Header(nl, nd, ncl, last);
    HeaderFieldsRead(input, last, p, out, nl, nd, ncl);
    assert BitLensAt(input, p + 14, ncl, cl);
    WholePart(input, p + 14, ncl, cl);
    BitLensValid(input, p + 14, ncl, cl);
    BitLensRead(input, hd, 0, p + 14, cl, out);
    UsableIff(cl);
    TokensRead(input, hd, cl, [], p + 14 + 3 * ncl, toks, out);
    ExpandedValid(cl, [], input, p + 14 + 3 * ncl, toks);
    CodesAccepted(Expanded([], toks), nl);
  }

  lemma {:induction false} BitLensRoom(input: seq<byte>, hd: Header, i: nat, part: seq<nat>, p: nat, h: seq<byte>)
    requires |part| == 19 && i <= hd.ncl <= 19 && BitLengths(input, hd, i, part, p, h, Strict).Finished?
    ensures i < hd.ncl ==> p + 3 * (hd.ncl - i) <= 8 * |input|
    decreases hd.ncl - i
  {
    hide Peek, Verdict, NoCodes, Lengths;
    if i < hd.ncl {
      OrderIs(i);
      BitLensRoom(input, hd, i + 1, part[BORDER[i] := Peek(input, p, 3)], p + 3, h);
    }
  }

  /** The lengths that stand at p in their order. */
  function BitLensThere(input: seq<byte>, p: nat, ncl: nat): (cl: seq<nat>)
    ensures |cl| == 19
  {
    seq(19, s requires 0 <= s < 19 => if Place(s) < ncl then Peek(input, p + 3 * Place(s), 3) else 0)
  }

  lemma BitLensWritten(input: seq<byte>, p: nat, ncl: nat)
    requires 0 < ncl <= 19 && p + 3 * ncl <= 8 * |input|
    ensures BitLensAt(input, p, ncl, BitLensThere(input, p, ncl))
  {
    hide Order, Place, FieldAt, Peek;
    var cl := BitLensThere(input, p, ncl);
    forall i | 0 <= i < 19
      ensures if i < ncl then FieldAt(input, p + 3 * i, 3, cl[Order(i)]) else cl[Order(i)] == 0
    {
      PlaceOfOrder(i);
      if i < ncl { FieldWritten(input, p + 3 * i, 3); }
    }
  }

  lemma HeaderFieldsWritten(input: seq<byte>, last: bool, p: nat, out: seq<byte>) returns (nl: nat, nd: nat, ncl: nat)
    requires Dynamic(input, last, p, out, Strict).Finished?
    ensures 257 <= nl <= 286 && 1 <= nd <= 30 && 4 <= ncl <= 19
    ensures FieldAt(input, p, 5, nl - 257) && FieldAt(input, p + 5, 5, nd - 1) && FieldAt(input, p + 10, 4, ncl - 4)
  {
    hide FieldAt, Peek, BitLengths;
    nl, nd, ncl := 257 + Peek(input, p, 5), 1 + Peek(input, p + 5, 5), 4 + Peek(input, p + 10, 4);
    FieldWritten(input, p, 5);
    FieldWritten(input, p + 5, 5);
    FieldWritten(input, p + 10, 4);
    FieldBound(input, p + 10, 4, ncl - 4);
    assert Pow2(4) == 16;
  }

  lemma HeaderWritten(input: seq<byte>, last: bool, p: nat, out: seq<byte>)
      returns (nl: nat, nd: nat, ncl: nat, cl: seq<nat>, toks: seq<LengthToken>)
    requires Dynamic(input, last, p, out, Strict).Finished?
    ensures HeaderAt(input, p, nl, nd, ncl, cl, toks)
  {
    hide FieldAt, Peek, BitLengths, Lengths, Codes, Usable, TokensAt, Part, Order, Verdict, NoCodes, Expanded;
    nl, nd, ncl := HeaderFieldsWritten(input, last, p, out);
    var hd := Header(nl, nd, ncl, last);
    HeaderFieldsRead(input, last, p, out, nl, nd, ncl);
    BitLensRoom(input, hd, 0, Repeat(0, 19), p + 14, out);
    cl := BitLensThere(input, p + 14, ncl);
    BitLensWritten(input, p + 14, ncl);
    WholePart(input, p + 14, ncl, cl);
    BitLensValid(input, p + 14, ncl, cl);
    BitLensRead(input, hd, 0, p + 14, cl, out);
    BitLengthsEnd(input, hd, cl, p + 14 + 3 * ncl, out);
    UsableIff(cl);
    toks := TokensWritten(input, hd, cl, [], p + 14 + 3 * ncl, out);
    TokensRead(input, hd, cl, [], p + 14 + 3 * ncl, toks, out);
    ExpandedValid(cl, [], input, p + 14 + 3 * ncl, toks);
    CodesAccepted(Expanded([], toks), nl);
    TreesAccept(input, hd, Expanded([], toks), TokensEnd(cl, p + 14 + 3 * ncl, toks), out);
  }

  lemma BitLengthsEnd(input: seq<byte>, hd: Header, cl: seq<nat>, p: nat, h: seq<byte>)
    requires |cl| == 19 && BitLengths(input, hd, hd.ncl, cl, p, h, Strict).Finished?
    ensures Verdict(cl) == Ok && !NoCodes(cl) && Lengths(input, hd, cl, [], p, h, Strict).Finished?
  {
    hide Verdict, NoCodes, Lengths;
  }

  lemma TreesAccept(input: seq<byte>, hd: Header, lens: seq<nat>, p: nat, h: seq<byte>)
    requires Trees(input, hd, lens, p, h, Strict).Finished? && |lens| == hd.nl + hd.nd
    ensures LitOK(lens[..hd.nl]) && DistOK(lens[hd.nl..], hd.nl)
  {
    hide LitOK, DistOK, Codes;
  }

  // ----- whole streams -----

  lemma KindRead(input: seq<byte>, p: nat, last: bool, b: Block)
    requires FieldAt(input, p, 1, if last then 1 else 0) && FieldAt(input, p + 1, 2, Kind(b))
    ensures p + 3 <= 8 * |input| && (Peek(input, p, 1) == 1 <==> last) && Peek(input, p + 1, 2) == Kind(b)
  {
    hide FieldAt, Peek;
    FieldIsPeek(input, p, 1, if last then 1 else 0);
    FieldIsPeek(input, p + 1, 2, Kind(b));
  }

  /** Reading a block gives its contents, and goes on behind it. */
  lemma BlockRead(input: seq<byte>, p: nat, last: bool, out: seq<byte>, b: Block)
    requires BlockAt(input, p, last, out, b)
    ensures Blocks(input, p, out, Strict) == EndOfBlock(input, last, BlockEnd(p, last, b), Out(out, b), Strict)
  {
    hide FieldAt, Peek, Codes, EndOfBlock, Stored, Dynamic, ItemsAt, HeaderAt, FixedLit, FixedDist, StoredAt, Aligned,
      ItemsEnd, Produced, TokensEnd, DynamicCode;
    KindRead(input, p, last, b);
    match b
    case StoredBlock(data) =>
      AlignedIs(p + 3);
      assert (p + 10) / 8 * 8 == (p + 3 + 7) / 8 * 8;
      StoredRead(input, last, Aligned(p + 3), out, data);
    case FixedBlock(items) => ItemsRead(input, Code(FixedLit(), FixedDist(), last), p + 3, out, items);
    case DynamicBlock(nl, nd, ncl, cl, toks, items) =>
      HeaderRead(input, last, p + 3, out, nl, nd, ncl, cl, toks);
      assert p + 3 + 14 + 3 * ncl == p + 17 + 3 * ncl;
      ItemsRead(input, DynamicCode(nl, toks, last), TokensEnd(cl, p + 17 + 3 * ncl, toks), out, items);
      LastOf(nl, toks, last);
  }

  lemma LastOf(nl: nat, toks: seq<LengthToken>, last: bool)
    ensures DynamicCode(nl, toks, last).last == last
  {
    hide Expanded;
  }

  lemma BlockWritten(input: seq<byte>, p: nat, out: seq<byte>) returns (last: bool, b: Block)
    requires Blocks(input, p, out, Strict).Finished?
    ensures BlockAt(input, p, last, out, b)
  {
    hide FieldAt, Peek, Codes, EndOfBlock, Stored, Dynamic, ItemsAt, HeaderAt, FixedLit, FixedDist, StoredAt, Aligned,
      TokensEnd, DynamicCode;
    last := Peek(input, p, 1) == 1;
    FieldWritten(input, p, 1);
    FieldBound(input, p, 1, Peek(input, p, 1));
    assert Pow2(1) == 2;
    FieldWritten(input, p + 1, 2);
    if Peek(input, p + 1, 2) == 0 {
      AlignedIs(p + 3);
      assert (p + 10) / 8 * 8 == (p + 3 + 7) / 8 * 8;
      var data := StoredWritten(input, last, Aligned(p + 3), out);
      b := StoredBlock(data);
    } else if Peek(input, p + 1, 2) == 1 {
      var items := ItemsWritten(input, Code(FixedLit(), FixedDist(), last), p + 3, out);
      b := FixedBlock(items);
    } else {
      var nl, nd, ncl, cl, toks := HeaderWritten(input, last, p + 3, out);
      HeaderRead(input, last, p + 3, out, nl, nd, ncl, cl, toks);
      assert p + 3 + 14 + 3 * ncl == p + 17 + 3 * ncl;
      var items := ItemsWritten(input, DynamicCode(nl, toks, last), TokensEnd(cl, p + 17 + 3 * ncl, toks), out);
      b := DynamicBlock(nl, nd, ncl, cl, toks, items);
    }
  }

  /** A stream that is written as blocks reads as their contents. */
  lemma {:induction false} BlocksRead(input: seq<byte>, p: nat, out: seq<byte>, blocks: seq<Block>)
    requires BlocksAt(input, p, out, blocks)
    ensures Blocks(input, p, out, Strict) == Finished(BlocksEnd(p, blocks), Contents(out, blocks))
    decreases |blocks|
  {
    hide BlockAt, BlockEnd, Out, Blocks;
    BlockRead(input, p, |blocks| == 1, out, blocks[0]);
    if |blocks| > 1 {
      BlocksRead(input, BlockEnd(p, false, blocks[0]), Out(out, blocks[0]), blocks[1..]);
    } else {
      assert Contents(Out(out, blocks[0]), []) == Out(out, blocks[0]);
    }
  }

  lemma FinishedWithin(input: seq<byte>, p: nat, out: seq<byte>)
    requires Blocks(input, p, out, Strict).Finished?
    ensures p + 3 <= 8 * |input|
  {
    hide Peek, Codes, Stored, Dynamic;
  }

  lemma BlockAdvances(input: seq<byte>, p: nat, last: bool, out: seq<byte>, b: Block)
    requires BlockAt(input, p, last, out, b)
    ensures p < BlockEnd(p, last, b)
  {
    hide FieldAt, ItemsAt, HeaderAt, FixedLit, FixedDist, StoredAt, DynamicCode;
    match b
    case StoredBlock(_) => AlignedIs(p + 3);
    case FixedBlock(items) => ItemsAdvance(Code(FixedLit(), FixedDist(), last), p + 3, items);
    case DynamicBlock(nl, nd, ncl, cl, toks, items) =>
      TokensAdvance(cl, p + 17 + 3 * ncl, toks);
      ItemsAdvance(DynamicCode(nl, toks, last), TokensEnd(cl, p + 17 + 3 * ncl, toks), items);
  }

  lemma {:induction false} ItemsAdvance(cd: Code, p: nat, items: seq<Item>)
    ensures p <= ItemsEnd(cd, p, items)
    decreases |items|
  {
    if items != [] { ItemsAdvance(cd, ItemEnd(cd, p, items[0]), items[1..]); }
  }

  lemma {:induction false} TokensAdvance(cl: seq<nat>, p: nat, toks: seq<LengthToken>)
    ensures p <= TokensEnd(cl, p, toks)
    decreases |toks|
  {
    if toks != [] { TokensAdvance(cl, TokenEnd(cl, p, toks[0]), toks[1..]); }
  }

  /** And a stream that can be read to its end is written so. */
  lemma {:induction false} BlocksWritten(input: seq<byte>, p: nat, out: seq<byte>) returns (blocks: seq<Block>)
    requires Blocks(input, p, out, Strict).Finished?
    ensures BlocksAt(input, p, out, blocks)
    decreases Left(input, p)
  {
    hide BlockAt, BlockEnd, Out, Blocks;
    FinishedWithin(input, p, out);
    var last, b := BlockWritten(input, p, out);
    BlockRead(input, p, last, out, b);
    BlockAdvances(input, p, last, out, b);
    if last {
      blocks := [b];
    } else {
      blocks := BlocksWritten(input, BlockEnd(p, false, b), Out(out, b));
      blocks := [b] + blocks;
      assert blocks[1..] == blocks[1..] && |blocks| > 1;
    }
  }

  /** The strict reader takes exactly the streams that are written as RFC 1951 has it. */
  lemma ReadIffWritten(data: seq<byte>)
    ensures Inflate(data, [], Strict).Finished? <==> exists blocks :: BlocksAt(data, 0, [], blocks)
    ensures forall blocks :: BlocksAt(data, 0, [], blocks) ==>
              Inflate(data, [], Strict) == Finished(BlocksEnd(0, blocks), Contents([], blocks))
  {
    hide BlocksAt, Blocks, BlocksEnd, Contents;
    forall blocks | BlocksAt(data, 0, [], blocks)
      ensures Inflate(data, [], Strict) == Finished(BlocksEnd(0, blocks), Contents([], blocks))
    {
      BlocksRead(data, 0, [], blocks);
    }
    if Inflate(data, [], Strict).Finished? { var blocks := BlocksWritten(data, 0, []); }
  }
}
