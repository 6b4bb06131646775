/** The two ways of reading a stream compared: reading by lookups gives the same outcome as reading bit by bit, except
    that it may run out of input shortly before the end. */
module Readings {
  import opened Bits
  import opened Canonical
  import opened CodeSpace
  import opened Deflate
  import opened Progress
  import opened InflateTrees
  import opened FixedTables

  /** The codes of a block: no lookup takes more than 9 bits. */
  predicate Bounded(cd: Code) {
    RootBits(LBITS, cd.lit) <= 9 && RootBits(DBITS, cd.dist) <= 9
  }

  // ----- one symbol -----

  /** A lookup may want bits beyond the codeword, but no more than 8 of them. */
  lemma SymbolReadings(lens: seq<nat>, m: nat, input: seq<byte>, pos: nat)
    requires m >= 1 && RootBits(m, lens) <= 9
    ensures var t, p := NextSymbol(lens, m, input, pos, Lookups), NextSymbol(lens, m, input, pos, BitByBit);
            t == p || (t.Short? && p.Got? && 8 * |input| < p.pos + 8)
  {
    hide Rest, Longest, Shortest, DecodeFrom, RootBits, Lookahead;
    var v := Rest(input, pos);
    if Decode(lens, v).Some? {
      UsableRoot(lens, m, v);
      LookaheadBound(lens, RootBits(m, lens), v, Decode(lens, v).value.len);
    }
  }

  lemma LookaheadBound(lens: seq<nat>, l: nat, v: nat, len: nat)
    requires 1 <= l && 1 <= len <= BMAX
    ensures Lookahead(lens, l, v, len, 0) < len + l
  {}

  /** The symbol at a position, read bit by bit, ends close to the end of the input. */
  predicate Late(input: seq<byte>, st: Step) {
    st.More? || st.Ends? ==> 8 * |input| < st.pos + 8
  }

  lemma DistanceReadings(input: seq<byte>, cd: Code, len: nat, pos: nat, hist: seq<byte>)
    requires Bounded(cd)
    ensures var t, p := Distance(input, cd, len, pos, hist, Lookups), Distance(input, cd, len, pos, hist, BitByBit);
            t == p || (t == NoInput && Late(input, p))
  {
    hide NextSymbol, RootBits, Peek, Copied;
    SymbolReadings(cd.dist, DBITS, input, pos);
  }

  lemma TokenReadings(input: seq<byte>, cd: Code, pos: nat, hist: seq<byte>)
    requires Bounded(cd)
    ensures var t, p := Token(input, cd, pos, hist, Lookups), Token(input, cd, pos, hist, BitByBit);
            t == p || (t == NoInput && Late(input, p))
  {
    hide NextSymbol, RootBits, Peek, Distance;
    SymbolReadings(cd.lit, LBITS, input, pos);
    match NextSymbol(cd.lit, LBITS, input, pos, BitByBit)
    case Got(s, pos') =>
      if s > EOB && s - 257 < 29 {
        var get := CPLEXT[s - 257];
        DistanceReadings(input, cd, CPLENS[s - 257] + Peek(input, pos', get), pos' + get, hist);
        DistanceOnward(input, cd, CPLENS[s - 257] + Peek(input, pos', get), pos' + get, hist);
      }
    case _ =>
  }

  lemma DistanceOnward(input: seq<byte>, cd: Code, len: nat, pos: nat, hist: seq<byte>)
    ensures var st := Distance(input, cd, len, pos, hist, BitByBit); st.More? || st.Ends? ==> pos <= st.pos
  {
    hide Distance;
  }

  // ----- whole streams -----

  /** Reading by lookups ran out of input at the symbol at `at`: read bit by bit, the rest of the stream from there on
      is at most a few more symbols. */
  predicate CutAt(input: seq<byte>, t: Outcome, p: Outcome, cd: Code, at: nat) {
    p == Codes(input, cd, at, t.hist, BitByBit) && Late(input, Token(input, cd, at, t.hist, BitByBit))
  }

  predicate Related(input: seq<byte>, t: Outcome, p: Outcome, cd: Code, at: nat) {
    t == p || (t.Starved? && t.hist <= p.hist && (p.Finished? ==> CutAt(input, t, p, cd, at)))
  }

  lemma {:induction false} CodesReadings(input: seq<byte>, cd: Code, pos: nat, hist: seq<byte>)
      returns (cd': Code, at: nat)
    requires Bounded(cd)
    ensures Related(input, Codes(input, cd, pos, hist, Lookups), Codes(input, cd, pos, hist, BitByBit), cd', at)
    decreases Left(input, pos), 3
  {
    hide Token, Bounded, EndOfBlock;
    cd', at := cd, pos;
    TokenReadings(input, cd, pos, hist);
    if Token(input, cd, pos, hist, Lookups) != Token(input, cd, pos, hist, BitByBit) {
      CodesExtends(input, cd, pos, hist, BitByBit);
    } else {
      match Token(input, cd, pos, hist, BitByBit)
      case Ends(pos') => cd', at := EndReadings(input, cd.last, pos', hist);
      case More(pos', hist') => cd', at := CodesReadings(input, cd, pos', hist');
      case _ =>
    }
  }

  lemma {:induction false} EndReadings(input: seq<byte>, last: bool, pos: nat, hist: seq<byte>)
      returns (cd': Code, at: nat)
    ensures Related(input, EndOfBlock(input, last, pos, hist, Lookups),
                    EndOfBlock(input, last, pos, hist, BitByBit), cd', at)
    decreases Left(input, pos), 2
  {
    hide CutAt;
    cd', at := Code([], [], false), 0;
    if !last { cd', at := BlocksReadings(input, pos, hist); }
  }

  lemma FixedBounded(last: bool)
    ensures Bounded(Code(FixedLit(), FixedDist(), last))
  {
    hide RootBits, FixedLit, FixedDist, Longest;
    FixedLengths();
  }

  lemma {:induction false} BlocksReadings(input: seq<byte>, pos: nat, hist: seq<byte>) returns (cd': Code, at: nat)
    ensures Related(input, Blocks(input, pos, hist, Lookups), Blocks(input, pos, hist, BitByBit), cd', at)
    decreases Left(input, pos), 1
  {
    hide Peek, FixedLit, FixedDist, Codes, Stored, Dynamic, CutAt, Bounded;
    cd', at := Code([], [], false), 0;
    if pos + 3 <= 8 * |input| {
      var last, kind := Peek(input, pos, 1) == 1, Peek(input, pos + 1, 2);
      if kind == 0 {
        cd', at := StoredReadings(input, last, (pos + 10) / 8 * 8, hist);
      } else if kind == 1 {
        FixedBounded(last);
        cd', at := CodesReadings(input, Code(FixedLit(), FixedDist(), last), pos + 3, hist);
      } else if kind == 2 {
        cd', at := DynamicReadings(input, last, pos + 3, hist);
      }
    }
  }

  lemma {:induction false} StoredReadings(input: seq<byte>, last: bool, pos: nat, hist: seq<byte>)
      returns (cd': Code, at: nat)
    ensures Related(input, Stored(input, last, pos, hist, Lookups), Stored(input, last, pos, hist, BitByBit), cd', at)
    decreases Left(input, pos), 9
  {
    hide Peek, EndOfBlock, CutAt;
    cd', at := Code([], [], false), 0;
    if pos + 32 <= 8 * |input| {
      var left, from := Peek(input, pos, 16), pos + 32;
      var p := from / 8;
      if left == 0 {
        cd', at := EndReadings(input, last, from, hist);
      } else if p + left <= |input| {
        cd', at := EndReadings(input, last, from + 8 * left, hist + input[p..p + left]);
      }
    }
  }

  lemma PeekBound(input: seq<byte>, pos: nat, n: nat)
    ensures Peek(input, pos, n) < Pow2(n)
  {
    LowBound(Rest(input, pos), n);
  }

  lemma {:induction false} DynamicReadings(input: seq<byte>, last: bool, pos: nat, hist: seq<byte>)
      returns (cd': Code, at: nat)
    ensures Related(input, Dynamic(input, last, pos, hist, Lookups), Dynamic(input, last, pos, hist, BitByBit), cd', at)
    decreases Left(input, pos), 13
  {
    hide Peek, BitLengths, CutAt;
    cd', at := Code([], [], false), 0;
    if pos + 14 <= 8 * |input| {
      var hlit, hdist, hclen := Peek(input, pos, 5), Peek(input, pos + 5, 5), Peek(input, pos + 10, 4);
      if hlit <= 29 && hdist <= 29 {
        var hd := Header(257 + hlit, 1 + hdist, 4 + hclen, last);
        cd', at := BitLengthsReadings(input, hd, 0, Repeat(0, 19), pos + 14, hist);
      }
    }
  }

  predicate ShortLengths(cl: seq<nat>) {
    |cl| == 19 && forall i :: 0 <= i < 19 ==> cl[i] <= 7
  }

  predicate AllowedHeader(hd: Header) {
    257 <= hd.nl <= 286 && 1 <= hd.nd <= 30
  }

  lemma {:induction false} BitLengthsReadings(input: seq<byte>, hd: Header, index: nat, cl: seq<nat>, pos: nat,
      hist: seq<byte>) returns (cd': Code, at: nat)
    requires ShortLengths(cl) && AllowedHeader(hd)
    ensures Related(input, BitLengths(input, hd, index, cl, pos, hist, Lookups),
                    BitLengths(input, hd, index, cl, pos, hist, BitByBit), cd', at)
    decreases Left(input, pos), 12, 19 - index
  {
    hide Peek, Verdict, NoCodes, Lengths, CutAt;
    cd', at := Code([], [], false), 0;
    if |cl| == 19 && index < hd.ncl && index < 19 {
      if pos + 3 <= 8 * |input| {
        PeekBound(input, pos, 3);
        assert Pow2(3) == 8;
        cd', at := BitLengthsReadings(input, hd, index + 1, cl[BORDER[index] := Peek(input, pos, 3)], pos + 3, hist);
      }
    } else {
      cd', at := LengthsReadings(input, hd, cl, [], pos, hist);
    }
  }

  lemma BitLengthReadings(cl: seq<nat>, input: seq<byte>, pos: nat)
    requires ShortLengths(cl)
    ensures var t, p := BitLengthSymbol(cl, input, pos, Lookups), BitLengthSymbol(cl, input, pos, BitByBit);
            t == p || (t.Short? && p.Got? && 8 * |input| < p.pos + 8)
  {
    hide NextSymbol, Decode, Rest, Longest, Shortest;
    BitRoot(cl);
    SymbolReadings(cl, BBITS, input, pos);
  }

  /** Where the symbols of the block start, if the lengths can be read to their end. */
  lemma {:induction false} LengthsLead(input: seq<byte>, hd: Header, cl: seq<nat>, lens: seq<nat>, pos: nat,
      hist: seq<byte>) returns (cd: Code, at: nat)
    requires Lengths(input, hd, cl, lens, pos, hist, BitByBit).Finished?
    ensures Lengths(input, hd, cl, lens, pos, hist, BitByBit) == Codes(input, cd, at, hist, BitByBit) && pos <= at
    decreases Left(input, pos)
  {
    hide Peek, BitLengthSymbol, Repeat, Codes, LitOK, DistOK;
    if |lens| >= hd.nl + hd.nd {
      cd, at := Code(lens[..hd.nl], lens[hd.nl..], hd.last), pos;
    } else {
      match BitLengthSymbol(cl, input, pos, BitByBit)
      case Got(s, pos') =>
        if s < 16 {
          cd, at := LengthsLead(input, hd, cl, lens + [s], pos', hist);
        } else {
          var get, least := if s == 18 then 7 else s - 14, if s == 18 then 11 else 3;
          var n := least + Peek(input, pos', get);
          var v := if s == 16 then lens[|lens| - 1] else 0;
          cd, at := LengthsLead(input, hd, cl, lens + Repeat(v, n), pos' + get, hist);
        }
    }
  }

  lemma LateFrom(input: seq<byte>, cd: Code, at: nat, hist: seq<byte>)
    requires 8 * |input| < at + 8
    ensures Late(input, Token(input, cd, at, hist, BitByBit))
  {
    hide Token;
  }

  /** Reading by lookups ran out of input at a bit-length symbol. */
  lemma LengthsCut(input: seq<byte>, hd: Header, cl: seq<nat>, lens: seq<nat>, pos: nat, hist: seq<byte>, pos': nat)
      returns (cd: Code, at: nat)
    requires BitLengthSymbol(cl, input, pos, BitByBit).Got? && |lens| < hd.nl + hd.nd
    requires BitLengthSymbol(cl, input, pos, BitByBit).pos == pos' && 8 * |input| < pos' + 8
    ensures Related(input, Starved(hist), Lengths(input, hd, cl, lens, pos, hist, BitByBit), cd, at)
  {
    hide BitLengthSymbol, Peek, Codes, Token, Repeat;
    cd, at := Code([], [], false), 0;
    LengthsExtends(input, hd, cl, lens, pos, hist, BitByBit);
    if Lengths(input, hd, cl, lens, pos, hist, BitByBit).Finished? {
      var s := BitLengthSymbol(cl, input, pos, BitByBit).sym;
      if s < 16 {
        cd, at := LengthsLead(input, hd, cl, lens + [s], pos', hist);
      } else {
        var get, least := if s == 18 then 7 else s - 14, if s == 18 then 11 else 3;
        var n := least + Peek(input, pos', get);
        var v := if s == 16 then lens[|lens| - 1] else 0;
        cd, at := LengthsLead(input, hd, cl, lens + Repeat(v, n), pos' + get, hist);
      }
      LateFrom(input, cd, at, hist);
    }
  }

  lemma {:induction false} LengthsReadings(input: seq<byte>, hd: Header, cl: seq<nat>, lens: seq<nat>, pos: nat,
      hist: seq<byte>) returns (cd': Code, at: nat)
    requires ShortLengths(cl) && AllowedHeader(hd) && ValidLengths(lens)
    ensures Related(input, Lengths(input, hd, cl, lens, pos, hist, Lookups),
                    Lengths(input, hd, cl, lens, pos, hist, BitByBit), cd', at)
    decreases Left(input, pos), 11
  {
    hide Peek, BitLengthSymbol, Repeat, CutAt, ShortLengths, Trees;
    cd', at := Code([], [], false), 0;
    if |lens| >= hd.nl + hd.nd {
      cd', at := TreesReadings(input, hd, lens, pos, hist);
    } else {
      BitLengthReadings(cl, input, pos);
      if BitLengthSymbol(cl, input, pos, Lookups) != BitLengthSymbol(cl, input, pos, BitByBit) {
        cd', at := LengthsCut(input, hd, cl, lens, pos, hist, BitLengthSymbol(cl, input, pos, BitByBit).pos);
      } else {
        match BitLengthSymbol(cl, input, pos, BitByBit)
        case Got(s, pos') =>
          if s < 16 {
            cd', at := LengthsReadings(input, hd, cl, lens + [s], pos', hist);
          } else {
            cd', at := RepeatReadings(input, hd, cl, lens, s, pos', hist);
          }
        case _ =>
      }
    }
  }

  /** What a repeat code does. */
  function Repeated(input: seq<byte>, hd: Header, cl: seq<nat>, lens: seq<nat>, s: nat, pos: nat, hist: seq<byte>,
      how: Reading): Outcome
    requires s >= 16
  {
    var get, least := if s == 18 then 7 else s - 14, if s == 18 then 11 else 3;
    if pos + get > 8 * |input| then Starved(hist)
    else
      var n := least + Peek(input, pos, get);
      if |lens| + n > hd.nl + hd.nd || (s == 16 && |lens| == 0) then Corrupt(hist)
      else
        var v := if s == 16 then lens[|lens| - 1] else 0;
        Lengths(input, hd, cl, lens + Repeat(v, n), pos + get, hist, how)
  }

  lemma RepeatedValid(lens: seq<nat>, v: nat, n: nat)
    requires ValidLengths(lens) && v <= BMAX
    ensures ValidLengths(lens + Repeat(v, n))
  {}

  lemma {:induction false} RepeatReadings(input: seq<byte>, hd: Header, cl: seq<nat>, lens: seq<nat>, s: nat, pos: nat,
      hist: seq<byte>) returns (cd': Code, at: nat)
    requires ShortLengths(cl) && AllowedHeader(hd) && ValidLengths(lens) && s >= 16
    ensures Related(input, Repeated(input, hd, cl, lens, s, pos, hist, Lookups),
                    Repeated(input, hd, cl, lens, s, pos, hist, BitByBit), cd', at)
    decreases Left(input, pos), 12
  {
    hide Peek, BitLengthSymbol, Repeat, CutAt, ShortLengths, Lengths;
    cd', at := Code([], [], false), 0;
    var get, least := if s == 18 then 7 else s - 14, if s == 18 then 11 else 3;
    if pos + get <= 8 * |input| {
      var n := least + Peek(input, pos, get);
      if |lens| + n <= hd.nl + hd.nd && !(s == 16 && |lens| == 0) {
        var v := if s == 16 then lens[|lens| - 1] else 0;
        RepeatedValid(lens, v, n);
        cd', at := LengthsReadings(input, hd, cl, lens + Repeat(v, n), pos + get, hist);
      }
    }
  }

  lemma TreesBounded(lit: seq<nat>, dist: seq<nat>, last: bool)
    requires ValidLengths(lit) && ValidLengths(dist) && |lit| <= 286 && |dist| <= 30
    requires LitOK(lit) && DistOK(dist, |lit|)
    ensures Bounded(Code(lit, dist, last))
  {
    assert Pow2(10) == 1024 && Pow2(7) == 128;
    hide Pow2, Longest, Shortest, Verdict, RootBits;
    RootFits(lit, LBITS);
    if NoCodes(dist) { EmptyRoot(dist, DBITS); } else { RootFits(dist, DBITS); }
  }

  lemma EmptyRoot(lens: seq<nat>, m: nat)
    requires NoCodes(lens)
    ensures RootBits(m, lens) == 0
  {}

  lemma {:induction false} TreesReadings(input: seq<byte>, hd: Header, lens: seq<nat>, pos: nat, hist: seq<byte>)
      returns (cd': Code, at: nat)
    requires AllowedHeader(hd) && ValidLengths(lens)
    ensures Related(input, Trees(input, hd, lens, pos, hist, Lookups), Trees(input, hd, lens, pos, hist, BitByBit),
        cd', at)
    decreases Left(input, pos), 10
  {
    hide LitOK, DistOK, Codes, CutAt, Bounded;
    cd', at := Code([], [], false), 0;
    if |lens| == hd.nl + hd.nd && LitOK(lens[..hd.nl]) && DistOK(lens[hd.nl..], hd.nl) {
      TreesBounded(lens[..hd.nl], lens[hd.nl..], hd.last);
      cd', at := CodesReadings(input, Code(lens[..hd.nl], lens[hd.nl..], hd.last), pos, hist);
    }
  }

  // ----- what may be missing -----

  lemma FixedAtLeast7(input: seq<byte>, pos: nat)
    ensures var r := NextSymbol(FixedLit(), LBITS, input, pos, BitByBit); r.Got? ==> pos + 7 <= r.pos
  {
    hide Rest, DecodeFrom;
    var v := Rest(input, pos);
    DecodeFromSound(FixedLit(), v, 1);
  }

  /** No block is shorter than 10 bits. */
  lemma BlockAtLeast10(input: seq<byte>, pos: nat, hist: seq<byte>)
    requires Blocks(input, pos, hist, BitByBit).Finished?
    ensures pos + 10 <= 8 * |input|
  {
    hide Peek, FixedLit, FixedDist, NextSymbol, StoredBytes, BitLengths, Symbol;
    if Peek(input, pos + 1, 2) == 1 { FixedAtLeast7(input, pos + 3); }
  }

  /** A symbol that moves on produces output. */
  lemma TokenProduces(input: seq<byte>, cd: Code, pos: nat, hist: seq<byte>)
    requires Token(input, cd, pos, hist, BitByBit).More?
    ensures |hist| < |Token(input, cd, pos, hist, BitByBit).hist|
  {
    hide NextSymbol, Peek, Copied;
  }

  /** The outcomes of the two readings. If reading by lookups runs out of input although the stream is complete, then
      the end of the stream lies within the last byte; the output so far is a prefix of the whole, and it is all of it
      exactly if the symbol at which the input ran out is the end of the last block. */
  lemma ReadingsRelate(input: seq<byte>, prior: seq<byte>) returns (cd: Code, at: nat)
    ensures var t, p := Inflate(input, prior, Lookups), Inflate(input, prior, BitByBit);
            t == p || (t.Starved? && t.hist <= p.hist)
    ensures var t, p := Inflate(input, prior, Lookups), Inflate(input, prior, BitByBit);
            t != p && p.Finished? ==>
              && 8 * |input| < p.pos + 8
              && p == Codes(input, cd, at, t.hist, BitByBit)
              && (t.hist == p.hist <==> Token(input, cd, at, t.hist, BitByBit).Ends?)
  {
    hide Blocks, Codes, Token;
    cd, at := BlocksReadings(input, 0, prior);
    var t, p := Inflate(input, prior, Lookups), Inflate(input, prior, BitByBit);
    if t != p && p.Finished? { CutEnds(input, cd, at, t.hist); }
  }

  lemma CutEnds(input: seq<byte>, cd: Code, at: nat, hist: seq<byte>)
    requires Codes(input, cd, at, hist, BitByBit).Finished? && Late(input, Token(input, cd, at, hist, BitByBit))
    ensures var p := Codes(input, cd, at, hist, BitByBit);
            8 * |input| < p.pos + 8 && (hist == p.hist <==> Token(input, cd, at, hist, BitByBit).Ends?)
  {
    hide Token, Blocks;
    match Token(input, cd, at, hist, BitByBit)
    case More(pos', hist') =>
      TokenProduces(input, cd, at, hist);
      CodesExtends(input, cd, pos', hist', BitByBit);
    case Ends(pos') =>
      EndExtends(input, cd.last, pos', hist, BitByBit);
      if !cd.last { BlockAtLeast10(input, pos', hist); }
  }
}
