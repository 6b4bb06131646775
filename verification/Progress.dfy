/** The reference decoder only ever appends and only ever moves on: what has been decoded at any point is a prefix of
    the whole. */
module Progress {
  import opened Bits
  import opened Canonical
  import opened Deflate

  /** The outcome keeps all that was there, and if it is reached at all, it is reached no earlier than at pos. */
  predicate Onward(o: Outcome, pos: nat, hist: seq<byte>) {
    hist <= o.hist && (o.Finished? ==> pos <= o.pos)
  }

  lemma TokenExtends(input: seq<byte>, cd: Code, pos: nat, hist: seq<byte>, how: Reading := Lookups)
    ensures var st := Token(input, cd, pos, hist, how); st.More? ==> hist <= st.hist
  {}

  lemma {:induction false} CodesExtends(input: seq<byte>, cd: Code, pos: nat, hist: seq<byte>, how: Reading := Lookups)
    ensures Onward(Codes(input, cd, pos, hist, how), pos + 1, hist)
    decreases Left(input, pos), 3
  {
    TokenExtends(input, cd, pos, hist, how);
    hide Token;
    match Token(input, cd, pos, hist, how)
    case Ends(pos') => EndExtends(input, cd.last, pos', hist, how);
    case More(pos', hist') => CodesExtends(input, cd, pos', hist', how);
    case _ =>
  }

  lemma {:induction false} EndExtends(input: seq<byte>, last: bool, pos: nat, hist: seq<byte>, how: Reading := Lookups)
    ensures Onward(EndOfBlock(input, last, pos, hist, how), pos, hist)
    decreases Left(input, pos), 2
  {
    if !last { BlocksExtends(input, pos, hist, how); }
  }

  lemma {:induction false} BlocksExtends(input: seq<byte>, pos: nat, hist: seq<byte>, how: Reading := Lookups)
    ensures Onward(Blocks(input, pos, hist, how), pos, hist)
    decreases Left(input, pos), 1
  {
    hide Peek, FixedLit, FixedDist, Codes, Stored, Dynamic;
    if pos + 3 <= 8 * |input| {
      var last, kind := Peek(input, pos, 1) == 1, Peek(input, pos + 1, 2);
      if kind == 0 {
        StoredExtends(input, last, (pos + 10) / 8 * 8, hist, how);
      } else if kind == 1 {
        CodesExtends(input, Code(FixedLit(), FixedDist(), last), pos + 3, hist, how);
      } else if kind == 2 {
        DynamicExtends(input, last, pos + 3, hist, how);
      }
    }
  }

  lemma {:induction false} StoredExtends(input: seq<byte>, last: bool, pos: nat, hist: seq<byte>,
      how: Reading := Lookups)
    ensures Onward(Stored(input, last, pos, hist, how), pos, hist)
    decreases Left(input, pos), 9
  {
    if pos + 32 <= 8 * |input| {
      StoredBytesExtends(input, last, Peek(input, pos, 16), pos + 32, hist, how);
    }
  }

  lemma {:induction false} StoredBytesExtends(input: seq<byte>, last: bool, left: nat, pos: nat, hist: seq<byte>,
      how: Reading := Lookups)
    ensures Onward(StoredBytes(input, last, left, pos, hist, how), pos, hist)
    decreases Left(input, pos), 4
  {
    hide EndOfBlock;
    var p := pos / 8;
    if left == 0 {
      EndExtends(input, last, pos, hist, how);
    } else if p + left <= |input| {
      EndExtends(input, last, pos + 8 * left, hist + input[p..p + left], how);
    }
  }

  lemma {:induction false} DynamicExtends(input: seq<byte>, last: bool, pos: nat, hist: seq<byte>,
      how: Reading := Lookups)
    ensures Onward(Dynamic(input, last, pos, hist, how), pos, hist)
    decreases Left(input, pos), 13
  {
    hide Peek, BitLengths;
    if pos + 14 <= 8 * |input| {
      var hlit, hdist, hclen := Peek(input, pos, 5), Peek(input, pos + 5, 5), Peek(input, pos + 10, 4);
      BitLengthsExtends(input, Header(257 + hlit, 1 + hdist, 4 + hclen, last), 0, Repeat(0, 19), pos + 14, hist, how);
    }
  }

  lemma {:induction false} BitLengthsExtends(input: seq<byte>, hd: Header, index: nat, cl: seq<nat>, pos: nat,
      hist: seq<byte>, how: Reading := Lookups)
    ensures Onward(BitLengths(input, hd, index, cl, pos, hist, how), pos, hist)
    decreases Left(input, pos), 12, 19 - index
  {
    hide Peek, Verdict, NoCodes, Lengths;
    if |cl| == 19 && index < hd.ncl && index < 19 {
      if pos + 3 <= 8 * |input| {
        BitLengthsExtends(input, hd, index + 1, cl[BORDER[index] := Peek(input, pos, 3)], pos + 3, hist, how);
      }
    } else {
      LengthsExtends(input, hd, cl, [], pos, hist, how);
    }
  }

  lemma {:induction false} LengthsExtends(input: seq<byte>, hd: Header, cl: seq<nat>, lens: seq<nat>, pos: nat,
      hist: seq<byte>, how: Reading := Lookups)
    ensures Onward(Lengths(input, hd, cl, lens, pos, hist, how), pos, hist)
    decreases Left(input, pos), 11
  {
    hide Peek, BitLengthSymbol, Repeat;
    if |lens| >= hd.nl + hd.nd {
      TreesExtends(input, hd, lens, pos, hist, how);
    } else {
      match BitLengthSymbol(cl, input, pos, how)
      case Got(s, pos') =>
        if s < 16 {
          LengthsExtends(input, hd, cl, lens + [s], pos', hist, how);
        } else {
          var get, least := if s == 18 then 7 else s - 14, if s == 18 then 11 else 3;
          if pos' + get <= 8 * |input| && !(s == 16 && |lens| == 0) {
            var n := least + Peek(input, pos', get);
            var c := if s == 16 then lens[|lens| - 1] else 0;
            LengthsExtends(input, hd, cl, lens + Repeat(c, n), pos' + get, hist, how);
          }
        }
      case _ =>
    }
  }

  lemma {:induction false} TreesExtends(input: seq<byte>, hd: Header, lens: seq<nat>, pos: nat, hist: seq<byte>,
      how: Reading := Lookups)
    ensures Onward(Trees(input, hd, lens, pos, hist, how), pos, hist)
    decreases Left(input, pos), 10
  {
    hide LitOK, DistOK, Codes;
    if |lens| == hd.nl + hd.nd {
      CodesExtends(input, Code(lens[..hd.nl], lens[hd.nl..], hd.last), pos, hist, how);
    }
  }
}
