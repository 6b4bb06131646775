/** Distances that reach back beyond the first byte of the output. A strict reader refuses them; the decoder copies what
    its window held before. For all other streams the contents of the window do not matter. */
module Distances {
  import opened Bits
  import opened Canonical
  import opened Deflate
  import opened Progress
  import opened Readings

  /** The same outcome with something before the output. */
  function Behind(prior: seq<byte>, o: Outcome): Outcome {
    match o
    case Finished(pos, h) => Finished(pos, prior + h)
    case Corrupt(h) => Corrupt(prior + h)
    case Starved(h) => Starved(prior + h)
  }

  function StepBehind(prior: seq<byte>, st: Step): Step {
    match st
    case More(pos, h) => More(pos, prior + h)
    case _ => st
  }

  // ----- one symbol -----

  /** A copy from within the output does not depend on what was there before. */
  lemma {:induction false} CopiedBehind(prior: seq<byte>, h: seq<byte>, len: nat, dist: nat)
    requires dist <= |h|
    ensures Copied(prior + h, len, dist) == prior + Copied(h, len, dist)
    decreases len
  {
    if len > 0 {
      var h' := h + [Back(h, dist)];
      assert prior + h + [Back(prior + h, dist)] == prior + h';
      CopiedBehind(prior, h', len - 1, dist);
    }
  }

  lemma SameSymbol(lens: seq<nat>, m: nat, input: seq<byte>, pos: nat)
    requires m >= 1
    ensures NextSymbol(lens, m, input, pos, Strict) == NextSymbol(lens, m, input, pos, BitByBit)
  {
    hide Rest, Decode, Longest;
  }

  /** The symbol means the same, or it is a copy from beyond the first byte. */
  predicate SameStep(prior: seq<byte>, h: seq<byte>, t: Step, p: Step) {
    p == StepBehind(prior, t) || (t.Invalid? && p.More?)
  }

  lemma DistanceBehind(input: seq<byte>, cd: Code, len: nat, pos: nat, prior: seq<byte>, h: seq<byte>)
    ensures SameStep(prior, h, Distance(input, cd, len, pos, h, Strict),
                     Distance(input, cd, len, pos, prior + h, BitByBit))
  {
    hide NextSymbol, Peek, Copied;
    SameSymbol(cd.dist, DBITS, input, pos);
    match NextSymbol(cd.dist, DBITS, input, pos, BitByBit)
    case Got(s, pos') =>
      if s < 30 {
        var dist := CPDIST[s] + Peek(input, pos', CPDEXT[s]);
        if dist <= |h| { CopiedBehind(prior, h, len, dist); }
      }
    case _ =>
  }

  lemma TokenBehind(input: seq<byte>, cd: Code, pos: nat, prior: seq<byte>, h: seq<byte>)
    ensures SameStep(prior, h, Token(input, cd, pos, h, Strict), Token(input, cd, pos, prior + h, BitByBit))
  {
    hide NextSymbol, Peek, Distance;
    SameSymbol(cd.lit, LBITS, input, pos);
    match NextSymbol(cd.lit, LBITS, input, pos, BitByBit)
    case Got(s, pos') =>
      if s < EOB {
        assert prior + h + [s as byte] == prior + (h + [s as byte]);
      } else if s > EOB && s - 257 < 29 {
        var get := CPLEXT[s - 257];
        DistanceBehind(input, cd, CPLENS[s - 257] + Peek(input, pos', get), pos' + get, prior, h);
      }
    case _ =>
  }

  // ----- whole streams -----

  /** The strict reader refuses the symbol at `at`, a copy from beyond the first byte, where the other goes on. */
  predicate FarCopy(input: seq<byte>, prior: seq<byte>, t: Outcome, p: Outcome, cd: Code, at: nat) {
    && t.Corrupt? && p == Codes(input, cd, at, prior + t.hist, BitByBit)
    && Token(input, cd, at, t.hist, Strict).Invalid? && Token(input, cd, at, prior + t.hist, BitByBit).More?
  }

  predicate SameOutcome(input: seq<byte>, prior: seq<byte>, t: Outcome, p: Outcome, cd: Code, at: nat) {
    p == Behind(prior, t) || FarCopy(input, prior, t, p, cd, at)
  }

  lemma {:induction false} CodesBehind(input: seq<byte>, cd: Code, pos: nat, prior: seq<byte>, h: seq<byte>)
      returns (cd': Code, at: nat)
    ensures SameOutcome(input, prior, Codes(input, cd, pos, h, Strict), Codes(input, cd, pos, prior + h, BitByBit),
                        cd', at)
    decreases Left(input, pos), 3
  {
    hide Token, EndOfBlock;
    cd', at := cd, pos;
    TokenBehind(input, cd, pos, prior, h);
    if Token(input, cd, pos, prior + h, BitByBit) == StepBehind(prior, Token(input, cd, pos, h, Strict)) {
      match Token(input, cd, pos, h, Strict)
      case Ends(pos') => cd', at := EndBehind(input, cd.last, pos', prior, h);
      case More(pos', h') => cd', at := CodesBehind(input, cd, pos', prior, h');
      case _ =>
    }
  }

  lemma {:induction false} EndBehind(input: seq<byte>, last: bool, pos: nat, prior: seq<byte>, h: seq<byte>)
      returns (cd': Code, at: nat)
    ensures SameOutcome(input, prior, EndOfBlock(input, last, pos, h, Strict),
                        EndOfBlock(input, last, pos, prior + h, BitByBit), cd', at)
    decreases Left(input, pos), 2
  {
    hide FarCopy;
    cd', at := Code([], [], false), 0;
    if !last { cd', at := BlocksBehind(input, pos, prior, h); }
  }

  lemma {:induction false} BlocksBehind(input: seq<byte>, pos: nat, prior: seq<byte>, h: seq<byte>)
      returns (cd': Code, at: nat)
    ensures SameOutcome(input, prior, Blocks(input, pos, h, Strict), Blocks(input, pos, prior + h, BitByBit), cd', at)
    decreases Left(input, pos), 1
  {
    hide Peek, FixedLit, FixedDist, Codes, Stored, Dynamic, FarCopy;
    cd', at := Code([], [], false), 0;
    if pos + 3 <= 8 * |input| {
      var last, kind := Peek(input, pos, 1) == 1, Peek(input, pos + 1, 2);
      if kind == 0 {
        cd', at := StoredBehind(input, last, (pos + 10) / 8 * 8, prior, h);
      } else if kind == 1 {
        cd', at := CodesBehind(input, Code(FixedLit(), FixedDist(), last), pos + 3, prior, h);
      } else if kind == 2 {
        cd', at := DynamicBehind(input, last, pos + 3, prior, h);
      }
    }
  }

  lemma {:induction false} StoredBehind(input: seq<byte>, last: bool, pos: nat, prior: seq<byte>, h: seq<byte>)
      returns (cd': Code, at: nat)
    ensures SameOutcome(input, prior, Stored(input, last, pos, h, Strict),
                        Stored(input, last, pos, prior + h, BitByBit), cd', at)
    decreases Left(input, pos), 9
  {
    hide Peek, EndOfBlock, FarCopy;
    cd', at := Code([], [], false), 0;
    if pos + 32 <= 8 * |input| {
      var left, from := Peek(input, pos, 16), pos + 32;
      var p := from / 8;
      if left == 0 {
        cd', at := EndBehind(input, last, from, prior, h);
      } else if p + left > |input| {
        assert prior + h + input[p..] == prior + (h + input[p..]);
      } else {
        assert prior + h + input[p..p + left] == prior + (h + input[p..p + left]);
        cd', at := EndBehind(input, last, from + 8 * left, prior, h + input[p..p + left]);
      }
    }
  }

  lemma {:induction false} DynamicBehind(input: seq<byte>, last: bool, pos: nat, prior: seq<byte>, h: seq<byte>)
      returns (cd': Code, at: nat)
    ensures SameOutcome(input, prior, Dynamic(input, last, pos, h, Strict),
                        Dynamic(input, last, pos, prior + h, BitByBit), cd', at)
    decreases Left(input, pos), 13
  {
    hide Peek, BitLengths, FarCopy;
    cd', at := Code([], [], false), 0;
    if pos + 14 <= 8 * |input| {
      var hlit, hdist, hclen := Peek(input, pos, 5), Peek(input, pos + 5, 5), Peek(input, pos + 10, 4);
      if hlit <= 29 && hdist <= 29 {
        var hd := Header(257 + hlit, 1 + hdist, 4 + hclen, last);
        cd', at := BitLengthsBehind(input, hd, 0, Repeat(0, 19), pos + 14, prior, h);
      }
    }
  }

  lemma {:induction false} BitLengthsBehind(input: seq<byte>, hd: Header, index: nat, cl: seq<nat>, pos: nat,
      prior: seq<byte>, h: seq<byte>) returns (cd': Code, at: nat)
    ensures SameOutcome(input, prior, BitLengths(input, hd, index, cl, pos, h, Strict),
                        BitLengths(input, hd, index, cl, pos, prior + h, BitByBit), cd', at)
    decreases Left(input, pos), 12, 19 - index
  {
    hide Peek, Verdict, NoCodes, Lengths, FarCopy;
    cd', at := Code([], [], false), 0;
    if |cl| == 19 && index < hd.ncl && index < 19 {
      if pos + 3 <= 8 * |input| {
        var cl' := cl[BORDER[index] := Peek(input, pos, 3)];
        cd', at := BitLengthsBehind(input, hd, index + 1, cl', pos + 3, prior, h);
      }
    } else {
      cd', at := LengthsBehind(input, hd, cl, [], pos, prior, h);
    }
  }

  lemma SameBitLength(cl: seq<nat>, input: seq<byte>, pos: nat)
    ensures BitLengthSymbol(cl, input, pos, Strict) == BitLengthSymbol(cl, input, pos, BitByBit)
  {
    hide NextSymbol, Decode, Rest;
    SameSymbol(cl, BBITS, input, pos);
  }

  lemma {:induction false} LengthsBehind(input: seq<byte>, hd: Header, cl: seq<nat>, lens: seq<nat>, pos: nat,
      prior: seq<byte>, h: seq<byte>) returns (cd': Code, at: nat)
    ensures SameOutcome(input, prior, Lengths(input, hd, cl, lens, pos, h, Strict),
                        Lengths(input, hd, cl, lens, pos, prior + h, BitByBit), cd', at)
    decreases Left(input, pos), 11
  {
    hide Peek, BitLengthSymbol, Repeat, FarCopy, Trees;
    cd', at := Code([], [], false), 0;
    if |lens| >= hd.nl + hd.nd {
      cd', at := TreesBehind(input, hd, lens, pos, prior, h);
    } else {
      SameBitLength(cl, input, pos);
      match BitLengthSymbol(cl, input, pos, BitByBit)
      case Got(s, pos') =>
        if s < 16 {
          cd', at := LengthsBehind(input, hd, cl, lens + [s], pos', prior, h);
        } else {
          var get, least := if s == 18 then 7 else s - 14, if s == 18 then 11 else 3;
          var n := least + Peek(input, pos', get);
          if pos' + get <= 8 * |input| && |lens| + n <= hd.nl + hd.nd && !(s == 16 && |lens| == 0) {
            var v := if s == 16 then lens[|lens| - 1] else 0;
            cd', at := LengthsBehind(input, hd, cl, lens + Repeat(v, n), pos' + get, prior, h);
          }
        }
      case _ =>
    }
  }

  lemma {:induction false} TreesBehind(input: seq<byte>, hd: Header, lens: seq<nat>, pos: nat, prior: seq<byte>,
      h: seq<byte>) returns (cd': Code, at: nat)
    ensures SameOutcome(input, prior, Trees(input, hd, lens, pos, h, Strict),
                        Trees(input, hd, lens, pos, prior + h, BitByBit), cd', at)
    decreases Left(input, pos), 10
  {
    hide LitOK, DistOK, Codes, FarCopy;
    cd', at := Code([], [], false), 0;
    if |lens| == hd.nl + hd.nd && LitOK(lens[..hd.nl]) && DistOK(lens[hd.nl..], hd.nl) {
      cd', at := CodesBehind(input, Code(lens[..hd.nl], lens[hd.nl..], hd.last), pos, prior, h);
    }
  }

  lemma FarProduces(input: seq<byte>, prior: seq<byte>, t: Outcome, p: Outcome, cd: Code, at: nat)
    requires FarCopy(input, prior, t, p, cd, at)
    ensures p != Behind(prior, t)
  {
    hide Token, EndOfBlock;
    var st := Token(input, cd, at, prior + t.hist, BitByBit);
    TokenProduces(input, cd, at, prior + t.hist);
    CodesExtends(input, cd, st.pos, st.hist, BitByBit);
  }

  /** What the window holds before the stream matters exactly if the stream copies from beyond its first byte, and
      then a strict reader refuses it there. */
  lemma PriorMatters(input: seq<byte>, prior: seq<byte>) returns (cd: Code, at: nat)
    ensures var t, p := Inflate(input, [], Strict), Inflate(input, prior, BitByBit);
            p != Behind(prior, t) <==> FarCopy(input, prior, t, p, cd, at)
  {
    hide Blocks, FarCopy;
    cd, at := BlocksBehind(input, 0, prior, []);
    assert prior + [] == prior;
    var t, p := Inflate(input, [], Strict), Inflate(input, prior, BitByBit);
    if FarCopy(input, prior, t, p, cd, at) { FarProduces(input, prior, t, p, cd, at); }
  }
}
