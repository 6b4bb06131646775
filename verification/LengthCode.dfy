/** The code lengths of a dynamic block (section 3.2.7 of RFC 1951): what the repeat codes fill in, and when the
    decoder's bit-length symbols are those of the code. */
module LengthCode {
  import opened Bits
  import opened Wrappers
  import opened Canonical
  import opened HuftBuild
  import opened Deflate

  /** Reading the lengths runs out of input, or fails, or fills exactly the announced number of entries, adding to those
      already there without changing them; what is filled in are lengths, never repeat codes. */
  lemma {:induction false} FillsExactly(input: seq<byte>, hd: Header, cl: seq<nat>, lens: seq<nat>, pos: nat,
      hist: seq<byte>)
      returns (full: seq<nat>, p: nat)
    requires |lens| <= hd.nl + hd.nd && |cl| == 19 && ValidLengths(lens)
    ensures var o := Lengths(input, hd, cl, lens, pos, hist);
            o == Starved(hist) || o == Corrupt(hist) || o == Trees(input, hd, full, p, hist)
    ensures lens <= full && |full| == hd.nl + hd.nd && ValidLengths(full)
    decreases Left(input, pos)
  {
    hide BitLengthSymbol, Peek, Trees;
    full, p := if |lens| == hd.nl + hd.nd then lens else lens + Repeat(0, hd.nl + hd.nd - |lens|), pos;
    if |lens| < hd.nl + hd.nd {
      match BitLengthSymbol(cl, input, pos)
      case Got(s, pos') =>
        if s < 16 {
          full, p := FillsExactly(input, hd, cl, lens + [s], pos', hist);
        } else {
          var get, least := if s == 18 then 7 else s - 14, if s == 18 then 11 else 3;
          if pos' + get <= 8 * |input| {
            var n := least + Peek(input, pos', get);
            if |lens| + n <= hd.nl + hd.nd && !(s == 16 && |lens| == 0) {
              var v := if s == 16 then lens[|lens| - 1] else 0;
              full, p := FillsExactly(input, hd, cl, lens + Repeat(v, n), pos' + get, hist);
            }
          }
        }
      case _ =>
    }
  }

  /** A repeat code that has been read fills in 3 to 6 copies of the previous length, or 3 to 10 or 11 to 138 zeros, as
      the 2, 3 or 7 bits behind it say. It must have a length before it, and no more may come out than announced. */
  lemma RepeatCounts(input: seq<byte>, hd: Header, cl: seq<nat>, lens: seq<nat>, pos: nat, s: nat, p: nat,
      hist: seq<byte>, how: Reading)
    requires BitLengthSymbol(cl, input, pos, how) == Got(s, p) && 16 <= s <= 18 && |lens| < hd.nl + hd.nd
    ensures var bits := if s == 16 then 2 else if s == 17 then 3 else 7;
            var n := if s == 16 then 3 + Peek(input, p, 2) else if s == 17 then 3 + Peek(input, p, 3)
                     else 11 + Peek(input, p, 7);
            && (if s == 16 then 3 <= n <= 6 else if s == 17 then 3 <= n <= 10 else 11 <= n <= 138)
            && Lengths(input, hd, cl, lens, pos, hist, how) ==
               if p + bits > 8 * |input| then Starved(hist)
               else if |lens| + n > hd.nl + hd.nd || (s == 16 && lens == []) then Corrupt(hist)
               else Lengths(input, hd, cl, lens + seq(n, _ => if s == 16 then lens[|lens| - 1] else 0), p + bits,
                        hist, how)
  {
    hide Trees, Peek, BitLengthSymbol;
    CountRange(input, p);
    var n := if s == 16 then 3 + Peek(input, p, 2) else if s == 17 then 3 + Peek(input, p, 3)
             else 11 + Peek(input, p, 7);
    if s == 16 && lens == [] {
    } else {
      var v := if s == 16 then lens[|lens| - 1] else 0;
      assert Repeat(v, n) == seq(n, _ => if s == 16 then lens[|lens| - 1] else 0);
    }
  }

  lemma CountRange(input: seq<byte>, p: nat)
    ensures Peek(input, p, 2) < 4 && Peek(input, p, 3) < 8 && Peek(input, p, 7) < 128
  {
    LowBound(Rest(input, p), 2);
    LowBound(Rest(input, p), 3);
    LowBound(Rest(input, p), 7);
    assert Pow2(2) == 4 && Pow2(3) == 8 && Pow2(7) == 128;
  }

  lemma LoneOdd(cl: seq<nat>, k: nat)
    requires Longest(cl) == 1 && Count(cl, 1) == 1 && 1 <= k <= BMAX + 1
    requires forall j :: j > 1 ==> Count(cl, j) == 0
    ensures DecodeFrom(cl, 255, k) == None
    decreases BMAX + 1 - k
  {
    if k <= BMAX {
      if k == 1 { assert Rev(1, 255) == 1; }
      LoneOdd(cl, k + 1);
    }
  }

  /** The decoder takes the symbols of the bit-length code, on every input, exactly if that code is complete. The one
      incomplete code that is accepted, a lone codeword of one bit, is taken for both values of that bit. */
  lemma BitLengthSymbolsExact(cl: seq<nat>)
    requires |cl| == 19 && ValidLengths(cl) && Verdict(cl) == Ok && !NoCodes(cl)
    ensures Complete(cl) <==>
              forall input, pos, how {:trigger BitLengthSymbol(cl, input, pos, how)} ::
                BitLengthSymbol(cl, input, pos, how) == NextSymbol(cl, BBITS, input, pos, how)
  {
    hide Decode, OverSubscribed, Complete;
    CompleteIffTotal(cl);
    if !Complete(cl) {
      LoneWitness(cl);
    }
  }

  lemma LoneWitness(cl: seq<nat>)
    requires |cl| == 19 && ValidLengths(cl) && Verdict(cl) == Ok && !NoCodes(cl) && !Complete(cl)
    ensures BitLengthSymbol(cl, [255], 0, Lookups) != NextSymbol(cl, BBITS, [255], 0, Lookups)
  {
    LongestCount(cl);
    LoneCount(cl);
    LoneOdd(cl, 1);
    assert StreamVal([255][1..]) == 0;
    assert Rest([255], 0) == 255;
  }

  lemma LoneCount(cl: seq<nat>)
    requires Longest(cl) == 1 && Count(cl, 1) > 0 && !OverSubscribed(cl) && !Complete(cl)
    requires forall j :: j > 1 ==> Count(cl, j) == 0
    ensures Count(cl, 1) == 1
  {
    UsedFlatAfter(cl, BMAX);
    Pow2Add(1, BMAX - 1);
    if Count(cl, 1) >= 2 { ShlMono(2, Count(cl, 1), BMAX - 1); }
  }

  lemma UsedFlatAfter(cl: seq<nat>, k: nat)
    requires 1 <= k <= BMAX && forall j :: j > 1 ==> Count(cl, j) == 0
    ensures Used(cl, k) == Shl(Count(cl, 1), BMAX - 1)
  {
    if k > 1 {
      UsedFlatAfter(cl, k - 1);
      ShlOne(BMAX - k);
    }
  }

  /** Such a code: the symbol 0 with one bit, and no other. */
  function LoneZero(): seq<nat> { [1] + Repeat(0, 18) }

  lemma {:induction false} LoneZeroCount(n: nat, k: nat)
    requires 1 <= n <= 19 && k > 0
    ensures Count(LoneZero()[..n], k) == if k == 1 then 1 else 0
  {
    var l := LoneZero()[..n];
    assert l[|l| - 1] == if n == 1 then 1 else 0;
    if n == 1 {
      assert l[..0] == [];
    } else {
      LoneZeroCount(n - 1, k);
      assert l[..n - 1] == LoneZero()[..n - 1];
    }
  }

  lemma LoneZeroCode()
    ensures var cl := LoneZero();
            && |cl| == 19 && ValidLengths(cl) && Verdict(cl) == Ok && !NoCodes(cl) && !Complete(cl) && Longest(cl) == 1
            && (forall k :: k > 0 ==> Count(cl, k) == if k == 1 then 1 else 0)
  {
    hide LoneZero, Count, Shl, Pow2;
    var cl := LoneZero();
    LoneZeroShape();
    forall k: nat | k > 0 ensures Count(cl, k) == if k == 1 then 1 else 0 {
      LoneZeroCount(19, k);
      assert cl[..19] == cl;
    }
    assert cl[0] == 1;
    UsedFlatAfter(cl, BMAX);
    ShlOne(BMAX - 1);
    Pow2Mono(BMAX - 1, BMAX);
  }

  /** It is accepted, though incomplete, and the decoder then reads a symbol where the code has none. */
  lemma LoneZeroOdd()
    ensures var cl := LoneZero();
            && |cl| == 19 && Verdict(cl) == Ok && !NoCodes(cl) && !Complete(cl)
            && BitLengthSymbol(cl, [255], 0, Lookups) == Got(0, 1) && NextSymbol(cl, BBITS, [255], 0, Lookups) == Bad
  {
    hide LoneZero, Count, Verdict, NoCodes, Complete, SymAt, DecodeFrom, Longest, RootBits;
    var cl := LoneZero();
    LoneZeroCode();
    LoneZeroShape();
    LoneOdd(cl, 1);
    assert StreamVal([255][1..]) == 0;
    assert Rest([255], 0) == 255;
    SymAtRank(cl, 0);
    assert cl[0] == 1;
    FirstOfAll(cl);
  }

  lemma FirstOfAll(cl: seq<nat>)
    requires |cl| > 0
    ensures Count(cl[..0], cl[0]) == 0
  {}

  lemma LoneZeroShape()
    ensures |LoneZero()| == 19 && forall i :: 0 <= i < 19 ==> LoneZero()[i] == if i == 0 then 1 else 0
  {}
}
