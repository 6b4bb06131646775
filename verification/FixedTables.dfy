/** The fixed codes: their codewords, and their tables, given by what they must decode rather than as literal data. */
module FixedTables {
  import opened Bits
  import opened Canonical
  import opened HuftTable
  import opened Deflate

  /** The entry that stands for symbol s, whose codeword has len bits. */
  function LeafEntry(tr: Tree, s: nat, len: nat): Huft
    requires tr.Valid() && s < |tr.lens|
  {
    if s < tr.simple then Huft(if s < 256 then 0 else EOB_OP, len, s)
    else Huft(tr.extra[s - tr.simple] + 80, len, tr.bases[s - tr.simple])
  }

  /** Entry i of a one-level table: the leaf of the codeword that the bits of i start with. */
  function OneLevelEntry(tr: Tree, i: nat): Huft
    requires tr.Valid()
  {
    match Decode(tr.lens, i)
    case Some(c) => LeafEntry(tr, c.sym, c.len)
    case None => Huft(INVALID_OP, Longest(tr.lens), 0)
  }

  function OneLevel(tr: Tree, n: nat): (T: seq<Huft>)
    requires tr.Valid()
    ensures |T| == Pow2(n)
    ensures forall i :: 0 <= i < |T| ==> T[i] == OneLevelEntry(tr, i)
  {
    seq(Pow2(n), i requires i >= 0 => OneLevelEntry(tr, i))
  }

  lemma MatchesLow(lens: seq<nat>, s: nat, v: nat, n: nat)
    requires Longest(lens) <= n
    ensures Matches(lens, s, Low(v, n)) == Matches(lens, s, v)
  {
    if s < |lens| { RevLow(lens[s], v, n); }
  }

  /** Only the first n bits matter when no codeword is longer. */
  lemma DecodeLow(lens: seq<nat>, v: nat, n: nat)
    requires Longest(lens) <= n
    ensures Decode(lens, Low(v, n)) == Decode(lens, v)
  {
    DecodeFromSound(lens, v, 1);
    DecodeFromSound(lens, Low(v, n), 1);
    if Decode(lens, v).Some? {
      var s := Decode(lens, v).value.sym;
      MatchesLow(lens, s, v, n);
      MatchDecodes(lens, Low(v, n), s);
    } else if Decode(lens, Low(v, n)).Some? {
      var s := Decode(lens, Low(v, n)).value.sym;
      MatchesLow(lens, s, v, n);
      MatchDecodes(lens, v, s);
    }
  }

  lemma DecodedLength(lens: seq<nat>, v: nat)
    ensures Decode(lens, v).Some? ==>
              Decode(lens, v).value.sym < |lens| && 1 <= Decode(lens, v).value.len <= Longest(lens)
  {
    hide DecodeFrom;
    DecodeFromSound(lens, v, 1);
    if Decode(lens, v).Some? { assert lens[Decode(lens, v).value.sym] == Decode(lens, v).value.len; }
  }

  lemma OneLevelDecodes(tr: Tree, n: nat)
    requires tr.Valid() && 1 <= Longest(tr.lens) == n <= BMAX
    ensures Decodes(OneLevel(tr, n), 0, n, tr)
  {
    hide Longest, Decode, Low, Pow2, OneLevel;
    var T := OneLevel(tr, n);
    forall v: nat ensures DecodesOn(T, 0, n, tr, v) {
      LowBound(v, n);
      DecodeLow(tr.lens, v, n);
      DecodedLength(tr.lens, v);
      var i := Low(v, n);
      assert T[i] == OneLevelEntry(tr, i);
    }
  }

  function FixedTl(): seq<Huft> {
    FixedTreesValid();
    OneLevel(LitTree(FixedLit()), 9)
  }

  function FixedTd(): seq<Huft> {
    FixedTreesValid();
    OneLevel(DistTree(FixedDist()), 5)
  }

  lemma FixedTreesValid()
    ensures LitTree(FixedLit()).Valid() && DistTree(FixedDist()).Valid()
  {
    hide LitTree, DistTree;
    LitTreeValid(FixedLit());
    DistTreeValid(FixedDist());
  }

  lemma FixedLengths()
    ensures Longest(FixedLit()) == RootBits(LBITS, FixedLit()) == 9
    ensures Longest(FixedDist()) == RootBits(DBITS, FixedDist()) == 5
    ensures !NoCodes(FixedLit()) && !NoCodes(FixedDist())
  {
    assert FixedLit()[144] == 9 && FixedLit()[256] == 7 && FixedDist()[0] == 5;
  }

  lemma FixedTablesDecode()
    ensures LitTree(FixedLit()).Valid() && DistTree(FixedDist()).Valid()
    ensures Decodes(FixedTl(), 0, 9, LitTree(FixedLit()))
    ensures Decodes(FixedTd(), 0, 5, DistTree(FixedDist()))
  {
    hide FixedLit, FixedDist, Longest, Decodes, LitTree, DistTree;
    FixedTreesValid();
    FixedLengths();
    OneLevelDecodes(LitTree(FixedLit()), 9);
    OneLevelDecodes(DistTree(FixedDist()), 5);
  }

  // ----- the fixed codewords (section 3.2.6 of RFC 1951) -----

  /** How many of the first i symbols of the fixed literal/length code have k bits. */
  lemma {:induction false} FixedCounts(i: nat)
    requires i <= 288
    ensures Count(FixedLit()[..i], 7) == if i <= 256 then 0 else if i <= 280 then i - 256 else 24
    ensures Count(FixedLit()[..i], 8) == if i <= 144 then i else if i <= 280 then 144 else i - 136
    ensures Count(FixedLit()[..i], 9) == if i <= 144 then 0 else if i <= 256 then i - 144 else 112
    ensures forall k :: 0 <= k < 7 ==> Count(FixedLit()[..i], k) == 0
  {
    if i > 0 {
      FixedCounts(i - 1);
      var l := FixedLit()[..i];
      assert l[..|l| - 1] == FixedLit()[..i - 1];
    }
  }

  lemma FirstCodes(lens: seq<nat>)
    requires forall k :: 0 <= k < 7 ==> Count(lens, k) == 0
    ensures FirstCode(lens, 7) == 0 && FirstCode(lens, 8) == 2 * Count(lens, 7)
    ensures FirstCode(lens, 9) == 2 * (2 * Count(lens, 7) + Count(lens, 8))
  {
    hide Count;
    assert FirstCode(lens, 1) == FirstCode(lens, 3) == FirstCode(lens, 5) == 0;
    assert FirstCode(lens, 7) == 0;
  }

  /** From 00110000, 110010000, 0000000 and 11000000 on. */
  lemma FixedCode(s: nat)
    requires s < 288
    ensures |FixedLit()| == 288
    ensures FixedLit()[s] == if s < 144 then 8 else if s < 256 then 9 else if s < 280 then 7 else 8
    ensures CodeOf(FixedLit(), s)
         == if s < 144 then 48 + s else if s < 256 then 400 + (s - 144)
            else if s < 280 then s - 256 else 192 + (s - 280)
  {
    hide Count, FirstCode;
    FixedCounts(s);
    FixedCounts(288);
    assert FixedLit()[..288] == FixedLit();
    FirstCodes(FixedLit());
  }

  lemma {:induction false} DistCounts(i: nat, k: nat)
    requires i <= 32
    ensures Count(FixedDist()[..i], k) == if k == 5 then i else 0
  {
    if i > 0 {
      DistCounts(i - 1, k);
      var l := FixedDist()[..i];
      assert l[..|l| - 1] == FixedDist()[..i - 1];
    }
  }

  /** Five bits that are the distance code itself. */
  lemma FixedDistCode(s: nat)
    requires s < 32
    ensures |FixedDist()| == 32 && FixedDist()[s] == 5 && CodeOf(FixedDist(), s) == s
  {
    hide Count;
    var d := FixedDist();
    assert d[..32] == d;
    forall k: nat | k < 5 ensures Count(d, k) == 0 { DistCounts(32, k); }
    DistCounts(s, 5);
    assert FirstCode(d, 3) == 0;
    assert FirstCode(d, 5) == 0;
  }

  // ----- the example of section 3.2.2 of RFC 1951 -----

  const LETTERS: seq<nat> := [3, 3, 3, 3, 3, 2, 4, 4]

  lemma {:induction false} LettersCount(i: nat, k: nat)
    requires i <= 8
    ensures Count(LETTERS[..i], k) == if k == 2 then (if i >= 6 then 1 else 0)
                                      else if k == 3 then (if i <= 5 then i else 5)
                                      else if k == 4 then (if i <= 6 then 0 else i - 6) else 0
  {
    if i > 0 {
      LettersCount(i - 1, k);
      var l := LETTERS[..i];
      assert l[..|l| - 1] == LETTERS[..i - 1];
    }
  }

  /** The codewords of A to H: 010, 011, 100, 101, 110, 00, 1110, 1111. */
  lemma LetterCodes(s: nat)
    requires s < 8
    ensures CodeOf(LETTERS, s) == [0x2, 0x3, 0x4, 0x5, 0x6, 0x0, 0xe, 0xf][s]
  {
    hide Count;
    assert LETTERS[..8] == LETTERS;
    LettersCount(8, 1);
    LettersCount(8, 2);
    LettersCount(8, 3);
    assert FirstCode(LETTERS, 2) == 0 && FirstCode(LETTERS, 3) == 2 && FirstCode(LETTERS, 4) == 14;
    LettersCount(s, LETTERS[s]);
  }
}
