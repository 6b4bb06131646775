/** CodeTool::EncodeBase64 and CodeTool::DecodeBase64 (section 4 of RFC 4648). */
module Base64 {
  import opened Bits
  import opened Wrappers

  type ascii = c: int | 0 <= c < 128
  type sextet = v: int | 0 <= v < 64

  const PAD: ascii := 61 // '='

  // ----- the alphabet -----

  /** _base64_table */
  function Letter(v: sextet): ascii
  {
    if v < 26 then 65 + v
    else if v < 52 then 97 + v - 26
    else if v < 62 then 48 + v - 52
    else if v == 62 then 43 else 47
  }

  /** DecodeTable: white space is -1, everything else outside the alphabet -2. */
  function Value(c: ascii): (v: int)
    ensures -2 <= v < 64
  {
    if 65 <= c <= 90 then c - 65
    else if 97 <= c <= 122 then c - 97 + 26
    else if 48 <= c <= 57 then c - 48 + 52
    else if c == 43 then 62
    else if c == 47 then 63
    else if c == 9 || c == 10 || c == 13 || c == 32 then -1
    else -2
  }

  lemma {:induction false} LetterValue(c: ascii)
    ensures forall v: sextet :: Value(Letter(v)) == v && Letter(v) != PAD && Letter(v) != 0
    ensures Value(c) >= 0 ==> Letter(Value(c)) == c
  {}

  /** Table 1 of RFC 4648, eight letters a row. */
  const ALPHABET: seq<string> :=
    ["ABCDEFGH", "IJKLMNOP", "QRSTUVWX", "YZabcdef", "ghijklmn", "opqrstuv", "wxyz0123", "456789+/"]

  lemma AlphabetLetters(v: sextet)
    ensures |ALPHABET[v / 8]| == 8 && Letter(v) == ALPHABET[v / 8][v % 8] as int && PAD == '=' as int
  {
    if v < 8 {
    } else if v < 16 {
    } else if v < 24 {
    } else if v < 32 {
    } else if v < 40 {
    } else if v < 48 {
    } else if v < 56 {
    }
  }

  // ----- groups of bits -----

  /** The n digits of x in base 64, the most significant first. */
  function Digits(x: nat, n: nat): (d: seq<sextet>)
    ensures |d| == n
  {
    if n == 0 then [] else Digits(x / 64, n - 1) + [x % 64]
  }

  /** The bits of up to three bytes as one number, filled up with zero bits to a multiple of six. */
  function Three(x: nat, y: nat, z: nat): nat { 0x1_0000 * x + 256 * y + z }
  function Two(x: nat, y: nat): nat { 1024 * x + 4 * y }
  function One(x: nat): nat { 16 * x }

  /** The 6-bit values of three bytes, by shifting and masking. */
  function S0(x: byte): sextet
  {
    x / 4
  }

  function S1(x: byte, y: byte): sextet
  {
    x % 4 * 16 + y / 16
  }

  function S2(y: byte, z: byte): sextet
  {
    y % 16 * 4 + z / 64
  }

  function S3(z: byte): sextet
  {
    z % 64
  }

  /** The 6-bit values of one to three bytes. */
  function Group(t: seq<byte>): (v: seq<sextet>)
    requires 1 <= |t| <= 3
    ensures |v| == |t| + 1
  {
    if |t| == 3 then Digits(Three(t[0], t[1], t[2]), 4)
    else if |t| == 2 then Digits(Two(t[0], t[1]), 3)
    else Digits(One(t[0]), 2)
  }

  /** Where the last group of n bytes starts. */
  function LastGroup(n: nat): (m: nat)
    requires n > 0
    ensures m < n <= m + 3 && m % 3 == 0
  {
    (n - 1) / 3 * 3
  }

  /** The 6-bit values of b: three bytes make four; a last one or two bytes are filled up with zero bits. */
  function Sextets(b: seq<byte>): (v: seq<sextet>)
    ensures |v| == |b| / 3 * 4 + (if |b| % 3 == 0 then 0 else |b| % 3 + 1)
  {
    if |b| == 0 then []
    else
      var m := LastGroup(|b|);
      Sextets(b[..m]) + Group(b[m..])
  }

  function Letters(v: seq<sextet>): (s: seq<ascii>)
    ensures |s| == |v|
  {
    if |v| == 0 then [] else Letters(v[..|v| - 1]) + [Letter(v[|v| - 1])]
  }

  function Padding(n: nat): seq<ascii> {
    if n % 3 == 0 then [] else if n % 3 == 1 then [PAD, PAD] else [PAD]
  }

  /** The encoding of b. */
  function Encoded(b: seq<byte>): seq<ascii> {
    Letters(Sextets(b)) + Padding(|b|)
  }

  // ----- encoding -----

  lemma {:induction false} DigitStep(q: nat, d: sextet, n: nat)
    ensures Digits(64 * q + d, n + 1) == Digits(q, n) + [d]
  {
    assert (64 * q + d) / 64 == q && (64 * q + d) % 64 == d;
  }

  lemma {:induction false} ThreeDigits(x: byte, y: byte, z: byte)
    ensures Digits(Three(x, y, z), 4) == [S0(x), S1(x, y), S2(y, z), S3(z)]
  {
    var v0, v1, v2, v3: nat := x / 4, x % 4 * 16 + y / 16, y % 16 * 4 + z / 64, z % 64;
    hide Digits;
    DigitNone();
    DigitStep(0, v0, 0);
    DigitStep(v0, v1, 1);
    DigitStep(64 * v0 + v1, v2, 2);
    DigitStep(64 * (64 * v0 + v1) + v2, v3, 3);
    assert Three(x, y, z) == 64 * (64 * (64 * v0 + v1) + v2) + v3;
  }

  lemma {:induction false} DigitNone()
    ensures Digits(0, 0) == []
  {}

  lemma {:induction false} TwoDigits(x: byte, y: byte)
    ensures Digits(Two(x, y), 3) == [S0(x), S1(x, y), S2(y, 0)]
  {
    var v0, v1, v2: nat := x / 4, x % 4 * 16 + y / 16, y % 16 * 4;
    hide Digits;
    DigitNone();
    DigitStep(0, v0, 0);
    DigitStep(v0, v1, 1);
    DigitStep(64 * v0 + v1, v2, 2);
    assert Two(x, y) == 64 * (64 * v0 + v1) + v2;
  }

  lemma {:induction false} OneDigits(x: byte)
    ensures Digits(One(x), 2) == [S0(x), S1(x, 0)]
  {
    assert Digits(One(x) / 64, 1) == [x / 4];
  }

  lemma {:induction false} LettersLast(v: seq<sextet>, x: sextet)
    ensures Letters(v + [x]) == Letters(v) + [Letter(x)]
  {
    hide Letter;
    assert (v + [x])[..|v|] == v;
  }

  lemma {:induction false} LettersAppend(v: seq<sextet>, w: seq<sextet>)
    ensures Letters(v + w) == Letters(v) + Letters(w)
  {
    hide Letter;
    if |w| == 0 {
      assert v + w == v;
    } else {
      var w', x := w[..|w| - 1], w[|w| - 1];
      LettersAppend(v, w');
      LettersLast(v + w', x);
      assert v + w == v + w' + [x];
    }
  }

  lemma {:induction false} LettersOf(w: seq<sextet>)
    ensures forall i :: 0 <= i < |w| ==> Letters(w)[i] == Letter(w[i])
  {
    hide Letter;
    if |w| > 0 { LettersOf(w[..|w| - 1]); }
  }

  /** x >> n and x & (2^n - 1) for a byte. */
  lemma {:induction false} ByteParts(x: byte)
    ensures Shr(x, 2) == x / 4 && Low(x, 2) == x % 4 && Shr(x, 4) == x / 16 && Low(x, 4) == x % 16
    ensures Shr(x, 6) == x / 64 && Low(x, 6) == x % 64
    ensures Shl(x % 4, 4) == x % 4 * 16 && Shl(x % 16, 2) == x % 16 * 4
  {
    ShiftIsDivision(x, 2);
    ShiftIsDivision(x, 4);
    ShiftIsDivision(x, 6);
    ShlIsProduct(x % 4, 4);
    ShlIsProduct(x % 16, 2);
    assert Pow2(2) == 4 && Pow2(4) == 16 && Pow2(6) == 64;
  }

  method EncodeBase64(str: seq<byte>) returns (r: seq<ascii>)
    ensures r == Encoded(str)
  {
    hide Letter, Letters, Sextets, Group, Low, Shr, Shl;
    NoSextets();
    r := [];
    var current, bytes := 0, |str|;
    while bytes > 2
      invariant 0 <= current <= |str| && current + bytes == |str| && current % 3 == 0
      invariant r == Letters(Sextets(str[..current]))
    {
      var x, y, z := str[current], str[current + 1], str[current + 2];
      ByteParts(x);
      ByteParts(y);
      ByteParts(z);
      AppendGroup(str[..current + 3], current);
      GroupIs(str[current..current + 3]);
      assert str[..current + 3][..current] == str[..current]
          && str[..current + 3][current..] == str[current..current + 3];
      ghost var r0 := r;
      r := r + [Letter(Shr(x, 2))];
      r := r + [Letter(Shl(Low(x, 2), 4) + Shr(y, 4))];
      r := r + [Letter(Shl(Low(y, 4), 2) + Shr(z, 6))];
      r := r + [Letter(Low(z, 6))];
      assert r == r0 + Letters(Group(str[current..current + 3]));
      current := current + 3;
      bytes := bytes - 3;
    }
    assert str[..|str|] == str;
    if bytes > 0 {
      AppendGroup(str, current);
      GroupIs(str[current..]);
      var x := str[current];
      ByteParts(x);
      r := r + [Letter(Shr(x, 2))];
      if bytes % 3 == 1 {
        r := r + [Letter(Shl(Low(x, 2), 4))];
        r := r + [PAD, PAD];
      } else if bytes % 3 == 2 {
        var y := str[current + 1];
        ByteParts(y);
        r := r + [Letter(Shl(Low(x, 2), 4) + Shr(y, 4))];
        r := r + [Letter(Shl(Low(y, 4), 2))];
        r := r + [PAD];
      }
    }
  }

  lemma {:induction false} NoSextets()
    ensures Letters(Sextets([])) == [] && Pack(Sextets([])) == []
  {}

  lemma {:induction false} GroupIs(t: seq<byte>)
    requires 1 <= |t| <= 3
    ensures |t| == 3 ==> Group(t) == [S0(t[0]), S1(t[0], t[1]), S2(t[1], t[2]), S3(t[2])]
    ensures |t| == 2 ==> Group(t) == [S0(t[0]), S1(t[0], t[1]), S2(t[1], 0)]
    ensures |t| == 1 ==> Group(t) == [S0(t[0]), S1(t[0], 0)]
  {
    hide Digits, Three, Two, One, S0, S1, S2, S3;
    if |t| == 3 {
      ThreeDigits(t[0], t[1], t[2]);
    } else if |t| == 2 {
      TwoDigits(t[0], t[1]);
    } else {
      OneDigits(t[0]);
    }
  }

  /** The last group is encoded on its own. */
  lemma {:induction false} AppendGroup(b: seq<byte>, m: nat)
    requires |b| > 0 && m == LastGroup(|b|)
    ensures Letters(Sextets(b)) == Letters(Sextets(b[..m])) + Letters(Group(b[m..]))
    ensures forall i :: 0 <= i < |b| - m + 1 ==> Letters(Group(b[m..]))[i] == Letter(Group(b[m..])[i])
  {
    hide Letters, Letter, Group;
    LettersAppend(Sextets(b[..m]), Group(b[m..]));
    LettersOf(Group(b[m..]));
  }

  // ----- decoding -----

  /** The character at p of a string that ends with a zero. */
  function At(s: seq<ascii>, p: nat): ascii { if p < |s| then s[p] else 0 }

  /** How many characters from p on are looked at: up to the first zero, and not more than `bytes`. */
  function TextEnd(s: seq<ascii>, p: nat, bytes: int): (e: nat)
    requires p <= |s|
    ensures p <= e <= |s|
    decreases |s| - p
  {
    if At(s, p) == 0 || bytes <= 0 then p else TextEnd(s, p + 1, bytes - 1)
  }

  predicate IsLetter(c: ascii) { c != PAD && Value(c) >= 0 }

  /** The values of the letters; padding and separators have none. */
  function Values(s: seq<ascii>): (v: seq<sextet>)
  {
    if |s| == 0 then []
    else
      var c := s[|s| - 1];
      Values(s[..|s| - 1]) + (if IsLetter(c) then [Value(c)] else [])
  }

  /** A lone padding character right after the first letter of a group. */
  predicate Misplaced(s: seq<ascii>, p: nat) {
    p < |s| && s[p] == PAD && |Values(s[..p])| % 4 == 1 && At(s, p + 1) != PAD
  }

  /** The byte that value number k of a group completes, after value c: none for the first. */
  function Completed(k: nat, c: sextet, d: sextet): seq<byte>
  {
    if k == 0 then []
    else if k == 1 then [c * 4 + d / 16]
    else if k == 2 then [c % 16 * 16 + d / 4]
    else [c % 4 * 64 + d]
  }

  function Last(v: seq<sextet>): sextet { if |v| == 0 then 0 else v[|v| - 1] }

  /** The bytes that the values complete. */
  function Pack(v: seq<sextet>): (b: seq<byte>)
  {
    var n := |v| - 1;
    if n < 0 then [] else Pack(v[..n]) + Completed(n % 4, Last(v[..n]), v[n])
  }

  /** bin holds the bits of value c carried over to value number k of a group. */
  predicate Carried(k: nat, c: sextet, bin: nat) {
    (k == 1 ==> bin == Shl(c, 2)) && (k == 2 ==> bin == Shl(Low(c, 4), 4)) && (k == 3 ==> bin == Shl(Low(c, 2), 6))
  }

  lemma {:induction false} OrAligned(x: nat, d: nat, n: nat)
    requires d < Pow2(n)
    ensures Or(Shl(x, n), d) == Shl(x, n) + d
  {
    OrPack(x, d, n);
  }

  /** The byte completed, by shifting and masking. */
  lemma {:induction false} CompletedBits(c: sextet, d: sextet)
    ensures Completed(1, c, d) == [Or(Shl(c, 2), Shr(d, 4))]
    ensures Completed(2, c, d) == [Or(Shl(Low(c, 4), 4), Shr(d, 2))]
    ensures Completed(3, c, d) == [Or(Shl(Low(c, 2), 6), d)]
  {
    hide Or, Shl, Shr, Low;
    assert Pow2(2) == 4 && Pow2(4) == 16 && Pow2(6) == 64;
    ShiftIsDivision(d, 4);
    ShiftIsDivision(d, 2);
    ShiftIsDivision(c, 4);
    ShiftIsDivision(c, 2);
    ShlIsProduct(c, 2);
    ShlIsProduct(c % 16, 4);
    ShlIsProduct(c % 4, 6);
    OrAligned(c, d / 16, 2);
    OrAligned(c % 16, d / 4, 4);
    OrAligned(c % 4, d, 6);
  }

  /** One letter: the new bits to carry, and the byte it completes, if any. */
  method TakeLetter(ch: sextet, i: nat, bin: nat, ghost c: sextet) returns (bin': nat, out: seq<byte>)
    requires Carried(i % 4, c, bin)
    ensures out == Completed(i % 4, c, ch) && Carried((i + 1) % 4, ch, bin')
  {
    CompletedBits(c, ch);
    FirstCompletes(c, ch);
    hide Or, Shl, Shr, Low, Completed;
    out := [];
    match i % 4 {
      case 0 => bin' := Shl(ch, 2);
      case 1 =>
        out := [Or(bin, Shr(ch, 4))];
        bin' := Shl(Low(ch, 4), 4);
      case 2 =>
        out := [Or(bin, Shr(ch, 2))];
        bin' := Shl(Low(ch, 2), 6);
      case _ =>
        bin' := Or(bin, ch);
        out := [bin'];
    }
  }

  /** DecodeBase64 with a result buffer: nothing at all if a padding character is misplaced. */
  method DecodeBase64(str: seq<ascii>, bytes: int) returns (r: Option<seq<byte>>)
    ensures r.None? <==> exists p :: 0 <= p < TextEnd(str, 0, bytes) && Misplaced(str, p)
    ensures r.Some? ==> r.value == Pack(Values(str[..TextEnd(str, 0, bytes)]))
  {
    hide Pack, Value, Completed, Shl, Low;
    var bin, i, pos, left := 0, 0, 0, bytes;
    var decoded := [];
    NothingPacked();
    ghost var v := [];
    while At(str, pos) != 0 && left > 0
      invariant 0 <= pos <= |str| && TextEnd(str, pos, left) == TextEnd(str, 0, bytes)
      invariant v == Values(str[..pos]) && i == |v| && 0 <= bin && Carried(i % 4, Last(v), bin) && decoded == Pack(v)
      invariant forall p :: 0 <= p < pos ==> !Misplaced(str, p)
      decreases |str| - pos
    {
      var ch := str[pos];
      assert str[..pos + 1][..pos] == str[..pos];
      pos := pos + 1;
      left := left - 1;
      if ch == PAD {
        if At(str, pos) != PAD && i % 4 == 1 {
          assert Misplaced(str, pos - 1);
          return None;
        }
      } else if Value(ch) >= 0 {
        var out;
        bin, out := TakeLetter(Value(ch), i, bin, Last(v));
        PackAppend(v, Value(ch));
        LastIs(v, Value(ch));
        decoded := decoded + out;
        v := v + [Value(ch)];
        i := i + 1;
      }
    }
    r := Some(decoded);
  }

  lemma {:induction false} NothingPacked()
    ensures Pack([]) == [] && Values([]) == []
  {}

  // ----- the round trip -----

  /** The text without separators. */
  function Kept(s: seq<ascii>): seq<ascii> {
    if |s| == 0 then []
    else
      var c := s[|s| - 1];
      Kept(s[..|s| - 1]) + (if IsLetter(c) || c == PAD then [c] else [])
  }

  lemma {:induction false} ValuesOfKept(s: seq<ascii>)
    ensures Values(Kept(s)) == Values(s)
  {
    if |s| > 0 {
      hide IsLetter;
      var k, c := Kept(s[..|s| - 1]), s[|s| - 1];
      ValuesOfKept(s[..|s| - 1]);
      PadIsNoLetter();
      if IsLetter(c) || c == PAD {
        assert Kept(s) == k + [c] && (k + [c])[..|k|] == k;
      } else {
        assert Kept(s) == k;
      }
    }
  }

  lemma {:induction false} PadIsNoLetter()
    ensures !IsLetter(PAD)
  {}

  lemma {:induction false} KeptPrefix(s: seq<ascii>, p: nat)
    requires p <= |s|
    ensures Kept(s[..p]) <= Kept(s)
  {
    if p < |s| {
      var s' := s[..|s| - 1];
      KeptPrefix(s', p);
      assert s'[..p] == s[..p];
    } else {
      assert s[..p] == s;
    }
  }

  lemma {:induction false} ValuesOfLetters(v: seq<sextet>, pads: seq<ascii>)
    requires forall i :: 0 <= i < |pads| ==> pads[i] == PAD
    ensures Values(Letters(v) + pads) == v
    decreases |v|, |pads|
  {
    hide Letters, Values, IsLetter, Letter;
    if |pads| > 0 {
      ValuesOfLetters(v, pads[..|pads| - 1]);
      PadIsNoLetter();
      ValuesLast(Letters(v) + pads[..|pads| - 1], PAD);
      assert Letters(v) + pads == Letters(v) + pads[..|pads| - 1] + [PAD];
    } else if |v| > 0 {
      var v', x := v[..|v| - 1], v[|v| - 1];
      ValuesOfLetters(v', []);
      LetterOf(x);
      ValuesLast(Letters(v'), Letter(x));
      LettersLast(v', x);
      assert v == v' + [x];
      assert Letters(v) + [] == Letters(v) && Letters(v') + [] == Letters(v');
    } else {
      assert Letters(v) + pads == [];
      NothingPacked();
    }
  }

  lemma {:induction false} LetterOf(x: sextet)
    ensures IsLetter(Letter(x)) && Value(Letter(x)) == x
  {
    LetterValue(Letter(x));
  }

  lemma {:induction false} ValuesLast(s: seq<ascii>, c: ascii)
    ensures Values(s + [c]) == if IsLetter(c) then Values(s) + [Value(c)] else Values(s)
  {
    assert (s + [c])[..|s|] == s;
  }

  lemma {:induction false} LettersAreLetters(v: seq<sextet>, k: nat)
    requires k < |v|
    ensures Letters(v)[k] != PAD
  {
    LettersOf(v);
    LetterValue(0);
  }

  lemma {:induction false} PackAppend(v: seq<sextet>, d: sextet)
    ensures Pack(v + [d]) == Pack(v) + Completed(|v| % 4, Last(v), d)
  {
    hide Completed;
    assert (v + [d])[..|v|] == v;
  }

  /** The values of a group complete its bytes one after the other. */
  lemma {:induction false} CompletedBytes(x: byte, y: byte, z: byte)
    ensures Completed(0, 0, S0(x)) == [] && Completed(1, S0(x), S1(x, y)) == [x]
    ensures Completed(2, S1(x, y), S2(y, z)) == [y] && Completed(3, S2(y, z), S3(z)) == [z]
  {
    assert (x % 4 * 16 + y / 16) % 16 == y / 16;
    assert (y % 16 * 4 + z / 64) % 4 == z / 64;
  }

  lemma {:induction false} PackOne(v: seq<sextet>, x: byte, y: byte)
    requires |v| % 4 == 0
    ensures Pack(v + [S0(x), S1(x, y)]) == Pack(v) + [x]
  {
    hide Pack, Completed, S0, S1, S2, Last;
    CompletedBytes(x, y, 0);
    FirstCompletes(Last(v), S0(x));
    LastIs(v, S0(x));
    PackAppend(v, S0(x));
    PackAppend(v + [S0(x)], S1(x, y));
    assert v + [S0(x), S1(x, y)] == v + [S0(x)] + [S1(x, y)];
  }

  lemma {:induction false} LastIs(v: seq<sextet>, d: sextet)
    ensures Last(v + [d]) == d
  {}

  lemma {:induction false} FirstCompletes(c: sextet, d: sextet)
    ensures Completed(0, c, d) == []
  {}

  lemma {:induction false} PackTwo(v: seq<sextet>, x: byte, y: byte, z: byte)
    requires |v| % 4 == 0
    ensures Pack(v + [S0(x), S1(x, y), S2(y, z)]) == Pack(v) + [x, y]
  {
    hide Pack, Completed, S0, S1, S2;
    CompletedBytes(x, y, z);
    PackOne(v, x, y);
    PackAppend(v + [S0(x), S1(x, y)], S2(y, z));
    assert v + [S0(x), S1(x, y), S2(y, z)] == v + [S0(x), S1(x, y)] + [S2(y, z)];
  }

  lemma {:induction false} PackThree(v: seq<sextet>, x: byte, y: byte, z: byte)
    requires |v| % 4 == 0
    ensures Pack(v + [S0(x), S1(x, y), S2(y, z), S3(z)]) == Pack(v) + [x, y, z]
  {
    hide Pack, Completed, S0, S1, S2, S3;
    CompletedBytes(x, y, z);
    PackTwo(v, x, y, z);
    PackAppend(v + [S0(x), S1(x, y), S2(y, z)], S3(z));
    assert v + [S0(x), S1(x, y), S2(y, z), S3(z)] == v + [S0(x), S1(x, y), S2(y, z)] + [S3(z)];
  }

  lemma {:induction false} PackGroup(v: seq<sextet>, t: seq<byte>)
    requires |v| % 4 == 0 && 1 <= |t| <= 3
    ensures Pack(v + Group(t)) == Pack(v) + t
  {
    hide Pack, Group, S0, S1, S2, S3;
    GroupIs(t);
    if |t| == 3 {
      PackThree(v, t[0], t[1], t[2]);
      assert t == [t[0], t[1], t[2]];
    } else if |t| == 2 {
      PackTwo(v, t[0], t[1], 0);
      assert t == [t[0], t[1]];
    } else {
      PackOne(v, t[0], 0);
      assert t == [t[0]];
    }
  }

  lemma {:induction false} SextetsStep(b: seq<byte>, m: nat)
    requires |b| > 0 && m == LastGroup(|b|)
    ensures Sextets(b) == Sextets(b[..m]) + Group(b[m..]) && |Sextets(b[..m])| % 4 == 0
  {
    hide Group;
  }

  /** Joining the 6-bit values of b gives b back, for every length. */
  lemma {:induction false} PackSextets(b: seq<byte>)
    ensures Pack(Sextets(b)) == b
  {
    hide Pack, Group, Sextets, LastGroup;
    if |b| == 0 {
      NoSextets();
      assert b == [];
    } else {
      var m := LastGroup(|b|);
      PackSextets(b[..m]);
      SextetsStep(b, m);
      PackGroup(Sextets(b[..m]), b[m..]);
      assert b == b[..m] + b[m..];
    }
  }

  /** In a text that keeps the encoding of b, padding comes after all letters. */
  lemma {:induction false} NoneMisplaced(s: seq<ascii>, b: seq<byte>, p: nat)
    requires Kept(s) == Encoded(b) && p < |s|
    ensures !Misplaced(s, p)
  {
    hide Letters, Sextets, Value, Kept, Values, Group, LastGroup;
    if s[p] == PAD {
      var v, k, pads := Sextets(b), |Kept(s[..p])|, Padding(|b|);
      KeptPad(s, p);
      KeptPrefix(s, p + 1);
      KeptPrefix(s, p);
      assert Kept(s)[k] == PAD;
      if k < |v| { LettersAreLetters(v, k); }
      assert Kept(s[..p]) == Letters(v) + pads[..k - |v|];
      ValuesOfLetters(v, pads[..k - |v|]);
      ValuesOfKept(s[..p]);
    }
  }

  lemma {:induction false} KeptPad(s: seq<ascii>, p: nat)
    requires p < |s| && s[p] == PAD
    ensures Kept(s[..p + 1]) == Kept(s[..p]) + [PAD]
  {
    assert s[..p + 1][..p] == s[..p];
  }

  /** Decoding the encoding of any bytes gives them back, even if separators have been inserted anywhere. */
  lemma {:induction false} RoundTrip(s: seq<ascii>, b: seq<byte>)
    requires Kept(s) == Encoded(b)
    ensures forall p :: 0 <= p < |s| ==> !Misplaced(s, p)
    ensures Pack(Values(s)) == b
  {
    hide Kept, Pack, Letters, Sextets, Values, Misplaced;
    forall p | 0 <= p < |s| ensures !Misplaced(s, p) { NoneMisplaced(s, b, p); }
    ValuesOfKept(s);
    ValuesOfLetters(Sextets(b), Padding(|b|));
    PackSextets(b);
  }

  lemma {:induction false} WholeText(s: seq<ascii>, p: nat, bytes: int)
    requires p <= |s| && bytes >= |s| - p && forall i :: 0 <= i < |s| ==> s[i] != 0
    ensures TextEnd(s, p, bytes) == |s|
    decreases |s| - p
  {
    if p < |s| { WholeText(s, p + 1, bytes - 1); }
  }

  /** Encoding and decoding, as calls. */
  method EncodeThenDecode(b: seq<byte>, s: seq<ascii>) returns (t: seq<ascii>, r: Option<seq<byte>>)
    requires Kept(s) == Encoded(b) && forall i :: 0 <= i < |s| ==> s[i] != 0
    ensures t == Kept(s) && r == Some(b)
  {
    t := EncodeBase64(b);
    WholeText(s, 0, |s|);
    assert s[..|s|] == s;
    RoundTrip(s, b);
    r := DecodeBase64(s, |s|);
  }

  // ----- two encodings from section 10 of RFC 4648 -----

  /** "foob" gives "Zm9vYg==", and with another 'a' behind it "Zm9vYmE=". */
  method KnownEncodings() returns (r: seq<ascii>, r': seq<ascii>)
    ensures r == [0x5a, 0x6d, 0x39, 0x76, 0x59, 0x67, 0x3d, 0x3d]
    ensures r' == [0x5a, 0x6d, 0x39, 0x76, 0x59, 0x6d, 0x45, 0x3d]
  {
    hide Sextets, Letters, Letter;
    r := EncodeBase64([0x66, 0x6f, 0x6f, 0x62]);
    r' := EncodeBase64([0x66, 0x6f, 0x6f, 0x62, 0x61]);
    VectorGroups();
    SixLetters();
    SevenLetters();
  }

  lemma {:induction false} VectorGroups()
    ensures Sextets([0x66, 0x6f, 0x6f, 0x62]) == [25, 38, 61, 47, 24, 32]
    ensures Sextets([0x66, 0x6f, 0x6f, 0x62, 0x61]) == [25, 38, 61, 47, 24, 38, 4]
  {
    hide Digits;
    var f, s, t := [0x66, 0x6f, 0x6f], [0x66, 0x6f, 0x6f, 0x62], [0x66, 0x6f, 0x6f, 0x62, 0x61];
    VectorDigits();
    assert f[..0] == [] && f[0..] == f && Sextets(f) == [] + Group(f);
    assert s[..3] == f && s[3..] == [0x62] && Sextets(s) == Sextets(f) + Group([0x62]);
    assert t[..3] == f && t[3..] == [0x62, 0x61] && Sextets(t) == Sextets(f) + Group([0x62, 0x61]);
  }

  lemma {:induction false} VectorDigits()
    ensures Digits(Three(0x66, 0x6f, 0x6f), 4) == [25, 38, 61, 47]
    ensures Digits(One(0x62), 2) == [24, 32] && Digits(Two(0x62, 0x61), 3) == [24, 38, 4]
  {
    hide Digits;
    OneDigit(25);
    OneDigit(24);
    DigitStep(25, 38, 1);
    DigitStep(25 * 64 + 38, 61, 2);
    DigitStep((25 * 64 + 38) * 64 + 61, 47, 3);
    DigitStep(24, 32, 1);
    DigitStep(24, 38, 1);
    DigitStep(24 * 64 + 38, 4, 2);
  }

  lemma {:induction false} OneDigit(d: sextet)
    ensures Digits(d, 1) == [d]
  {
    assert Digits(d / 64, 0) == [];
  }

  lemma {:induction false} SixLetters()
    ensures Letters([25, 38, 61, 47, 24, 32]) == [0x5a, 0x6d, 0x39, 0x76, 0x59, 0x67]
  {
    hide Letters;
    FiveLetters();
    LettersAre([25, 38, 61, 47, 24], [0x5a, 0x6d, 0x39, 0x76, 0x59], 32, [25, 38, 61, 47, 24, 32]);
  }

  lemma {:induction false} SevenLetters()
    ensures Letters([25, 38, 61, 47, 24, 38, 4]) == [0x5a, 0x6d, 0x39, 0x76, 0x59, 0x6d, 0x45]
  {
    hide Letters;
    FiveLetters();
    LettersAre([25, 38, 61, 47, 24], [0x5a, 0x6d, 0x39, 0x76, 0x59], 38, [25, 38, 61, 47, 24, 38]);
    LettersAre([25, 38, 61, 47, 24, 38], [0x5a, 0x6d, 0x39, 0x76, 0x59, 0x6d], 4, [25, 38, 61, 47, 24, 38, 4]);
  }

  lemma {:induction false} FiveLetters()
    ensures Letters([25, 38, 61, 47, 24]) == [0x5a, 0x6d, 0x39, 0x76, 0x59]
  {
    assert Letters([]) == [];
    hide Letters;
    LettersAre([], [], 25, [25]);
    LettersAre([25], [0x5a], 38, [25, 38]);
    LettersAre([25, 38], [0x5a, 0x6d], 61, [25, 38, 61]);
    LettersAre([25, 38, 61], [0x5a, 0x6d, 0x39], 47, [25, 38, 61, 47]);
    LettersAre([25, 38, 61, 47], [0x5a, 0x6d, 0x39, 0x76], 24, [25, 38, 61, 47, 24]);
  }

  lemma {:induction false} LettersAre(v: seq<sextet>, s: seq<ascii>, x: sextet, w: seq<sextet>)
    requires Letters(v) == s && w == v + [x]
    ensures Letters(w) == s + [Letter(x)]
  {
    assert w[..|v|] == v;
  }
}
