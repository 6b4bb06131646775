/** Bytes and 32-bit words as bit vectors, beside the same as natural numbers: the logical operations agree. */
module BitWords {
  import opened Bits
  import opened Md5

  // The operations on bit vectors, named so that a proof need not look into them.

  function And8(b: bv8, c: bv8): bv8 { b & c }
  function Or8(b: bv8, c: bv8): bv8 { b | c }
  function Xor8(b: bv8, c: bv8): bv8 { b ^ c }
  function Not8(b: bv8): bv8 { !b }
  function Half8(b: bv8): bv8 { b >> 1 }
  function Bottom(b: bv8): (n: nat)
    ensures n <= 1
  {
    if b & 1 == 1 then 1 else 0
  }

  function N8(b: bv8): (n: nat)
    ensures n < 256
  {
    b as nat
  }

  function And32(b: bv32, c: bv32): bv32 { b & c }
  function Or32(b: bv32, c: bv32): bv32 { b | c }
  function Xor32(b: bv32, c: bv32): bv32 { b ^ c }
  function Not32(b: bv32): bv32 { !b }

  /** The four bytes of a word, low byte first. */
  function Byte0(b: bv32): bv8 { (b & 0xff) as bv8 }
  function Byte1(b: bv32): bv8 { ((b >> 8) & 0xff) as bv8 }
  function Byte2(b: bv32): bv8 { ((b >> 16) & 0xff) as bv8 }
  function Byte3(b: bv32): bv8 { (b >> 24) as bv8 }

  function V(b: bv32): (x: nat)
    ensures x < WORD
  {
    Joined(N8(Byte0(b)), N8(Byte1(b)), N8(Byte2(b)), N8(Byte3(b)))
  }

  lemma BytesOfAnd(b: bv32, c: bv32)
    ensures Byte0(And32(b, c)) == And8(Byte0(b), Byte0(c)) && Byte1(And32(b, c)) == And8(Byte1(b), Byte1(c))
    ensures Byte2(And32(b, c)) == And8(Byte2(b), Byte2(c)) && Byte3(And32(b, c)) == And8(Byte3(b), Byte3(c))
  {}

  lemma OrByte0(b: bv32, c: bv32)
    ensures Byte0(Or32(b, c)) == Or8(Byte0(b), Byte0(c))
  {}

  lemma OrByte1(b: bv32, c: bv32)
    ensures Byte1(Or32(b, c)) == Or8(Byte1(b), Byte1(c))
  {}

  lemma OrByte2(b: bv32, c: bv32)
    ensures Byte2(Or32(b, c)) == Or8(Byte2(b), Byte2(c))
  {}

  lemma OrByte3(b: bv32, c: bv32)
    ensures Byte3(Or32(b, c)) == Or8(Byte3(b), Byte3(c))
  {}

  lemma XorByte0(b: bv32, c: bv32)
    ensures Byte0(Xor32(b, c)) == Xor8(Byte0(b), Byte0(c))
  {}

  lemma XorByte1(b: bv32, c: bv32)
    ensures Byte1(Xor32(b, c)) == Xor8(Byte1(b), Byte1(c))
  {}

  lemma XorByte2(b: bv32, c: bv32)
    ensures Byte2(Xor32(b, c)) == Xor8(Byte2(b), Byte2(c))
  {}

  lemma XorByte3(b: bv32, c: bv32)
    ensures Byte3(Xor32(b, c)) == Xor8(Byte3(b), Byte3(c))
  {}

  lemma BytesOfOr(b: bv32, c: bv32)
    ensures Byte0(Or32(b, c)) == Or8(Byte0(b), Byte0(c)) && Byte1(Or32(b, c)) == Or8(Byte1(b), Byte1(c))
    ensures Byte2(Or32(b, c)) == Or8(Byte2(b), Byte2(c)) && Byte3(Or32(b, c)) == Or8(Byte3(b), Byte3(c))
  {
    hide Byte0, Byte1, Byte2, Byte3, Or32, Or8;
    OrByte0(b, c);
    OrByte1(b, c);
    OrByte2(b, c);
    OrByte3(b, c);
  }

  lemma BytesOfXor(b: bv32, c: bv32)
    ensures Byte0(Xor32(b, c)) == Xor8(Byte0(b), Byte0(c)) && Byte1(Xor32(b, c)) == Xor8(Byte1(b), Byte1(c))
    ensures Byte2(Xor32(b, c)) == Xor8(Byte2(b), Byte2(c)) && Byte3(Xor32(b, c)) == Xor8(Byte3(b), Byte3(c))
  {
    hide Byte0, Byte1, Byte2, Byte3, Xor32, Xor8;
    XorByte0(b, c);
    XorByte1(b, c);
    XorByte2(b, c);
    XorByte3(b, c);
  }

  lemma BytesOfNot(b: bv32)
    ensures Byte0(Not32(b)) == Not8(Byte0(b)) && Byte1(Not32(b)) == Not8(Byte1(b))
    ensures Byte2(Not32(b)) == Not8(Byte2(b)) && Byte3(Not32(b)) == Not8(Byte3(b))
  {}

  lemma Halves(b: bv8)
    ensures N8(b) == 2 * N8(Half8(b)) + Bottom(b)
  {}

  lemma HalvesOf(b: bv8, c: bv8)
    ensures Half8(And8(b, c)) == And8(Half8(b), Half8(c))
    ensures Bottom(And8(b, c)) == if Bottom(b) == 1 && Bottom(c) == 1 then 1 else 0
    ensures Half8(Or8(b, c)) == Or8(Half8(b), Half8(c))
    ensures Bottom(Or8(b, c)) == if Bottom(b) == 1 || Bottom(c) == 1 then 1 else 0
    ensures Half8(Xor8(b, c)) == Xor8(Half8(b), Half8(c))
    ensures Bottom(Xor8(b, c)) == if Bottom(b) != Bottom(c) then 1 else 0
  {}

  lemma NoneSet(b: bv8, c: bv8)
    requires N8(b) == 0 && N8(c) == 0
    ensures N8(And8(b, c)) == 0 && N8(Or8(b, c)) == 0 && N8(Xor8(b, c)) == 0
  {
    assert b == 0 && c == 0;
  }

  lemma {:induction false} ByteOps(b: bv8, c: bv8, n: nat)
    requires N8(b) < Pow2(n) && N8(c) < Pow2(n)
    ensures And(N8(b), N8(c)) == N8(And8(b, c)) && Or(N8(b), N8(c)) == N8(Or8(b, c))
    ensures Xor(N8(b), N8(c)) == N8(Xor8(b, c))
    decreases n
  {
    NothingBelow();
    hide And, Or, Xor, Bottom, N8, Half8, And8, Or8, Xor8;
    if n == 0 {
      NoneSet(b, c);
    } else {
      Halves(b);
      Halves(c);
      Halves(And8(b, c));
      Halves(Or8(b, c));
      Halves(Xor8(b, c));
      HalvesOf(b, c);
      ByteOps(Half8(b), Half8(c), n - 1);
      OneMoreBit(N8(b), N8(c), N8(Half8(b)), Bottom(b), N8(Half8(c)), Bottom(c));
    }
  }

  lemma OneMoreBit(x: nat, y: nat, p: nat, l: nat, q: nat, m: nat)
    requires l <= 1 && m <= 1 && x == 2 * p + l && y == 2 * q + m
    ensures And(x, y) == 2 * And(p, q) + (if l == 1 && m == 1 then 1 else 0)
    ensures Or(x, y) == 2 * Or(p, q) + (if l == 1 || m == 1 then 1 else 0)
    ensures Xor(x, y) == 2 * Xor(p, q) + (if l != m then 1 else 0)
  {
    hide And, Or, Xor;
    AndStep(x, y);
    OrStep(x, y);
    XorStep(x, y);
  }

  lemma NothingBelow()
    ensures And(0, 0) == 0 && Or(0, 0) == 0 && Xor(0, 0) == 0
  {}

  /** Bytes do not mix. */
  lemma {:induction false} OpsSplit(lo: nat, lo': nat, hi: nat, hi': nat, n: nat)
    requires lo < Pow2(n) && lo' < Pow2(n)
    ensures And(lo + Shl(hi, n), lo' + Shl(hi', n)) == And(lo, lo') + Shl(And(hi, hi'), n)
    ensures Or(lo + Shl(hi, n), lo' + Shl(hi', n)) == Or(lo, lo') + Shl(Or(hi, hi'), n)
    ensures Xor(lo + Shl(hi, n), lo' + Shl(hi', n)) == Xor(lo, lo') + Shl(Xor(hi, hi'), n)
    decreases n
  {
    NothingBelow();
    hide And, Or, Xor;
    if n > 0 {
      OpsSplit(lo / 2, lo' / 2, hi, hi', n - 1);
      var x, y := lo + Shl(hi, n), lo' + Shl(hi', n);
      assert x / 2 == lo / 2 + Shl(hi, n - 1) && y / 2 == lo' / 2 + Shl(hi', n - 1);
      assert x % 2 == lo % 2 && y % 2 == lo' % 2;
      AndStep(x, y);
      OrStep(x, y);
      XorStep(x, y);
      AndStep(lo, lo');
      OrStep(lo, lo');
      XorStep(lo, lo');
    }
  }

  lemma OpsByte(lo: nat, lo': nat, hi: nat, hi': nat)
    requires lo < 256 && lo' < 256
    ensures And(lo + 256 * hi, lo' + 256 * hi') == And(lo, lo') + 256 * And(hi, hi')
    ensures Or(lo + 256 * hi, lo' + 256 * hi') == Or(lo, lo') + 256 * Or(hi, hi')
    ensures Xor(lo + 256 * hi, lo' + 256 * hi') == Xor(lo, lo') + 256 * Xor(hi, hi')
  {
    hide And, Or, Xor, Shl, Pow2;
    WordSizes();
    OpsSplit(lo, lo', hi, hi', 8);
    ShlIsProduct(hi, 8);
    ShlIsProduct(hi', 8);
    ShlIsProduct(And(hi, hi'), 8);
    ShlIsProduct(Or(hi, hi'), 8);
    ShlIsProduct(Xor(hi, hi'), 8);
  }

  lemma OpsJoined(p: nat, q: nat, r: nat, s: nat, p': nat, q': nat, r': nat, s': nat)
    requires p < 256 && q < 256 && r < 256 && p' < 256 && q' < 256 && r' < 256
    ensures And(Joined(p, q, r, s), Joined(p', q', r', s')) == Joined(And(p, p'), And(q, q'), And(r, r'), And(s, s'))
    ensures Or(Joined(p, q, r, s), Joined(p', q', r', s')) == Joined(Or(p, p'), Or(q, q'), Or(r, r'), Or(s, s'))
    ensures Xor(Joined(p, q, r, s), Joined(p', q', r', s')) == Joined(Xor(p, p'), Xor(q, q'), Xor(r, r'), Xor(s, s'))
  {
    hide And, Or, Xor;
    OpsByte(p, p', q + 256 * r + 0x1_0000 * s, q' + 256 * r' + 0x1_0000 * s');
    OpsByte(q, q', r + 256 * s, r' + 256 * s');
    OpsByte(r, r', s, s');
  }

  lemma BytePairs(b: bv8, c: bv8)
    ensures And(N8(b), N8(c)) == N8(And8(b, c)) && Or(N8(b), N8(c)) == N8(Or8(b, c))
    ensures Xor(N8(b), N8(c)) == N8(Xor8(b, c))
  {
    hide And, Or, Xor, N8, And8, Or8, Xor8;
    assert Pow2(8) == 256;
    ByteOps(b, c, 8);
  }

  lemma WordOps(b: bv32, c: bv32)
    ensures And(V(b), V(c)) == V(And32(b, c)) && Or(V(b), V(c)) == V(Or32(b, c)) && Xor(V(b), V(c)) == V(Xor32(b, c))
  {
    hide And, Or, Xor, Byte0, Byte1, Byte2, Byte3, Joined, N8, And8, Or8, Xor8, And32, Or32, Xor32;
    BytesOfAnd(b, c);
    BytesOfOr(b, c);
    BytesOfXor(b, c);
    OpsJoined(N8(Byte0(b)), N8(Byte1(b)), N8(Byte2(b)), N8(Byte3(b)),
              N8(Byte0(c)), N8(Byte1(c)), N8(Byte2(c)), N8(Byte3(c)));
    BytePairs(Byte0(b), Byte0(c));
    BytePairs(Byte1(b), Byte1(c));
    BytePairs(Byte2(b), Byte2(c));
    BytePairs(Byte3(b), Byte3(c));
  }

  lemma ByteNot(b: bv8)
    ensures N8(Not8(b)) == 255 - N8(b)
  {}

  lemma WordNot(b: bv32)
    ensures Not(V(b)) == V(Not32(b))
  {
    hide Byte0, Byte1, Byte2, Byte3, N8, Not8, Not32;
    BytesOfNot(b);
    ByteNot(Byte0(b));
    ByteNot(Byte1(b));
    ByteNot(Byte2(b));
    ByteNot(Byte3(b));
  }

  // ----- shifting a word by one bit -----

  function Half32(b: bv32): bv32 { b >> 1 }
  function Low32(b: bv32): (n: nat)
    ensures n <= 1
  {
    if b & 1 == 1 then 1 else 0
  }

  /** A byte with a bit shifted in at the top. */
  function Joined8(b: bv8, top: nat): bv8 { if top == 1 then (b >> 1) | 0x80 else b >> 1 }

  lemma ByteShifted(b: bv8, top: nat)
    requires top <= 1
    ensures 2 * N8(Joined8(b, top)) + Bottom(b) == N8(b) + 256 * top
  {}

  lemma HalfByte0(b: bv32)
    ensures Byte0(Half32(b)) == Joined8(Byte0(b), Bottom(Byte1(b))) && Low32(b) == Bottom(Byte0(b))
  {}

  lemma HalfByte1(b: bv32)
    ensures Byte1(Half32(b)) == Joined8(Byte1(b), Bottom(Byte2(b)))
  {}

  lemma HalfByte2(b: bv32)
    ensures Byte2(Half32(b)) == Joined8(Byte2(b), Bottom(Byte3(b)))
  {}

  lemma HalfByte3(b: bv32)
    ensures Byte3(Half32(b)) == Joined8(Byte3(b), 0)
  {}

  lemma HalfWord(b: bv32)
    ensures V(b) == 2 * V(Half32(b)) + Low32(b)
  {
    hide Byte0, Byte1, Byte2, Byte3, N8, Joined8, Bottom, Half32, Low32;
    HalfByte0(b);
    HalfByte1(b);
    HalfByte2(b);
    HalfByte3(b);
    ByteShifted(Byte0(b), Bottom(Byte1(b)));
    ByteShifted(Byte1(b), Bottom(Byte2(b)));
    ByteShifted(Byte2(b), Bottom(Byte3(b)));
    ByteShifted(Byte3(b), 0);
  }
}
