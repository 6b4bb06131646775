/** Machine words as natural numbers: the shifts, masks and bit reversals of the C sources,
    and the compressed input as one number read from its low end. */
module Bits {

  type byte = b: int | 0 <= b < 256

  function Pow2(n: nat): (p: nat)
    ensures p >= 1
  {
    if n == 0 then 1 else 2 * Pow2(n - 1)
  }

  const WORD: nat := 0x1_0000_0000

  /** Addition of 32-bit words wraps around. */
  function Plus(x: nat, y: nat): nat { (x + y) % WORD }

  /** x << n */
  function Shl(x: nat, n: nat): nat {
    if n == 0 then x else 2 * Shl(x, n - 1)
  }

  /** x >> n */
  function Shr(x: nat, n: nat): nat {
    if n == 0 then x else Shr(x / 2, n - 1)
  }

  /** x & ((1 << n) - 1) */
  function Low(x: nat, n: nat): nat {
    if n == 0 then 0 else x % 2 + 2 * Low(x / 2, n - 1)
  }

  /** x | y */
  function Or(x: nat, y: nat): nat
    decreases x + y
  {
    if x == 0 && y == 0 then 0
    else (if x % 2 == 1 || y % 2 == 1 then 1 else 0) + 2 * Or(x / 2, y / 2)
  }

  /** x ^ y */
  function Xor(x: nat, y: nat): nat
    decreases x + y
  {
    if x == 0 && y == 0 then 0
    else (if x % 2 != y % 2 then 1 else 0) + 2 * Xor(x / 2, y / 2)
  }

  /** Every 1-bit of x is a 1-bit of y. */
  predicate Sub(x: nat, y: nat) {
    x == 0 || (x % 2 <= y % 2 && Sub(x / 2, y / 2))
  }

  /** The low n bits of x in the opposite order: the first bit of a code is its most significant. */
  function Rev(n: nat, x: nat): nat {
    if n == 0 then 0 else Shl(x % 2, n - 1) + Rev(n - 1, x / 2)
  }

  // ----- shifts and masks -----

  lemma ShlAdd(x: nat, y: nat, n: nat)
    ensures Shl(x + y, n) == Shl(x, n) + Shl(y, n)
  {
    if n > 0 { ShlAdd(x, y, n - 1); }
  }

  lemma ShlShl(x: nat, a: nat, b: nat)
    ensures Shl(Shl(x, a), b) == Shl(x, a + b)
  {
    if b > 0 { ShlShl(x, a, b - 1); }
  }

  lemma ShlMono(x: nat, y: nat, n: nat)
    requires x <= y
    ensures Shl(x, n) <= Shl(y, n)
    ensures x < y ==> Shl(x, n) + Pow2(n) <= Shl(y, n)
  {}

  lemma ShlInjective(a: nat, b: nat, n: nat)
    requires Shl(a, n) == Shl(b, n)
    ensures a == b
  {
    if a < b { ShlMono(a, b, n); } else if b < a { ShlMono(b, a, n); }
  }

  lemma ShlOne(n: nat)
    ensures Shl(1, n) == Pow2(n) && Shl(0, n) == 0
  {}

  lemma Pow2Add(a: nat, b: nat)
    ensures Shl(Pow2(a), b) == Pow2(a + b)
  {
    ShlOne(a);
    ShlShl(1, a, b);
    ShlOne(a + b);
  }

  lemma Pow2Mono(a: nat, b: nat)
    requires a <= b
    ensures Pow2(a) <= Pow2(b)
    ensures a < b ==> 2 * Pow2(a) <= Pow2(b)
  {
    if a < b { Pow2Mono(a, b - 1); }
  }

  lemma ShrShr(x: nat, a: nat, b: nat)
    ensures Shr(Shr(x, a), b) == Shr(x, a + b)
  {
    if a > 0 { ShrShr(x / 2, a - 1, b); }
  }

  lemma LowLow(x: nat, a: nat, b: nat)
    requires a <= b
    ensures Low(Low(x, b), a) == Low(x, a)
  {
    if a > 0 { LowLow(x / 2, a - 1, b - 1); }
  }

  lemma ShrLow(x: nat, a: nat, b: nat)
    ensures Shr(Low(x, a + b), a) == Low(Shr(x, a), b)
  {
    if a > 0 { ShrLow(x / 2, a - 1, b); }
  }

  lemma Split(x: nat, n: nat)
    ensures x == Low(x, n) + Shl(Shr(x, n), n)
  {
    if n > 0 { Split(x / 2, n - 1); }
  }

  lemma LowBound(x: nat, n: nat)
    ensures Low(x, n) < Pow2(n)
  {}

  lemma LowSmall(x: nat, n: nat)
    requires x < Pow2(n)
    ensures Low(x, n) == x && Shr(x, n) == 0
  {}

  lemma LowSplit(x: nat, a: nat, b: nat)
    ensures Low(x, a + b) == Low(x, a) + Shl(Low(Shr(x, a), b), a)
  {
    if a > 0 { LowSplit(x / 2, a - 1, b); }
  }

  lemma Compose(lo: nat, hi: nat, n: nat)
    requires lo < Pow2(n)
    ensures Low(lo + Shl(hi, n), n) == lo
    ensures Shr(lo + Shl(hi, n), n) == hi
  {
    if n > 0 { Compose(lo / 2, hi, n - 1); }
  }

  lemma ShrZeroBound(x: nat, n: nat)
    requires Shr(x, n) == 0
    ensures x < Pow2(n)
  {}

  /** >> and & on unsigned words are division and remainder. */
  lemma {:induction false} ShiftIsDivision(x: nat, n: nat)
    ensures Shr(x, n) == x / Pow2(n) && Low(x, n) == x % Pow2(n)
  {
    if n > 0 {
      ShiftIsDivision(x / 2, n - 1);
      DivideTwice(x, Pow2(n - 1));
    }
  }

  lemma DivideTwice(x: nat, p: nat)
    requires p > 0
    ensures x / (2 * p) == x / 2 / p && x % (2 * p) == x % 2 + 2 * (x / 2 % p)
  {
    var q, r := x / 2 / p, x / 2 % p;
    assert x / 2 == p * q + r;
    DoubledProduct(p, q);
    var d := 2 * p;
    assert d * q == 2 * (p * q);
    QuotientUnique(x, d, q, x % 2 + 2 * r);
  }

  lemma DoubledProduct(p: nat, q: nat)
    ensures (2 * p) * q == 2 * (p * q)
  {}

  lemma {:induction false} ShlIsProduct(x: nat, n: nat)
    ensures Shl(x, n) == x * Pow2(n)
  {
    if n > 0 {
      ShlIsProduct(x, n - 1);
      DoubledProduct(x, Pow2(n - 1));
    }
  }

  lemma QuotientUnique(x: nat, d: nat, q: nat, r: nat)
    requires d > 0 && x == d * q + r && r < d
    ensures x / d == q && x % d == r
  {
    var q', r' := x / d, x % d;
    assert d * (q - q') == r' - r by {
      assert x == d * q' + r';
      assert d * (q - q') == d * q - d * q';
    }
    assert d * (q' - q) == -(d * (q - q'));
    if q > q' {
      MultipleAtLeast(d, q - q');
    } else if q < q' {
      MultipleAtLeast(d, q' - q);
    }
  }

  lemma MultipleAtLeast(d: int, t: int)
    requires d > 0 && t >= 1
    ensures d * t >= d
  {
    assert d * t == d + d * (t - 1);
  }

  lemma WordSizes()
    ensures Pow2(8) == 256 && Pow2(16) == 0x1_0000 && Pow2(32) == 0x1_0000_0000
  {
    assert Pow2(8) == 256;
    Pow2Add(8, 8);
    ShlIsProduct(256, 8);
    Pow2Add(16, 16);
    ShlIsProduct(0x1_0000, 16);
  }

  // ----- or and submasks -----

  lemma OrBound(x: nat, y: nat, n: nat)
    requires x < Pow2(n) && y < Pow2(n)
    ensures Or(x, y) < Pow2(n)
  {
    if n > 0 { OrBound(x / 2, y / 2, n - 1); }
  }

  lemma SubOr(x: nat, y: nat, z: nat)
    requires Sub(x, z) && Sub(y, z)
    ensures Sub(Or(x, y), z)
    decreases x + y
  {
    if x != 0 || y != 0 { SubOr(x / 2, y / 2, z / 2); }
  }

  lemma SubShr(x: nat, y: nat, n: nat)
    requires Sub(x, y)
    ensures Sub(Shr(x, n), Shr(y, n))
  {
    if n > 0 { SubShr(x / 2, y / 2, n - 1); }
  }

  lemma SubLow(x: nat, n: nat)
    ensures Sub(Low(x, n), x)
  {}

  lemma SubShl(x: nat, y: nat, n: nat)
    requires Sub(x, Shr(y, n))
    ensures Sub(Shl(x, n), y)
  {
    if n > 0 {
      SubShl(x, y / 2, n - 1);
      assert Shl(x, n) % 2 == 0 && Shl(x, n) / 2 == Shl(x, n - 1);
    }
  }

  lemma OrIdempotent(x: nat, y: nat)
    requires Sub(x, y)
    ensures Or(x, y) == y
    decreases x + y
  {
    if x != 0 || y != 0 { OrIdempotent(x / 2, y / 2); }
  }

  /** Or-ing the next m bits of z above position k extends the agreement with z from k to k + m bits,
      whatever agreeing bits x already holds above k. */
  lemma OrExtends(x: nat, z: nat, k: nat, m: nat)
    requires Low(x, k) == Low(z, k) && Sub(x, z)
    ensures Low(Or(x, Shl(Low(Shr(z, k), m), k)), k + m) == Low(z, k + m)
    ensures Sub(Or(x, Shl(Low(Shr(z, k), m), k)), z)
  {
    var y := Shl(Low(Shr(z, k), m), k);
    SubLow(Shr(z, k), m);
    SubShl(Low(Shr(z, k), m), z, k);
    SubOr(x, y, z);
    OrLow(x, z, k, m);
  }

  lemma {:induction false} OrLow(x: nat, z: nat, k: nat, m: nat)
    requires Low(x, k) == Low(z, k) && Sub(x, z)
    ensures Low(Or(x, Shl(Low(Shr(z, k), m), k)), k + m) == Low(z, k + m)
    decreases k
  {
    var y := Shl(Low(Shr(z, k), m), k);
    if k == 0 {
      OrLowBase(x, z, m);
    } else {
      assert y % 2 == 0 && y / 2 == Shl(Low(Shr(z / 2, k - 1), m), k - 1);
      OrLow(x / 2, z / 2, k - 1, m);
      OrStep(x, y);
    }
  }

  lemma OrStep(x: nat, y: nat)
    ensures Or(x, y) / 2 == Or(x / 2, y / 2)
    ensures Or(x, y) % 2 == if x % 2 == 1 || y % 2 == 1 then 1 else 0
  {}

  lemma {:induction false} OrLowBase(x: nat, z: nat, m: nat)
    requires Sub(x, z)
    ensures Low(Or(x, Low(z, m)), m) == Low(z, m)
  {
    if m > 0 {
      var y := Low(z, m);
      assert y % 2 == z % 2 && y / 2 == Low(z / 2, m - 1);
      assert x % 2 <= z % 2 && Sub(x / 2, z / 2);
      OrLowBase(x / 2, z / 2, m - 1);
      OrStep(x, y);
      assert Low(Or(x, y), m) == Or(x, y) % 2 + 2 * Low(Or(x, y) / 2, m - 1);
    }
  }

  lemma OrComm(x: nat, y: nat)
    ensures Or(x, y) == Or(y, x)
    decreases x + y
  {
    if x != 0 || y != 0 { OrComm(x / 2, y / 2); }
  }

  /** Or-ing parts that do not overlap adds them. */
  lemma OrPack(hi: nat, lo: nat, n: nat)
    requires lo < Pow2(n)
    ensures Or(Shl(hi, n), lo) == Shl(hi, n) + lo
    decreases n
  {
    if n == 0 {
      OrZero(hi);
    } else {
      OrPack(hi, lo / 2, n - 1);
      OrStep(Shl(hi, n), lo);
    }
  }

  lemma OrZero(x: nat)
    ensures Or(x, 0) == x
  {}

  // ----- exclusive or -----

  lemma XorStep(x: nat, y: nat)
    ensures Xor(x, y) / 2 == Xor(x / 2, y / 2)
    ensures Xor(x, y) % 2 == if x % 2 != y % 2 then 1 else 0
  {}

  lemma XorComm(x: nat, y: nat)
    ensures Xor(x, y) == Xor(y, x)
    decreases x + y
  {
    if x != 0 || y != 0 { XorComm(x / 2, y / 2); }
  }

  lemma XorZero(x: nat)
    ensures Xor(x, 0) == x && Xor(0, x) == x
  {
    if x != 0 { XorZero(x / 2); }
  }

  lemma XorSelf(x: nat)
    ensures Xor(x, x) == 0
    decreases x
  {
    if x != 0 { XorSelf(x / 2); }
  }

  lemma {:induction false} XorAssoc(x: nat, y: nat, z: nat)
    ensures Xor(Xor(x, y), z) == Xor(x, Xor(y, z))
    decreases x + y + z
  {
    if x != 0 || y != 0 || z != 0 {
      XorAssoc(x / 2, y / 2, z / 2);
      XorStep(x, y);
      XorStep(y, z);
      XorStep(Xor(x, y), z);
      XorStep(x, Xor(y, z));
    }
  }

  lemma XorBound(x: nat, y: nat, n: nat)
    requires x < Pow2(n) && y < Pow2(n)
    ensures Xor(x, y) < Pow2(n)
  {
    if n > 0 { XorBound(x / 2, y / 2, n - 1); }
  }

  lemma XorShr(x: nat, y: nat, n: nat)
    ensures Shr(Xor(x, y), n) == Xor(Shr(x, n), Shr(y, n))
  {
    if n > 0 {
      XorStep(x, y);
      XorShr(x / 2, y / 2, n - 1);
    }
  }

  lemma {:induction false} XorLow(x: nat, y: nat, n: nat)
    ensures Low(Xor(x, y), n) == Xor(Low(x, n), Low(y, n))
  {
    hide Xor;
    if n == 0 {
      XorZero(0);
    } else {
      XorStep(x, y);
      XorLow(x / 2, y / 2, n - 1);
      XorStep(Low(x, n), Low(y, n));
      LowStep(x, n);
      LowStep(y, n);
      LowStep(Xor(x, y), n);
    }
  }

  lemma LowStep(x: nat, n: nat)
    requires n > 0
    ensures Low(x, n) % 2 == x % 2 && Low(x, n) / 2 == Low(x / 2, n - 1)
  {}

  /** A word is its low part and its high part. */
  lemma {:induction false} XorSplit(x: nat, n: nat)
    ensures x == Xor(Low(x, n), Shl(Shr(x, n), n))
  {
    hide Xor;
    if n == 0 {
      XorZero(x);
    } else {
      XorSplit(x / 2, n - 1);
      var l, h := Low(x, n), Shl(Shr(x, n), n);
      assert l % 2 == x % 2 && l / 2 == Low(x / 2, n - 1);
      assert h % 2 == 0 && h / 2 == Shl(Shr(x / 2, n - 1), n - 1);
      XorStep(l, h);
      assert l % 2 != h % 2 <==> x % 2 == 1;
    }
  }

  // ----- bit reversal -----

  lemma RevBound(n: nat, x: nat)
    ensures Rev(n, x) < Pow2(n)
  {
    if n > 0 {
      RevBound(n - 1, x / 2);
      ShlOne(n - 1);
    }
  }

  lemma RevLow(n: nat, x: nat, m: nat)
    requires n <= m
    ensures Rev(n, Low(x, m)) == Rev(n, x)
  {
    if n > 0 { RevLow(n - 1, x / 2, m - 1); }
  }

  lemma RevSplit(n: nat, m: nat, x: nat)
    ensures Rev(n + m, x) == Shl(Rev(n, x), m) + Rev(m, Shr(x, n))
  {
    if n > 0 {
      RevSplit(n - 1, m, x / 2);
      ShlAdd(Shl(x % 2, n - 1), Rev(n - 1, x / 2), m);
      ShlShl(x % 2, n - 1, m);
    } else {
      ShlOne(m);
    }
  }

  lemma {:induction false} RevRev(n: nat, x: nat)
    ensures Rev(n, Rev(n, x)) == Low(x, n)
  {
    if n > 0 {
      // Rev(n, x) == Shl(x % 2, n - 1) + Rev(n - 1, x / 2)
      RevBound(n - 1, x / 2);
      var y := Rev(n, x);
      Compose(Rev(n - 1, x / 2), x % 2, n - 1);
      RevSplit(n - 1, 1, y);
      RevLow(n - 1, y, n - 1);
      RevRev(n - 1, x / 2);
      assert Shr(y, n - 1) == x % 2;
      assert Rev(1, x % 2) == x % 2;
      assert Shl(Rev(n - 1, y), 1) == 2 * Low(x / 2, n - 1);
    }
  }

  lemma RevInjective(n: nat, x: nat, y: nat)
    requires Rev(n, x) == Rev(n, y)
    ensures Low(x, n) == Low(y, n)
  {
    RevRev(n, x);
    RevRev(n, y);
  }
}
