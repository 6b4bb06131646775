/** adler32: sums of 32 bits that are reduced only every NMAX bytes. */
module Adler {
  import opened Bits

  const BASE: nat := 65521
  const NMAX: nat := 5552

  datatype Sums = Sums(s1: nat, s2: nat)

  // ----- section 8.2 of RFC 1950: both sums modulo 65521 after every byte -----

  function Fold(s: Sums, buf: seq<byte>): Sums {
    if |buf| == 0 then s
    else
      var p := Fold(s, buf[..|buf| - 1]);
      var a := (p.s1 + buf[|buf| - 1]) % BASE;
      Sums(a, (p.s2 + a) % BASE)
  }

  function Unpack(adler: nat): Sums { Sums(Low(adler, 16), Low(Shr(adler, 16), 16)) }

  function Pack(s: Sums): nat { Or(Shl(s.s2, 16), s.s1) }

  /** The checksum of buf, continued from the checksum `adler` of what came before. */
  function Checksum(adler: nat, buf: seq<byte>): nat { Pack(Fold(Unpack(adler), buf)) }

  // ----- the sums without any reduction -----

  function Raw(s: Sums, buf: seq<byte>): Sums {
    if |buf| == 0 then s
    else
      var p := Raw(s, buf[..|buf| - 1]);
      var a := p.s1 + buf[|buf| - 1];
      Sums(a, p.s2 + a)
  }

  lemma ModPlus(x: nat, y: nat, b: nat)
    requires x % BASE == y % BASE
    ensures (x + b) % BASE == (y + b) % BASE
  {}

  /** Reducing once at the end or after every byte comes to the same. */
  lemma {:induction false} RawCongruent(s: Sums, buf: seq<byte>)
    ensures Raw(s, buf).s1 % BASE == Fold(s, buf).s1 % BASE
    ensures Raw(s, buf).s2 % BASE == Fold(s, buf).s2 % BASE
    ensures |buf| > 0 ==> Fold(s, buf).s1 < BASE && Fold(s, buf).s2 < BASE
  {
    if |buf| == 0 {
      assert Raw(s, buf) == s == Fold(s, buf);
    } else {
      var q, b := buf[..|buf| - 1], buf[|buf| - 1];
      RawCongruent(s, q);
      OneCongruent(Raw(s, q), Fold(s, q), b);
    }
  }

  lemma OneCongruent(p: Sums, f: Sums, b: byte)
    requires p.s1 % BASE == f.s1 % BASE && p.s2 % BASE == f.s2 % BASE
    ensures (p.s1 + b) % BASE == (f.s1 + b) % BASE % BASE
    ensures (p.s2 + (p.s1 + b)) % BASE == (f.s2 + (f.s1 + b) % BASE) % BASE % BASE
  {
    var a, a' := p.s1 + b, (f.s1 + b) % BASE;
    ModPlus(p.s1, f.s1, b);
    ModPlus(p.s2, f.s2, a);
    ModPlus(a, a', f.s2);
  }

  /** Twice the largest second sum after n bytes from sums of 16 bits. */
  lemma {:induction false} RawBound(s: Sums, buf: seq<byte>)
    requires s.s1 < 65536 && s.s2 < 65536
    ensures Raw(s, buf).s1 <= 65535 + 255 * |buf|
    ensures 2 * Raw(s, buf).s2 <= 131070 * (|buf| + 1) + 255 * (|buf| * (|buf| + 1))
  {
    if |buf| > 0 {
      var n := |buf| - 1;
      RawBound(s, buf[..n]);
      assert |buf| * (|buf| + 1) == n * (n + 1) + 2 * |buf|;
    }
  }

  /** No sum of at most NMAX bytes overflows 32 bits. */
  lemma NoOverflow(s: Sums, buf: seq<byte>)
    requires s.s1 < 65536 && s.s2 < 65536 && |buf| <= NMAX
    ensures Raw(s, buf).s1 < WORD && Raw(s, buf).s2 < WORD
  {
    RawBound(s, buf);
    ProductMono(|buf|, NMAX);
  }

  lemma ProductMono(a: nat, b: nat)
    requires a <= b
    ensures a * (a + 1) <= b * (b + 1)
  {}

  lemma {:induction false} FoldConcat(s: Sums, a: seq<byte>, b: seq<byte>)
    ensures Fold(s, a + b) == Fold(Fold(s, a), b)
  {
    if |b| == 0 {
      assert a + b == a;
    } else {
      FoldConcat(s, a, b[..|b| - 1]);
      assert (a + b)[..|a + b| - 1] == a + b[..|b| - 1];
    }
  }

  lemma UnpackPack(s: Sums)
    requires s.s1 < 65536 && s.s2 < 65536
    ensures Unpack(Pack(s)) == s && Pack(s) == 65536 * s.s2 + s.s1
  {
    WordSizes();
    OrPack(s.s2, s.s1, 16);
    ShlIsProduct(s.s2, 16);
    Compose(s.s1, s.s2, 16);
    LowSmall(s.s2, 16);
  }

  lemma UnpackSmall(adler: nat)
    ensures Unpack(adler).s1 < 65536 && Unpack(adler).s2 < 65536
  {
    WordSizes();
    LowBound(adler, 16);
    LowBound(Shr(adler, 16), 16);
  }

  /** A checksum can be continued: the pieces of the data do not matter. */
  lemma ChecksumConcat(adler: nat, a: seq<byte>, b: seq<byte>)
    ensures Checksum(Checksum(adler, a), b) == Checksum(adler, a + b)
  {
    UnpackSmall(adler);
    RawCongruent(Unpack(adler), a);
    UnpackPack(Fold(Unpack(adler), a));
    FoldConcat(Unpack(adler), a, b);
  }

  // ----- what the two sums are -----

  function Total(buf: seq<byte>): nat {
    if |buf| == 0 then 0 else Total(buf[..|buf| - 1]) + buf[|buf| - 1]
  }

  /** Every byte times the number of bytes from it to the end. */
  function Weighted(buf: seq<byte>): nat {
    if |buf| == 0 then 0 else buf[0] * |buf| + Weighted(buf[1..])
  }

  lemma TotalFront(buf: seq<byte>)
    requires |buf| > 0
    ensures Total(buf) == buf[0] + Total(buf[1..])
  {
    if |buf| > 1 {
      TotalFront(buf[..|buf| - 1]);
      assert buf[1..][..|buf| - 2] == buf[..|buf| - 1][1..];
    }
  }

  lemma {:induction false} WeightedBack(buf: seq<byte>)
    requires |buf| > 0
    ensures Weighted(buf) == Weighted(buf[..|buf| - 1]) + Total(buf)
  {
    TotalFront(buf);
    if |buf| > 1 {
      var q := buf[..|buf| - 1];
      WeightedBack(buf[1..]);
      assert buf[1..][..|buf| - 2] == q[1..];
      assert buf[0] * |buf| == buf[0] * (|buf| - 1) + buf[0];
    }
  }

  /** The checksum of RFC 1950 from the sums 1 and 0: one more than the total, and the weighted total plus the
      length. */
  lemma {:induction false} ChecksumIsWeightedSum(s: Sums, buf: seq<byte>)
    ensures Fold(s, buf).s1 % BASE == (s.s1 + Total(buf)) % BASE
    ensures Fold(s, buf).s2 % BASE == (s.s2 + |buf| * s.s1 + Weighted(buf)) % BASE
  {
    RawCongruent(s, buf);
    RawIsWeightedSum(s, buf);
  }

  lemma {:induction false} RawIsWeightedSum(s: Sums, buf: seq<byte>)
    ensures Raw(s, buf) == Sums(s.s1 + Total(buf), s.s2 + |buf| * s.s1 + Weighted(buf))
  {
    if |buf| > 0 {
      RawIsWeightedSum(s, buf[..|buf| - 1]);
      WeightedBack(buf);
      assert |buf| * s.s1 == (|buf| - 1) * s.s1 + s.s1;
    }
  }

  // ----- adler32 -----

  /** The sums after the bytes from lo to hi have been added, none of them having overflowed. */
  predicate At(s: Sums, buf: seq<byte>, lo: nat, hi: nat, t: Sums) {
    lo <= hi <= |buf| && hi - lo <= NMAX && s.s1 < 65536 && s.s2 < 65536 && t == Raw(s, buf[lo..hi])
  }

  lemma OneMore(s: Sums, buf: seq<byte>, lo: nat, hi: nat)
    requires lo <= hi < |buf| && hi - lo < NMAX && s.s1 < 65536 && s.s2 < 65536
    ensures var p, q := Raw(s, buf[lo..hi]), Raw(s, buf[lo..hi + 1]);
            q.s1 == Plus(p.s1, buf[hi]) && q.s2 == Plus(p.s2, q.s1)
  {
    NoOverflow(s, buf[lo..hi + 1]);
    assert buf[lo..hi + 1][..hi - lo] == buf[lo..hi];
  }

  /** AD_DO1(buf, i), with i relative to the position of buf. */
  method Do1(ghost s: Sums, buf: seq<byte>, ghost lo: nat, pos: nat, i: nat, t: Sums) returns (t': Sums)
    requires At(s, buf, lo, pos + i, t) && pos + i < |buf| && pos + i - lo < NMAX
    ensures At(s, buf, lo, pos + i + 1, t')
  {
    OneMore(s, buf, lo, pos + i);
    var s1 := Plus(t.s1, buf[pos + i]);
    t' := Sums(s1, Plus(t.s2, s1));
  }

  method Do2(ghost s: Sums, buf: seq<byte>, ghost lo: nat, pos: nat, i: nat, t: Sums) returns (t': Sums)
    requires At(s, buf, lo, pos + i, t) && pos + i + 2 <= |buf| && pos + i + 2 - lo <= NMAX
    ensures At(s, buf, lo, pos + i + 2, t')
  {
    t' := Do1(s, buf, lo, pos, i, t);
    t' := Do1(s, buf, lo, pos, i + 1, t');
  }

  method Do4(ghost s: Sums, buf: seq<byte>, ghost lo: nat, pos: nat, i: nat, t: Sums) returns (t': Sums)
    requires At(s, buf, lo, pos + i, t) && pos + i + 4 <= |buf| && pos + i + 4 - lo <= NMAX
    ensures At(s, buf, lo, pos + i + 4, t')
  {
    t' := Do2(s, buf, lo, pos, i, t);
    t' := Do2(s, buf, lo, pos, i + 2, t');
  }

  method Do8(ghost s: Sums, buf: seq<byte>, ghost lo: nat, pos: nat, i: nat, t: Sums) returns (t': Sums)
    requires At(s, buf, lo, pos + i, t) && pos + i + 8 <= |buf| && pos + i + 8 - lo <= NMAX
    ensures At(s, buf, lo, pos + i + 8, t')
  {
    t' := Do4(s, buf, lo, pos, i, t);
    t' := Do4(s, buf, lo, pos, i + 4, t');
  }

  method Do16(ghost s: Sums, buf: seq<byte>, ghost lo: nat, pos: nat, t: Sums) returns (t': Sums)
    requires At(s, buf, lo, pos, t) && pos + 16 <= |buf| && pos + 16 - lo <= NMAX
    ensures At(s, buf, lo, pos + 16, t')
  {
    t' := Do8(s, buf, lo, pos, 0, t);
    t' := Do8(s, buf, lo, pos, 8, t');
  }

  lemma NoneAdded(s: Sums, buf: seq<byte>, pos: nat)
    requires pos <= |buf| && s.s1 < 65536 && s.s2 < 65536
    ensures At(s, buf, pos, pos, s)
  {}

  lemma AllAdded(s: Sums, buf: seq<byte>, pos: nat, p: nat, t: Sums)
    requires At(s, buf, pos, p, t)
    ensures pos <= p <= |buf| && t == Raw(s, buf[pos..p])
  {}

  /** One run of at most NMAX bytes: sixteen at a time, then the rest, then the reduction. */
  method Reduce(buf: seq<byte>, pos: nat, n: nat, s: Sums) returns (t: Sums)
    requires 1 <= n <= NMAX && pos + n <= |buf| && s.s1 < 65536 && s.s2 < 65536
    ensures t == Fold(s, buf[pos..pos + n]) && t.s1 < BASE && t.s2 < BASE
  {
    hide At, Fold, Raw;
    var p, k := pos, n;
    t := s;
    NoneAdded(s, buf, pos);
    while k >= 16
      invariant p + k == pos + n && At(s, buf, pos, p, t)
    {
      t := Do16(s, buf, pos, p, t);
      p := p + 16;
      k := k - 16;
    }
    while k != 0
      invariant p + k == pos + n && At(s, buf, pos, p, t)
    {
      t := Do1(s, buf, pos, p, 0, t);
      p := p + 1;
      k := k - 1;
    }
    AllAdded(s, buf, pos, p, t);
    RawCongruent(s, buf[pos..pos + n]);
    t := Sums(t.s1 % BASE, t.s2 % BASE);
  }

  /** adler32: for every starting value and every length, the checksum reduced after each byte. */
  method Adler32(adler: nat, buf: seq<byte>) returns (r: nat)
    requires adler < WORD
    ensures r == Checksum(adler, buf) < WORD
  {
    var s := Sums(Low(adler, 16), Low(Shr(adler, 16), 16));
    UnpackSmall(adler);
    var pos, len := 0, |buf|;
    while len > 0
      invariant 0 <= pos <= |buf| && pos + len == |buf| && s == Fold(Unpack(adler), buf[..pos])
      invariant s.s1 < 65536 && s.s2 < 65536
      decreases len
    {
      var k := if len < NMAX then len else NMAX;
      len := len - k;
      FoldConcat(Unpack(adler), buf[..pos], buf[pos..pos + k]);
      assert buf[..pos] + buf[pos..pos + k] == buf[..pos + k];
      s := Reduce(buf, pos, k, s);
      pos := pos + k;
    }
    assert buf[..pos] == buf;
    UnpackPack(s);
    r := Or(Shl(s.s2, 16), s.s1);
  }

  // ----- the modulus -----

  predicate Prime(n: nat) { n >= 2 && forall d :: 2 <= d < n ==> n % d != 0 }

  /** None of the k numbers from d on divides n. */
  predicate NoDivisor(n: nat, d: nat, k: nat)
    requires d > 0
    decreases k
  {
    k == 0 || (n % d != 0 && NoDivisor(n, d + 1, k - 1))
  }

  lemma {:induction false} NotDivisible(n: nat, d: nat, k: nat, x: nat)
    requires 0 < d <= x < d + k && NoDivisor(n, d, k)
    ensures n % x != 0
    decreases k
  {
    if d < x { NotDivisible(n, d + 1, k - 1, x); }
  }

  lemma NoSmallDivisor()
    ensures forall i :: 0 <= i < 32 ==> NoDivisor(BASE, 2 + 8 * i, if i < 31 then 8 else 6)
  {
    assert NoDivisor(65521, 2, 8);
    assert NoDivisor(65521, 10, 8);
    assert NoDivisor(65521, 18, 8);
    assert NoDivisor(65521, 26, 8);
    assert NoDivisor(65521, 34, 8);
    assert NoDivisor(65521, 42, 8);
    assert NoDivisor(65521, 50, 8);
    assert NoDivisor(65521, 58, 8);
    assert NoDivisor(65521, 66, 8);
    assert NoDivisor(65521, 74, 8);
    assert NoDivisor(65521, 82, 8);
    assert NoDivisor(65521, 90, 8);
    assert NoDivisor(65521, 98, 8);
    assert NoDivisor(65521, 106, 8);
    assert NoDivisor(65521, 114, 8);
    assert NoDivisor(65521, 122, 8);
    assert NoDivisor(65521, 130, 8);
    assert NoDivisor(65521, 138, 8);
    assert NoDivisor(65521, 146, 8);
    assert NoDivisor(65521, 154, 8);
    assert NoDivisor(65521, 162, 8);
    assert NoDivisor(65521, 170, 8);
    assert NoDivisor(65521, 178, 8);
    assert NoDivisor(65521, 186, 8);
    assert NoDivisor(65521, 194, 8);
    assert NoDivisor(65521, 202, 8);
    assert NoDivisor(65521, 210, 8);
    assert NoDivisor(65521, 218, 8);
    assert NoDivisor(65521, 226, 8);
    assert NoDivisor(65521, 234, 8);
    assert NoDivisor(65521, 242, 8);
    assert NoDivisor(65521, 250, 6);
  }

  /** 65521 is a prime number, and no number between it and 2^16 is one. */
  lemma LargestPrime()
    ensures Prime(BASE) && forall n :: BASE < n < 0x1_0000 ==> !Prime(n)
  {
    hide NoDivisor;
    NoSmallDivisor();
    forall d | 2 <= d < 256 ensures BASE % d != 0 {
      var i := (d - 2) / 8;
      NotDivisible(BASE, 2 + 8 * i, if i < 31 then 8 else 6, d);
    }
    forall d | 256 <= d < BASE ensures BASE % d != 0 { if BASE % d == 0 { CoDivisor(BASE, d); } }
    forall n | BASE < n < 0x1_0000 ensures !Prime(n) { Composite(n); }
  }

  lemma CoDivisor(n: nat, d: nat)
    requires 256 <= d < n < 0x1_0000 && n % d == 0
    ensures exists q :: 2 <= q < 256 && n % q == 0
  {
    var q := n / d;
    assert n == d * q;
    SmallQuotient(d, q);
    QuotientUnique(n, q, d, 0);
  }

  lemma NoLess(d: nat, k: nat)
    ensures d * k >= 0
  {}

  lemma SmallQuotient(d: nat, q: nat)
    requires 256 <= d < d * q < 0x1_0000
    ensures 2 <= q < 256
  {
    var more := q - 256;
    assert d * q == d * 256 + d * more;
    if more >= 0 { NoLess(d, more); }
  }

  lemma Composite(n: nat)
    requires BASE < n < 0x1_0000
    ensures !Prime(n)
  {
    if n == 65523 {
      assert n % 3 == 0;
    } else if n == 65525 {
      assert n % 5 == 0;
    } else if n == 65527 {
      assert n % 7 == 0;
    } else if n == 65529 {
      assert n % 3 == 0;
    } else if n == 65531 {
      assert n % 19 == 0;
    } else if n == 65533 {
      assert n % 13 == 0;
    } else if n == 65535 {
      assert n % 3 == 0;
    } else {
      assert n % 2 == 0;
    }
  }
}
