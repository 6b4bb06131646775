/** How many entries the tables of a code take exactly, from its lengths alone; and how the table loop comes to as many.
    A prefix of w bits is given by the position where it starts in the code space. */
module HuftSpace {
  import opened Bits
  import opened Canonical
  import opened HuftStack
  import opened HuftLedger

  // ----- the entries of a code -----

  /** The first length from k on whose codewords come up to position x. Those of the longest length g, with the
      codewords left over, always do. */
  function Reaching(lens: seq<nat>, g: nat, x: nat, k: nat): (n: nat)
    requires k <= g <= BMAX
    ensures k <= n <= g
    decreases g - k
  {
    if k == g || x <= Used(lens, k) then k else Reaching(lens, g, x, k + 1)
  }

  function Smaller(a: nat, b: nat): nat { if a <= b then a else b }

  /** The entries of the table for the prefix of w bits at position x. There is one if codewords longer than w bits
      start with the prefix. It takes as many bits as the longest of them needs, but no more than l; or, if the first
      of them is more than l bits longer, as many as that one needs. */
  function EntriesAt(lens: seq<nat>, l: nat, g: nat, w: nat, x: nat): nat
    requires w < g <= BMAX
  {
    if x < Used(lens, w) then 0
    else
      var first, last := Reaching(lens, g, x + 1, w + 1), Reaching(lens, g, x + Pow2(BMAX - w), w + 1);
      Pow2(if first > w + l then first - w else Smaller(l, last - w))
  }

  /** The entries of the tables for the first n prefixes of w bits. */
  function LevelEntries(lens: seq<nat>, l: nat, g: nat, w: nat, n: nat): nat
    requires w < g <= BMAX
  {
    if n == 0 then 0 else LevelEntries(lens, l, g, w, n - 1) + EntriesAt(lens, l, g, w, Shl(n - 1, BMAX - w))
  }

  /** The entries of the tables for all prefixes of w, w + l, w + 2 * l and so on bits, below g. */
  function EntriesFrom(lens: seq<nat>, l: nat, g: nat, w: nat): nat
    requires g <= BMAX
    decreases g - w
  {
    if w >= g || l == 0 then 0 else LevelEntries(lens, l, g, w, Pow2(w)) + EntriesFrom(lens, l, g, w + l)
  }

  /** The entries that all tables of a code take, when tables of m bits are wanted. */
  function TableEntries(m: nat, lens: seq<nat>): nat
    requires ValidLengths(lens)
  {
    EntriesFrom(lens, RootBits(m, lens), Longest(lens), 0)
  }

  // ----- the same, position by position -----

  /** Position x is where a prefix of w bits starts. */
  predicate Starts(w: nat, x: nat)
    requires w <= BMAX
  {
    Low(x, BMAX - w) == 0
  }

  /** The entries of the tables for the prefixes of w bits that start before position x. */
  function Before(lens: seq<nat>, l: nat, g: nat, w: nat, x: nat): nat
    requires w < g <= BMAX
  {
    if x == 0 then 0
    else Before(lens, l, g, w, x - 1) + if Starts(w, x - 1) then EntriesAt(lens, l, g, w, x - 1) else 0
  }

  /** The entries taken by the time position x is reached, with those of the tables of up to `top` bits that start
      there. */
  function Opened(lens: seq<nat>, l: nat, g: nat, w: nat, x: nat, top: int): nat
    requires g <= BMAX
    decreases g - w
  {
    if w >= g || l == 0 then 0
    else
      Before(lens, l, g, w, x)
      + (if w <= top && x < Pow2(BMAX) && Starts(w, x) then EntriesAt(lens, l, g, w, x) else 0)
      + Opened(lens, l, g, w + l, x, top)
  }

  lemma {:induction false} BeforeMono(lens: seq<nat>, l: nat, g: nat, w: nat, x: nat, x': nat)
    requires w < g <= BMAX && x <= x'
    ensures Before(lens, l, g, w, x) <= Before(lens, l, g, w, x')
    decreases x' - x
  {
    hide EntriesAt, Starts;
    if x < x' { BeforeMono(lens, l, g, w, x, x' - 1); }
  }

  /** Where no table starts, nothing is taken. */
  lemma {:induction false} BeforeSame(lens: seq<nat>, l: nat, g: nat, w: nat, x: nat, x': nat)
    requires w < g <= BMAX && x <= x'
    requires forall y {:trigger Starts(w, y)} :: x <= y < x' && Starts(w, y) ==> EntriesAt(lens, l, g, w, y) == 0
    ensures Before(lens, l, g, w, x) == Before(lens, l, g, w, x')
    decreases x' - x
  {
    hide EntriesAt, Starts;
    if x < x' {
      assert Starts(w, x' - 1) ==> EntriesAt(lens, l, g, w, x' - 1) == 0;
      BeforeSame(lens, l, g, w, x, x' - 1);
    }
  }

  /** Prefixes start at the multiples of their width only. */
  lemma StartsApart(w: nat, n: nat, y: nat)
    requires w <= BMAX && Shl(n, BMAX - w) < y < Shl(n + 1, BMAX - w)
    ensures !Starts(w, y)
  {
    hide Shl, Low;
    ShlAdd(n, 1, BMAX - w);
    ShlOne(BMAX - w);
    Compose(y - Shl(n, BMAX - w), n, BMAX - w);
  }

  lemma StartsThere(w: nat, n: nat)
    requires w <= BMAX
    ensures Starts(w, Shl(n, BMAX - w))
  {
    hide Shl, Low;
    Compose(0, n, BMAX - w);
  }

  lemma {:induction false} BeforeIsLevel(lens: seq<nat>, l: nat, g: nat, w: nat, n: nat)
    requires w < g <= BMAX
    ensures Before(lens, l, g, w, Shl(n, BMAX - w)) == LevelEntries(lens, l, g, w, n)
  {
    hide EntriesAt, Starts, Shl;
    if n == 0 {
      ShlOne(BMAX - w);
    } else {
      var x, x' := Shl(n - 1, BMAX - w), Shl(n, BMAX - w);
      BeforeIsLevel(lens, l, g, w, n - 1);
      ShlMono(n - 1, n, BMAX - w);
      StartsThere(w, n - 1);
      forall y | x + 1 <= y < x' ensures !Starts(w, y) { StartsApart(w, n - 1, y); }
      BeforeSame(lens, l, g, w, x + 1, x');
    }
  }

  /** At the end of the code space all tables have been taken. */
  lemma {:induction false} OpenedAll(lens: seq<nat>, l: nat, g: nat, w: nat, top: int)
    requires g <= BMAX
    ensures Opened(lens, l, g, w, Pow2(BMAX), top) == EntriesFrom(lens, l, g, w)
    decreases g - w
  {
    hide EntriesAt, Starts, Pow2, Before, LevelEntries;
    if w < g && l > 0 {
      Pow2Add(w, BMAX - w);
      BeforeIsLevel(lens, l, g, w, Pow2(w));
      OpenedAll(lens, l, g, w + l, top);
    }
  }

  lemma {:induction false} OpenedNone(lens: seq<nat>, l: nat, g: nat, w: nat, top: int)
    requires g <= BMAX && top < 0
    ensures Opened(lens, l, g, w, 0, top) == 0
    decreases g - w
  {
    hide EntriesAt, Starts;
    if w < g && l > 0 { OpenedNone(lens, l, g, w + l, top); }
  }

  lemma {:induction false} OpenedWithin(lens: seq<nat>, l: nat, g: nat, w: nat, x: nat, top: int)
    requires g <= BMAX && x < Pow2(BMAX)
    ensures Opened(lens, l, g, w, x, top) <= EntriesFrom(lens, l, g, w)
    decreases g - w
  {
    hide EntriesAt, Starts, Pow2, LevelEntries;
    if w < g && l > 0 {
      Pow2Add(w, BMAX - w);
      BeforeIsLevel(lens, l, g, w, Pow2(w));
      BeforeMono(lens, l, g, w, x + 1, Pow2(BMAX));
      OpenedWithin(lens, l, g, w + l, x, top);
    }
  }

  // ----- opening a table -----

  lemma {:induction false} OpenedAbove(lens: seq<nat>, l: nat, g: nat, w: nat, x: nat, top: int, top': int)
    requires g <= BMAX && top <= top' < w
    ensures Opened(lens, l, g, w, x, top) == Opened(lens, l, g, w, x, top')
    decreases g - w
  {
    hide EntriesAt, Starts, Before;
    if w < g && l > 0 { OpenedAbove(lens, l, g, w + l, x, top, top'); }
  }

  /** The next table at a position adds its entries. */
  lemma {:induction false} OpenedOne(lens: seq<nat>, l: nat, g: nat, w: nat, x: nat, at: nat)
    requires 1 <= l && w <= at < g <= BMAX && OnGrid(l, at - w) && x < Pow2(BMAX) && Starts(at, x)
    ensures Opened(lens, l, g, w, x, at) == Opened(lens, l, g, w, x, at - l) + EntriesAt(lens, l, g, at, x)
    decreases g - w
  {
    hide EntriesAt, Starts, Before, Pow2;
    if w == at {
      OpenedAbove(lens, l, g, w + l, x, at - l, at);
    } else {
      OpenedOne(lens, l, g, w + l, x, at);
    }
  }

  lemma {:induction false} ReachingIs(lens: seq<nat>, g: nat, x: nat, k: nat, n: nat)
    requires k <= n <= g <= BMAX
    requires n == k || Used(lens, n - 1) < x
    ensures Reaching(lens, g, x, k) >= n
    ensures n == g || x <= Used(lens, n) ==> Reaching(lens, g, x, k) == n
    decreases n - k
  {
    hide Used;
    if k < n {
      UsedMono(lens, k, n - 1);
      ReachingIs(lens, g, x, k + 1, n);
    }
  }

  /** The table the loop makes for the first codeword under a prefix has as many bits as the lengths say. */
  lemma SizedEntries(lens: seq<nat>, l: nat, g: nat, k: nat, C: nat, w: nat, x: nat, j: nat)
    requires 1 <= k <= g <= BMAX && w < k && 1 <= l && x == Shl(C, BMAX - k)
    requires FirstCode(lens, k) <= C < FirstCode(lens, k) + Count(lens, k)
    requires 1 <= j && w + j <= g
    requires if k > w + l then j == k - w
             else j <= l && Used(lens, w + j - 1) < x + Pow2(BMAX - w)
                  && (j == l || x + Pow2(BMAX - w) <= Used(lens, w + j))
    ensures EntriesAt(lens, l, g, w, x) == Pow2(j)
  {
    hide Used, Shl, Count, FirstCode, Pow2;
    FirstCodePosition(lens, k);
    ShlMono(FirstCode(lens, k), C, BMAX - k);
    ShlMono(C, FirstCode(lens, k) + Count(lens, k), BMAX - k);
    UsedMono(lens, w, k - 1);
    ReachingIs(lens, g, x + 1, w + 1, k);
    if k <= w + l { ReachingIs(lens, g, x + Pow2(BMAX - w), w + 1, w + j); }
  }

  // ----- stepping to the next codeword -----

  /** Behind a codeword of k bits, no table of fewer bits starts before the next codeword. */
  lemma NoStartInside(k: nat, C: nat, w: nat, y: nat)
    requires w <= k <= BMAX && Shl(C, BMAX - k) < y < Shl(C + 1, BMAX - k)
    ensures !Starts(w, y)
  {
    hide Shl, Low;
    StartsApart(k, C, y);
    if Starts(w, y) { LowLow(y, BMAX - k, BMAX - w); ZeroLow(BMAX - k); }
  }

  lemma ZeroLow(n: nat)
    ensures Low(0, n) == 0
  {}

  /** At one level: either the prefix of the codeword has its table, if it starts there, or it needs none. */
  lemma BeforeNext(lens: seq<nat>, l: nat, g: nat, w: nat, k: nat, C: nat)
    requires w < g <= BMAX && 1 <= k <= BMAX && C < FirstCode(lens, k) + Count(lens, k)
    ensures var x, x' := Shl(C, BMAX - k), Shl(C + 1, BMAX - k);
            Before(lens, l, g, w, x') == Before(lens, l, g, w, x)
              + if w < k && Starts(w, x) then EntriesAt(lens, l, g, w, x) else 0
  {
    hide Shl, Starts, Used, Count, FirstCode, Pow2;
    var x, x' := Shl(C, BMAX - k), Shl(C + 1, BMAX - k);
    ShlMono(C, C + 1, BMAX - k);
    if w < k {
      forall y | x + 1 <= y < x' ensures !Starts(w, y) { NoStartInside(k, C, w, y); }
      BeforeSame(lens, l, g, w, x + 1, x');
    } else {
      FirstCodePosition(lens, k);
      ShlMono(C + 1, FirstCode(lens, k) + Count(lens, k), BMAX - k);
      UsedMono(lens, k, w);
      BeforeSame(lens, l, g, w, x, x');
    }
  }

  /** With all tables for a codeword open, none is missing when the next codeword is reached. */
  lemma {:induction false} OpenedNext(lens: seq<nat>, l: nat, g: nat, w: nat, k: nat, C: nat, top: nat)
    requires 1 <= l && g <= BMAX && 1 <= k <= BMAX && C < FirstCode(lens, k) + Count(lens, k)
    requires OnGrid(l, w) && OnGrid(l, top) && top < k <= top + l && Shl(C, BMAX - k) < Pow2(BMAX)
    ensures Opened(lens, l, g, w, Shl(C + 1, BMAX - k), -1) == Opened(lens, l, g, w, Shl(C, BMAX - k), top)
    decreases g - w
  {
    hide Shl, Starts, Before, EntriesAt, Count, FirstCode, Pow2;
    if w < g {
      BeforeNext(lens, l, g, w, k, C);
      if top < w < k { GridGap(l, w, top); }
      GridStep(l, w + l);
      OpenedNext(lens, l, g, w + l, k, C, top);
    }
  }

  /** Tables that do not start at a position do not count there. */
  lemma {:induction false} OpenedLater(lens: seq<nat>, l: nat, g: nat, w: nat, x: nat, top: nat)
    requires g <= BMAX && top <= BMAX && (x >= Pow2(BMAX) || !Starts(top, x))
    ensures Opened(lens, l, g, w, x, -1) == Opened(lens, l, g, w, x, top)
    decreases g - w
  {
    hide Before, EntriesAt, Pow2, Low;
    if w < g && l > 0 {
      if w <= top && Starts(w, x) {
        LowLow(x, BMAX - top, BMAX - w);
        ZeroLow(BMAX - top);
      }
      OpenedLater(lens, l, g, w + l, x, top);
    }
  }

  /** The next codeword does not start a prefix it shares with the last one. */
  lemma SharedPrefix(k: nat, C: nat, i: nat, S: nat, i': nat, w: nat)
    requires k <= BMAX && PosAt(k, C, i, S) && C < Pow2(k) && PosAt(k, C + 1, i', Shl(C + 1, BMAX - k))
    requires w <= k && Low(i', w) == Low(i, w)
    ensures Shl(C + 1, BMAX - k) >= Pow2(BMAX) || !Starts(w, Shl(C + 1, BMAX - k))
  {
    hide Pow2, Shl, Rev, Low, Starts, PosAt;
    var x := Shl(C + 1, BMAX - k);
    if C + 1 >= Pow2(k) {
      ShlMono(Pow2(k), C + 1, BMAX - k);
      Pow2Add(k, BMAX - k);
    } else {
      InOwnPrefix(k, C, i, S, w);
      NextInPrefix(k, C, i', w);
      ShlMono(C, C + 1, BMAX - k);
      PositionOf(k, C, i, S);
      StartsApart(w, Rev(w, Low(i, w)), x);
    }
  }

  lemma PositionOf(k: nat, C: nat, i: nat, S: nat)
    requires PosAt(k, C, i, S)
    ensures S == Shl(C, BMAX - k)
  {}

  lemma NextInPrefix(k: nat, C: nat, i: nat, w: nat)
    requires k <= BMAX && PosAt(k, C + 1, i, Shl(C + 1, BMAX - k)) && C + 1 < Pow2(k) && w <= k
    ensures Shl(C + 1, BMAX - k) < Shl(Rev(w, Low(i, w)) + 1, BMAX - w)
  {
    hide Pow2, Rev, Low, PosAt, Shl;
    InOwnPrefix(k, C + 1, i, Shl(C + 1, BMAX - k), w);
  }

  // ----- the invariant -----

  /** The tables opened so far take exactly the entries they must. */
  predicate Exact(e: Env, g: nat, x: nat, hn: nat, top: int)
    requires g <= BMAX
  {
    hn == e.base + Opened(e.ext, e.l, g, 0, x, top)
  }
}
