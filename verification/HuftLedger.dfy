/** How many entries the tables of a code take at most. At one level (one number w of bits before the table) a table
    either has as many entries as its prefix has codewords, all of the same length; or codewords of several lengths
    start with its prefix, and then the longest of them is longer than with any table before it at that level. */
module HuftLedger {
  import opened Bits
  import opened Canonical
  import opened CodeSpace
  import opened HuftTable
  import opened HuftStack
  import opened HuftSkip
  import opened HuftChain

  // ----- what a level may still need -----

  /** The most entries a table behind w bits takes for codewords of up to k bits. */
  function Entries(l: nat, w: nat, k: nat): nat
    requires w <= k
  {
    Pow2(if k - w < l then k - w else l)
  }

  /** One table for each longest length above k. */
  function Straddling(l: nat, w: nat, k: nat): nat
    requires w <= k
    decreases BMAX - k
  {
    if k >= BMAX then 0 else Entries(l, w, k + 1) + Straddling(l, w, k + 1)
  }

  /** The entries that tables behind w bits can take for the last `codes` codewords, none shorter than k. */
  function Need(l: nat, w: nat, k: nat, codes: nat): nat {
    codes + Straddling(l, w, if k > w then k else w + 1)
  }

  lemma {:induction false} StraddlingSplit(l: nat, w: nat, k: nat, g: nat)
    requires w <= k < g <= BMAX
    ensures Entries(l, w, g) + Straddling(l, w, g) <= Straddling(l, w, k)
    decreases g - k
  {
    hide Entries;
    if k + 1 < g { StraddlingSplit(l, w, k + 1, g); }
  }

  lemma {:induction false} StraddlingMono(l: nat, w: nat, k: nat, k': nat)
    requires w <= k <= k'
    ensures Straddling(l, w, k') <= Straddling(l, w, k)
    decreases k' - k
  {
    hide Entries;
    if k < k' { StraddlingMono(l, w, k + 1, k'); }
  }

  lemma NeedMono(l: nat, w: nat, k: nat, codes: nat, k': nat, codes': nat)
    requires k <= k' && codes' <= codes
    ensures Need(l, w, k', codes') <= Need(l, w, k, codes)
  {
    hide Straddling;
    StraddlingMono(l, w, if k > w then k else w + 1, if k' > w then k' else w + 1);
  }

  /** How many codewords there are from the C-th of length k on. */
  function CodesFrom(ext: seq<nat>, k: nat, C: nat): (n: int)
    ensures C <= FirstCode(ext, k) + Count(ext, k) ==> n >= 0
  {
    FirstCode(ext, k) + Count(ext, k) - C + Longer(ext, k)
  }

  // ----- sums -----

  function SumFrom(q: seq<nat>, i: nat): nat
    requires i <= |q|
    decreases |q| - i
  {
    if i == |q| then 0 else q[i] + SumFrom(q, i + 1)
  }

  lemma {:induction false} SumUpdate(q: seq<nat>, i: nat, w: nat, x: nat)
    requires i <= |q| && w < |q|
    ensures SumFrom(q[w := x], i) == SumFrom(q, i) + (if i <= w then x - q[w] else 0)
    decreases |q| - i
  {
    if i < |q| { SumUpdate(q, i + 1, w, x); }
  }

  lemma {:induction false} SumAtLeast(q: seq<nat>, i: nat, w: nat)
    requires i <= w < |q|
    ensures q[w] <= SumFrom(q, i)
    decreases |q| - i
  {
    if i < w { SumAtLeast(q, i + 1, w); }
  }

  // ----- the ledger -----

  /** The C-th codeword of length k, or the end of that length, is at or behind the position `end`. */
  predicate Past(ext: seq<nat>, end: nat, k: nat, C: nat) {
    1 <= k <= BMAX && FirstCode(ext, k) <= C <= FirstCode(ext, k) + Count(ext, k) && end <= Shl(C, BMAX - k)
  }

  /** Behind `end` the codewords have at least `from` bits and there are at most `codes` of them. */
  ghost predicate Promise(ext: seq<nat>, end: nat, from: nat, codes: nat) {
    forall k: nat, C: nat {:trigger Past(ext, end, k, C)} ::
      Past(ext, end, k, C) ==> from <= k && CodesFrom(ext, k, C) <= codes
  }

  predicate LedgerShape(led: Ledger) {
    |led.left| == |led.from| == |led.codes| == BMAX + 1
  }

  /** A level where no table is open has enough left for all codewords to come. */
  predicate LevelFree(e: Env, k: nat, codes: nat, led: Ledger, w: nat)
    requires LedgerShape(led) && w <= BMAX
  {
    Need(e.l, w, k, codes) <= led.left[w]
  }

  /** Where a table is open, there is enough left for all codewords behind it. */
  ghost predicate LevelTaken(e: Env, s: Regs, sh: Shadow, t: nat)
    requires LedgerShape(sh.led) && Shaped(e, s, sh) && t <= s.h
  {
    var w := sh.ws[t];
    && w <= BMAX && Need(e.l, w, sh.led.from[w], sh.led.codes[w]) <= sh.led.left[w]
    && Promise(e.ext, End(w, s.x[t]), sh.led.from[w], sh.led.codes[w])
  }

  /** The entries used and those set aside for each level are within the total. */
  ghost predicate Budgeted(e: Env, g: nat, k: nat, codes: nat, s: Regs, sh: Shadow) {
    && Shaped(e, s, sh) && LedgerShape(sh.led) && s.hn + SumFrom(sh.led.left, 0) <= e.base + e.total
    && (forall w: nat {:trigger LevelFree(e, k, codes, sh.led, w)} ::
          s.w < w < g && 1 <= w <= BMAX && OnGrid(e.l, w) ==> LevelFree(e, k, codes, sh.led, w))
    && (forall t {:trigger LevelTaken(e, s, sh, t)} :: 1 <= t <= s.h ==> LevelTaken(e, s, sh, t))
    && (s.h < 0 ==> Pow2(e.l) <= sh.led.left[0])
  }

  lemma LaterBudgeted(e: Env, g: nat, k: nat, codes: nat, k': nat, codes': nat, s: Regs, sh: Shadow)
    requires Budgeted(e, g, k, codes, s, sh) && k <= k' && codes' <= codes
    ensures Budgeted(e, g, k', codes', s, sh)
  {
    hide Need, OnGrid, SumFrom, Pow2, Promise;
    forall w: nat | s.w < w < g && 1 <= w <= BMAX && OnGrid(e.l, w) ensures LevelFree(e, k', codes', sh.led, w) {
      assert LevelFree(e, k, codes, sh.led, w);
      NeedMono(e.l, w, k, codes, k', codes');
    }
  }

  lemma {:induction false} GridGap(l: nat, a: nat, b: nat)
    requires OnGrid(l, a) && OnGrid(l, b) && b <= a < b + l
    ensures a == b
    decreases a
  {
    if 0 < b { GridGap(l, a - l, b - l); }
  }

  lemma PopBudgeted(e: Env, g: nat, i: nat, k: nat, C: nat, s: Regs, sh: Shadow)
    requires CodesFrom(e.ext, k, C) >= 0 && Stacked(e, i, s, sh) && s.h >= 1 && sh.ws[s.h] <= BMAX
    requires Budgeted(e, g, k, CodesFrom(e.ext, k, C), s, sh)
    requires Past(e.ext, End(sh.ws[s.h], s.x[s.h]), k, C)
    ensures Budgeted(e, g, k, CodesFrom(e.ext, k, C), PoppedRegs(e.l, s), PoppedShadow(sh))
  {
    hide Need, OnGrid, SumFrom, Pow2, Past, CodesFrom, End, Low;
    var s', sh', codes := PoppedRegs(e.l, s), PoppedShadow(sh), CodesFrom(e.ext, k, C);
    assert Nests(e.l, s, sh, s.h - 1) && Level(e, i, s, sh, s.h) && LevelTaken(e, s, sh, s.h);
    var at := sh.ws[s.h];
    NeedMono(e.l, at, sh.led.from[at], sh.led.codes[at], k, codes);
    forall w: nat | s'.w < w < g && 1 <= w <= BMAX && OnGrid(e.l, w) ensures LevelFree(e, k, codes, sh'.led, w) {
      if w <= at {
        GridGap(e.l, at, w);
      } else {
        assert LevelFree(e, k, codes, sh.led, w);
      }
    }
    forall t | 1 <= t <= s'.h ensures LevelTaken(e, s', sh', t) {
      assert LevelTaken(e, s, sh, t);
    }
  }

  // ----- paying for a table -----

  lemma BeforeCode(ext: seq<nat>, k: nat, C: nat)
    requires 1 <= k <= BMAX && FirstCode(ext, k) <= C
    ensures Used(ext, k - 1) <= Shl(C, BMAX - k)
    ensures C <= FirstCode(ext, k) + Count(ext, k) ==> Shl(C, BMAX - k) <= Used(ext, k)
  {
    hide Used, Shl, FirstCode, Count;
    FirstCodePosition(ext, k);
    ShlMono(FirstCode(ext, k), C, BMAX - k);
    if C <= FirstCode(ext, k) + Count(ext, k) { ShlMono(C, FirstCode(ext, k) + Count(ext, k), BMAX - k); }
  }

  lemma FewerBehind(ext: seq<nat>, k: nat, k': nat, C': nat)
    requires k < k' <= BMAX && FirstCode(ext, k') <= C'
    ensures CodesFrom(ext, k', C') <= Longer(ext, k)
  {
    hide Count, FirstCode;
    LongerMono(ext, k, k' - 1);
    assert CodesFrom(ext, k', C') <= Longer(ext, k' - 1);
  }

  lemma {:induction false} LongerMono(ext: seq<nat>, k: nat, k': nat)
    requires k <= k'
    ensures Longer(ext, k') <= Longer(ext, k)
    decreases k' - k
  {
    hide Count;
    if k < k' { LongerMono(ext, k + 1, k'); }
  }

  /** All codewords under the prefix have the length of the first: one entry each. */
  lemma UniformTable(ext: seq<nat>, l: nat, k: nat, C: nat, i: nat, S: nat, w: nat, j: nat)
    requires PosAt(k, C, i, S) && C < Pow2(k) && FirstCode(ext, k) <= C <= FirstCode(ext, k) + Count(ext, k)
    requires w < k <= w + l && Shr(i, w) == 0 && Sized(ext, l, w, i, j) && End(w, i) <= Used(ext, k)
    ensures j == k - w && End(w, i) == Shl(C + Pow2(j), BMAX - k)
    ensures C + Pow2(j) <= FirstCode(ext, k) + Count(ext, k)
  {
    hide Pow2, Shl, Rev, Used, FirstCode, Count, Shr, Low;
    AtPrefixStart(k, C, i, S, w);
    BeforeCode(ext, k, C);
    EndBound(w, i);
    if w + j > k {
      UsedMono(ext, k, w + j - 1);
    } else if w + j < k {
      UsedMono(ext, w + j, k - 1);
    }
    SlotEnd(Rev(w, i), j, k, w);
    var x := FirstCode(ext, k) + Count(ext, k);
    FirstCodePosition(ext, k);
    if x < C + Pow2(j) { ShlMono(x, C + Pow2(j), BMAX - k); }
  }

  lemma UniformPromise(ext: seq<nat>, k: nat, C: nat, n: nat, end: nat)
    requires 1 <= k <= BMAX && FirstCode(ext, k) <= C && C + n <= FirstCode(ext, k) + Count(ext, k) && n > 0
    requires end == Shl(C + n, BMAX - k)
    ensures CodesFrom(ext, k, C) >= n && Promise(ext, end, k, CodesFrom(ext, k, C) - n)
  {
    hide Pow2, Shl, Used, FirstCode, Count, Longer;
    forall k': nat, C': nat | Past(ext, end, k', C')
      ensures k <= k' && CodesFrom(ext, k', C') <= CodesFrom(ext, k, C) - n
    {
      BeforeCode(ext, k', C');
      BeforeCode(ext, k, C);
      ShlMono(C, C + n, BMAX - k);
      if k' < k {
        UsedMono(ext, k', k - 1);
      } else if k' == k {
        if C' < C + n { ShlMono(C', C + n, BMAX - k); }
      } else {
        FewerBehind(ext, k, k', C');
      }
    }
  }

  /** Codewords of several lengths start with the prefix: behind it they are at least as long as the longest. */
  lemma StraddlingPromise(ext: seq<nat>, k: nat, C: nat, g: nat, end: nat)
    requires 1 <= k < g <= BMAX && FirstCode(ext, k) <= C <= FirstCode(ext, k) + Count(ext, k)
    requires Used(ext, g - 1) < end
    ensures Promise(ext, end, g, CodesFrom(ext, k, C))
  {
    hide Pow2, Shl, Used, FirstCode, Count, Longer;
    forall k': nat, C': nat | Past(ext, end, k', C')
      ensures g <= k' && CodesFrom(ext, k', C') <= CodesFrom(ext, k, C)
    {
      BeforeCode(ext, k', C');
      if k' < g {
        UsedMono(ext, k', g - 1);
      } else {
        FewerBehind(ext, k, k', C');
      }
    }
  }

  /** What the level has promised once the table is open. */
  function Paid(ext: seq<nat>, k: nat, C: nat, w: nat, i: nat, j: nat, led: Ledger): Ledger
    requires LedgerShape(led) && w <= BMAX && k <= BMAX
  {
    var n := CodesFrom(ext, k, C);
    var uniform := End(w, i) <= Used(ext, k);
    var left := if led.left[w] >= Pow2(j) then led.left[w] - Pow2(j) else 0;
    Ledger(led.left[w := left],
           led.from[w := if uniform then k else LongestUnder(ext, w, i, w)],
           led.codes[w := if uniform && n >= Pow2(j) then n - Pow2(j) else if n >= 0 then n else 0])
  }

  ghost predicate Settled(e: Env, i: nat, j: nat, w: nat, led: Ledger, led': Ledger)
    requires LedgerShape(led) && w <= BMAX
  {
    && LedgerShape(led') && Pow2(j) <= led.left[w]
    && led'.left == led.left[w := led.left[w] - Pow2(j)]
    && (forall v :: 0 <= v <= BMAX && v != w ==> led'.from[v] == led.from[v] && led'.codes[v] == led.codes[v])
    && (w > 0 ==> Need(e.l, w, led'.from[w], led'.codes[w]) <= led'.left[w]
                  && Promise(e.ext, End(w, i), led'.from[w], led'.codes[w]))
  }

  /** A table of its proper size is paid for by what its level has left. */
  lemma PayFor(e: Env, k: nat, C: nat, i: nat, S: nat, w: nat, j: nat, led: Ledger)
    requires PosAt(k, C, i, S) && C < Pow2(k) && Complete(e.ext)
    requires FirstCode(e.ext, k) <= C <= FirstCode(e.ext, k) + Count(e.ext, k)
    requires w < k <= w + e.l && Shr(i, w) == 0 && Sized(e.ext, e.l, w, i, j) && LedgerShape(led)
    requires if w == 0 then Pow2(e.l) <= led.left[0] else LevelFree(e, k, CodesFrom(e.ext, k, C), led, w)
    ensures Settled(e, i, j, w, led, Paid(e.ext, k, C, w, i, j, led))
  {
    hide Pow2, Shl, Rev, Used, FirstCode, Count, Shr, Straddling, Promise, End, LongestUnder, CodesFrom, Complete;
    var led' := Paid(e.ext, k, C, w, i, j, led);
    if w == 0 {
      Pow2Mono(j, e.l);
    } else if End(w, i) <= Used(e.ext, k) {
      UniformTable(e.ext, e.l, k, C, i, S, w, j);
      UniformPromise(e.ext, k, C, Pow2(j), End(w, i));
    } else {
      StraddlingPay(e, k, C, i, S, w, j);
    }
  }

  /** The longest codeword under a prefix that codewords of length k do not fill. */
  lemma LongestBeyond(ext: seq<nat>, k: nat, i: nat, w: nat)
    requires w < k <= BMAX && Used(ext, k) < End(w, i) && Complete(ext)
    ensures var g := LongestUnder(ext, w, i, w); k < g <= BMAX && Used(ext, g - 1) < End(w, i)
  {
    hide Used, End, Complete, LongestUnder;
    UsedMono(ext, w, k);
    ReachesEnd(ext, w, i, w);
    var g := LongestUnder(ext, w, i, w);
    if g <= k { UsedMono(ext, g, k); }
  }

  lemma StraddlingPay(e: Env, k: nat, C: nat, i: nat, S: nat, w: nat, j: nat)
    requires PosAt(k, C, i, S) && FirstCode(e.ext, k) <= C <= FirstCode(e.ext, k) + Count(e.ext, k)
    requires 0 < w < k <= w + e.l && Sized(e.ext, e.l, w, i, j) && Used(e.ext, k) < End(w, i) && Complete(e.ext)
    ensures var g := LongestUnder(e.ext, w, i, w);
            && k < g <= BMAX && Promise(e.ext, End(w, i), g, CodesFrom(e.ext, k, C))
            && Pow2(j) + Straddling(e.l, w, g) <= Straddling(e.l, w, k)
  {
    hide Pow2, Shl, Rev, Used, FirstCode, Count, Straddling, Promise, End, CodesFrom, Complete, LongestUnder, Sized;
    var g := LongestUnder(e.ext, w, i, w);
    LongestBeyond(e.ext, k, i, w);
    SizedIs(e.ext, e.l, w, i, j);
    StraddlingPromise(e.ext, k, C, g, End(w, i));
    StraddlingSplit(e.l, w, k, g);
  }

  lemma OpenBudgeted(e: Env, g: nat, i: nat, j: nat, k: nat, codes: nat, s: Regs, sh: Shadow, led: Ledger)
    requires Stacked(e, i, s, sh) && Budgeted(e, g, k, codes, s, sh) && s.h < BMAX - 1 && 0 <= s.w + e.l <= BMAX
    requires 1 <= e.l && Shr(i, s.w + e.l) == 0 && Settled(e, i, j, s.w + e.l, sh.led, led)
    ensures Budgeted(e, g, k, codes, OpenedRegs(i, j, e.l, s), OpenedShadow(e, i, j, s, sh, led))
  {
    hide Need, OnGrid, Pow2, Promise, End, Low, Shr, SumFrom, NewCells;
    var s', sh', at := OpenedRegs(i, j, e.l, s), OpenedShadow(e, i, j, s, sh, led), s.w + e.l;
    SumUpdate(sh.led.left, 0, at, sh.led.left[at] - Pow2(j));
    forall w: nat | s'.w < w < g && 1 <= w <= BMAX && OnGrid(e.l, w) ensures LevelFree(e, k, codes, led, w) {
      assert LevelFree(e, k, codes, sh.led, w);
    }
    forall t | 1 <= t <= s'.h ensures LevelTaken(e, s', sh', t) {
      if t <= s.h {
        assert LevelTaken(e, s, sh, t);
        BelowTop(e, i, s, sh, t);
      }
    }
  }

  lemma BelowTop(e: Env, i: nat, s: Regs, sh: Shadow, t: nat)
    requires Stacked(e, i, s, sh) && t <= s.h && 1 <= e.l
    ensures sh.ws[t] < s.w + e.l
  {
    hide Level, Nests;
    LevelsAscend(e, i, s, sh, t, s.h);
  }

  /** A paid table fits. */
  lemma PaidFits(e: Env, g: nat, i: nat, j: nat, k: nat, codes: nat, s: Regs, sh: Shadow, w: nat, led: Ledger)
    requires Budgeted(e, g, k, codes, s, sh) && w <= BMAX && Settled(e, i, j, w, sh.led, led)
    ensures s.hn + Pow2(j) <= e.base + e.total
  {
    hide Need, OnGrid, Pow2, Promise, End, SumFrom;
    SumAtLeast(sh.led.left, 0, w);
  }

  // ----- the total -----

  /** What each level is granted at the start. */
  function Grant(l: nat, g: nat, n: nat, w: nat): nat {
    if w == 0 then Pow2(l)
    else if w < g && OnGrid(l, w) then Need(l, w, 0, n)
    else 0
  }

  function GrantsFrom(l: nat, g: nat, n: nat, w: nat): nat
    decreases BMAX + 1 - w
  {
    if w > BMAX then 0 else Grant(l, g, n, w) + GrantsFrom(l, g, n, w + 1)
  }

  /** The entries the tables for n codewords of up to g bits take at most. */
  function TableSpace(l: nat, g: nat, n: nat): nat {
    GrantsFrom(l, g, n, 0)
  }

  function StartLedger(l: nat, g: nat, n: nat): (led: Ledger)
    ensures LedgerShape(led) && forall w {:trigger led.left[w]} :: 0 <= w <= BMAX ==> led.left[w] == Grant(l, g, n, w)
  {
    Ledger(seq(BMAX + 1, w requires w >= 0 => Grant(l, g, n, w)), seq(BMAX + 1, _ => 0), seq(BMAX + 1, _ => 0))
  }

  lemma {:induction false} StartTotal(l: nat, g: nat, n: nat, w: nat)
    requires w <= BMAX + 1
    ensures SumFrom(StartLedger(l, g, n).left, w) == GrantsFrom(l, g, n, w)
    decreases BMAX + 1 - w
  {
    hide Grant;
    if w <= BMAX { StartTotal(l, g, n, w + 1); }
  }

  /** No table starts strictly between two multiples of l. */
  lemma {:induction false} NoGrants(l: nat, g: nat, n: nat, w: nat, w': nat)
    requires w <= w' <= BMAX + 1
    requires forall v :: w <= v < w' ==> Grant(l, g, n, v) == 0
    ensures GrantsFrom(l, g, n, w) == GrantsFrom(l, g, n, w')
    decreases w' - w
  {
    hide Grant;
    if w < w' { NoGrants(l, g, n, w + 1, w'); }
  }

  lemma OffGrid(l: nat, a: nat, b: nat)
    requires OnGrid(l, a) && a < b < a + l
    ensures !OnGrid(l, b)
  {
    hide OnGrid;
    if OnGrid(l, b) { GridGap(l, b, a); }
  }

  /** A code that fits its first table needs no other. */
  lemma OneTableSpace(l: nat, n: nat)
    requires 1 <= l <= BMAX
    ensures TableSpace(l, l, n) == Pow2(l)
  {
    hide Pow2, Need, OnGrid;
    forall v | 1 <= v < BMAX + 1 ensures Grant(l, l, n, v) == 0 {
      if v < l {
        ZeroOnGrid(l);
        OffGrid(l, 0, v);
      }
    }
    NoGrants(l, l, n, 1, BMAX + 1);
  }

  lemma ZeroOnGrid(l: nat)
    ensures OnGrid(l, 0)
  {}

  /** Nine bits per table, as for literals and lengths. */
  lemma NineBitSpace(g: nat, n: nat)
    requires g <= BMAX
    ensures TableSpace(9, g, n) <= 512 + n + 124
  {
    hide Pow2, Need, OnGrid;
    PowersUpTo9();
    ZeroOnGrid(9);
    GridStep(9, 9);
    forall v | 1 <= v < 9 ensures Grant(9, g, n, v) == 0 { OffGrid(9, 0, v); }
    forall v | 10 <= v < 16 ensures Grant(9, g, n, v) == 0 { OffGrid(9, 9, v); }
    NoGrants(9, g, n, 1, 9);
    NoGrants(9, g, n, 10, 16);
    NeedNine(n);
  }

  lemma GridStep(l: nat, w: nat)
    requires 1 <= l <= w && OnGrid(l, w - l)
    ensures OnGrid(l, w)
  {}

  lemma PowersUpTo9()
    ensures Pow2(2) == 4 && Pow2(3) == 8 && Pow2(4) == 16 && Pow2(5) == 32 && Pow2(6) == 64 && Pow2(9) == 512
  {}

  lemma NeedNine(n: nat)
    ensures Need(9, 9, 0, n) == n + 124
  {
    hide Pow2;
    PowersUpTo9();
    assert Straddling(9, 9, 15) == 0;
    assert Straddling(9, 9, 13) == Entries(9, 9, 14) + Entries(9, 9, 15);
    assert Straddling(9, 9, 11) == Entries(9, 9, 12) + Entries(9, 9, 13) + Straddling(9, 9, 13);
  }

  /** Six bits per table, as for distances: three levels. */
  lemma SixBitSpace(g: nat, n: nat)
    requires g <= BMAX
    ensures TableSpace(6, g, n) <= 64 + (n + 316) + (n + 12)
  {
    hide Pow2, Need, OnGrid;
    PowersUpTo9();
    ZeroOnGrid(6);
    GridStep(6, 6);
    GridStep(6, 12);
    forall v | 1 <= v < 6 ensures Grant(6, g, n, v) == 0 { OffGrid(6, 0, v); }
    forall v | 7 <= v < 12 ensures Grant(6, g, n, v) == 0 { OffGrid(6, 6, v); }
    forall v | 13 <= v < 16 ensures Grant(6, g, n, v) == 0 { OffGrid(6, 12, v); }
    NoGrants(6, g, n, 1, 6);
    NoGrants(6, g, n, 7, 12);
    NoGrants(6, g, n, 13, 16);
    NeedSix(n);
    NeedSixTwice(n);
  }

  lemma NeedSix(n: nat)
    ensures Need(6, 6, 0, n) == n + 316
  {
    hide Pow2;
    PowersUpTo9();
    assert Straddling(6, 6, 15) == 0;
    assert Straddling(6, 6, 13) == Entries(6, 6, 14) + Entries(6, 6, 15);
    assert Straddling(6, 6, 11) == Entries(6, 6, 12) + Entries(6, 6, 13) + Straddling(6, 6, 13);
    assert Straddling(6, 6, 9) == Entries(6, 6, 10) + Entries(6, 6, 11) + Straddling(6, 6, 11);
    assert Straddling(6, 6, 7) == Entries(6, 6, 8) + Entries(6, 6, 9) + Straddling(6, 6, 9);
  }

  lemma NeedSixTwice(n: nat)
    ensures Need(6, 12, 0, n) == n + 12
  {
    hide Pow2;
    PowersUpTo9();
    assert Straddling(6, 12, 15) == 0;
    assert Straddling(6, 12, 13) == Entries(6, 12, 14) + Entries(6, 12, 15);
  }
}
