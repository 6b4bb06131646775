/** The chain of open tables in huft_build's table loop: each is reached through its link in the one before, whatever is
    written meanwhile; and where a table was made too large, part of it is never written. */
module HuftChain {
  import opened Bits
  import opened Canonical
  import opened CodeSpace
  import opened HuftTable
  import opened HuftStack

  // ----- the two kinds of writes -----

  /** A table of j bits for the codewords that start with i is connected through r to the one above, if there is one. */
  predicate Connects(e: Env, i: nat, j: nat, s: Regs, sh: Shadow, T: seq<Huft>, r: Huft, T': seq<Huft>)
    requires Shaped(e, s, sh)
  {
    if s.h < 0 then T' == T
    else
      var c := s.u[s.h] + Shr(i, sh.ws[s.h]);
      c < |T| && T' == T[c := r] && r.exop == j && r.bits == e.l && c + r.base == s.hn
  }

  /** Every entry of the table at q whose index ends in the n bits `first` holds r, the others are unchanged. */
  ghost predicate Filled(n: nat, first: nat, q: nat, z: nat, T: seq<Huft>, r: Huft, T': seq<Huft>) {
    && |T'| == |T| && q + z <= |T|
    && forall c :: 0 <= c < |T| ==> T'[c] == if q <= c < q + z && Low(c - q, n) == first then r else T[c]
  }

  // ----- where the open tables are -----

  lemma {:induction false} TablesAscend(e: Env, i: nat, s: Regs, sh: Shadow, t: nat, t': nat)
    requires Stacked(e, i, s, sh) && t < t' <= s.h
    ensures s.u[t] + Pow2(sh.js[t]) <= s.u[t']
    decreases t' - t
  {
    hide Pow2, Level;
    assert Nests(e.l, s, sh, t);
    if t + 1 < t' { TablesAscend(e, i, s, sh, t + 1, t'); }
  }

  /** The link to the next open table is one of the first 2^l entries. */
  lemma LinkInside(e: Env, i: nat, s: Regs, sh: Shadow, t: nat)
    requires Stacked(e, i, s, sh) && t < s.h
    ensures s.x[t + 1] == Low(i, sh.ws[t] + e.l) && sh.ws[t + 1] == sh.ws[t] + e.l
    ensures Shr(s.x[t + 1], sh.ws[t]) == Low(Shr(i, sh.ws[t]), e.l) < Pow2(e.l) <= Pow2(sh.js[t])
  {
    hide Pow2, Low, Shr, OnGrid;
    assert Nests(e.l, s, sh, t) && Level(e, i, s, sh, t + 1);
    ShrOfPrefix(i, sh.ws[t], e.l);
    LowBound(Shr(i, sh.ws[t]), e.l);
    Pow2Mono(e.l, sh.js[t]);
  }

  // ----- the chain -----

  function TableEnd(l: nat, w: nat): (n: nat)
    ensures n <= BMAX
  {
    if w + l <= BMAX then w + l else BMAX
  }

  /** A table of at most l bits has a codeword that fits it. In a larger one none does, and its entries beyond the first
      2^l stay as they were. */
  predicate Reaches(e: Env, k: nat, s: Regs, sh: Shadow, T: seq<Huft>, t: nat)
    requires Shaped(e, s, sh) && t <= s.h
  {
    sh.ws[t] <= BMAX
    && if sh.js[t] <= e.l then Start(sh.ws[t], s.x[t]) < Used(e.ext, TableEnd(e.l, sh.ws[t]))
    else
      && t > 0 && sh.ws[t] + e.l < k && sh.ws[t] + e.l <= BMAX && Used(e.ext, sh.ws[t] + e.l) <= Start(sh.ws[t], s.x[t])
      && s.u[t] + Pow2(e.l) < |T| == |e.init| && T[s.u[t] + Pow2(e.l)] == e.init[s.u[t] + Pow2(e.l)]
  }

  ghost predicate Untouched(e: Env, n: nat, T: seq<Huft>) {
    |T| == |e.init| && forall c {:trigger T[c]} :: n <= c < |T| ==> T[c] == e.init[c]
  }

  ghost predicate Chained(e: Env, k: nat, s: Regs, sh: Shadow, T: seq<Huft>) {
    && Linked(e, s, sh, T)
    && (forall t {:trigger Reaches(e, k, s, sh, T, t)} :: 0 <= t <= s.h ==> Reaches(e, k, s, sh, T, t))
    && Untouched(e, s.hn, T)
  }

  lemma LaterChained(e: Env, k: nat, k': nat, s: Regs, sh: Shadow, T: seq<Huft>)
    requires Chained(e, k, s, sh, T) && k <= k'
    ensures Chained(e, k', s, sh, T)
  {
    hide Start, Used, Pow2, StackLink, TableEnd;
    forall t | 0 <= t <= s.h ensures Reaches(e, k', s, sh, T, t) {
      assert Reaches(e, k, s, sh, T, t);
    }
  }

  // ----- opening a table -----

  lemma OpenLink(e: Env, i: nat, j: nat, s: Regs, sh: Shadow, led: Ledger, T: seq<Huft>, r: Huft, T': seq<Huft>, t: nat)
    requires Stacked(e, i, s, sh) && Linked(e, s, sh, T) && s.h < BMAX - 1 && s.w + e.l >= 0 && t <= s.h
    requires Connects(e, i, j, s, sh, T, r, T')
    ensures var s' := OpenedRegs(i, j, e.l, s);
            var sh' := OpenedShadow(e, i, j, s, sh, led);
            Shaped(e, s', sh') && StackLink(e, s', sh', T', t)
  {
    hide Pow2, Low, Shr, NewCells;
    if t < s.h {
      assert StackLink(e, s, sh, T, t);
      LinkInside(e, i, s, sh, t);
      TablesAscend(e, i, s, sh, t, s.h);
    }
  }

  lemma OpenReaches(e: Env, k: nat, i: nat, j: nat, s: Regs, sh: Shadow, led: Ledger,
      T: seq<Huft>, r: Huft, T': seq<Huft>, t: nat)
    requires Stacked(e, i, s, sh) && Chained(e, k, s, sh, T) && s.h < BMAX - 1 && s.w + e.l >= 0 && t <= s.h
    requires Shr(i, s.w) < Pow2(e.l) && Connects(e, i, j, s, sh, T, r, T')
    ensures var s' := OpenedRegs(i, j, e.l, s);
            var sh' := OpenedShadow(e, i, j, s, sh, led);
            Shaped(e, s', sh') && Reaches(e, k, s', sh', T', t)
  {
    hide Pow2, Low, Shr, NewCells, Start, Used, TableEnd, StackLink;
    assert Reaches(e, k, s, sh, T, t) && Level(e, i, s, sh, t) && Level(e, i, s, sh, s.h);
    if t < s.h {
      TablesAscend(e, i, s, sh, t, s.h);
      if sh.js[t] > e.l { Pow2Mono(e.l, sh.js[t]); }
    }
  }

  /** The new table itself. */
  lemma NewReaches(e: Env, k: nat, i: nat, j: nat, s: Regs, sh: Shadow, led: Ledger,
      T: seq<Huft>, r: Huft, T': seq<Huft>)
    requires Shaped(e, s, sh) && Untouched(e, s.hn, T) && s.h < BMAX - 1 && 0 <= s.w + e.l <= BMAX
    requires Connects(e, i, j, s, sh, T, r, T') && (s.h >= 0 ==> s.u[s.h] + Shr(i, s.w) < s.hn)
    requires s.hn + Pow2(j) <= |T|
    requires if j <= e.l then Start(s.w + e.l, i) < Used(e.ext, TableEnd(e.l, s.w + e.l))
             else && s.h >= 0 && s.w + e.l + e.l < k && s.w + e.l + e.l <= BMAX
                  && Used(e.ext, s.w + e.l + e.l) <= Start(s.w + e.l, i)
    ensures var s' := OpenedRegs(i, j, e.l, s);
            var sh' := OpenedShadow(e, i, j, s, sh, led);
            Shaped(e, s', sh') && Reaches(e, k, s', sh', T', s.h + 1) && Untouched(e, s'.hn, T')
  {
    hide Pow2, Low, Shr, NewCells, Start, Used, TableEnd, StackLink;
    if j > e.l { Pow2Mono(e.l, j); }
  }

  lemma OpenChained(e: Env, k: nat, i: nat, j: nat, s: Regs, sh: Shadow, led: Ledger,
      T: seq<Huft>, r: Huft, T': seq<Huft>)
    requires Stacked(e, i, s, sh) && Chained(e, k, s, sh, T) && s.h < BMAX - 1 && 0 <= s.w + e.l <= BMAX
    requires s.h >= 0 ==> sh.js[s.h] >= e.l && Shr(i, s.w) < Pow2(e.l)
    requires Connects(e, i, j, s, sh, T, r, T') && s.hn + Pow2(j) <= |T|
    requires if j <= e.l then Start(s.w + e.l, i) < Used(e.ext, TableEnd(e.l, s.w + e.l))
             else && s.h >= 0 && s.w + e.l + e.l < k && s.w + e.l + e.l <= BMAX
                  && Used(e.ext, s.w + e.l + e.l) <= Start(s.w + e.l, i)
    ensures Chained(e, k, OpenedRegs(i, j, e.l, s), OpenedShadow(e, i, j, s, sh, led), T')
  {
    hide Pow2, Low, Shr, NewCells, Start, Used, TableEnd, StackLink, Reaches, Connects, Untouched;
    var s', sh' := OpenedRegs(i, j, e.l, s), OpenedShadow(e, i, j, s, sh, led);
    if s.h >= 0 {
      assert Level(e, i, s, sh, s.h);
      Pow2Mono(e.l, sh.js[s.h]);
    }
    NewReaches(e, k, i, j, s, sh, led, T, r, T');
    forall t | 0 <= t <= s'.h ensures Reaches(e, k, s', sh', T', t) {
      if t <= s.h { OpenReaches(e, k, i, j, s, sh, led, T, r, T', t); }
    }
    forall t | 0 <= t < s'.h ensures StackLink(e, s', sh', T', t) {
      OpenLink(e, i, j, s, sh, led, T, r, T', t);
    }
  }

  // ----- filling in a code, and closing a table -----

  lemma FillLinked(e: Env, i: nat, s: Regs, sh: Shadow, T: seq<Huft>, n: nat, first: nat, r: Huft, T': seq<Huft>)
    requires Stacked(e, i, s, sh) && Linked(e, s, sh, T) && s.h >= 0
    requires s.q == s.u[s.h] && s.z == Pow2(sh.js[s.h]) && Filled(n, first, s.q, s.z, T, r, T')
    ensures Linked(e, s, sh, T')
  {
    hide Pow2, Low, Shr;
    forall t | 0 <= t < s.h ensures StackLink(e, s, sh, T', t) {
      assert StackLink(e, s, sh, T, t);
      LinkInside(e, i, s, sh, t);
      TablesAscend(e, i, s, sh, t, s.h);
    }
  }

  /** Codes are only filled into the innermost table, which is none of the large ones. */
  lemma FillChained(e: Env, k: nat, i: nat, s: Regs, sh: Shadow, T: seq<Huft>, n: nat, first: nat, r: Huft,
      T': seq<Huft>)
    requires Stacked(e, i, s, sh) && Chained(e, k, s, sh, T) && s.h >= 0 && k <= s.w + e.l
    requires s.q == s.u[s.h] && s.z == Pow2(sh.js[s.h]) && Filled(n, first, s.q, s.z, T, r, T')
    ensures Chained(e, k, s, sh, T')
  {
    hide Pow2, Low, Shr, Start, Used, TableEnd, StackLink;
    FillLinked(e, i, s, sh, T, n, first, r, T');
    assert Level(e, i, s, sh, s.h);
    forall t | 0 <= t <= s.h ensures Reaches(e, k, s, sh, T', t) {
      assert Reaches(e, k, s, sh, T, t) && Level(e, i, s, sh, t);
      if t < s.h {
        TablesAscend(e, i, s, sh, t, s.h);
        if sh.js[t] > e.l { Pow2Mono(e.l, sh.js[t]); }
      }
    }
  }

  function PoppedRegs(l: nat, s: Regs): Regs {
    s.(h := s.h - 1, w := s.w - l)
  }

  function PoppedShadow(sh: Shadow): Shadow
    requires |sh.ws| > 0 && |sh.js| > 0
  {
    sh.(ws := sh.ws[..|sh.ws| - 1], js := sh.js[..|sh.js| - 1])
  }

  lemma PopChained(e: Env, k: nat, i: nat, s: Regs, sh: Shadow, T: seq<Huft>)
    requires Stacked(e, i, s, sh) && Chained(e, k, s, sh, T) && s.h >= 1
    ensures Chained(e, k, PoppedRegs(e.l, s), PoppedShadow(sh), T)
  {
    hide Pow2, Low, Shr, Start, Used, TableEnd;
    var s', sh' := PoppedRegs(e.l, s), PoppedShadow(sh);
    assert Nests(e.l, s, sh, s.h - 1);
    forall t | 0 <= t < s'.h ensures StackLink(e, s', sh', T, t) {
      assert StackLink(e, s, sh, T, t);
    }
    forall t | 0 <= t <= s'.h ensures Reaches(e, k, s', sh', T, t) {
      assert Reaches(e, k, s, sh, T, t);
    }
  }

  // ----- the walk into a table that is too large -----

  lemma FollowLink(T: seq<Huft>, t: nat, need: nat, v: nat, budget: nat)
    requires t + Low(v, need) < |T|
    requires var en := T[t + Low(v, need)]; IsLink(en) && 1 <= en.bits <= budget
    ensures var c := t + Low(v, need);
            var r := Follow(T, c + T[c].base, T[c].exop, Shr(v, T[c].bits), budget - T[c].bits);
            r.Leaf? ==> Follow(T, t, need, v, budget) == Leaf(r.entry, T[c].bits + r.used, T[c].bits + r.ahead)
  {
    hide Low, Shr;
  }

  /** An input that starts with the prefix of the open table t and goes on with one 1-bit, l bits later. */
  function Beyond(e: Env, s: Regs, sh: Shadow, t: nat): nat
    requires Shaped(e, s, sh) && t <= s.h
  {
    s.x[t] + Shl(Pow2(e.l), sh.ws[t])
  }

  lemma BeyondStarts(e: Env, i: nat, s: Regs, sh: Shadow, t: nat)
    requires Stacked(e, i, s, sh) && t <= s.h
    ensures var v := Beyond(e, s, sh, t);
            Shr(v, sh.ws[t]) == Pow2(e.l) && Low(v, sh.ws[t]) == s.x[t] == Low(i, sh.ws[t])
  {
    hide Pow2, Low, Shl, Shr, OnGrid;
    assert Level(e, i, s, sh, t);
    LowBound(i, sh.ws[t]);
    Compose(s.x[t], Pow2(e.l), sh.ws[t]);
  }

  lemma {:induction false} LevelsAscend(e: Env, i: nat, s: Regs, sh: Shadow, t: nat, t': nat)
    requires Stacked(e, i, s, sh) && t <= t' <= s.h
    ensures sh.ws[t] <= sh.ws[t']
    decreases t' - t
  {
    hide Pow2, Level;
    if t < t' {
      assert Nests(e.l, s, sh, t);
      LevelsAscend(e, i, s, sh, t + 1, t');
    }
  }

  /** From an outer table the decoder follows the links to the first table that is too large, and finds there an entry
      that was never written. */
  lemma {:induction false} FollowChain(e: Env, k: nat, i: nat, s: Regs, sh: Shadow, T: seq<Huft>, t0: nat, t: nat)
    requires 1 <= e.l && Stacked(e, i, s, sh) && Chained(e, k, s, sh, T) && t <= t0 <= s.h && sh.js[t0] > e.l
    requires forall n {:trigger sh.js[n]} :: 0 <= n < t0 ==> sh.js[n] == e.l
    requires sh.ws[t] <= sh.ws[t0] <= BMAX
    requires s.u[t0] + Pow2(e.l) < |e.init| && e.init[s.u[t0] + Pow2(e.l)] == Huft(0, 0, 0)
    ensures var v := Beyond(e, s, sh, t0);
            Follow(T, s.u[t], sh.js[t], Shr(v, sh.ws[t]), BMAX - sh.ws[t])
            == Leaf(Huft(0, 0, 0), sh.ws[t0] - sh.ws[t], sh.ws[t0] - sh.ws[t] + sh.js[t0])
    decreases t0 - t
  {
    hide Pow2, Low, Shl, Shr, Start, Used, TableEnd, OnGrid, Follow, Beyond;
    var v := Beyond(e, s, sh, t0);
    BeyondStarts(e, i, s, sh, t0);
    assert Level(e, i, s, sh, t) && Level(e, i, s, sh, t0);
    LevelsAscend(e, i, s, sh, t, t0);
    if t == t0 {
      assert Reaches(e, k, s, sh, T, t);
      Pow2Mono(e.l, sh.js[t]);
      LowSmall(Pow2(e.l), sh.js[t]);
      FollowLeaf(T, s.u[t], sh.js[t], Pow2(e.l), BMAX - sh.ws[t]);
    } else {
      LevelsAscend(e, i, s, sh, t + 1, t0);
      FollowChain(e, k, i, s, sh, T, t0, t + 1);
      LinkInside(e, i, s, sh, t);
      LowLow(v, sh.ws[t + 1], sh.ws[t0]);
      LowLow(i, sh.ws[t + 1], sh.ws[t0]);
      ShrOfPrefix(v, sh.ws[t], e.l);
      ShrShr(v, sh.ws[t], e.l);
      assert StackLink(e, s, sh, T, t);
      FollowLink(T, s.u[t], e.l, Shr(v, sh.ws[t]), BMAX - sh.ws[t]);
    }
  }

  lemma FollowLeaf(T: seq<Huft>, t: nat, need: nat, v: nat, budget: nat)
    requires t + Low(v, need) < |T| && !IsLink(T[t + Low(v, need)])
    ensures Follow(T, t, need, v, budget) == Leaf(T[t + Low(v, need)], T[t + Low(v, need)].bits, need)
  {
    hide Low, Shr;
  }
}
