/** The two passes with which CHorizontalLayoutUI::SetPos and CVerticalLayoutUI::SetPos divide the space along their
    main axis. */
module Layout {

  /** A child: whether it takes part, its fixed extent (0 if adjustable), its limits, and its paddings. */
  datatype Control = Control(shown: bool, fixed: nat, min: int, max: int, before: int, after: int)

  function Max(a: int, b: int): int { if a > b then a else b }

  /** The limits, in the order in which the source applies them. */
  function Clamp(x: int, c: Control): int {
    var y := if x < c.min then c.min else x;
    if y > c.max then c.max else y
  }

  /** Division of C: rounds towards zero. */
  function Quotient(x: int, n: nat): int
    requires n > 0
  {
    if x >= 0 then x / n else -(-x / n)
  }

  predicate Adjustable(c: Control) { c.fixed == 0 }

  function Shown(items: seq<Control>): seq<Control> {
    if |items| == 0 then []
    else
      var c := items[|items| - 1];
      Shown(items[..|items| - 1]) + (if c.shown then [c] else [])
  }

  function Adjustables(l: seq<Control>): (n: nat)
    ensures n <= |l|
  {
    if |l| == 0 then 0 else Adjustables(l[..|l| - 1]) + (if Adjustable(l[|l| - 1]) then 1 else 0)
  }

  /** What a child takes whatever space there is. */
  function Own(c: Control): int { if Adjustable(c) then 0 else Clamp(c.fixed, c) }

  function OwnTotal(l: seq<Control>): int {
    if |l| == 0 then 0 else OwnTotal(l[..|l| - 1]) + Own(l[|l| - 1])
  }

  function PaddingTotal(l: seq<Control>): int {
    if |l| == 0 then 0 else PaddingTotal(l[..|l| - 1]) + l[|l| - 1].before + l[|l| - 1].after
  }

  /** pad between any two of n children. */
  function Gaps(n: nat, pad: int): int { if n == 0 then -pad else if n == 1 then 0 else Gaps(n - 1, pad) + pad }

  /** The fixed total. */
  function Fixed(l: seq<Control>, pad: int): int { OwnTotal(l) + PaddingTotal(l) + Gaps(|l|, pad) }

  /** The space to share out, and among how many. */
  datatype Share = Share(spare: int, count: nat)

  function Expand(s: Share): int {
    if s.count > 0 then Max(0, Quotient(s.spare, s.count)) else 0
  }

  /** The extent of the last child of l, the children before it having been placed: the last adjustable child gets
      what the others have left. */
  function SizeOfLast(s: Share, l: seq<Control>): int
    requires |l| > 0
    decreases |l|, 0
  {
    var c := l[|l| - 1];
    if !Adjustable(c) then Own(c)
    else if Adjustables(l) == s.count then Clamp(Max(0, s.spare - Shared(s, l[..|l| - 1])), c)
    else Clamp(Expand(s), c)
  }

  /** What the adjustable children of l take together. */
  function Shared(s: Share, l: seq<Control>): int
    decreases |l|, 1
  {
    if |l| == 0 then 0
    else Shared(s, l[..|l| - 1]) + (if Adjustable(l[|l| - 1]) then SizeOfLast(s, l) else 0)
  }

  /** Where the placement of l has got to: the position behind it, measured from the start. */
  function Reach(s: Share, l: seq<Control>, pad: int): int {
    OwnTotal(l) + PaddingTotal(l) + Shared(s, l) + Gaps(|l|, pad) + pad
  }

  // ----- the passes -----

  lemma ShownNext(items: seq<Control>, i: nat)
    requires i < |items|
    ensures Shown(items[..i + 1]) == if items[i].shown then Shown(items[..i]) + [items[i]] else Shown(items[..i])
  {
    assert items[..i + 1][..i] == items[..i];
  }

  lemma TotalsNext(l: seq<Control>, c: Control, pad: int)
    ensures Adjustables(l + [c]) == Adjustables(l) + (if Adjustable(c) then 1 else 0)
    ensures OwnTotal(l + [c]) == OwnTotal(l) + Own(c)
    ensures PaddingTotal(l + [c]) == PaddingTotal(l) + c.before + c.after
    ensures Gaps(|l| + 1, pad) == Gaps(|l|, pad) + pad
  {
    assert (l + [c])[..|l|] == l;
  }

  lemma SharedNext(s: Share, l: seq<Control>, c: Control)
    ensures Shared(s, l + [c]) == Shared(s, l) + (if Adjustable(c) then SizeOfLast(s, l + [c]) else 0)
  {
    assert (l + [c])[..|l|] == l;
  }

  /** The first pass: the fixed total and the number of adjustable children. */
  method Measure(items: seq<Control>, pad: int) returns (fixed: int, adjustables: nat, n: nat)
    ensures var l := Shown(items); fixed == Fixed(l, pad) && adjustables == Adjustables(l) && n == |l|
  {
    fixed, adjustables, n := 0, 0, 0;
    for i := 0 to |items|
      invariant var l := Shown(items[..i]);
                fixed == OwnTotal(l) + PaddingTotal(l) && adjustables == Adjustables(l) && n == |l|
    {
      var c := items[i];
      ShownNext(items, i);
      TotalsNext(Shown(items[..i]), c, pad);
      if !c.shown { continue; }
      var size := 0;
      if c.fixed == 0 {
        adjustables := adjustables + 1;
      } else {
        size := c.fixed;
        if size < c.min { size := c.min; }
        if size > c.max { size := c.max; }
      }
      fixed := fixed + size + c.before + c.after;
      n := n + 1;
    }
    assert items[..|items|] == items;
    GapsProduct(n, pad);
    fixed := fixed + (n - 1) * pad;
  }

  lemma GapsProduct(n: nat, pad: int)
    ensures Gaps(n, pad) == (n - 1) * pad
  {
    if n > 1 {
      GapsProduct(n - 1, pad);
      assert (n - 1) * pad == (n - 2) * pad + pad;
    }
  }

  /** The extents of the children placed, one after the other. */
  ghost predicate PlacedAt(s: Share, l: seq<Control>, pad: int, start: int, rects: seq<(int, int)>, k: nat)
    requires k < |l| == |rects|
  {
    && rects[k].0 == start + Reach(s, l[..k], pad) + l[k].before
    && rects[k].1 == rects[k].0 + SizeOfLast(s, l[..k + 1])
  }

  ghost predicate AllPlaced(s: Share, l: seq<Control>, pad: int, start: int, rects: seq<(int, int)>) {
    |rects| == |l| && forall k {:trigger PlacedAt(s, l, pad, start, rects, k)} :: 0 <= k < |l| ==>
        PlacedAt(s, l, pad, start, rects, k)
  }

  lemma OneMorePlaced(s: Share, l: seq<Control>, c: Control, pad: int, start: int, rects: seq<(int, int)>,
      r: (int, int))
    requires AllPlaced(s, l, pad, start, rects)
    requires r.0 == start + Reach(s, l, pad) + c.before && r.1 == r.0 + SizeOfLast(s, l + [c])
    ensures AllPlaced(s, l + [c], pad, start, rects + [r])
  {
    hide Reach, SizeOfLast;
    var l' := l + [c];
    assert l'[..|l|] == l && l'[..|l'|] == l';
    forall k | 0 <= k < |l'| ensures PlacedAt(s, l', pad, start, rects + [r], k) {
      if k < |l| {
        assert PlacedAt(s, l, pad, start, rects, k);
        assert l'[..k] == l[..k] && l'[..k + 1] == l[..k + 1];
      }
    }
  }

  /** The running totals of the second pass after the children l. */
  datatype Cursor = Cursor(remaining: int, pos: int, count: nat, adjusted: nat, fixedRemaining: int, needed: int)

  predicate After(s: Share, l: seq<Control>, pad: int, start: int, available: int, fixed: int, cu: Cursor) {
    && cu.count == |l| && cu.adjusted == Adjustables(l)
    && cu.remaining == available - Reach(s, l, pad) && cu.pos == start + Reach(s, l, pad)
    && cu.fixedRemaining == fixed - OwnTotal(l) - PaddingTotal(l) - (if |l| == 0 then 0 else Gaps(|l|, pad))
    && cu.needed == OwnTotal(l) + PaddingTotal(l) + Shared(s, l)
  }

  method PlaceChild(c: Control, pad: int, expand: int, adjustables: nat, cu: Cursor, ghost s: Share,
      ghost l: seq<Control>, ghost start: int, ghost available: int, ghost fixed: int)
      returns (r: (int, int), cu': Cursor)
    requires After(s, l, pad, start, available, fixed, cu)
    requires s == Share(available - fixed, adjustables) && expand == Expand(s)
    ensures After(s, l + [c], pad, start, available, fixed, cu')
    ensures r.0 == start + Reach(s, l, pad) + c.before && r.1 == r.0 + SizeOfLast(s, l + [c])
  {
    hide Expand;
    TotalsNext(l, c, pad);
    SharedNext(s, l, c);
    assert (l + [c])[..|l|] == l;
    var count, adjusted := cu.count + 1, cu.adjusted;
    var remaining := cu.remaining - c.before;
    var fixedRemaining := cu.fixedRemaining - (c.before + c.after);
    if count > 1 { fixedRemaining := fixedRemaining - pad; }
    var size: int := c.fixed;
    if c.fixed == 0 {
      adjusted := adjusted + 1;
      size := expand;
      if adjusted == adjustables { size := Max(0, remaining - c.after - fixedRemaining); }
      if size < c.min { size := c.min; }
      if size > c.max { size := c.max; }
    } else {
      if size < c.min { size := c.min; }
      if size > c.max { size := c.max; }
      fixedRemaining := fixedRemaining - size;
    }
    r := (cu.pos + c.before, cu.pos + size + c.before);
    cu' := Cursor(remaining - (size + pad + c.after), cu.pos + (size + pad + c.before + c.after), count, adjusted,
                  fixedRemaining, cu.needed + (size + c.before + c.after));
  }

  /** The second pass. */
  method Place(items: seq<Control>, pad: int, start: int, available: int, fixed: int, adjustables: nat, n: nat)
      returns (rects: seq<(int, int)>, needed: int)
    requires var l := Shown(items); fixed == Fixed(l, pad) && adjustables == Adjustables(l) && n == |l|
    ensures var l, s := Shown(items), Share(available - fixed, adjustables);
            AllPlaced(s, l, pad, start, rects) && needed == fixed + Shared(s, l)
  {
    hide Reach, SizeOfLast;
    ghost var s := Share(available - fixed, adjustables);
    var expand := 0;
    if adjustables > 0 { expand := Max(0, Quotient(available - fixed, adjustables)); }
    rects := [];
    var cu := Cursor(available, start, 0, 0, fixed, 0);
    NothingPlaced(s, pad);
    for i := 0 to |items|
      invariant var l := Shown(items[..i]);
                After(s, l, pad, start, available, fixed, cu) && AllPlaced(s, l, pad, start, rects)
    {
      ShownNext(items, i);
      if items[i].shown {
        ghost var l := Shown(items[..i]);
        var r;
        r, cu := PlaceChild(items[i], pad, expand, adjustables, cu, s, l, start, available, fixed);
        OneMorePlaced(s, l, items[i], pad, start, rects, r);
        rects := rects + [r];
      }
    }
    assert items[..|items|] == items;
    GapsProduct(n, pad);
    needed := cu.needed + (n - 1) * pad;
  }

  lemma NothingPlaced(s: Share, pad: int)
    ensures Reach(s, [], pad) == 0 && Shared(s, []) == 0
  {}

  /** SetPos along the main axis. */
  method SetPos(items: seq<Control>, pad: int, start: int, available: int) returns (rects: seq<(int, int)>, needed: int)
    ensures var l := Shown(items);
            var s := Share(available - Fixed(l, pad), Adjustables(l));
            AllPlaced(s, l, pad, start, rects) && needed == Fixed(l, pad) + Shared(s, l)
    ensures var l := Shown(items);
            Even(l, available - Fixed(l, pad), rects) && WithinLimits(l, rects)
    ensures var l := Shown(items);
            && (|l| > 0 ==> rects[|l| - 1].1 + l[|l| - 1].after == start + needed)
            && (AllFree(l, rects) && Adjustables(l) > 0 && Fixed(l, pad) <= available ==> needed == available)
  {
    hide AllPlaced, Even, WithinLimits, AllFree, Fixed, Reach;
    var fixed, adjustables, n := Measure(items, pad);
    rects, needed := Place(items, pad, start, available, fixed, adjustables, n);
    ghost var l := Shown(items);
    EvenlyPlaced(Share(available - fixed, adjustables), l, pad, start, rects);
    LimitsKept(Share(available - fixed, adjustables), l, pad, start, rects);
    LengthsAgree(Share(available - fixed, adjustables), l, pad, start, rects);
    if |l| > 0 { EndsAtNeeded(Share(available - fixed, adjustables), l, pad, start, rects); }
    if AllFree(l, rects) && adjustables > 0 && fixed <= available {
      FrontIsLoose(Share(available - fixed, adjustables), l, pad, start, rects, |l|);
      assert l[..|l|] == l;
      Conservation(l, pad, available);
    }
  }

  /** The children end, with the last padding, where the extent needed does. */
  lemma EndsAtNeeded(s: Share, l: seq<Control>, pad: int, start: int, rects: seq<(int, int)>)
    requires AllPlaced(s, l, pad, start, rects) && |l| == |rects| > 0
    ensures rects[|l| - 1].1 + l[|l| - 1].after == start + Fixed(l, pad) + Shared(s, l)
  {
    hide SizeOfLast;
    var n := |l| - 1;
    assert PlacedAt(s, l, pad, start, rects, n);
    assert l[..n + 1] == l == l[..n] + [l[n]];
    TotalsNext(l[..n], l[n], pad);
    SharedNext(s, l[..n], l[n]);
    if !Adjustable(l[n]) { OwnSize(s, l); }
  }

  lemma OwnSize(s: Share, l: seq<Control>)
    requires |l| > 0 && !Adjustable(l[|l| - 1])
    ensures SizeOfLast(s, l) == Own(l[|l| - 1])
  {}

  // ----- how the space is shared -----

  function Width(r: (int, int)): int { r.1 - r.0 }

  /** The limits do not bind: the child is wider than its minimum and narrower than its maximum. */
  predicate Free(c: Control, r: (int, int)) { Adjustable(c) && c.min < Width(r) < c.max }

  /** There is an adjustable child behind the k-th. */
  predicate NotLast(l: seq<Control>, k: nat)
    requires k < |l|
  {
    Adjustables(l[..k + 1]) < Adjustables(l)
  }

  /** The whole multiple of n below the space: n times e fits, n times one more does not. */
  predicate WholeShare(spare: int, n: nat, e: int) {
    if spare >= 0 then n * e <= spare < n * (e + 1) else e == 0
  }

  /** Adjustable children before the last get equal shares, as large as whole numbers allow; and if no limit binds, the
      last one gets the same and less than their number more. */
  ghost predicate Even(l: seq<Control>, spare: int, rects: seq<(int, int)>)
    requires |rects| == |l|
  {
    && (forall k {:trigger Free(l[k], rects[k])} :: 0 <= k < |l| && Free(l[k], rects[k]) && NotLast(l, k) ==>
          WholeShare(spare, Adjustables(l), Width(rects[k])))
    && (AllFree(l, rects) && spare >= 0 ==>
          forall j, k {:trigger Free(l[j], rects[j]), Free(l[k], rects[k])} ::
            0 <= j < |l| && 0 <= k < |l| && Adjustable(l[j]) && Adjustable(l[k]) && NotLast(l, j) && !NotLast(l, k) ==>
              Width(rects[j]) <= Width(rects[k]) < Width(rects[j]) + Adjustables(l))
  }

  ghost predicate AllFree(l: seq<Control>, rects: seq<(int, int)>)
    requires |rects| == |l|
  {
    forall k {:trigger Free(l[k], rects[k])} :: 0 <= k < |l| && Adjustable(l[k]) ==> Free(l[k], rects[k])
  }

  /** Every child keeps its limits; one of fixed extent gets that if they allow it. */
  ghost predicate WithinLimits(l: seq<Control>, rects: seq<(int, int)>)
    requires |rects| == |l|
  {
    forall k {:trigger rects[k]} :: 0 <= k < |l| && l[k].min <= l[k].max ==>
      && l[k].min <= Width(rects[k]) <= l[k].max
      && (l[k].fixed > 0 && l[k].min <= l[k].fixed <= l[k].max ==> Width(rects[k]) == l[k].fixed)
  }

  lemma LimitsKept(s: Share, l: seq<Control>, pad: int, start: int, rects: seq<(int, int)>)
    requires AllPlaced(s, l, pad, start, rects)
    ensures WithinLimits(l, rects)
  {
    hide Reach, Expand, Shared;
    forall k | 0 <= k < |l| && l[k].min <= l[k].max
      ensures l[k].min <= Width(rects[k]) <= l[k].max
      ensures l[k].fixed > 0 && l[k].min <= l[k].fixed <= l[k].max ==> Width(rects[k]) == l[k].fixed
    {
      assert PlacedAt(s, l, pad, start, rects, k);
      assert l[..k + 1][|l[..k + 1]| - 1] == l[k];
    }
  }

  lemma ExpandIsShare(s: Share)
    requires s.count > 0
    ensures WholeShare(s.spare, s.count, Expand(s))
  {
    if s.spare >= 0 {
      var q := s.spare / s.count;
      assert s.spare == s.count * q + s.spare % s.count;
      assert s.count * (q + 1) == s.count * q + s.count;
    } else {
      assert Quotient(s.spare, s.count) <= 0;
    }
  }

  /** The width of a child whose limits do not bind is that before they are applied. */
  lemma FreeWidth(s: Share, l: seq<Control>, pad: int, start: int, rects: seq<(int, int)>, k: nat)
    requires AllPlaced(s, l, pad, start, rects) && k < |l| && Free(l[k], rects[k])
    ensures Width(rects[k]) == SizeBefore(s, l[..k + 1])
    ensures Clamp(SizeBefore(s, l[..k + 1]), l[k]) == SizeBefore(s, l[..k + 1])
  {
    hide Reach, Expand, Shared;
    assert PlacedAt(s, l, pad, start, rects, k);
    assert l[..k + 1][|l[..k + 1]| - 1] == l[k];
  }

  lemma {:induction false} AdjustablesMono(l: seq<Control>, k: nat)
    requires k <= |l|
    ensures Adjustables(l[..k]) <= Adjustables(l)
  {
    if k < |l| {
      AdjustablesMono(l[..|l| - 1], k);
      assert l[..|l| - 1][..k] == l[..k];
    } else {
      assert l[..k] == l;
    }
  }

  lemma EvenlyPlaced(s: Share, l: seq<Control>, pad: int, start: int, rects: seq<(int, int)>)
    requires AllPlaced(s, l, pad, start, rects) && s.count == Adjustables(l)
    ensures Even(l, s.spare, rects)
  {
    hide Reach, Expand, Shared, SizeOfLast, AllPlaced;
    LengthsAgree(s, l, pad, start, rects);
    forall k | 0 <= k < |l| && Free(l[k], rects[k]) && NotLast(l, k)
      ensures WholeShare(s.spare, s.count, Width(rects[k])) && Width(rects[k]) == Expand(s)
    {
      FreeWidth(s, l, pad, start, rects, k);
      ExpandIsShare(s);
    }
    if AllFree(l, rects) && s.spare >= 0 {
      forall j, k | 0 <= j < |l| && 0 <= k < |l| && Adjustable(l[j]) && Adjustable(l[k])
                    && NotLast(l, j) && !NotLast(l, k)
        ensures Width(rects[j]) <= Width(rects[k]) < Width(rects[j]) + s.count
      {
        assert Free(l[j], rects[j]) && Free(l[k], rects[k]);
        LastWidth(s, l, pad, start, rects, k);
      }
    }
  }

  lemma LengthsAgree(s: Share, l: seq<Control>, pad: int, start: int, rects: seq<(int, int)>)
    requires AllPlaced(s, l, pad, start, rects)
    ensures |rects| == |l|
  {}

  /** The last adjustable child takes the rest. */
  lemma LastWidth(s: Share, l: seq<Control>, pad: int, start: int, rects: seq<(int, int)>, k: nat)
    requires AllPlaced(s, l, pad, start, rects) && s.count == Adjustables(l) && s.spare >= 0 && |rects| == |l|
    requires AllFree(l, rects) && k < |l| && Adjustable(l[k]) && !NotLast(l, k)
    ensures Expand(s) <= Width(rects[k]) < Expand(s) + s.count
  {
    hide Reach, Expand, SizeOfLast, AllPlaced;
    assert Free(l[k], rects[k]);
    FreeWidth(s, l, pad, start, rects, k);
    AdjustablesMono(l, k + 1);
    assert l[..k + 1][..k] == l[..k];
    FrontIsLoose(s, l, pad, start, rects, k);
    SharedEvenly(s, l[..k]);
    ExpandIsShare(s);
    MultipleIsProduct(s.count - 1, Expand(s));
    LastShare(s.spare, s.count, Expand(s));
    ExpandFits(s);
  }

  lemma LastShare(spare: int, n: nat, e: int)
    requires n > 0 && spare >= 0 && WholeShare(spare, n, e)
    ensures e <= spare - (n - 1) * e < e + n
  {
    assert n * e == (n - 1) * e + e;
    assert n * (e + 1) == n * e + n;
  }

  lemma FrontIsLoose(s: Share, l: seq<Control>, pad: int, start: int, rects: seq<(int, int)>, m: nat)
    requires AllPlaced(s, l, pad, start, rects) && |rects| == |l| && AllFree(l, rects) && m <= |l|
    ensures Loose(s, l[..m])
  {
    hide Reach, Expand, Shared, SizeOfLast, AllPlaced;
    forall k | 0 <= k < m && Adjustable(l[..m][k])
      ensures Clamp(SizeBefore(s, l[..m][..k + 1]), l[..m][k]) == SizeBefore(s, l[..m][..k + 1])
    {
      assert l[..m][..k + 1] == l[..k + 1] && l[..m][k] == l[k];
      assert Free(l[k], rects[k]);
      FreeWidth(s, l, pad, start, rects, k);
    }
  }

  /** Two adjustable children share 100 between them. */
  method TwoChildren() returns (rects: seq<(int, int)>)
    ensures rects == [(0, 50), (50, 100)]
  {
    var c := Control(true, 0, 0, 1000, 0, 0);
    var needed;
    rects, needed := SetPos([c, c], 0, 0, 100);
    TwoShown(c);
    ghost var s := Share(100, 2);
    TwoPlaced(s, c, rects);
  }

  lemma TwoShown(c: Control)
    requires c == Control(true, 0, 0, 1000, 0, 0)
    ensures Shown([c, c]) == [c, c] && Adjustables([c, c]) == 2 && Fixed([c, c], 0) == 0
  {
    assert [c, c][..1] == [c] && [c][..0] == [];
    assert Shown([c]) == [c] && Adjustables([c]) == 1 && OwnTotal([c]) == 0 && PaddingTotal([c]) == 0;
  }

  lemma TwoPlaced(s: Share, c: Control, rects: seq<(int, int)>)
    requires c == Control(true, 0, 0, 1000, 0, 0) && s == Share(100, 2) && AllPlaced(s, [c, c], 0, 0, rects)
    ensures rects == [(0, 50), (50, 100)]
  {
    var l := [c, c];
    assert l[..0] == [] && l[..1] == [c] && l[..2] == l && [c][..0] == [];
    assert PlacedAt(s, l, 0, 0, rects, 0) && PlacedAt(s, l, 0, 0, rects, 1);
    assert Adjustables([c]) == 1 && Adjustables(l) == 2 && Shared(s, []) == 0;
    assert SizeOfLast(s, [c]) == 50;
    assert Shared(s, [c]) == 50;
    assert SizeOfLast(s, l) == 50;
    assert OwnTotal([c]) == 0 && PaddingTotal([c]) == 0;
    assert Reach(s, [], 0) == 0 && Reach(s, [c], 0) == 50;
  }

  // ----- what comes out -----

  /** Between two neighbours lie exactly their paddings and the gap; the first stands at its padding from the start. */
  lemma Separated(s: Share, l: seq<Control>, pad: int, start: int, rects: seq<(int, int)>, k: nat)
    requires AllPlaced(s, l, pad, start, rects) && k < |l|
    ensures k == 0 ==> rects[0].0 == start + l[0].before
    ensures k > 0 ==> rects[k].0 - rects[k - 1].1 == l[k - 1].after + pad + l[k].before
  {
    assert PlacedAt(s, l, pad, start, rects, k);
    if k == 0 {
      NothingPlaced(s, pad);
    } else {
      assert PlacedAt(s, l, pad, start, rects, k - 1);
      TotalsNext(l[..k - 1], l[k - 1], pad);
      SharedNext(s, l[..k - 1], l[k - 1]);
      assert l[..k] == l[..k - 1] + [l[k - 1]];
    }
  }

  /** The limits of the adjustable children in l, other than the last of all, do not bind. */
  predicate Loose(s: Share, l: seq<Control>) {
    forall k :: 0 <= k < |l| && Adjustable(l[k]) ==> Clamp(SizeBefore(s, l[..k + 1]), l[k]) == SizeBefore(s, l[..k + 1])
  }

  /** The extent of the last child of l before its limits are applied. */
  function SizeBefore(s: Share, l: seq<Control>): int
    requires |l| > 0
  {
    if Adjustables(l) == s.count then Max(0, s.spare - Shared(s, l[..|l| - 1])) else Expand(s)
  }

  /** n times e. */
  function Multiple(n: nat, e: int): int { if n == 0 then 0 else Multiple(n - 1, e) + e }

  lemma MultipleIsProduct(n: nat, e: int)
    ensures Multiple(n, e) == n * e
  {
    if n > 0 {
      MultipleIsProduct(n - 1, e);
      assert n * e == (n - 1) * e + e;
    }
  }

  lemma ExpandFits(s: Share)
    requires s.count > 0
    ensures Expand(s) >= 0 && Multiple(s.count, Expand(s)) <= Max(0, s.spare)
  {
    MultipleIsProduct(s.count, Expand(s));
    if s.spare >= 0 {
      var q := s.spare / s.count;
      assert s.spare == s.count * q + s.spare % s.count;
    } else {
      assert Quotient(s.spare, s.count) <= 0;
    }
  }

  /** Before the last adjustable child every adjustable one gets the same. */
  lemma {:induction false} SharedEvenly(s: Share, l: seq<Control>)
    requires Loose(s, l) && Adjustables(l) < s.count
    ensures Shared(s, l) == Multiple(Adjustables(l), Expand(s))
  {
    if |l| > 0 {
      hide Expand, Clamp;
      var f := l[..|l| - 1];
      LooseFront(s, l, |l| - 1);
      SharedEvenly(s, f);
      assert l[..|l|] == l;
    }
  }

  /** The last adjustable child m takes what the earlier ones have left, rounding included, within its own limits. */
  lemma {:induction false} LastAbsorbs(s: Share, l: seq<Control>) returns (m: nat)
    requires Adjustables(l) == s.count > 0
    ensures m < |l| && Adjustable(l[m]) && Adjustables(l[..m]) == s.count - 1
    ensures Shared(s, l) == Shared(s, l[..m]) + Clamp(Max(0, s.spare - Shared(s, l[..m])), l[m])
  {
    var n := |l| - 1;
    if Adjustable(l[n]) {
      m := n;
    } else {
      m := LastAbsorbs(s, l[..n]);
      assert l[..n][..m] == l[..m];
    }
  }

  lemma LooseFront(s: Share, l: seq<Control>, m: nat)
    requires Loose(s, l) && m <= |l|
    ensures Loose(s, l[..m])
  {
    forall k | 0 <= k < m && Adjustable(l[..m][k])
      ensures Clamp(SizeBefore(s, l[..m][..k + 1]), l[..m][k]) == SizeBefore(s, l[..m][..k + 1])
    {
      assert l[..m][..k + 1] == l[..k + 1];
    }
  }

  /** If no adjustable child meets its limits, the extent needed is the space available or the fixed total, whichever is
      more; without adjustable children it is the fixed total. */
  lemma Conservation(l: seq<Control>, pad: int, available: int)
    requires Loose(Share(available - Fixed(l, pad), Adjustables(l)), l)
    ensures var s := Share(available - Fixed(l, pad), Adjustables(l));
            Fixed(l, pad) + Shared(s, l) == if Adjustables(l) > 0 then Max(available, Fixed(l, pad)) else Fixed(l, pad)
  {
    hide Fixed, Expand, Clamp, Shared, Adjustables, Loose, Multiple;
    var s := Share(available - Fixed(l, pad), Adjustables(l));
    if s.count > 0 {
      var m := LastAbsorbs(s, l);
      LooseFront(s, l, m);
      LooseAt(s, l, m);
      SharedEvenly(s, l[..m]);
      ExpandFits(s);
      Absorb(s.count, Expand(s), s.spare);
    } else {
      NoShare(s, l);
    }
  }

  lemma LooseAt(s: Share, l: seq<Control>, m: nat)
    requires Loose(s, l) && m < |l| && Adjustable(l[m]) && Adjustables(l[..m]) == s.count - 1
    ensures var x := Max(0, s.spare - Shared(s, l[..m])); Clamp(x, l[m]) == x
  {
    assert l[..m + 1][..m] == l[..m];
  }

  lemma Absorb(n: nat, e: int, spare: int)
    requires n > 0 && e >= 0 && Multiple(n, e) <= Max(0, spare)
    ensures Multiple(n - 1, e) + Max(0, spare - Multiple(n - 1, e)) == Max(0, spare)
  {
    MultipleNonNegative(n - 1, e);
  }

  lemma MultipleNonNegative(n: nat, e: int)
    requires e >= 0
    ensures Multiple(n, e) >= 0
  {
    if n > 0 { MultipleNonNegative(n - 1, e); }
  }

  lemma NoShare(s: Share, l: seq<Control>)
    requires Adjustables(l) == 0
    ensures Shared(s, l) == 0
  {
    if |l| > 0 { NoShare(s, l[..|l| - 1]); }
  }
}
