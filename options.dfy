/** Layout policies of the first engine (flexbox/options.py): how a direction
    aggregates item sizes into line and container sizes, and where the alignment and
    justification policies place items along an axis.

    The source declares `point(item, length, key)` and `points(items, length, key)`
    with a `key` that maps an item to its length; the layout code calls them as
    `point(length, available)` and `points(lengths, available)`, so here the items
    are their lengths. */
module Options {
  import opened Reals

  datatype Direction = Row | Column

  datatype Wrap = NoWrap | Wrap

  /** The seven placement policies; Stretch places like FlexStart. */
  datatype Policy = FlexStart | FlexEnd | FlexCenter | SpaceAround | SpaceEvenly | SpaceBetween | Stretch

  /** AlignItems and AlignSelf: the policies that place a single item. */
  type ItemPolicy = p: Policy | p.FlexStart? || p.FlexEnd? || p.FlexCenter? witness FlexStart

  /** JustifyContent: every policy but Stretch. AlignContent admits all seven. */
  type JustifyPolicy = p: Policy | !p.Stretch? witness FlexStart

  datatype Size = Size(width: real, height: real)

  function Widths(items: seq<Size>): (r: seq<real>)
    ensures |r| == |items|
    ensures forall i :: 0 <= i < |items| ==> r[i] == items[i].width
  {
    seq(|items|, i requires 0 <= i < |items| => items[i].width)
  }

  function Heights(items: seq<Size>): (r: seq<real>)
    ensures |r| == |items|
    ensures forall i :: 0 <= i < |items| ==> r[i] == items[i].height
  {
    seq(|items|, i requires 0 <= i < |items| => items[i].height)
  }

  // ---- FlexDirection ----

  /** Width of a line: the items side by side in a row, stacked in a column. */
  function LineWidth(d: Direction, items: seq<Size>): real
    requires d.Column? ==> |items| > 0
  {
    if d.Row? then Sum(Widths(items)) else Max(Widths(items))
  }

  function LineHeight(d: Direction, items: seq<Size>): real
    requires d.Row? ==> |items| > 0
  {
    if d.Row? then Max(Heights(items)) else Sum(Heights(items))
  }

  /** Width of the container: lines stacked in a row layout, side by side in a column layout. */
  function ContainerWidth(d: Direction, lines: seq<Size>): real
    requires d.Row? ==> |lines| > 0
  {
    if d.Row? then Max(Widths(lines)) else Sum(Widths(lines))
  }

  function ContainerHeight(d: Direction, lines: seq<Size>): real
    requires d.Column? ==> |lines| > 0
  {
    if d.Row? then Sum(Heights(lines)) else Max(Heights(lines))
  }

  function Transposed(items: seq<Size>): (r: seq<Size>)
    ensures |r| == |items|
  {
    seq(|items|, i requires 0 <= i < |items| => Size(items[i].height, items[i].width))
  }

  /** Column is Row with the axes exchanged. */
  lemma ColumnIsTransposedRow(items: seq<Size>)
    requires |items| > 0
    ensures LineWidth(Column, items) == LineHeight(Row, Transposed(items))
    ensures LineHeight(Column, items) == LineWidth(Row, Transposed(items))
    ensures ContainerWidth(Column, items) == ContainerHeight(Row, Transposed(items))
    ensures ContainerHeight(Column, items) == ContainerWidth(Row, Transposed(items))
  {
    assert Heights(Transposed(items)) == Widths(items);
    assert Widths(Transposed(items)) == Heights(items);
  }

  /** A row line of items of non-negative size is as wide as its items together
      and as tall as its tallest item. */
  lemma RowLineBounds(items: seq<Size>)
    requires |items| > 0
    requires forall i :: 0 <= i < |items| ==> items[i].width >= 0.0
    ensures forall i :: 0 <= i < |items| ==> items[i].width <= LineWidth(Row, items)
    ensures forall i :: 0 <= i < |items| ==> items[i].height <= LineHeight(Row, items)
    ensures exists i :: 0 <= i < |items| && items[i].height == LineHeight(Row, items)
  {
    SumBoundsMax(Widths(items));
  }

  // ---- placement along an axis ----

  /** Offsets of consecutive items, the first at `start`, each followed by `gap`. */
  function Advance(lengths: seq<real>, start: real, gap: real): (r: seq<real>)
    ensures |r| == |lengths|
  {
    if lengths == [] then [] else [start] + Advance(lengths[1..], start + lengths[0] + gap, gap)
  }

  /** The i-th offset is the start, plus the lengths before it, plus i gaps. */
  lemma {:induction false} AdvanceAt(lengths: seq<real>, start: real, gap: real, i: nat)
    requires i < |lengths|
    ensures Advance(lengths, start, gap)[i] == start + Sum(lengths[..i]) + i as real * gap
    decreases i
  {
    if i > 0 {
      AdvanceAt(lengths[1..], start + lengths[0] + gap, gap, i - 1);
      SumFront(lengths[..i]);
      assert lengths[..i][1..] == lengths[1..][..i - 1];
      assert (i - 1) as real * gap + gap == i as real * gap;
    } else {
      assert lengths[..0] == [];
    }
  }

  /** Consecutive offsets are one length and one gap apart. */
  lemma AdvanceStep(lengths: seq<real>, start: real, gap: real, i: nat)
    requires i + 1 < |lengths|
    ensures Advance(lengths, start, gap)[i + 1] == Advance(lengths, start, gap)[i] + lengths[i] + gap
  {
    AdvanceAt(lengths, start, gap, i);
    AdvanceAt(lengths, start, gap, i + 1);
    SumSnoc(lengths, i);
    assert (i + 1) as real * gap == i as real * gap + gap;
  }

  /** `points(lengths, available)`: the offset of each item along the axis. */
  function Points(p: Policy, lengths: seq<real>, available: real): (r: seq<real>)
    requires p.SpaceAround? ==> |lengths| > 0
    ensures |r| == |lengths|
  {
    var n := |lengths| as real;
    var total := available - Sum(lengths);
    match p
    case FlexStart => Advance(lengths, 0.0, 0.0)
    case Stretch => Advance(lengths, 0.0, 0.0)
    case FlexEnd => Advance(lengths, total, 0.0)
    case FlexCenter => Advance(lengths, total / 2.0, 0.0)
    case SpaceAround =>
      var space := total / (n * 2.0);
      Advance(lengths, space, space * 2.0)
    case SpaceEvenly =>
      var space := total / (n + 1.0);
      Advance(lengths, space, space)
    case SpaceBetween =>
      if |lengths| == 1 then [total / 2.0]
      else
        var space := total / (n - 1.0);
        Advance(lengths, 0.0, space)
  }

  /** `point(length, available)`: the offset of one item within a line. */
  function Point(p: ItemPolicy, length: real, available: real): real
  {
    if p.FlexStart? then 0.0
    else if p.FlexEnd? then available - length
    else (available - length) / 2.0
  }

  /** The offset of a single item equals the one placement `points` gives it. */
  lemma PointIsSinglePoints(p: ItemPolicy, length: real, available: real)
    ensures Point(p, length, available) == Points(p, [length], available)[0]
  {
    assert [length][1..] == [];
    SumSingleton(length);
  }

  /** Where each policy puts the first item. */
  function Start(p: Policy, lengths: seq<real>, available: real): real
    requires p.SpaceAround? ==> |lengths| > 0
  {
    var n, total := |lengths| as real, available - Sum(lengths);
    match p
    case FlexStart => 0.0
    case Stretch => 0.0
    case FlexEnd => total
    case FlexCenter => total / 2.0
    case SpaceAround => total / (n * 2.0)
    case SpaceEvenly => total / (n + 1.0)
    case SpaceBetween => if |lengths| == 1 then total / 2.0 else 0.0
  }

  /** The space each policy leaves between consecutive items. */
  function Gap(p: Policy, lengths: seq<real>, available: real): real
    requires p.SpaceAround? ==> |lengths| > 0
  {
    var n, total := |lengths| as real, available - Sum(lengths);
    match p
    case FlexStart => 0.0
    case Stretch => 0.0
    case FlexEnd => 0.0
    case FlexCenter => 0.0
    case SpaceAround => total / (n * 2.0) * 2.0
    case SpaceEvenly => total / (n + 1.0)
    case SpaceBetween => if |lengths| == 1 then 0.0 else total / (n - 1.0)
  }

  /** Every policy packs the items end to end from its start, one gap apart. */
  lemma PointsPacked(p: Policy, lengths: seq<real>, available: real)
    requires p.SpaceAround? ==> |lengths| > 0
    ensures Points(p, lengths, available) == Advance(lengths, Start(p, lengths, available), Gap(p, lengths, available))
  {
    match p
    case SpaceBetween =>
      if |lengths| == 1 {
        assert lengths[1..] == [];
      }
    case _ =>
  }

  /** Consecutive offsets are one length and one gap apart. */
  lemma PointsStep(p: Policy, lengths: seq<real>, available: real, i: nat)
    requires p.SpaceAround? ==> |lengths| > 0
    requires i + 1 < |lengths|
    ensures Points(p, lengths, available)[i + 1]
            == Points(p, lengths, available)[i] + lengths[i] + Gap(p, lengths, available)
  {
    PointsPacked(p, lengths, available);
    AdvanceStep(lengths, Start(p, lengths, available), Gap(p, lengths, available), i);
  }

  /** The end of the last item: its offset plus its length. */
  function EndOfLast(lengths: seq<real>, r: seq<real>): real
    requires |r| == |lengths| > 0
  {
    r[|r| - 1] + lengths[|lengths| - 1]
  }

  lemma AdvanceEnd(lengths: seq<real>, start: real, gap: real)
    requires |lengths| > 0
    ensures EndOfLast(lengths, Advance(lengths, start, gap))
            == start + Sum(lengths) + (|lengths| - 1) as real * gap
  {
    var k := |lengths| - 1;
    AdvanceAt(lengths, start, gap, k);
    SumSnoc(lengths, k);
    assert lengths[..k + 1] == lengths;
  }

  /** The space left after the last item, per policy. */
  function After(p: Policy, lengths: seq<real>, available: real): real
    requires |lengths| > 0
  {
    var n, total := |lengths| as real, available - Sum(lengths);
    match p
    case FlexStart => total
    case Stretch => total
    case FlexEnd => 0.0
    case FlexCenter => total / 2.0
    case SpaceAround => total / (n * 2.0)
    case SpaceEvenly => total / (n + 1.0)
    case SpaceBetween => if |lengths| == 1 then total / 2.0 else 0.0
  }

  lemma AroundArithmetic(total: real, n: real)
    requires n >= 1.0
    ensures var s := total / (n * 2.0); s + (n - 1.0) * (s * 2.0) + s == total
  {
    var s := total / (n * 2.0);
    assert s * (n * 2.0) == total;
    assert s + (n - 1.0) * (s * 2.0) + s == s * (n * 2.0);
  }

  lemma EvenlyArithmetic(total: real, n: real)
    requires n >= 1.0
    ensures var s := total / (n + 1.0); s + (n - 1.0) * s + s == total
  {
    var s := total / (n + 1.0);
    assert s * (n + 1.0) == total;
    assert s + (n - 1.0) * s + s == s * (n + 1.0);
  }

  lemma BetweenArithmetic(total: real, n: real)
    requires n > 1.0
    ensures (n - 1.0) * (total / (n - 1.0)) == total
  {
  }

  /** The space left before the first item and after the last one: FlexStart
      leaves it all at the end, FlexEnd all at the start, FlexCenter half on each
      side; SpaceAround leaves half a gap at each end, SpaceEvenly a full gap,
      SpaceBetween none (a single item is centred). In every case the items, the
      gaps and the two margins add up to the available length. */
  lemma SpacingAddsUp(p: Policy, lengths: seq<real>, available: real)
    requires |lengths| > 0
    ensures Start(p, lengths, available) + Sum(lengths) + (|lengths| - 1) as real * Gap(p, lengths, available)
            + After(p, lengths, available) == available
  {
    var n, total := |lengths| as real, available - Sum(lengths);
    match p
    case SpaceAround => AroundArithmetic(total, n);
    case SpaceEvenly => EvenlyArithmetic(total, n);
    case SpaceBetween =>
      if |lengths| > 1 {
        BetweenArithmetic(total, n);
      }
    case _ =>
  }

  /** The first item sits at the policy's start and the last one ends the policy's
      trailing space before the available length. */
  lemma PointsMargins(p: Policy, lengths: seq<real>, available: real)
    requires |lengths| > 0
    ensures Points(p, lengths, available)[0] == Start(p, lengths, available)
    ensures available - EndOfLast(lengths, Points(p, lengths, available)) == After(p, lengths, available)
  {
    var start, gap := Start(p, lengths, available), Gap(p, lengths, available);
    PointsPacked(p, lengths, available);
    AdvanceEnd(lengths, start, gap);
    SpacingAddsUp(p, lengths, available);
  }

  /** When the items fit, no policy places anything before 0, puts negative space
      between items or leaves negative space after the last one. */
  lemma SpacingNonNegative(p: Policy, lengths: seq<real>, available: real)
    requires |lengths| > 0
    requires Sum(lengths) <= available
    ensures Start(p, lengths, available) >= 0.0
    ensures Gap(p, lengths, available) >= 0.0
    ensures After(p, lengths, available) >= 0.0
  {
  }

  /** FlexStart places items from 0 whatever the available length. */
  lemma FlexStartIgnoresAvailable(lengths: seq<real>, a1: real, a2: real)
    ensures Points(FlexStart, lengths, a1) == Points(FlexStart, lengths, a2)
  {
  }

  /** When the items fit and have non-negative lengths, every policy keeps every item
      within [0, available]. */
  lemma PointsWithin(p: Policy, lengths: seq<real>, available: real, i: nat)
    requires |lengths| > 0 && i < |lengths|
    requires forall j :: 0 <= j < |lengths| ==> lengths[j] >= 0.0
    requires Sum(lengths) <= available
    ensures 0.0 <= Points(p, lengths, available)[i]
    ensures Points(p, lengths, available)[i] + lengths[i] <= available
  {
    var r := Points(p, lengths, available);
    PointsMargins(p, lengths, available);
    SpacingNonNegative(p, lengths, available);
    forall j | 0 <= j < |r| - 1
      ensures r[j + 1] >= r[j] + lengths[j]
    {
      PointsStep(p, lengths, available, j);
    }
    MonotoneOffsets(lengths, r, i);
  }

  /** In a placement where each item starts no earlier than the end of the one
      before, item i lies between the first offset and the end of the last item. */
  lemma {:induction false} MonotoneOffsets(lengths: seq<real>, r: seq<real>, i: nat)
    requires |r| == |lengths| > 0 && i < |r|
    requires forall j :: 0 <= j < |lengths| ==> lengths[j] >= 0.0
    requires forall j :: 0 <= j < |r| - 1 ==> r[j + 1] >= r[j] + lengths[j]
    ensures r[0] <= r[i]
    ensures r[i] + lengths[i] <= EndOfLast(lengths, r)
    decreases |r| - i
  {
    if i + 1 < |r| {
      MonotoneOffsets(lengths, r, i + 1);
    }
    if i > 0 {
      FirstBelow(lengths, r, i);
    }
  }

  lemma {:induction false} FirstBelow(lengths: seq<real>, r: seq<real>, i: nat)
    requires |r| == |lengths| > 0 && i < |r|
    requires forall j :: 0 <= j < |lengths| ==> lengths[j] >= 0.0
    requires forall j :: 0 <= j < |r| - 1 ==> r[j + 1] >= r[j] + lengths[j]
    ensures r[0] <= r[i]
    decreases i
  {
    if i > 0 {
      FirstBelow(lengths, r, i - 1);
    }
  }

  lemma SumOfTwo(a: real, b: real)
    ensures Sum([a, b]) == a + b
  {
    assert [a, b][..1] == [a];
    SumSingleton(a);
  }

  lemma SumOfThree(a: real, b: real, c: real)
    ensures Sum([a, b, c]) == a + b + c
  {
    assert [a, b, c][..2] == [a, b];
    SumOfTwo(a, b);
  }

  lemma AdvanceTwo(a: real, b: real, start: real, gap: real)
    ensures Advance([a, b], start, gap) == [start, start + a + gap]
  {
    assert [a, b][1..] == [b] && [b][1..] == [];
  }

  lemma AdvanceThree(a: real, b: real, c: real, start: real, gap: real)
    ensures Advance([a, b, c], start, gap) == [start, start + a + gap, start + a + gap + b + gap]
  {
    assert [a, b, c][1..] == [b, c];
    AdvanceTwo(b, c, start + a + gap, gap);
  }

  /** Placements with room to spare: FlexEnd puts three items of 10 in 100 at 70,
      80 and 90; SpaceAround puts two items of 10 at 20 and 70; SpaceBetween puts
      items of 10, 20 and 30 in 120 at 0, 40 and 90. */
  lemma PointsExamples()
    ensures Points(FlexEnd, [10.0, 10.0, 10.0], 100.0) == [70.0, 80.0, 90.0]
    ensures Points(SpaceAround, [10.0, 10.0], 100.0) == [20.0, 70.0]
    ensures Points(SpaceBetween, [10.0, 20.0, 30.0], 120.0) == [0.0, 40.0, 90.0]
  {
    SumOfThree(10.0, 10.0, 10.0);
    AdvanceThree(10.0, 10.0, 10.0, 70.0, 0.0);
    SumOfTwo(10.0, 10.0);
    AdvanceTwo(10.0, 10.0, 20.0, 40.0);
    SumOfThree(10.0, 20.0, 30.0);
    AdvanceThree(10.0, 20.0, 30.0, 0.0, 30.0);
  }

  /** With more content than room, the spacing policies overlap the items rather
      than centring the overflow: items of 10, 20 and 30 in a length of 0 are placed
      at -15, -20 and -15 by SpaceEvenly and at 0, -20 and -30 by SpaceBetween, and
      two items of 100 in 150 at -12.5 and 62.5 by SpaceAround. */
  lemma PointsOverflowExamples()
    ensures Points(SpaceEvenly, [10.0, 20.0, 30.0], 0.0) == [-15.0, -20.0, -15.0]
    ensures Points(SpaceBetween, [10.0, 20.0, 30.0], 0.0) == [0.0, -20.0, -30.0]
    ensures Points(SpaceAround, [100.0, 100.0], 150.0) == [-12.5, 62.5]
  {
    SumOfThree(10.0, 20.0, 30.0);
    AdvanceThree(10.0, 20.0, 30.0, -15.0, -15.0);
    AdvanceThree(10.0, 20.0, 30.0, 0.0, -30.0);
    SumOfTwo(100.0, 100.0);
    AdvanceTwo(100.0, 100.0, -12.5, -25.0);
  }

  /** Stretch, the AlignContent policy meant to share the free space among the
      lines: every line grows by an equal share of what is left, and none shrinks. */
  function StretchLines(lengths: seq<real>, available: real): (r: seq<real>)
    ensures |r| == |lengths|
  {
    var free := available - Sum(lengths);
    var share := if lengths == [] || free <= 0.0 then 0.0 else free / |lengths| as real;
    Shifted(lengths, share)
  }

  function Shifted(lengths: seq<real>, share: real): (r: seq<real>)
    ensures |r| == |lengths|
    ensures forall i :: 0 <= i < |lengths| ==> r[i] == lengths[i] + share
  {
    seq(|lengths|, i requires 0 <= i < |lengths| => lengths[i] + share)
  }

  /** total is sum grown by n shares. */
  predicate Grown(total: real, sum: real, n: real, share: real) {
    total == sum + n * share
  }

  lemma {:induction false} SumShifted(lengths: seq<real>, share: real)
    ensures Grown(Sum(Shifted(lengths, share)), Sum(lengths), |lengths| as real, share)
    decreases |lengths|
  {
    if lengths != [] {
      var init := lengths[..|lengths| - 1];
      SumShifted(init, share);
      var s := Shifted(lengths, share);
      assert s[..|s| - 1] == Shifted(init, share);
      GrownStep(Sum(s[..|s| - 1]), Sum(init), |init| as real, share, lengths[|lengths| - 1]);
    }
  }

  /** Stretched lines never shrink, all grow by the same amount, and fill the
      available length exactly whenever there is room left; with none left they
      are unchanged. */
  lemma StretchSpec(lengths: seq<real>, available: real)
    ensures forall i :: 0 <= i < |lengths| ==> StretchLines(lengths, available)[i] >= lengths[i]
    ensures forall i, j :: 0 <= i < |lengths| && 0 <= j < |lengths| ==>
              StretchLines(lengths, available)[i] - lengths[i] == StretchLines(lengths, available)[j] - lengths[j]
    ensures |lengths| > 0 && Sum(lengths) <= available ==> Sum(StretchLines(lengths, available)) == available
    ensures Sum(lengths) >= available ==> StretchLines(lengths, available) == lengths
  {
    var free := available - Sum(lengths);
    if lengths != [] && free >= 0.0 {
      StretchFills(lengths, available);
    }
  }

  lemma StretchFills(lengths: seq<real>, available: real)
    requires |lengths| > 0 && Sum(lengths) <= available
    ensures Sum(StretchLines(lengths, available)) == available
  {
    if Sum(lengths) == available {
      assert StretchLines(lengths, available) == Shifted(lengths, 0.0) == lengths;
    } else {
      StretchShares(lengths, available);
    }
  }

  lemma StretchShares(lengths: seq<real>, available: real)
    requires |lengths| > 0 && Sum(lengths) < available
    ensures Sum(StretchLines(lengths, available)) == available
  {
    var share := (available - Sum(lengths)) / |lengths| as real;
    assert StretchLines(lengths, available) == Shifted(lengths, share);
    SumShifted(lengths, share);
    FillArithmetic(Sum(Shifted(lengths, share)), Sum(lengths), |lengths| as real, share, available);
  }

  lemma GrownStep(total: real, sum: real, n: real, share: real, x: real)
    requires Grown(total, sum, n, share)
    ensures Grown(total + (x + share), sum + x, n + 1.0, share)
  {
    assert (n + 1.0) * share == n * share + share;
  }

  /** The arithmetic step of StretchFills: n equal shares of the free length add up to it. */
  lemma FillArithmetic(total: real, sum: real, n: real, share: real, available: real)
    requires n > 0.0 && share == (available - sum) / n
    requires Grown(total, sum, n, share)
    ensures total == available
  {
    assert n * share == available - sum;
  }
}
