/** The layout of the first engine (flexbox/flex.py), as functions of an item's
    configuration: FlexItem.wrap sizes an item against the available space,
    FlexBox.wrap_content wraps the children and breaks them into lines,
    FlexBox.draw_content places the children, FlexBox.split divides a box
    between two pages. The class in flex_item.dfy runs these steps on mutable state. */
module Flex {
  import opened Common
  import opened Reals
  import opened Measurement
  import opened Options
  import opened LineBreaking
  import Decimal

  // ---- configuration ----

  /** The measurement attributes of a FlexItem after FlexItem.__init__ has parsed them. */
  datatype Sizing = Sizing(
    minWidth: Value, width: Value, maxWidth: Value,
    minHeight: Value, height: Value, maxHeight: Value,
    margin: FlexFrame, border: FlexFrame, padding: FlexFrame,
    alignSelf: Option<ItemPolicy>)
  {
    /** `frame`: each side is margin + border + padding of that side. */
    function Frame(): FlexFrame {
      ComposeFrame(margin, border, padding)
    }
  }

  function ComposeFrame(margin: FlexFrame, border: FlexFrame, padding: FlexFrame): FlexFrame {
    FlexFrame(
      Add(Add(margin.top, border.top), padding.top),
      Add(Add(margin.right, border.right), padding.right),
      Add(Add(margin.bottom, border.bottom), padding.bottom),
      Add(Add(margin.left, border.left), padding.left))
  }

  lemma SideSum(m: Value, b: Value, p: Value)
    ensures Add(Add(m, b), p).Static() == m.Static() + b.Static() + p.Static()
    ensures Add(Add(m, b), p).Relative() == m.Relative() + b.Relative() + p.Relative()
    ensures Add(Add(m, b), p).Truthy() <==> m.Truthy() || b.Truthy() || p.Truthy()
  {
    AddSpec(m, b);
    AddSpec(Add(m, b), p);
    AddTruthy(m, b);
    AddTruthy(Add(m, b), p);
  }

  /** Each side of the composed frame has the static and relative parts of the
      margin, border and padding of that side together, and so do its spans. */
  lemma ComposeFrameSides(margin: FlexFrame, border: FlexFrame, padding: FlexFrame)
    ensures var f := ComposeFrame(margin, border, padding);
      f.Width().Static() == margin.Width().Static() + border.Width().Static() + padding.Width().Static()
      && f.Width().Relative() == margin.Width().Relative() + border.Width().Relative() + padding.Width().Relative()
      && f.Height().Static() == margin.Height().Static() + border.Height().Static() + padding.Height().Static()
      && f.Height().Relative() == margin.Height().Relative() + border.Height().Relative() + padding.Height().Relative()
  {
    var f := ComposeFrame(margin, border, padding);
    SideSum(margin.top, border.top, padding.top);
    SideSum(margin.right, border.right, padding.right);
    SideSum(margin.bottom, border.bottom, padding.bottom);
    SideSum(margin.left, border.left, padding.left);
    AddSpec(f.right, f.left);
    AddSpec(f.top, f.bottom);
    AddSpec(margin.right, margin.left);
    AddSpec(margin.top, margin.bottom);
    AddSpec(border.right, border.left);
    AddSpec(border.top, border.bottom);
    AddSpec(padding.right, padding.left);
    AddSpec(padding.top, padding.bottom);
  }

  /** The keyword arguments of FlexItem.__init__. */
  datatype ItemArgs = ItemArgs(
    minWidth: Input, width: Input, maxWidth: Input,
    minHeight: Input, height: Input, maxHeight: Input,
    margin: FrameInput, border: FrameInput, padding: FrameInput,
    alignSelf: Option<ItemPolicy>)

  /** Every argument left at its default of None. */
  function DefaultArgs(): ItemArgs {
    ItemArgs(NoneValue, NoneValue, NoneValue, NoneValue, NoneValue, NoneValue,
      One(NoneValue), One(NoneValue), One(NoneValue), None)
  }

  /** What the nine assignments of FlexItem.__init__ give, in the order they run. */
  datatype Assigned = Assigned(
    minWidth: Result<Value>, width: Result<Value>, maxWidth: Result<Value>,
    minHeight: Result<Value>, height: Result<Value>, maxHeight: Result<Value>,
    margin: Result<FlexFrame>, border: Result<FlexFrame>, padding: Result<FlexFrame>)
  {
    /** What each assignment raises, if anything, in order. */
    function Failures(): (r: seq<Option<Error>>)
      ensures |r| == 9
    {
      [minWidth.Failure(), width.Failure(), maxWidth.Failure(),
       minHeight.Failure(), height.Failure(), maxHeight.Failure(),
       margin.Failure(), border.Failure(), padding.Failure()]
    }
  }

  /** The assignments of FlexItem.__init__: each argument parsed. */
  function Assign(a: ItemArgs): Assigned {
    Assigned(Parse(a.minWidth), Parse(a.width), Parse(a.maxWidth),
      Parse(a.minHeight), Parse(a.height), Parse(a.maxHeight),
      AssignFrame(a.margin), AssignFrame(a.border), AssignFrame(a.padding))
  }

  /** FlexItem.__init__: the measurements and frames are parsed in the order they
      are assigned, and the first one that fails raises. */
  function NewSizing(a: ItemArgs): (r: Result<Sizing>)
    ensures r.Ok? <==>
      Parse(a.minWidth).Ok? && Parse(a.width).Ok? && Parse(a.maxWidth).Ok?
      && Parse(a.minHeight).Ok? && Parse(a.height).Ok? && Parse(a.maxHeight).Ok?
      && AssignFrame(a.margin).Ok? && AssignFrame(a.border).Ok? && AssignFrame(a.padding).Ok?
    ensures r.Ok? ==> r.value == Sizing(
      Parse(a.minWidth).value, Parse(a.width).value, Parse(a.maxWidth).value,
      Parse(a.minHeight).value, Parse(a.height).value, Parse(a.maxHeight).value,
      AssignFrame(a.margin).value, AssignFrame(a.border).value, AssignFrame(a.padding).value,
      a.alignSelf)
    ensures r.Err? ==> FirstFailure(Assign(a).Failures()) == Some(r.error)
  {
    var r := SizingOf(Assign(a), a.alignSelf);
    SizingOfFails(Assign(a), a.alignSelf);
    r
  }

  /** The attributes once every assignment has run, or the first failure. */
  function SizingOf(x: Assigned, alignSelf: Option<ItemPolicy>): Result<Sizing> {
    var minW :- x.minWidth;
    var w :- x.width;
    var maxW :- x.maxWidth;
    var minH :- x.minHeight;
    var h :- x.height;
    var maxH :- x.maxHeight;
    var margin :- x.margin;
    var border :- x.border;
    var padding :- x.padding;
    Ok(Sizing(minW, w, maxW, minH, h, maxH, margin, border, padding, alignSelf))
  }

  /** The attributes raise what the first failing assignment raises. */
  lemma SizingOfFails(x: Assigned, alignSelf: Option<ItemPolicy>)
    ensures SizingOf(x, alignSelf).Err? ==> FirstFailure(x.Failures()) == Some(SizingOf(x, alignSelf).error)
  {
    if x.minWidth.Ok? && x.width.Ok? && x.maxWidth.Ok? && x.minHeight.Ok? {
      SizingOfFailsLate(x, alignSelf);
    } else {
      SizingOfFailsEarly(x, alignSelf);
    }
  }

  /** SizingOfFails when one of the first four assignments fails. */
  lemma SizingOfFailsEarly(x: Assigned, alignSelf: Option<ItemPolicy>)
    requires !(x.minWidth.Ok? && x.width.Ok? && x.maxWidth.Ok? && x.minHeight.Ok?)
    ensures SizingOf(x, alignSelf).Err? && FirstFailure(x.Failures()) == Some(SizingOf(x, alignSelf).error)
  {
    var fs := x.Failures();
    if x.minWidth.Err? {
      FirstFailureAt(fs, 0);
    } else if x.width.Err? {
      FirstFailureAt(fs, 1);
    } else if x.maxWidth.Err? {
      FirstFailureAt(fs, 2);
    } else {
      FirstFailureAt(fs, 3);
    }
  }

  /** SizingOfFails when the first four assignments succeed. */
  lemma SizingOfFailsLate(x: Assigned, alignSelf: Option<ItemPolicy>)
    requires x.minWidth.Ok? && x.width.Ok? && x.maxWidth.Ok? && x.minHeight.Ok?
    ensures SizingOf(x, alignSelf).Err? ==> FirstFailure(x.Failures()) == Some(SizingOf(x, alignSelf).error)
  {
    var fs := x.Failures();
    if x.height.Err? {
      FirstFailureAt(fs, 4);
    } else if x.maxHeight.Err? {
      FirstFailureAt(fs, 5);
    } else if x.margin.Err? {
      FirstFailureAt(fs, 6);
    } else if x.border.Err? {
      FirstFailureAt(fs, 7);
    } else if x.padding.Err? {
      FirstFailureAt(fs, 8);
    }
  }

  /** With every argument None, no measurement is set and the frame is empty. */
  lemma DefaultSizing()
    ensures NewSizing(DefaultArgs()).Ok?
    ensures var s := NewSizing(DefaultArgs()).value;
      !s.width.Truthy() && !s.minWidth.Truthy() && !s.maxWidth.Truthy()
      && !s.Frame().Width().Truthy() && s.Frame().Width().Static() == 0.0 && s.Frame().Width().Relative() == 0.0
  {
    var s := NewSizing(DefaultArgs()).value;
    var none := Single(Unspecified());
    assert s.margin == FlexFrame(none, none, none, none);
    ComposeFrameSides(s.margin, s.border, s.padding);
    AddTruthy(s.Frame().right, s.Frame().left);
    SideSum(none, none, none);
    SumSingleton(0.0);
    assert [0.0, 0.0][..1] == [0.0];
  }

  /** A 50 x 25 item with a margin of "10%" on every side offers its content
      40 x 20: the margin is taken of the width across and of the height down
      (tests/tests_flexbox.py, test_margin_relative_symmetric). */
  lemma MarginRelativeExample()
    ensures var a := DefaultArgs().(width := Number(50.0), height := Number(25.0), margin := One(Text("10%")));
      NewSizing(a).Ok? && OfferedArea(NewSizing(a).value, 1000.0, 1000.0) == Size(40.0, 20.0)
  {
    var a := DefaultArgs().(width := Number(50.0), height := Number(25.0), margin := One(Text("10%")));
    var none := Single(Unspecified());
    var tenth := Single(FlexMeasurement(Some(0.0), Some(0.1), None));
    var empty := FlexFrame(none, none, none, none);
    TenPercent();
    AssignOneToAllSides(Text("10%"));
    AssignOneToAllSides(NoneValue);
    var s := Sizing(none, Parse(Number(50.0)).value, none, none, Parse(Number(25.0)).value, none,
      FlexFrame(tenth, tenth, tenth, tenth), empty, empty, None);
    assert NewSizing(a) == Ok(s);
    TenthMarginArea(s);
  }

  /** "10%" parses to a tenth of the base. */
  lemma TenPercent()
    ensures Parse(Text("10%")) == Ok(Single(FlexMeasurement(Some(0.0), Some(0.1), None)))
  {
    assert Decimal.Render(10) == "10";
    assert Decimal.Render(10) + "%" == "10%";
    ParsePercentValue(10);
  }

  /** The content area of MarginRelativeExample, once the arguments are parsed. */
  lemma TenthMarginArea(s: Sizing)
    requires var none := Single(Unspecified());
      var tenth := Single(FlexMeasurement(Some(0.0), Some(0.1), None));
      var empty := FlexFrame(none, none, none, none);
      s == Sizing(none, Parse(Number(50.0)).value, none, none, Parse(Number(25.0)).value, none,
        FlexFrame(tenth, tenth, tenth, tenth), empty, empty, None)
    ensures OfferedArea(s, 1000.0, 1000.0) == Size(40.0, 20.0)
  {
    TenthMarginFrame(s.margin, s.border);
    TenthMarginPreferred(s);
  }

  /** A tenth on every side and no border or padding: a fifth across and a fifth down. */
  lemma TenthMarginFrame(m: FlexFrame, e: FlexFrame)
    requires var none := Single(Unspecified());
      var tenth := Single(FlexMeasurement(Some(0.0), Some(0.1), None));
      m == FlexFrame(tenth, tenth, tenth, tenth) && e == FlexFrame(none, none, none, none)
    ensures var f := ComposeFrame(m, e, e);
      f.Width().Relative() == 0.2 && f.Width().Static() == 0.0
      && f.Height().Relative() == 0.2 && f.Height().Static() == 0.0
  {
    ComposeFrameSides(m, e, e);
    AddSpec(m.left, m.right);
    AddSpec(e.left, e.right);
  }

  /** The preferred size of MarginRelativeExample is its width and height. */
  lemma TenthMarginPreferred(s: Sizing)
    requires var none := Single(Unspecified());
      s.maxWidth == none && s.maxHeight == none
      && s.width == Parse(Number(50.0)).value && s.height == Parse(Number(25.0)).value
    ensures Preferred(s.maxWidth, s.width, 1000.0) == 50.0
    ensures Preferred(s.maxHeight, s.height, 1000.0) == 25.0
  {
    ParseNumberIsAbsolute(50.0, 1000.0);
    ParseNumberIsAbsolute(25.0, 1000.0);
    ParseNone(1000.0);
    PreferredSpec(s.maxWidth, s.width, 1000.0);
    PreferredSpec(s.maxHeight, s.height, 1000.0);
  }

  /** The options of FlexBox.__init__, whose defaults are Row, FlexStart, FlexStart,
      Stretch, NoWrap and no keep-together. */
  datatype BoxOptions = BoxOptions(
    direction: Direction,
    justifyContent: JustifyPolicy,
    alignItems: ItemPolicy,
    alignContent: Policy,
    flexWrap: Wrap,
    keepTogether: bool)

  function DefaultOptions(): BoxOptions {
    BoxOptions(Row, FlexStart, FlexStart, Stretch, NoWrap, false)
  }

  /** A FlexItem, whose content is empty, or a FlexBox with its children. */
  datatype Node =
    | Item(sizing: Sizing)
    | Box(sizing: Sizing, options: BoxOptions, items: seq<Node>)

  // ---- FlexItem.wrap ----

  /** A wrapped line (FlexRow): the indices of its items and its size. */
  datatype Line = Line(items: seq<nat>, width: real, height: real)

  /** What wrap leaves behind: the size, the content size, the frame with its bases
      set to the size, and for a box the lines and the wrapped children. */
  datatype Wrapped = Wrapped(
    width: real, height: real,
    contentWidth: real, contentHeight: real,
    frame: FlexFrame,
    rows: Option<seq<Line>>,
    children: seq<Wrapped>)

  /** What wrap_content returns, with the lines and children it sets up. */
  datatype Content = Content(width: real, height: real, rows: Option<seq<Line>>, children: seq<Wrapped>)

  /** float(v) once v's base is b. */
  function Extent(v: Value, b: real): (r: real)
    ensures v.WithBase(b).Float() == Ok(r)
  {
    ResolveWithBase(v, b);
    v.Static() + v.Relative() * b
  }

  /** `float(FlexMeasurement.min(max, size) or available)` after both got the base
      `available`. */
  function Preferred(maxV: Value, size: Value, available: real): real
  {
    match MinOf([maxV.WithBase(available), size.WithBase(available)])
    case Ok(Some(x)) => if x == 0.0 then available else x
    case _ => available
  }

  /** min over two bound values: None when neither is set, the set one's float
      when only one is, the smaller float when both are. */
  lemma MinOfTwo(x: Value, y: Value)
    requires x.Bound() && y.Bound()
    ensures !x.Truthy() && !y.Truthy() ==> MinOf([x, y]) == Ok(None)
    ensures x.Truthy() && !y.Truthy() ==> MinOf([x, y]) == Ok(Some(x.Resolve()))
    ensures !x.Truthy() && y.Truthy() ==> MinOf([x, y]) == Ok(Some(y.Resolve()))
    ensures x.Truthy() && y.Truthy() ==>
      MinOf([x, y]) == Ok(Some(if y.Resolve() < x.Resolve() then y.Resolve() else x.Resolve()))
  {
    assert [x, y][..1] == [x];
    assert [x][..0] == [];
    assert TruthyFloats([]) == Ok([]);
    assert x.Float() == Ok(x.Resolve()) && y.Float() == Ok(y.Resolve());
    if x.Truthy() {
      assert TruthyFloats([x]).value == [] + [x.Resolve()] == [x.Resolve()];
    } else {
      assert TruthyFloats([x]).value == [];
    }
    if x.Truthy() && y.Truthy() {
      assert TruthyFloats([x, y]).value == [x.Resolve()] + [y.Resolve()] == [x.Resolve(), y.Resolve()];
      assert [x.Resolve(), y.Resolve()][..1] == [x.Resolve()];
    }
  }

  /** The preferred size is the available size, or the smaller of the set ones of
      `max` and `size`; with neither set it is the available size. */
  lemma PreferredSpec(maxV: Value, size: Value, available: real)
    ensures var r := Preferred(maxV, size, available);
      (!maxV.Truthy() && !size.Truthy() ==> r == available)
      && (r == available || (size.Truthy() && r == Extent(size, available)) || (maxV.Truthy() && r == Extent(maxV, available)))
      && (r != available && size.Truthy() ==> r <= Extent(size, available))
      && (r != available && maxV.Truthy() ==> r <= Extent(maxV, available))
      && (size.Truthy() && Extent(size, available) != 0.0 && (!maxV.Truthy() || Extent(size, available) <= Extent(maxV, available))
          ==> r == Extent(size, available))
  {
    var x, y := maxV.WithBase(available), size.WithBase(available);
    ResolveWithBase(maxV, available);
    ResolveWithBase(size, available);
    assert x.Resolve() == Extent(maxV, available) && x.Truthy() == maxV.Truthy();
    assert y.Resolve() == Extent(size, available) && y.Truthy() == size.Truthy();
    MinOfTwo(x, y);
  }

  /** `max(x, float(lo))` if lo is set, then `min(., float(hi))` if hi is set. */
  function Clamp(x: real, lo: Value, hi: Value, base: real): real
  {
    var y := if lo.Truthy() && Extent(lo, base) > x then Extent(lo, base) else x;
    if hi.Truthy() && Extent(hi, base) < y then Extent(hi, base) else y
  }

  /** The clamp respects a set maximum, and a set minimum unless it exceeds the
      maximum, which then wins; with neither set the size is unchanged. */
  lemma ClampSpec(x: real, lo: Value, hi: Value, base: real)
    ensures var r := Clamp(x, lo, hi, base);
      (hi.Truthy() ==> r <= Extent(hi, base))
      && (lo.Truthy() && (!hi.Truthy() || Extent(lo, base) <= Extent(hi, base)) ==> Extent(lo, base) <= r)
      && (!lo.Truthy() && !hi.Truthy() ==> r == x)
      && (r == x || (lo.Truthy() && r == Extent(lo, base)) || (hi.Truthy() && r == Extent(hi, base)))
  {
  }

  /** The space the frame leaves for the content of a box of the given size. */
  function Inner(span: Value, size: real): real {
    size - Extent(span, size)
  }

  /** The base that makes the content plus the frame span equal the base:
      `(content + static) / (1 - relative)`, which raises when the relative
      part of the span is 1. */
  function AutoBase(span: Value, content: real): (r: Result<real>)
    ensures r.Err? <==> span.Relative() == 1.0
    ensures r.Err? ==> r.error == ZeroDivision
  {
    if span.Relative() == 1.0 then Err(ZeroDivision)
    else Ok((content + span.Static()) / (1.0 - span.Relative()))
  }

  /** The automatic size is a fixed point: it equals its base, and the frame at
      that size leaves exactly the content's size inside. */
  lemma AutoBaseFixedPoint(span: Value, content: real)
    requires span.Relative() != 1.0
    ensures var b := AutoBase(span, content).value;
      content + Extent(span, b) == b && Inner(span, b) == content
  {
    FixedPoint(content, span.Static(), span.Relative(), AutoBase(span, content).value);
  }

  /** The arithmetic of AutoBaseFixedPoint, apart from the measurements. */
  lemma FixedPoint(content: real, s: real, r: real, b: real)
    requires r != 1.0 && b == (content + s) / (1.0 - r)
    ensures content + (s + r * b) == b
  {
    assert b * (1.0 - r) == content + s;
  }

  /** Size along one axis, after the content has been measured: the preferred size
      if `size` is set, otherwise the content plus the frame at the automatic base. */
  function AxisSize(size: Value, span: Value, preferred: real, content: real): Result<real>
  {
    if size.Truthy() then Ok(preferred)
    else
      var b :- AutoBase(span, content);
      Ok(content + Extent(span, b))
  }

  /** The content area of a box of the given size: the size less the frame spans. */
  function ContentArea(s: Sizing, w: real, h: real): Size {
    Size(Inner(s.Frame().Width(), w), Inner(s.Frame().Height(), h))
  }

  /** FlexItem.wrap. */
  function WrapNode(n: Node, aw: real, ah: real): Result<Wrapped>
    decreases n, 1
  {
    var area := OfferedArea(n.sizing, aw, ah);
    var c :- ContentOf(n, area.width, area.height);
    Finish(n.sizing, aw, ah, c)
  }

  /** The content area wrap offers the content: the preferred size less the frame. */
  function OfferedArea(s: Sizing, aw: real, ah: real): Size {
    ContentArea(s, Preferred(s.maxWidth, s.width, aw), Preferred(s.maxHeight, s.height, ah))
  }

  /** The rest of wrap once the content is measured: each axis's size, clamped by
      the minimum and maximum, and the frame bound to the final size. */
  function Finish(s: Sizing, aw: real, ah: real, c: Content): Result<Wrapped> {
    var w1 :- AxisSize(s.width, s.Frame().Width(), Preferred(s.maxWidth, s.width, aw), c.width);
    var h1 :- AxisSize(s.height, s.Frame().Height(), Preferred(s.maxHeight, s.height, ah), c.height);
    var w2 := Clamp(w1, s.minWidth, s.maxWidth, aw);
    var h2 := Clamp(h1, s.minHeight, s.maxHeight, ah);
    Ok(Wrapped(w2, h2, c.width, c.height, s.Frame().WithWidthBase(w2).WithHeightBase(h2), c.rows, c.children))
  }

  /** wrap_content: nothing for a plain item or an empty box; otherwise the children
      are wrapped against the content area in order, the first failure raising, and
      arranged in lines. */
  function ContentOf(n: Node, aw: real, ah: real): Result<Content>
    decreases n, 0
  {
    match n
    case Item(_) => Ok(Content(0.0, 0.0, None, []))
    case Box(_, o, items) =>
      if items == [] then Ok(Content(0.0, 0.0, None, []))
      else
        var children :- Collect(seq(|items|, i requires 0 <= i < |items| => WrapNode(items[i], aw, ah)));
        Ok(Arrange(o, children, aw, ah))
  }

  /** The values of a sequence of results, or the first error among them. */
  function Collect<T>(rs: seq<Result<T>>): (r: Result<seq<T>>)
    ensures r.Ok? <==> forall i :: 0 <= i < |rs| ==> rs[i].Ok?
    ensures r.Ok? ==> |r.value| == |rs| && forall i :: 0 <= i < |rs| ==> rs[i] == Ok(r.value[i])
    ensures r.Err? ==> exists i :: 0 <= i < |rs| && rs[i] == Err(r.error) && forall j :: 0 <= j < i ==> rs[j].Ok?
  {
    if rs == [] then Ok([])
    else
      var init := rs[..|rs| - 1];
      assert forall i :: 0 <= i < |init| ==> init[i] == rs[i];
      var vs :- Collect(init);
      var last :- rs[|rs| - 1];
      Ok(vs + [last])
  }

  // ---- FlexBox.wrap_content: lines ----

  function Sizes(children: seq<Wrapped>): (r: seq<Size>)
    ensures |r| == |children|
    ensures forall i :: 0 <= i < |children| ==> r[i] == Size(children[i].width, children[i].height)
  {
    seq(|children|, i requires 0 <= i < |children| => Size(children[i].width, children[i].height))
  }

  /** The lengths the lines are filled by: widths in a row, heights in a column. */
  function MainLengths(d: Direction, sizes: seq<Size>): (r: seq<real>)
    ensures |r| == |sizes|
  {
    if d.Row? then Widths(sizes) else Heights(sizes)
  }

  predicate RowsCover(rows: seq<seq<nat>>, n: nat) {
    |rows| > 0
    && Flatten(rows) == Range(0, n)
    && forall k :: 0 <= k < |rows| ==> Contiguous(rows[k]) && rows[k][0] + |rows[k]| <= n
  }

  /** The item indices of each line: one line with every item without wrapping,
      the greedy lines of LineBreaking with it. */
  function BreakRows(o: BoxOptions, sizes: seq<Size>, aw: real, ah: real): (rows: seq<seq<nat>>)
    requires |sizes| > 0
    ensures RowsCover(rows, |sizes|)
  {
    var n := |sizes|;
    if o.flexWrap.Wrap? then
      var rows := Lines(MainLengths(o.direction, sizes), if o.direction.Row? then aw else ah);
      FlattenHead(rows, 0, n);
      rows
    else
      assert Flatten([Range(0, n)]) == Range(0, n) + Flatten([]);
      [Range(0, n)]
  }

  /** The sizes of the items of one line. */
  function RowSizes(sizes: seq<Size>, row: seq<nat>): (r: seq<Size>)
    requires forall j :: 0 <= j < |row| ==> row[j] < |sizes|
    ensures |r| == |row|
    ensures forall j :: 0 <= j < |row| ==> r[j] == sizes[row[j]]
  {
    seq(|row|, j requires 0 <= j < |row| => sizes[row[j]])
  }

  /** A line's size: along the direction the sum of its items, across it the largest. */
  function LineOf(d: Direction, sizes: seq<Size>, row: seq<nat>): (l: Line)
    requires |row| > 0
    requires forall j :: 0 <= j < |row| ==> row[j] < |sizes|
    ensures l.items == row
  {
    var items := RowSizes(sizes, row);
    Line(row, LineWidth(d, items), LineHeight(d, items))
  }

  function LineSizes(lines: seq<Line>): (r: seq<Size>)
    ensures |r| == |lines|
    ensures forall k :: 0 <= k < |lines| ==> r[k] == Size(lines[k].width, lines[k].height)
  {
    seq(|lines|, k requires 0 <= k < |lines| => Size(lines[k].width, lines[k].height))
  }

  function MakeLines(d: Direction, sizes: seq<Size>, rows: seq<seq<nat>>): (lines: seq<Line>)
    requires RowsCover(rows, |sizes|)
    ensures |lines| == |rows|
    ensures forall k :: 0 <= k < |rows| ==> lines[k] == LineOf(d, sizes, rows[k])
  {
    seq(|rows|, k requires 0 <= k < |rows| => LineOf(d, sizes, rows[k]))
  }

  /** The arrangement of wrapped children: their lines, and the content size of the
      lines stacked across the direction. */
  function Arrange(o: BoxOptions, children: seq<Wrapped>, aw: real, ah: real): Content
    requires |children| > 0
  {
    var sizes := Sizes(children);
    var rows := BreakRows(o, sizes, aw, ah);
    var lines := MakeLines(o.direction, sizes, rows);
    var ls := LineSizes(lines);
    Content(ContainerWidth(o.direction, ls), ContainerHeight(o.direction, ls), Some(lines), children)
  }

  /** The item indices of the lines, in order. */
  function LineItems(lines: seq<Line>): (r: seq<seq<nat>>)
    ensures |r| == |lines|
    ensures forall k :: 0 <= k < |lines| ==> r[k] == lines[k].items
  {
    seq(|lines|, k requires 0 <= k < |lines| => lines[k].items)
  }

  /** Lines that are well formed for n items: non-empty runs of indices below n
      that together list every item once, in order. */
  predicate LinesCover(lines: seq<Line>, n: nat) {
    RowsCover(LineItems(lines), n)
  }

  /** The lines of an arrangement list the rows BreakRows chose. */
  lemma ArrangeRows(o: BoxOptions, children: seq<Wrapped>, aw: real, ah: real)
    requires |children| > 0
    ensures Arrange(o, children, aw, ah).rows.Some?
    ensures LineItems(Arrange(o, children, aw, ah).rows.value) == BreakRows(o, Sizes(children), aw, ah)
  {
    var sizes := Sizes(children);
    var rows := BreakRows(o, sizes, aw, ah);
    var lines := MakeLines(o.direction, sizes, rows);
    assert LineItems(lines) == rows;
  }

  lemma ArrangeLines(o: BoxOptions, children: seq<Wrapped>, aw: real, ah: real)
    requires |children| > 0
    ensures var c := Arrange(o, children, aw, ah);
      c.rows.Some? && LinesCover(c.rows.value, |children|) && c.children == children
  {
    var sizes := Sizes(children);
    var rows := BreakRows(o, sizes, aw, ah);
    var lines := MakeLines(o.direction, sizes, rows);
    assert LineItems(lines) == rows;
  }

  /** Without wrapping, a row box's content is as wide as its children together and
      as tall as the tallest; a column box's as wide as the widest and as tall as
      its children together. */
  lemma NoWrapContent(o: BoxOptions, children: seq<Wrapped>, aw: real, ah: real)
    requires |children| > 0 && o.flexWrap.NoWrap?
    ensures var c := Arrange(o, children, aw, ah); var sizes := Sizes(children);
      (o.direction.Row? ==> c.width == Sum(Widths(sizes)) && c.height == Max(Heights(sizes)))
      && (o.direction.Column? ==> c.width == Max(Widths(sizes)) && c.height == Sum(Heights(sizes)))
  {
    var sizes := Sizes(children);
    var n := |sizes|;
    var row := Range(0, n);
    assert RowSizes(sizes, row) == sizes;
    var lines := MakeLines(o.direction, sizes, [row]);
    var ls := LineSizes(lines);
    assert |ls| == 1;
    assert Widths(ls) == [ls[0].width];
    assert Heights(ls) == [ls[0].height];
    SumSingleton(ls[0].width);
    SumSingleton(ls[0].height);
  }

  /** With wrapping on, every line of two or more items fits in the available
      length along the direction, and each line ends because the next item would
      not fit. */
  lemma WrappedLinesFit(o: BoxOptions, children: seq<Wrapped>, aw: real, ah: real)
    requires |children| > 0 && o.flexWrap.Wrap?
    ensures var sizes := Sizes(children); var lengths := MainLengths(o.direction, sizes);
      var available := if o.direction.Row? then aw else ah;
      var rows := LineItems(Arrange(o, children, aw, ah).rows.value);
      (forall k :: 0 <= k < |rows| ==> Fits(lengths, available, rows[k]))
      && (forall k :: 0 <= k < |rows| - 1 ==> BreakForced(lengths, available, rows[k], rows[k + 1]))
  {
    var sizes := Sizes(children);
    var lengths := MainLengths(o.direction, sizes);
    var available := if o.direction.Row? then aw else ah;
    ArrangeRows(o, children, aw, ah);
    LinesGreedy(lengths, available);
  }

  // ---- properties of wrap ----

  /** wrap measures the content in the area it offers, and fails exactly when that
      fails or the rest of wrap does. */
  lemma WrapSteps(n: Node, aw: real, ah: real)
    ensures var area := OfferedArea(n.sizing, aw, ah);
      var c := ContentOf(n, area.width, area.height);
      (c.Err? ==> WrapNode(n, aw, ah) == Err(c.error))
      && (c.Ok? ==> WrapNode(n, aw, ah) == Finish(n.sizing, aw, ah, c.value))
  {
  }

  /** A successful wrap binds the frame to the final size, and reports the content
      size of the content area it offered. */
  lemma WrapResult(n: Node, aw: real, ah: real)
    requires WrapNode(n, aw, ah).Ok?
    ensures var r, s := WrapNode(n, aw, ah).value, n.sizing;
      var area := OfferedArea(s, aw, ah);
      ContentOf(n, area.width, area.height) == Ok(Content(r.contentWidth, r.contentHeight, r.rows, r.children))
      && r.frame == s.Frame().WithWidthBase(r.width).WithHeightBase(r.height)
  {
    WrapSteps(n, aw, ah);
    var area := OfferedArea(n.sizing, aw, ah);
    FinishResult(n.sizing, aw, ah, ContentOf(n, area.width, area.height).value);
  }

  lemma FinishResult(s: Sizing, aw: real, ah: real, c: Content)
    requires Finish(s, aw, ah, c).Ok?
    ensures var r := Finish(s, aw, ah, c).value;
      c == Content(r.contentWidth, r.contentHeight, r.rows, r.children)
      && r.frame == s.Frame().WithWidthBase(r.width).WithHeightBase(r.height)
  {
  }

  /** A set width with no minimum or maximum is the width, whatever the content:
      its float against the available width, or the available width if that is 0. */
  lemma FixedWidth(n: Node, aw: real, ah: real)
    requires WrapNode(n, aw, ah).Ok?
    requires n.sizing.width.Truthy() && !n.sizing.minWidth.Truthy() && !n.sizing.maxWidth.Truthy()
    ensures var e := Extent(n.sizing.width, aw);
      WrapNode(n, aw, ah).value.width == (if e == 0.0 then aw else e)
  {
    var s := n.sizing;
    WrapSteps(n, aw, ah);
    PreferredSpec(s.maxWidth, s.width, aw);
    ClampSpec(Preferred(s.maxWidth, s.width, aw), s.minWidth, s.maxWidth, aw);
  }

  /** Without a width, minimum or maximum, the width is the content width plus the
      frame, with the frame's relative part taken of that very width: the frame at
      the final width leaves exactly the content width inside. */
  lemma AutoWidth(n: Node, aw: real, ah: real)
    requires WrapNode(n, aw, ah).Ok?
    requires !n.sizing.width.Truthy() && !n.sizing.minWidth.Truthy() && !n.sizing.maxWidth.Truthy()
    ensures var r := WrapNode(n, aw, ah).value;
      Inner(n.sizing.Frame().Width(), r.width) == r.contentWidth
  {
    WrapSteps(n, aw, ah);
    var area := OfferedArea(n.sizing, aw, ah);
    FinishAutoWidth(n.sizing, aw, ah, ContentOf(n, area.width, area.height).value);
  }

  lemma FinishAutoWidth(s: Sizing, aw: real, ah: real, c: Content)
    requires Finish(s, aw, ah, c).Ok?
    requires !s.width.Truthy() && !s.minWidth.Truthy() && !s.maxWidth.Truthy()
    ensures var r := Finish(s, aw, ah, c).value;
      Inner(s.Frame().Width(), r.width) == r.contentWidth
  {
    AutoBaseFixedPoint(s.Frame().Width(), c.width);
  }

  /** The width cannot be determined when it is automatic and the frame's relative
      parts add up to the whole width. */
  lemma AutoWidthUndetermined(n: Node, aw: real, ah: real)
    requires !n.sizing.width.Truthy() && n.sizing.Frame().Width().Relative() == 1.0
    ensures WrapNode(n, aw, ah).Err?
  {
    WrapSteps(n, aw, ah);
  }

  /** A set maximum bounds the width, and a set minimum no larger than it is a
      lower bound. */
  lemma WidthBounds(n: Node, aw: real, ah: real)
    requires WrapNode(n, aw, ah).Ok?
    ensures var r, s := WrapNode(n, aw, ah).value, n.sizing;
      (s.maxWidth.Truthy() ==> r.width <= Extent(s.maxWidth, aw))
      && (s.minWidth.Truthy() && (!s.maxWidth.Truthy() || Extent(s.minWidth, aw) <= Extent(s.maxWidth, aw))
          ==> Extent(s.minWidth, aw) <= r.width)
  {
    var s := n.sizing;
    WrapSteps(n, aw, ah);
    var area := OfferedArea(s, aw, ah);
    var c := ContentOf(n, area.width, area.height).value;
    var w1 := AxisSize(s.width, s.Frame().Width(), Preferred(s.maxWidth, s.width, aw), c.width).value;
    ClampSpec(w1, s.minWidth, s.maxWidth, aw);
  }

  /** The children of a box are wrapped against the box's content area, and a
      child that fails makes the box fail. */
  lemma ChildrenWrapped(n: Node, aw: real, ah: real, i: nat)
    requires n.Box? && i < |n.items|
    requires ContentOf(n, aw, ah).Ok?
    ensures WrapNode(n.items[i], aw, ah) == Ok(ContentOf(n, aw, ah).value.children[i])
  {
    var rs := seq(|n.items|, j requires 0 <= j < |n.items| => WrapNode(n.items[j], aw, ah));
    assert rs[i] == WrapNode(n.items[i], aw, ah);
  }

  // ---- wrap examples ----

  /** An absolute length, as `parse` makes it of a number. */
  function Absolute(x: real): Value {
    Single(FlexMeasurement(Some(x), Some(0.0), None))
  }

  /** The frame of an item given no margin, border or padding. */
  function NoFrame(): FlexFrame {
    var none := Single(Unspecified());
    FlexFrame(none, none, none, none)
  }

  /** Without margin, border or padding, the frame spans nothing. */
  lemma NoFrameSpans(s: Sizing)
    requires s.margin == s.border == s.padding == NoFrame()
    ensures s.Frame().Width().Static() == 0.0 && s.Frame().Width().Relative() == 0.0
    ensures s.Frame().Height().Static() == 0.0 && s.Frame().Height().Relative() == 0.0
  {
    var none := Single(Unspecified());
    ComposeFrameSides(s.margin, s.border, s.padding);
    AddSpec(none, none);
  }

  /** An item with a set width and height of w and h, and nothing else, wraps to
      w x h whatever it is offered. */
  lemma FixedItemWraps(w: real, h: real, aw: real, ah: real)
    requires w != 0.0 && h != 0.0
    ensures var none := Single(Unspecified());
      var s := Sizing(none, Absolute(w), none, none, Absolute(h), none, NoFrame(), NoFrame(), NoFrame(), None);
      WrapNode(Item(s), aw, ah).Ok?
      && WrapNode(Item(s), aw, ah).value.width == w && WrapNode(Item(s), aw, ah).value.height == h
  {
    var none := Single(Unspecified());
    var s := Sizing(none, Absolute(w), none, none, Absolute(h), none, NoFrame(), NoFrame(), NoFrame(), None);
    WrapSteps(Item(s), aw, ah);
    ParseNone(aw);
    ParseNone(ah);
    ParseNumberIsAbsolute(w, aw);
    ParseNumberIsAbsolute(h, ah);
    PreferredSpec(none, Absolute(w), aw);
    PreferredSpec(none, Absolute(h), ah);
  }

  /** A box with a minimum of 200 x 100 around one 100 x 50 item, offered
      1000 x 1000, takes its minimum size: the content alone would make it
      100 x 50 (tests/tests_flexbox.py, test_size_min_small_fixed_content). */
  lemma MinSmallFixedContentExample()
    ensures var ca := DefaultArgs().(width := Number(100.0), height := Number(50.0));
      var ba := DefaultArgs().(minWidth := Number(200.0), minHeight := Number(100.0));
      NewSizing(ca).Ok? && NewSizing(ba).Ok?
      && var box := Box(NewSizing(ba).value, DefaultOptions(), [Item(NewSizing(ca).value)]);
         WrapNode(box, 1000.0, 1000.0).Ok?
         && WrapNode(box, 1000.0, 1000.0).value.width == 200.0
         && WrapNode(box, 1000.0, 1000.0).value.height == 100.0
  {
    var none := Single(Unspecified());
    var ca := DefaultArgs().(width := Number(100.0), height := Number(50.0));
    var ba := DefaultArgs().(minWidth := Number(200.0), minHeight := Number(100.0));
    AssignOneToAllSides(NoneValue);
    var cs := Sizing(none, Absolute(100.0), none, none, Absolute(50.0), none, NoFrame(), NoFrame(), NoFrame(), None);
    var bs := Sizing(Absolute(200.0), none, none, Absolute(100.0), none, none, NoFrame(), NoFrame(), NoFrame(), None);
    assert NewSizing(ca) == Ok(cs);
    assert NewSizing(ba) == Ok(bs);
    MinBoxWraps(bs, cs);
  }

  /** The wrap of MinSmallFixedContentExample, once the arguments are parsed. */
  lemma MinBoxWraps(bs: Sizing, cs: Sizing)
    requires var none := Single(Unspecified());
      cs == Sizing(none, Absolute(100.0), none, none, Absolute(50.0), none, NoFrame(), NoFrame(), NoFrame(), None)
      && bs == Sizing(Absolute(200.0), none, none, Absolute(100.0), none, none, NoFrame(), NoFrame(), NoFrame(), None)
    ensures var box := Box(bs, DefaultOptions(), [Item(cs)]);
      WrapNode(box, 1000.0, 1000.0).Ok?
      && WrapNode(box, 1000.0, 1000.0).value.width == 200.0
      && WrapNode(box, 1000.0, 1000.0).value.height == 100.0
  {
    var none := Single(Unspecified());
    var box := Box(bs, DefaultOptions(), [Item(cs)]);
    NoFrameSpans(bs);
    ParseNone(1000.0);
    PreferredSpec(none, none, 1000.0);
    assert OfferedArea(bs, 1000.0, 1000.0) == Size(1000.0, 1000.0);
    OneChildContent(bs, cs);
    WrapSteps(box, 1000.0, 1000.0);
    MinFinish(bs, ContentOf(box, 1000.0, 1000.0).value);
  }

  /** The content step of MinBoxWraps: the one 100 x 50 child, on one line. */
  lemma OneChildContent(bs: Sizing, cs: Sizing)
    requires var none := Single(Unspecified());
      cs == Sizing(none, Absolute(100.0), none, none, Absolute(50.0), none, NoFrame(), NoFrame(), NoFrame(), None)
    ensures var c := ContentOf(Box(bs, DefaultOptions(), [Item(cs)]), 1000.0, 1000.0);
      c.Ok? && c.value.width == 100.0 && c.value.height == 50.0
  {
    FixedItemWraps(100.0, 50.0, 1000.0, 1000.0);
    OneChild(Box(bs, DefaultOptions(), [Item(cs)]), 1000.0, 1000.0);
    ArrangeOne(WrapNode(Item(cs), 1000.0, 1000.0).value);
  }

  /** A box of one child that wraps arranges that child's wrap. */
  lemma OneChild(n: Node, aw: real, ah: real)
    requires n.Box? && |n.items| == 1 && WrapNode(n.items[0], aw, ah).Ok?
    ensures ContentOf(n, aw, ah) == Ok(Arrange(n.options, [WrapNode(n.items[0], aw, ah).value], aw, ah))
  {
    var rs := seq(|n.items|, i requires 0 <= i < |n.items| => WrapNode(n.items[i], aw, ah));
    CollectOne(rs);
  }

  /** Collecting one successful result gives its value. */
  lemma CollectOne<T>(rs: seq<Result<T>>)
    requires |rs| == 1 && rs[0].Ok?
    ensures Collect(rs) == Ok([rs[0].value])
  {
    var cs := Collect(rs);
    assert cs.Ok? && |cs.value| == 1 && rs[0] == Ok(cs.value[0]);
    assert cs.value == [rs[0].value];
  }

  /** One child without wrapping makes content of its own size. */
  lemma ArrangeOne(child: Wrapped)
    ensures var c := Arrange(DefaultOptions(), [child], 1000.0, 1000.0);
      c.width == child.width && c.height == child.height
  {
    NoWrapContent(DefaultOptions(), [child], 1000.0, 1000.0);
    var size := Size(child.width, child.height);
    assert Sizes([child]) == [size];
    assert Widths([size]) == [child.width] && Heights([size]) == [child.height];
    SumSingleton(child.width);
  }

  /** The sizing step of MinBoxWraps: 100 x 50 of content in no frame, clamped to
      the minimum of 200 x 100. */
  lemma MinFinish(bs: Sizing, c: Content)
    requires var none := Single(Unspecified());
      bs == Sizing(Absolute(200.0), none, none, Absolute(100.0), none, none, NoFrame(), NoFrame(), NoFrame(), None)
    requires c.width == 100.0 && c.height == 50.0
    ensures Finish(bs, 1000.0, 1000.0, c).Ok?
    ensures Finish(bs, 1000.0, 1000.0, c).value.width == 200.0
    ensures Finish(bs, 1000.0, 1000.0, c).value.height == 100.0
  {
    NoFrameSpans(bs);
    AutoAxisToMinimum(bs.Frame().Width(), Preferred(bs.maxWidth, bs.width, 1000.0), 100.0, 200.0, 1000.0);
    AutoAxisToMinimum(bs.Frame().Height(), Preferred(bs.maxHeight, bs.height, 1000.0), 50.0, 100.0, 1000.0);
  }

  /** An automatic axis in no frame takes the content's length, which a larger
      absolute minimum then replaces. */
  lemma AutoAxisToMinimum(span: Value, preferred: real, content: real, lo: real, base: real)
    requires span.Static() == 0.0 && span.Relative() == 0.0 && content < lo
    ensures AxisSize(Single(Unspecified()), span, preferred, content) == Ok(content)
    ensures Clamp(content, Absolute(lo), Single(Unspecified()), base) == lo
  {
    ParseNone(base);
    ParseNumberIsAbsolute(lo, base);
    ClampSpec(content, Absolute(lo), Single(Unspecified()), base);
  }

  // ---- FlexBox.draw_content ----

  /** What draw_content needs of a child: its wrapped size and align_self. */
  datatype ItemInfo = ItemInfo(width: real, height: real, alignSelf: Option<ItemPolicy>)

  /** The position `drawOn` receives for an item, in the canvas's bottom-up coordinates. */
  datatype Placement = Placement(item: nat, x: real, y: real)

  predicate LinesFor(lines: seq<Line>, n: nat) {
    |lines| > 0
    && forall k :: 0 <= k < |lines| ==>
         |lines[k].items| > 0 && forall j :: 0 <= j < |lines[k].items| ==> lines[k].items[j] < n
  }

  lemma CoverIsFor(lines: seq<Line>, n: nat)
    requires LinesCover(lines, n)
    ensures LinesFor(lines, n)
  {
    var rows := LineItems(lines);
    forall k | 0 <= k < |lines|
      ensures |lines[k].items| > 0 && forall j :: 0 <= j < |lines[k].items| ==> lines[k].items[j] < n
    {
      assert Contiguous(rows[k]);
    }
  }

  /** The lengths of the given items along the width or the height. */
  function ItemLengths(items: seq<ItemInfo>, row: seq<nat>, horizontal: bool): (r: seq<real>)
    requires forall j :: 0 <= j < |row| ==> row[j] < |items|
    ensures |r| == |row|
  {
    seq(|row|, j requires 0 <= j < |row| => if horizontal then items[row[j]].width else items[row[j]].height)
  }

  /** The cross extents of the lines: heights in a row box, widths in a column box. */
  function CrossExtents(d: Direction, lines: seq<Line>): (r: seq<real>)
    ensures |r| == |lines|
    ensures forall k :: 0 <= k < |lines| ==> r[k] == (if d.Row? then lines[k].height else lines[k].width)
  {
    seq(|lines|, k requires 0 <= k < |lines| => if d.Row? then lines[k].height else lines[k].width)
  }

  /** The cross extents as align_content uses them: stretched to the available
      length when it is Stretch. */
  function AlignedExtents(o: BoxOptions, lines: seq<Line>, aw: real, ah: real): (r: seq<real>)
    ensures |r| == |lines|
  {
    var raw := CrossExtents(o.direction, lines);
    if o.alignContent.Stretch? then StretchLines(raw, if o.direction.Row? then ah else aw) else raw
  }

  /** The placements of the items of line k, given its cross offset and extent. */
  function PlaceLine(o: BoxOptions, items: seq<ItemInfo>, row: seq<nat>, offset: real, extent: real, aw: real, ah: real)
    : (r: seq<Placement>)
    requires |row| > 0 && forall j :: 0 <= j < |row| ==> row[j] < |items|
    ensures |r| == |row|
    ensures forall j :: 0 <= j < |row| ==> r[j].item == row[j]
  {
    if o.direction.Row? then
      var xs := Points(o.justifyContent, ItemLengths(items, row, true), aw);
      seq(|row|, j requires 0 <= j < |row| =>
        var it := items[row[j]];
        var align := it.alignSelf.GetOr(o.alignItems);
        Placement(row[j], xs[j], (ah - offset) - it.height - Point(align, it.height, extent)))
    else
      var ys := Points(o.justifyContent, ItemLengths(items, row, false), ah);
      seq(|row|, j requires 0 <= j < |row| =>
        var it := items[row[j]];
        var align := it.alignSelf.GetOr(o.alignItems);
        Placement(row[j], offset + Point(align, it.width, extent), ah - it.height - ys[j]))
  }

  /** The placements of each line, line by line. */
  function PlaceAll(o: BoxOptions, items: seq<ItemInfo>, lines: seq<Line>, offsets: seq<real>, extents: seq<real>,
                    aw: real, ah: real): (r: seq<seq<Placement>>)
    requires LinesFor(lines, |items|)
    requires |lines| == |offsets| == |extents|
    ensures |r| == |lines|
    ensures forall k :: 0 <= k < |lines| ==> r[k] == PlaceLine(o, items, lines[k].items, offsets[k], extents[k], aw, ah)
  {
    seq(|lines|, k requires 0 <= k < |lines| => PlaceLine(o, items, lines[k].items, offsets[k], extents[k], aw, ah))
  }

  /** The placements of the first m lines, one line after the other. */
  function Concat(ps: seq<seq<Placement>>, m: nat): seq<Placement>
    requires m <= |ps|
  {
    if m == 0 then [] else Concat(ps, m - 1) + ps[m - 1]
  }

  /** draw_content as it is meant to work (see DrawAsWritten): Stretch shares the
      free cross space among the lines, and each policy's `key` is the identity on
      the lengths it is given. The lines are offset across the direction by
      align_content over their (stretched) extents, the items along it by
      justify_content, and each item within its line by its align_self or else
      align_items. Drawing before a wrap raises. */
  function Draw(o: BoxOptions, rows: Option<seq<Line>>, items: seq<ItemInfo>, aw: real, ah: real)
    : (r: Result<seq<Placement>>)
    requires rows.Some? ==> LinesFor(rows.value, |items|)
    ensures rows.None? <==> r.Err?
  {
    if rows.None? then Err(TypeError)
    else
      var lines := rows.value;
      var extents := AlignedExtents(o, lines, aw, ah);
      var offsets := Points(o.alignContent, extents, if o.direction.Row? then ah else aw);
      Ok(Concat(PlaceAll(o, items, lines, offsets, extents, aw, ah), |lines|))
  }

  /** draw_content as written, which never returns positions. Before a wrap,
      `heights(None)` raises TypeError. With align_content Stretch, the default,
      `AlignContent.Stretch.stretch` does not exist and raises AttributeError. Every
      other policy's `points` is called with the lengths and the available length
      only, while it also takes a `key` that has no default, so the call raises
      TypeError before any item is placed. */
  function DrawAsWritten(o: BoxOptions, rows: Option<seq<Line>>, items: seq<ItemInfo>, aw: real, ah: real)
    : Result<seq<Placement>>
  {
    if rows.None? then Err(TypeError)
    else if o.alignContent.Stretch? then Err(AttributeError)
    else Err(TypeError)
  }

  /** As written, drawing a wrapped box with align_content Stretch raises
      AttributeError, where the intended drawing places every item. */
  lemma DrawAsWrittenFailsOnStretch(o: BoxOptions, lines: seq<Line>, items: seq<ItemInfo>, aw: real, ah: real)
    requires LinesCover(lines, |items|) && o.alignContent.Stretch?
    ensures DrawAsWritten(o, Some(lines), items, aw, ah) == Err(AttributeError)
    ensures LinesFor(lines, |items|) && Draw(o, Some(lines), items, aw, ah).Ok?
  {
    CoverIsFor(lines, |items|);
  }

  /** As written, drawing a wrapped box with any other align_content raises
      TypeError for the missing `key`, where the intended drawing places every item. */
  lemma DrawAsWrittenMissingKey(o: BoxOptions, lines: seq<Line>, items: seq<ItemInfo>, aw: real, ah: real)
    requires LinesCover(lines, |items|) && !o.alignContent.Stretch?
    ensures DrawAsWritten(o, Some(lines), items, aw, ah) == Err(TypeError)
    ensures LinesFor(lines, |items|) && Draw(o, Some(lines), items, aw, ah).Ok?
  {
    CoverIsFor(lines, |items|);
  }

  function Flat(lines: seq<Line>, m: nat): seq<nat>
    requires m <= |lines|
  {
    if m == 0 then [] else Flat(lines, m - 1) + lines[m - 1].items
  }

  /** The items of a sequence of placements, in order. */
  function PlacedItems(ps: seq<Placement>): (r: seq<nat>)
    ensures |r| == |ps|
    ensures forall i :: 0 <= i < |ps| ==> r[i] == ps[i].item
  {
    seq(|ps|, i requires 0 <= i < |ps| => ps[i].item)
  }

  lemma PlacedItemsConcat(a: seq<Placement>, b: seq<Placement>)
    ensures PlacedItems(a + b) == PlacedItems(a) + PlacedItems(b)
  {
  }

  lemma {:induction false} ConcatItems(ps: seq<seq<Placement>>, lines: seq<Line>, m: nat)
    requires m <= |ps| == |lines|
    requires forall k :: 0 <= k < |ps| ==> PlacedItems(ps[k]) == lines[k].items
    ensures PlacedItems(Concat(ps, m)) == Flat(lines, m)
  {
    if m > 0 {
      ConcatItems(ps, lines, m - 1);
      PlacedItemsConcat(Concat(ps, m - 1), ps[m - 1]);
    }
  }

  lemma PlaceAllItems(o: BoxOptions, items: seq<ItemInfo>, lines: seq<Line>, offsets: seq<real>, extents: seq<real>,
                      aw: real, ah: real)
    requires LinesFor(lines, |items|)
    requires |lines| == |offsets| == |extents|
    ensures var ps := PlaceAll(o, items, lines, offsets, extents, aw, ah);
      forall k :: 0 <= k < |ps| ==> PlacedItems(ps[k]) == lines[k].items
  {
    forall k | 0 <= k < |lines|
      ensures PlacedItems(PlaceLine(o, items, lines[k].items, offsets[k], extents[k], aw, ah)) == lines[k].items
    {
      PlaceLineItems(o, items, lines[k].items, offsets[k], extents[k], aw, ah);
    }
  }

  lemma PlaceLineItems(o: BoxOptions, items: seq<ItemInfo>, row: seq<nat>, offset: real, extent: real, aw: real, ah: real)
    requires |row| > 0 && forall j :: 0 <= j < |row| ==> row[j] < |items|
    ensures PlacedItems(PlaceLine(o, items, row, offset, extent, aw, ah)) == row
  {
  }

  lemma {:induction false} FlatIsFlatten(lines: seq<Line>, m: nat)
    requires m <= |lines|
    ensures Flat(lines, m) == Flatten(LineItems(lines)[..m])
  {
    if m > 0 {
      var li := LineItems(lines);
      FlatIsFlatten(lines, m - 1);
      FlattenSnoc(li[..m - 1], li[m - 1]);
      assert li[..m] == li[..m - 1] + [li[m - 1]];
    }
  }

  lemma {:induction false} FlattenSnoc(rows: seq<seq<nat>>, row: seq<nat>)
    ensures Flatten(rows + [row]) == Flatten(rows) + row
    decreases |rows|
  {
    if rows == [] {
      assert Flatten([row]) == row + Flatten([]);
    } else {
      assert (rows + [row])[1..] == rows[1..] + [row];
      FlattenSnoc(rows[1..], row);
    }
  }

  /** Drawing the lines of a wrap places every item exactly once, in item order. */
  lemma DrawPlacesEveryItem(o: BoxOptions, lines: seq<Line>, items: seq<ItemInfo>, aw: real, ah: real)
    requires LinesCover(lines, |items|)
    ensures LinesFor(lines, |items|)
    ensures var r := Draw(o, Some(lines), items, aw, ah);
      r.Ok? && PlacedItems(r.value) == Range(0, |items|)
  {
    CoverIsFor(lines, |items|);
    DrawnItems(o, lines, items, aw, ah);
  }

  /** Drawing places the items of the lines, line after line. */
  lemma DrawnItems(o: BoxOptions, lines: seq<Line>, items: seq<ItemInfo>, aw: real, ah: real)
    requires LinesFor(lines, |items|)
    ensures var r := Draw(o, Some(lines), items, aw, ah);
      r.Ok? && PlacedItems(r.value) == Flatten(LineItems(lines))
  {
    var extents := AlignedExtents(o, lines, aw, ah);
    var offsets := Points(o.alignContent, extents, if o.direction.Row? then ah else aw);
    var ps := PlaceAll(o, items, lines, offsets, extents, aw, ah);
    PlaceAllItems(o, items, lines, offsets, extents, aw, ah);
    ConcatItems(ps, lines, |lines|);
    FlatIsFlatten(lines, |lines|);
    assert LineItems(lines)[..|lines|] == LineItems(lines);
  }

  // ---- FlexBox.split ----

  /** What split returns: nothing, or the items of the two boxes it builds. */
  datatype SplitResult = NoSplit | Halves(first: seq<nat>, second: seq<nat>)

  /** The lines with cumulative height below the available height go to the first
      box, the others to the second (the first m lines). */
  function SplitLines(lines: seq<Line>, m: nat, ah: real): (seq<nat>, seq<nat>)
    requires m <= |lines|
  {
    if m == 0 then ([], [])
    else
      var (first, second) := SplitLines(lines, m - 1, ah);
      if Sum(CrossExtents(Row, lines)[..m]) < ah then (first + lines[m - 1].items, second)
      else (first, second + lines[m - 1].items)
  }

  /** The items with cumulative height below the available height go to the first
      box, the others to the second (the first m items). */
  function SplitItems(heights: seq<real>, m: nat, ah: real): (seq<nat>, seq<nat>)
    requires m <= |heights|
  {
    if m == 0 then ([], [])
    else
      var (first, second) := SplitItems(heights, m - 1, ah);
      if Sum(heights[..m]) < ah then (first + [m - 1], second)
      else (first, second + [m - 1])
  }

  /** `if not first and second: return []`. */
  function Halve(parts: (seq<nat>, seq<nat>)): SplitResult {
    if parts.0 == [] && parts.1 != [] then NoSplit else Halves(parts.0, parts.1)
  }

  /** FlexBox.split: a keep-together box never splits; a row box splits between
      lines and needs two or more; a column box splits between items and must be a
      single line. Splitting before a wrap raises. */
  function Split(o: BoxOptions, rows: Option<seq<Line>>, heights: seq<real>, ah: real): (r: Result<SplitResult>)
    ensures o.keepTogether ==> r == Ok(NoSplit)
    ensures !o.keepTogether && rows.None? ==> r == Err(TypeError)
  {
    if o.keepTogether then Ok(NoSplit)
    else if rows.None? then Err(TypeError)
    else if o.direction.Row? then
      if |rows.value| < 2 then Ok(NoSplit)
      else Ok(Halve(SplitLines(rows.value, |rows.value|, ah)))
    else if |rows.value| > 1 then Ok(NoSplit)
    else Ok(Halve(SplitItems(heights, |heights|, ah)))
  }

  /** How many lines go to the first box: the last prefix whose running height
      is below the available height. */
  function Cut(hs: seq<real>, m: nat, ah: real): (c: nat)
    requires m <= |hs|
    ensures c <= m
  {
    if m == 0 then 0
    else if Sum(hs[..m]) < ah then m
    else Cut(hs, m - 1, ah)
  }

  /** With non-negative heights the cut is where the running height reaches the
      available height: the lines before it stay below, the next one reaches it. */
  lemma {:induction false} CutSpec(hs: seq<real>, m: nat, ah: real)
    requires m <= |hs|
    requires forall k :: 0 <= k < |hs| ==> hs[k] >= 0.0
    ensures var c := Cut(hs, m, ah);
      (c > 0 ==> Sum(hs[..c]) < ah) && (c < m ==> Sum(hs[..c + 1]) >= ah)
  {
    if m > 0 && Sum(hs[..m]) >= ah {
      CutSpec(hs, m - 1, ah);
    }
  }

  /** The items of lines c, ..., m - 1. */
  function Between(lines: seq<Line>, c: nat, m: nat): seq<nat>
    requires c <= m <= |lines|
    decreases m - c
  {
    if m == c then [] else Between(lines, c, m - 1) + lines[m - 1].items
  }

  lemma {:induction false} FlatBetween(lines: seq<Line>, c: nat, m: nat)
    requires c <= m <= |lines|
    ensures Flat(lines, c) + Between(lines, c, m) == Flat(lines, m)
    decreases m - c
  {
    if m > c {
      FlatBetween(lines, c, m - 1);
    }
  }

  /** With non-negative heights, the lines before the cut go to the first box and
      the rest to the second, so that together they keep every item in order. */
  lemma {:induction false} SplitLinesPartition(lines: seq<Line>, m: nat, ah: real)
    requires m <= |lines|
    requires forall k :: 0 <= k < |lines| ==> lines[k].height >= 0.0
    ensures var c := Cut(CrossExtents(Row, lines), m, ah);
      SplitLines(lines, m, ah) == (Flat(lines, c), Between(lines, c, m))
      && SplitLines(lines, m, ah).0 + SplitLines(lines, m, ah).1 == Flat(lines, m)
  {
    var hs := CrossExtents(Row, lines);
    if m > 0 {
      SplitLinesPartition(lines, m - 1, ah);
      if Sum(hs[..m]) < ah && m - 1 > 0 {
        PrefixSumsGrow(hs, m - 1, m);
      }
    }
    FlatBetween(lines, Cut(hs, m, ah), m);
  }

  /** With non-negative heights, the items before the cut go to the first box and
      the rest to the second: both halves are runs of consecutive items. */
  lemma {:induction false} SplitItemsPartition(hs: seq<real>, m: nat, ah: real)
    requires m <= |hs|
    requires forall k :: 0 <= k < |hs| ==> hs[k] >= 0.0
    ensures var c := Cut(hs, m, ah);
      SplitItems(hs, m, ah) == (Range(0, c), Range(c, m))
  {
    if m > 0 {
      SplitItemsPartition(hs, m - 1, ah);
      var c := Cut(hs, m - 1, ah);
      if Sum(hs[..m]) < ah {
        if m - 1 > 0 {
          PrefixSumsGrow(hs, m - 1, m);
        }
        assert c == m - 1;
        assert Range(0, m - 1) + [m - 1] == Range(0, m);
      } else {
        assert Range(c, m - 1) + [m - 1] == Range(c, m);
      }
    }
  }

  /** Whenever split divides a wrapped box, in a row box between lines and in a
      column box between items, the two boxes together hold every item once, in
      order, the first box taking a leading run of them. */
  lemma SplitKeepsItems(o: BoxOptions, lines: seq<Line>, heights: seq<real>, ah: real)
    requires LinesCover(lines, |heights|)
    requires forall k :: 0 <= k < |lines| ==> lines[k].height >= 0.0
    requires forall k :: 0 <= k < |heights| ==> heights[k] >= 0.0
    ensures Split(o, Some(lines), heights, ah).Ok?
    ensures var r := Split(o, Some(lines), heights, ah).value;
      r.Halves? ==> r.first + r.second == Range(0, |heights|) && r.first == Range(0, |r.first|)
  {
    var r := Split(o, Some(lines), heights, ah).value;
    if r.Halves? {
      if o.direction.Row? {
        RowHalvesKeepItems(lines, |heights|, ah);
      } else {
        SplitItemsPartition(heights, |heights|, ah);
      }
    }
  }

  /** The lines of a row box, divided at the cut, keep every item once and in order. */
  lemma RowHalvesKeepItems(lines: seq<Line>, n: nat, ah: real)
    requires LinesCover(lines, n)
    requires forall k :: 0 <= k < |lines| ==> lines[k].height >= 0.0
    ensures var p := SplitLines(lines, |lines|, ah);
      p.0 + p.1 == Range(0, n) && p.0 == Range(0, |p.0|)
  {
    var p := SplitLines(lines, |lines|, ah);
    SplitLinesPartition(lines, |lines|, ah);
    FlatIsFlatten(lines, |lines|);
    assert LineItems(lines)[..|lines|] == LineItems(lines);
    LeadingRun(p.0, p.1, n);
  }

  /** The front part of the items 0, ..., n - 1 is itself a leading run. */
  lemma LeadingRun(a: seq<nat>, b: seq<nat>, n: nat)
    requires a + b == Range(0, n)
    ensures a == Range(0, |a|)
  {
    assert forall i :: 0 <= i < |a| ==> a[i] == (a + b)[i];
  }

  /** Running sums of non-negative terms never decrease. */
  lemma {:induction false} PrefixSumsGrow(s: seq<real>, i: nat, j: nat)
    requires i <= j <= |s|
    requires forall k :: 0 <= k < |s| ==> s[k] >= 0.0
    ensures Sum(s[..i]) <= Sum(s[..j])
    decreases j - i
  {
    if i < j {
      PrefixSumsGrow(s, i, j - 1);
      SumSnoc(s, j - 1);
    }
  }

  /** The row-split example: lines of heights 10, 10 and 10 holding items [0, 1],
      [2] and [3], split at height 15, give [0, 1] and [2, 3]. */
  lemma SplitRowsExample()
    ensures var lines := [Line([0, 1], 100.0, 10.0), Line([2], 100.0, 10.0), Line([3], 50.0, 10.0)];
      Split(DefaultOptions().(flexWrap := Wrap), Some(lines), [10.0, 10.0, 10.0, 10.0], 15.0)
      == Ok(Halves([0, 1], [2, 3]))
  {
    var lines := [Line([0, 1], 100.0, 10.0), Line([2], 100.0, 10.0), Line([3], 50.0, 10.0)];
    var hs := CrossExtents(Row, lines);
    assert hs[..1] == [10.0] && hs[..2] == [10.0, 10.0] && hs[..3] == [10.0, 10.0, 10.0];
    TenSums();
    assert Sum(hs[..1]) == 10.0;
    assert SplitLines(lines, 1, 15.0).0 == [] + [0, 1] == [0, 1];
    assert SplitLines(lines, 1, 15.0).1 == [];
    assert SplitLines(lines, 2, 15.0).1 == [] + [2] == [2];
    assert SplitLines(lines, 3, 15.0).1 == [2] + [3] == [2, 3];
    assert SplitLines(lines, 3, 15.0).0 == [0, 1];
  }

  lemma TenSums()
    ensures Sum([10.0]) == 10.0 && Sum([10.0, 10.0]) == 20.0 && Sum([10.0, 10.0, 10.0]) == 30.0
  {
    SumSingleton(10.0);
    assert [10.0, 10.0][..1] == [10.0];
    assert [10.0, 10.0, 10.0][..2] == [10.0, 10.0];
  }

  /** The column-split example: four items of height 10 in one line, split at
      height 15, give [0] and [1, 2, 3]. */
  lemma SplitColumnsExample()
    ensures var o := DefaultOptions().(direction := Column);
      Split(o, Some([Line([0, 1, 2, 3], 50.0, 40.0)]), [10.0, 10.0, 10.0, 10.0], 15.0)
      == Ok(Halves([0], [1, 2, 3]))
  {
    var hs := [10.0, 10.0, 10.0, 10.0];
    assert hs[..1] == [10.0] && hs[..2] == [10.0, 10.0] && hs[..3] == [10.0, 10.0, 10.0] && hs[..4] == hs;
    TenSums();
    assert hs[..3][..2] == [10.0, 10.0] && hs[..4][..3] == hs[..3];
    assert Sum(hs) == 40.0;
    assert SplitItems(hs, 1, 15.0).0 == [] + [0] == [0];
    assert SplitItems(hs, 1, 15.0).1 == [];
    assert SplitItems(hs, 2, 15.0).1 == [] + [1] == [1];
    assert SplitItems(hs, 3, 15.0).1 == [1] + [2] == [1, 2];
    assert SplitItems(hs, 4, 15.0).1 == [1, 2] + [3] == [1, 2, 3];
    assert SplitItems(hs, 4, 15.0).0 == [0];
  }
}
