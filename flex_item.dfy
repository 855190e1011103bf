/** FlexItem and FlexBox of the first engine (flexbox/flex.py) as objects whose
    wrap, wrap_content, draw_content and split update or read their own fields
    step by step; each method is proved to agree with the functions of Flex. */
module FlexObjects {
  import opened Common
  import opened Reals
  import opened Measurement
  import opened Options
  import opened LineBreaking
  import opened Flex

  /** A FlexItem, or a FlexBox when its node is a Box. The configuration that
      __init__ parsed is the node; what wrap computes is kept in the fields. */
  class FlexItem {
    const node: Node
    /** The base last given to the frame's width (right and left) and height (top and bottom). */
    var frameWidthBase: Option<real>
    var frameHeightBase: Option<real>
    /** `getattr(item, "width", 0)` and the same for the height. */
    var width: real
    var height: real
    var contentWidth: Option<real>
    var contentHeight: Option<real>
    /** FlexBox.rows, None until wrap_content has run on a box with items. */
    var rows: Option<seq<Line>>
    /** The children as their own wrap left them. */
    var children: seq<Wrapped>

    /** The frame: margin + border + padding of each side, with the bases set so far. */
    function Frame(): FlexFrame
      reads this
    {
      WithBases(node.sizing.Frame(), frameWidthBase, frameHeightBase)
    }

    predicate Valid()
      reads this
    {
      Consistent(node, rows, children)
    }

    /** What wrap leaves behind, as a value. */
    function Snapshot(): Wrapped
      reads this
    {
      Wrapped(width, height, contentWidth.GetOr(0.0), contentHeight.GetOr(0.0), Frame(), rows, children)
    }

    constructor (n: Node)
      ensures node == n && Valid()
      ensures frameWidthBase.None? && frameHeightBase.None? && Frame() == n.sizing.Frame()
      ensures width == 0.0 && height == 0.0 && contentWidth.None? && contentHeight.None?
      ensures rows.None? && children == []
    {
      node := n;
      frameWidthBase, frameHeightBase := None, None;
      width, height := 0.0, 0.0;
      contentWidth, contentHeight := None, None;
      rows, children := None, [];
    }

    /** FlexItem.wrap: size the item against the available space, as WrapNode does,
        and keep the size, the content size, the frame's bases and the lines. */
    method Wrap(aw: real, ah: real) returns (r: Result<(real, real)>)
      requires Valid()
      modifies this
      decreases node, 3
      ensures Valid() && WrapsAs(node, aw, ah, r, Snapshot())
      ensures r.Ok? ==> contentWidth.Some? && contentHeight.Some?
    {
      var s := node.sizing;
      var w := Preferred(s.maxWidth, s.width, aw);
      var h := Preferred(s.maxHeight, s.height, ah);
      frameWidthBase, frameHeightBase := Some(w), Some(h);
      var area := OfferedArea(s, aw, ah);
      var content := WrapContent(area.width, area.height);
      if content.Err? {
        r := Err(content.error);
        WrapContentFails(node, aw, ah, content, rows, children, Snapshot());
        return;
      }
      r := Settle(aw, ah, content.value.0, content.value.1);
      WrapFromFinish(node, aw, ah, content, rows, children, r, Snapshot());
    }

    /** The rest of wrap once the content is measured: each axis sized and clamped,
        the frame bound to the final size, and the sizes kept. */
    method Settle(aw: real, ah: real, cw: real, ch: real) returns (r: Result<(real, real)>)
      requires Valid()
      modifies this
      ensures Valid() && rows == old(rows) && children == old(children)
      ensures FinishAs(node.sizing, aw, ah, Content(cw, ch, rows, children), r, Snapshot())
      ensures r.Ok? ==> contentWidth.Some? && contentHeight.Some?
    {
      var s := node.sizing;
      var c := Content(cw, ch, rows, children);
      var wr := AxisStep(s.width, s.Frame().Width(), Preferred(s.maxWidth, s.width, aw), cw, s.minWidth, s.maxWidth, aw);
      if wr.Err? {
        FinishFails(s, aw, ah, c, wr, wr, Snapshot());
        return Err(wr.error);
      }
      var hr := AxisStep(s.height, s.Frame().Height(), Preferred(s.maxHeight, s.height, ah), ch, s.minHeight, s.maxHeight, ah);
      if hr.Err? {
        FinishFails(s, aw, ah, c, wr, hr, Snapshot());
        return Err(hr.error);
      }
      var w, h := wr.value, hr.value;
      FinishSucceeds(s, aw, ah, c, wr, hr, Some(w), Some(h));
      frameWidthBase, frameHeightBase := Some(w), Some(h);
      width, height := w, h;
      contentWidth, contentHeight := Some(cw), Some(ch);
      r := Ok((w, h));
      assert Snapshot() == Wrapped(w, h, cw, ch, WithBases(s.Frame(), Some(w), Some(h)), rows, children);
    }

    /** wrap_content: nothing for a plain item or an empty box; otherwise the
        children wrapped and arranged in lines, which the box keeps. */
    method WrapContent(aw: real, ah: real) returns (r: Result<(real, real)>)
      requires Valid()
      modifies this
      decreases node, 2
      ensures Valid() && ContentAs(node, aw, ah, r, rows, children)
    {
      if node.Item? || node.items == [] {
        r := Ok((0.0, 0.0));
        NoContent(node, aw, ah);
        return;
      }
      var c := BoxContent(node, aw, ah);
      if c.Err? {
        return Err(c.error);
      }
      ContentConsistent(node, aw, ah);
      rows, children := c.value.rows, c.value.children;
      r := Ok((c.value.width, c.value.height));
    }

    /** FlexBox.draw_content: the position given to each child's drawOn, in drawing
        order, with Stretch sharing the free space among the lines. */
    method DrawContent(aw: real, ah: real) returns (r: Result<seq<Placement>>)
      requires Valid() && node.Box?
      ensures rows.Some? ==> LinesFor(rows.value, |Infos()|)
      ensures r == Draw(node.options, rows, Infos(), aw, ah)
    {
      if rows.None? {
        return Err(TypeError);
      }
      var items := Infos();
      CoverIsFor(rows.value, |items|);
      var ps := DrawLines(node.options, items, rows.value, aw, ah);
      r := Ok(ps);
    }

    /** The sizes and align_self of the children, as draw_content reads them. */
    function Infos(): (r: seq<ItemInfo>)
      reads this
      ensures |r| == |children|
    {
      var cs, n := children, node;
      seq(|cs|, i requires 0 <= i < |cs| =>
        ItemInfo(cs[i].width, cs[i].height, if n.Box? && i < |n.items| then n.items[i].sizing.alignSelf else None))
    }

    /** The children's heights, which a single-line column box splits by. */
    function ChildHeights(): (r: seq<real>)
      reads this
      ensures |r| == |children|
      ensures forall i :: 0 <= i < |children| ==> r[i] == children[i].height
    {
      var cs := children;
      seq(|cs|, i requires 0 <= i < |cs| => cs[i].height)
    }

    /** FlexBox.split: nothing, or two new boxes with the box's own configuration,
        the first with the items that fit in the available height. */
    method Split(ah: real) returns (r: Result<seq<FlexItem>>)
      requires Valid() && node.Box?
      ensures var s := Flex.Split(node.options, rows, ChildHeights(), ah);
        (r.Ok? <==> s.Ok?) && (r.Err? ==> r.error == s.error)
        && (s == Ok(NoSplit) ==> r == Ok([]))
        && (s.Ok? && s.value.Halves? ==>
              r.Ok? && |r.value| == 2 && fresh(r.value[0]) && fresh(r.value[1])
              && SameBox(r.value[0].node, node) && Picked(node.items, s.value.first, r.value[0].node.items)
              && SameBox(r.value[1].node, node) && Picked(node.items, s.value.second, r.value[1].node.items))
    {
      var o := node.options;
      if o.keepTogether {
        return Ok([]);
      }
      if rows.None? {
        return Err(TypeError);
      }
      var lines := rows.value;
      var first, second;
      if o.direction.Row? {
        if |lines| < 2 {
          return Ok([]);
        }
        CoverIsFor(lines, |node.items|);
        first, second := SplitRows(lines, ah, |node.items|);
      } else {
        if |lines| > 1 {
          return Ok([]);
        }
        first, second := SplitColumn(ChildHeights(), ah);
      }
      if first == [] && second != [] {
        return Ok([]);
      }
      var a := new FlexItem(Box(node.sizing, o, Pick(node.items, first)));
      var b := new FlexItem(Box(node.sizing, o, Pick(node.items, second)));
      r := Ok([a, b]);
    }
  }

  /** The loop of split over the lines of a row box: a line goes to the first box
      while the running height stays below the available height. */
  method SplitRows(lines: seq<Line>, ah: real, n: nat) returns (first: seq<nat>, second: seq<nat>)
    requires LinesFor(lines, n)
    ensures (first, second) == SplitLines(lines, |lines|, ah)
    ensures forall j :: 0 <= j < |first| ==> first[j] < n
    ensures forall j :: 0 <= j < |second| ==> second[j] < n
  {
    first, second := [], [];
    var hs := CrossExtents(Row, lines);
    var total := 0.0;
    var k := 0;
    while k < |lines|
      invariant 0 <= k <= |lines|
      invariant total == Sum(hs[..k])
      invariant (first, second) == SplitLines(lines, k, ah)
      invariant forall j :: 0 <= j < |first| ==> first[j] < n
      invariant forall j :: 0 <= j < |second| ==> second[j] < n
    {
      SumSnoc(hs, k);
      total := total + hs[k];
      if total < ah {
        first := first + lines[k].items;
      } else {
        second := second + lines[k].items;
      }
      k := k + 1;
    }
  }

  /** The loop of split over the items of a one-line column box: an item goes to
      the first box while the running height stays below the available height. */
  method SplitColumn(hs: seq<real>, ah: real) returns (first: seq<nat>, second: seq<nat>)
    ensures (first, second) == SplitItems(hs, |hs|, ah)
    ensures forall j :: 0 <= j < |first| ==> first[j] < |hs|
    ensures forall j :: 0 <= j < |second| ==> second[j] < |hs|
  {
    first, second := [], [];
    var total := 0.0;
    var i := 0;
    while i < |hs|
      invariant 0 <= i <= |hs|
      invariant total == Sum(hs[..i])
      invariant (first, second) == SplitItems(hs, i, ah)
      invariant forall j :: 0 <= j < |first| ==> first[j] < i
      invariant forall j :: 0 <= j < |second| ==> second[j] < i
    {
      SumSnoc(hs, i);
      total := total + hs[i];
      if total < ah {
        first := first + [i];
      } else {
        second := second + [i];
      }
      i := i + 1;
    }
  }

  /** The nodes at the given indices, in that order: the items a split gives one half. */
  function Pick(items: seq<Node>, indices: seq<nat>): (r: seq<Node>)
    requires forall j :: 0 <= j < |indices| ==> indices[j] < |items|
    ensures Picked(items, indices, r)
  {
    seq(|indices|, j requires 0 <= j < |indices| => items[indices[j]])
  }

  predicate Picked(items: seq<Node>, indices: seq<nat>, r: seq<Node>) {
    |r| == |indices| && forall j :: 0 <= j < |indices| ==> indices[j] < |items| && r[j] == items[indices[j]]
  }

  /** A box made from `kwargs` of another: the same sizing and options. */
  predicate SameBox(a: Node, b: Node) {
    a.Box? && b.Box? && a.sizing == b.sizing && a.options == b.options
  }

  /** wrap_content of a box with items: wrap the children, then break them into
      lines and size the lines and the content. */
  method BoxContent(n: Node, aw: real, ah: real) returns (r: Result<Content>)
    requires n.Box? && n.items != []
    decreases n, 1
    ensures r == ContentOf(n, aw, ah)
  {
    var ws := WrapChildren(n, aw, ah);
    ContentSteps(n, aw, ah);
    if ws.Err? {
      return Err(ws.error);
    }
    var lines := ArrangeChildren(n.options, ws.value, aw, ah);
    var ls := LineSizes(lines);
    ArrangeIs(n.options, ws.value, aw, ah, lines);
    r := Ok(Content(ContainerWidth(n.options.direction, ls), ContainerHeight(n.options.direction, ls), Some(lines), ws.value));
  }

  /** The loop over the children in wrap_content: each child wraps in turn, and the
      first one that raises stops the box's wrap. */
  method WrapChildren(n: Node, aw: real, ah: real) returns (r: Result<seq<Wrapped>>)
    requires n.Box?
    decreases n, 0
    ensures ChildrenAs(n, aw, ah, r)
  {
    ghost var rs := ChildWraps(n, aw, ah);
    var ws: seq<Wrapped> := [];
    var i := 0;
    while i < |n.items|
      invariant 0 <= i <= |n.items| && |ws| == i
      invariant forall j :: 0 <= j < i ==> rs[j].Ok? && rs[j].value == ws[j]
    {
      var child := new FlexItem(n.items[i]);
      var cr := child.Wrap(aw, ah);
      if cr.Err? {
        CollectFirstError(rs, i);
        return Err(cr.error);
      }
      var w := child.Snapshot();
      assert rs[i].Ok? && rs[i].value == w;
      OkPrefix(rs, ws, w);
      ws := ws + [w];
      i := i + 1;
    }
    CollectAll(rs, ws);
    r := Ok(ws);
  }

  /** The lines of wrap_content: the greedy lines of LineBreaking with wrapping,
      one line of every child without, each sized from its children. */
  method ArrangeChildren(o: BoxOptions, ws: seq<Wrapped>, aw: real, ah: real) returns (lines: seq<Line>)
    requires |ws| > 0
    ensures lines == MakeLines(o.direction, Sizes(ws), BreakRows(o, Sizes(ws), aw, ah))
  {
    var sizes := Sizes(ws);
    var rs: seq<seq<nat>>;
    if o.flexWrap.Wrap? {
      rs := BuildLines(MainLengths(o.direction, sizes), if o.direction.Row? then aw else ah);
    } else {
      rs := [Range(0, |sizes|)];
    }
    assert rs == BreakRows(o, sizes, aw, ah);
    lines := SizeLines(o.direction, sizes, rs);
  }

  /** The loop sizing the lines in wrap_content: each line's size along and across
      the direction. */
  method SizeLines(d: Direction, sizes: seq<Size>, rs: seq<seq<nat>>) returns (lines: seq<Line>)
    requires RowsCover(rs, |sizes|)
    ensures lines == MakeLines(d, sizes, rs)
  {
    lines := [];
    var k := 0;
    while k < |rs|
      invariant 0 <= k <= |rs| && |lines| == k
      invariant forall j :: 0 <= j < k ==> lines[j] == LineOf(d, sizes, rs[j])
    {
      lines := lines + [LineOf(d, sizes, rs[k])];
      k := k + 1;
    }
  }

  /** The inner loop of draw_content for one line: the position of each of its items. */
  method PlaceRow(o: BoxOptions, items: seq<ItemInfo>, row: seq<nat>, offset: real, extent: real, aw: real, ah: real)
    returns (ps: seq<Placement>)
    requires |row| > 0 && forall j :: 0 <= j < |row| ==> row[j] < |items|
    ensures ps == PlaceLine(o, items, row, offset, extent, aw, ah)
  {
    var main := Points(o.justifyContent, ItemLengths(items, row, o.direction.Row?), if o.direction.Row? then aw else ah);
    ps := [];
    var j := 0;
    while j < |row|
      invariant 0 <= j <= |row| && |ps| == j
      invariant forall i :: 0 <= i < j ==> ps[i] == PlaceLine(o, items, row, offset, extent, aw, ah)[i]
    {
      var it := items[row[j]];
      var align := it.alignSelf.GetOr(o.alignItems);
      var p;
      if o.direction.Row? {
        p := Placement(row[j], main[j], (ah - offset) - it.height - Point(align, it.height, extent));
      } else {
        p := Placement(row[j], offset + Point(align, it.width, extent), ah - it.height - main[j]);
      }
      ps := ps + [p];
      j := j + 1;
    }
  }

  /** A frame with the bases given so far: right and left take the width's,
      top and bottom the height's. */
  function WithBases(f: FlexFrame, widthBase: Option<real>, heightBase: Option<real>): FlexFrame {
    var f1 := if widthBase.Some? then f.WithWidthBase(widthBase.value) else f;
    if heightBase.Some? then f1.WithHeightBase(heightBase.value) else f1
  }

  /** Lines are only ever set by a box with children, and then cover them. */
  predicate Consistent(n: Node, rows: Option<seq<Line>>, children: seq<Wrapped>) {
    (n.Item? || n.items == [] ==> rows.None? && children == [])
    && (rows.Some? ==> n.Box? && |children| == |n.items| && LinesCover(rows.value, |children|))
  }

  /** The wrap of each child of a box, against the same available space. */
  function ChildWraps(n: Node, aw: real, ah: real): (r: seq<Result<Wrapped>>)
    requires n.Box?
    ensures |r| == |n.items|
    ensures forall i :: 0 <= i < |n.items| ==> r[i] == WrapNode(n.items[i], aw, ah)
  {
    seq(|n.items|, i requires 0 <= i < |n.items| => WrapNode(n.items[i], aw, ah))
  }

  /** A wrap outcome agrees with WrapNode: the same error, or the same size with the
      item left in the state WrapNode describes. */
  predicate WrapsAs(n: Node, aw: real, ah: real, r: Result<(real, real)>, state: Wrapped) {
    var spec := WrapNode(n, aw, ah);
    (r.Ok? <==> spec.Ok?)
    && (r.Err? ==> r.error == spec.error)
    && (r.Ok? ==> r.value == (spec.value.width, spec.value.height) && state == spec.value)
  }

  /** A wrap_content outcome agrees with ContentOf, lines and children included. */
  predicate ContentAs(n: Node, aw: real, ah: real, r: Result<(real, real)>, rows: Option<seq<Line>>, children: seq<Wrapped>) {
    var spec := ContentOf(n, aw, ah);
    (r.Ok? <==> spec.Ok?)
    && (r.Err? ==> r.error == spec.error)
    && (r.Ok? ==> r.value == (spec.value.width, spec.value.height) && rows == spec.value.rows && children == spec.value.children)
  }

  /** The children's wraps agree with wrapping each child in turn and stopping at
      the first error. */
  predicate ChildrenAs(n: Node, aw: real, ah: real, r: Result<seq<Wrapped>>)
    requires n.Box?
  {
    var c := Collect(ChildWraps(n, aw, ah));
    (r.Ok? <==> c.Ok?) && (r.Ok? ==> r.value == c.value) && (r.Err? ==> r.error == c.error)
  }

  lemma WrapContentFails(n: Node, aw: real, ah: real, content: Result<(real, real)>,
                         rows: Option<seq<Line>>, children: seq<Wrapped>, state: Wrapped)
    requires ContentAs(n, OfferedArea(n.sizing, aw, ah).width, OfferedArea(n.sizing, aw, ah).height, content, rows, children)
    requires content.Err?
    ensures WrapsAs(n, aw, ah, Err(content.error), state)
  {
    WrapSteps(n, aw, ah);
  }

  /** A finish outcome agrees with Finish: the same error, or the same size with
      the item left in the state Finish describes. */
  predicate FinishAs(s: Sizing, aw: real, ah: real, c: Content, r: Result<(real, real)>, state: Wrapped) {
    var spec := Finish(s, aw, ah, c);
    (r.Ok? <==> spec.Ok?)
    && (r.Err? ==> r.error == spec.error)
    && (r.Ok? ==> r.value == (spec.value.width, spec.value.height) && state == spec.value)
  }

  lemma WrapFromFinish(n: Node, aw: real, ah: real, content: Result<(real, real)>,
                       rows: Option<seq<Line>>, children: seq<Wrapped>, r: Result<(real, real)>, state: Wrapped)
    requires ContentAs(n, OfferedArea(n.sizing, aw, ah).width, OfferedArea(n.sizing, aw, ah).height, content, rows, children)
    requires content.Ok?
    requires FinishAs(n.sizing, aw, ah, Content(content.value.0, content.value.1, rows, children), r, state)
    ensures WrapsAs(n, aw, ah, r, state)
  {
    WrapSteps(n, aw, ah);
    var area := OfferedArea(n.sizing, aw, ah);
    assert ContentOf(n, area.width, area.height).value == Content(content.value.0, content.value.1, rows, children);
  }

  lemma FinishFails(s: Sizing, aw: real, ah: real, c: Content, wr: Result<real>, hr: Result<real>, state: Wrapped)
    requires AxisAs(s.width, s.Frame().Width(), Preferred(s.maxWidth, s.width, aw), c.width, s.minWidth, s.maxWidth, aw, wr)
    requires wr.Ok? ==> AxisAs(s.height, s.Frame().Height(), Preferred(s.maxHeight, s.height, ah), c.height, s.minHeight, s.maxHeight, ah, hr)
    requires wr.Err? || hr.Err?
    ensures FinishAs(s, aw, ah, c, Err(if wr.Err? then wr.error else hr.error), state)
  {
  }

  lemma FinishSucceeds(s: Sizing, aw: real, ah: real, c: Content, wr: Result<real>, hr: Result<real>,
                       widthBase: Option<real>, heightBase: Option<real>)
    requires wr.Ok? && hr.Ok?
    requires AxisAs(s.width, s.Frame().Width(), Preferred(s.maxWidth, s.width, aw), c.width, s.minWidth, s.maxWidth, aw, wr)
    requires AxisAs(s.height, s.Frame().Height(), Preferred(s.maxHeight, s.height, ah), c.height, s.minHeight, s.maxHeight, ah, hr)
    requires widthBase == Some(wr.value) && heightBase == Some(hr.value)
    ensures FinishAs(s, aw, ah, c, Ok((wr.value, hr.value)),
      Wrapped(wr.value, hr.value, c.width, c.height, WithBases(s.Frame(), widthBase, heightBase), c.rows, c.children))
  {
    FinishIs(s, aw, ah, c, wr.value, hr.value);
  }

  lemma NoContent(n: Node, aw: real, ah: real)
    requires n.Item? || n.items == []
    ensures ContentAs(n, aw, ah, Ok((0.0, 0.0)), None, [])
  {
  }

  /** A successful wrap_content leaves lines that cover the children. */
  lemma ContentConsistent(n: Node, aw: real, ah: real)
    requires ContentOf(n, aw, ah).Ok?
    ensures Consistent(n, ContentOf(n, aw, ah).value.rows, ContentOf(n, aw, ah).value.children)
  {
    if n.Box? && n.items != [] {
      var ws := Collect(ChildWraps(n, aw, ah));
      ContentSteps(n, aw, ah);
      ArrangeLines(n.options, ws.value, aw, ah);
    }
  }

  lemma OkPrefix<T>(rs: seq<Result<T>>, ws: seq<T>, w: T)
    requires |ws| < |rs|
    requires forall j :: 0 <= j < |ws| ==> rs[j].Ok? && rs[j].value == ws[j]
    requires rs[|ws|].Ok? && rs[|ws|].value == w
    ensures forall j :: 0 <= j < |ws| + 1 ==> rs[j].Ok? && rs[j].value == (ws + [w])[j]
  {
  }

  lemma CollectFirstError<T>(rs: seq<Result<T>>, i: nat)
    requires i < |rs| && rs[i].Err?
    requires forall j :: 0 <= j < i ==> rs[j].Ok?
    ensures Collect(rs).Err? && Collect(rs).error == rs[i].error
  {
    var k :| 0 <= k < |rs| && rs[k] == Err(Collect(rs).error) && forall j :: 0 <= j < k ==> rs[j].Ok?;
    assert k == i;
  }

  lemma CollectAll<T>(rs: seq<Result<T>>, ws: seq<T>)
    requires |ws| == |rs|
    requires forall j :: 0 <= j < |rs| ==> rs[j].Ok? && rs[j].value == ws[j]
    ensures Collect(rs).Ok? && Collect(rs).value == ws
  {
    var c := Collect(rs).value;
    assert forall j :: 0 <= j < |rs| ==> c[j] == ws[j];
  }

  /** An axis outcome agrees with AxisSize followed by Clamp. */
  predicate AxisAs(size: Value, span: Value, preferred: real, content: real, lo: Value, hi: Value, base: real, r: Result<real>) {
    var a := AxisSize(size, span, preferred, content);
    (r.Ok? <==> a.Ok?) && (r.Err? ==> r.error == a.error) && (r.Ok? ==> r.value == Clamp(a.value, lo, hi, base))
  }

  /** One axis of wrap once the content is measured: the preferred size, or without
      a set size the content plus the frame at the automatic base (which raises when
      the frame's relative part is 1); then `max` with a set minimum and `min` with a
      set maximum. */
  method AxisStep(size: Value, span: Value, preferred: real, content: real, lo: Value, hi: Value, base: real)
    returns (r: Result<real>)
    ensures AxisAs(size, span, preferred, content, lo, hi, base, r)
  {
    var x := preferred;
    if !size.Truthy() {
      if span.Relative() == 1.0 {
        return Err(ZeroDivision);
      }
      var b := (content + span.Static()) / (1.0 - span.Relative());
      x := content + Extent(span, b);
    }
    if lo.Truthy() && Extent(lo, base) > x {
      x := Extent(lo, base);
    }
    if hi.Truthy() && Extent(hi, base) < x {
      x := Extent(hi, base);
    }
    r := Ok(x);
  }

  /** Finish with both axes sized. */
  lemma FinishIs(s: Sizing, aw: real, ah: real, c: Content, w: real, h: real)
    requires var a := AxisSize(s.width, s.Frame().Width(), Preferred(s.maxWidth, s.width, aw), c.width);
      a.Ok? && Clamp(a.value, s.minWidth, s.maxWidth, aw) == w
    requires var a := AxisSize(s.height, s.Frame().Height(), Preferred(s.maxHeight, s.height, ah), c.height);
      a.Ok? && Clamp(a.value, s.minHeight, s.maxHeight, ah) == h
    ensures Finish(s, aw, ah, c).Ok?
    ensures Finish(s, aw, ah, c).value
      == Wrapped(w, h, c.width, c.height, s.Frame().WithWidthBase(w).WithHeightBase(h), c.rows, c.children)
  {
  }

  /** wrap_content of a box with items, step by step: the children's wraps, then
      their arrangement. */
  lemma ContentSteps(n: Node, aw: real, ah: real)
    requires n.Box? && n.items != []
    ensures var c := Collect(ChildWraps(n, aw, ah));
      (c.Err? ==> ContentOf(n, aw, ah).Err? && ContentOf(n, aw, ah).error == c.error)
      && (c.Ok? ==> ContentOf(n, aw, ah).Ok? && ContentOf(n, aw, ah).value == Arrange(n.options, c.value, aw, ah))
  {
    assert ChildWraps(n, aw, ah) == seq(|n.items|, i requires 0 <= i < |n.items| => WrapNode(n.items[i], aw, ah));
  }

  /** The arrangement of wrapped children, given the lines sized from their rows. */
  lemma ArrangeIs(o: BoxOptions, ws: seq<Wrapped>, aw: real, ah: real, lines: seq<Line>)
    requires |ws| > 0
    requires lines == MakeLines(o.direction, Sizes(ws), BreakRows(o, Sizes(ws), aw, ah))
    ensures var ls := LineSizes(lines);
      Arrange(o, ws, aw, ah) == Content(ContainerWidth(o.direction, ls), ContainerHeight(o.direction, ls), Some(lines), ws)
    ensures LinesCover(lines, |ws|)
  {
    ArrangeLines(o, ws, aw, ah);
  }

  /** The loops of draw_content over the lines and their items. */
  method DrawLines(o: BoxOptions, items: seq<ItemInfo>, lines: seq<Line>, aw: real, ah: real) returns (ps: seq<Placement>)
    requires LinesFor(lines, |items|)
    ensures Draw(o, Some(lines), items, aw, ah) == Ok(ps)
  {
    var extents := AlignedExtents(o, lines, aw, ah);
    var offsets := Points(o.alignContent, extents, if o.direction.Row? then ah else aw);
    ghost var all := PlaceAll(o, items, lines, offsets, extents, aw, ah);
    ps := [];
    var k := 0;
    while k < |lines|
      invariant 0 <= k <= |lines|
      invariant ps == Concat(all, k)
    {
      var line := PlaceRow(o, items, lines[k].items, offsets[k], extents[k], aw, ah);
      ps := ps + line;
      k := k + 1;
    }
  }
}
