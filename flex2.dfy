/** Box sizing of the draft second engine (flexbox2/flex.py): an item resolves its
    outer size from width, min-width and max-width, measures its frames against that
    width, asks its content for a size and, when an axis is automatic, takes content
    plus frame and asks the content again. */
module Flex2 {
  import opened Common
  import opened Measurement2
  import Decimal

  /** The sizing attributes of an item: six measurements and three frames. */
  datatype Sizing = Sizing(
    minWidth: Measure2, width: Measure2, maxWidth: Measure2,
    minHeight: Measure2, height: Measure2, maxHeight: Measure2,
    margin: Frame2, border: Frame2, padding: Frame2)
  {
    /** The widths take the available width as base, the heights the available height. */
    function Bound(aw: real, ah: real): Sizing {
      this.(minWidth := minWidth.WithBase(aw), width := width.WithBase(aw), maxWidth := maxWidth.WithBase(aw),
            minHeight := minHeight.WithBase(ah), height := height.WithBase(ah), maxHeight := maxHeight.WithBase(ah))
    }

    /** Padding, margin and border all take the same base. */
    function WithFrameBase(b: real): Sizing {
      this.(padding := padding.WithBase(b), margin := margin.WithBase(b), border := border.WithBase(b))
    }

    /** Width and height replaced by the resolved lengths, absolute, with base 0. */
    function Settled(w: real, h: real): Sizing {
      this.(width := Absolute(w), height := Absolute(h))
    }
  }

  /** `self.width = w` followed by `self.width.base = 0`. */
  function Absolute(x: real): (m: Measure2)
    ensures m.Truthy() && m.base == Some(0.0) && m.Float() == Ok(x)
  {
    Parse(Number(x)).value.WithBase(0.0)
  }

  /** The keyword arguments of FlexItem.__init__, as given. */
  datatype ItemArgs = ItemArgs(
    minWidth: Input2, width: Input2, maxWidth: Input2,
    minHeight: Input2, height: Input2, maxHeight: Input2,
    margin: Input2, border: Input2, padding: Input2)

  /** Every argument left at None. */
  function DefaultArgs(): ItemArgs {
    ItemArgs(NoneValue, NoneValue, NoneValue, NoneValue, NoneValue, NoneValue, NoneValue, NoneValue, NoneValue)
  }

  /** FlexItem.__init__: each measurement goes through parse and each frame through
      the frame descriptor, in the order of the source; the first failure raises. */
  function Configure(a: ItemArgs): Result<Sizing>
  {
    var minWidth :- Parse(a.minWidth);
    var width :- Parse(a.width);
    var maxWidth :- Parse(a.maxWidth);
    var minHeight :- Parse(a.minHeight);
    var height :- Parse(a.height);
    var maxHeight :- Parse(a.maxHeight);
    var margin :- AssignFrame(a.margin);
    var border :- AssignFrame(a.border);
    var padding :- AssignFrame(a.padding);
    Ok(Sizing(minWidth, width, maxWidth, minHeight, height, maxHeight, margin, border, padding))
  }

  /** What the nine assignments of FlexItem.__init__ give, in the order they run. */
  datatype Assigned = Assigned(
    minWidth: Result<Measure2>, width: Result<Measure2>, maxWidth: Result<Measure2>,
    minHeight: Result<Measure2>, height: Result<Measure2>, maxHeight: Result<Measure2>,
    margin: Result<Frame2>, border: Result<Frame2>, padding: Result<Frame2>)
  {
    /** What each assignment raises, if anything, in order. */
    function Failures(): (r: seq<Option<Error>>)
      ensures |r| == 9
    {
      [minWidth.Failure(), width.Failure(), maxWidth.Failure(),
       minHeight.Failure(), height.Failure(), maxHeight.Failure(),
       margin.Failure(), border.Failure(), padding.Failure()]
    }
  }

  /** The assignments of FlexItem.__init__: each argument parsed. */
  function Assign(a: ItemArgs): Assigned {
    Assigned(Parse(a.minWidth), Parse(a.width), Parse(a.maxWidth),
      Parse(a.minHeight), Parse(a.height), Parse(a.maxHeight),
      AssignFrame(a.margin), AssignFrame(a.border), AssignFrame(a.padding))
  }

  /** The attributes once every assignment has run, or the first failure. */
  function SizingOf(x: Assigned): Result<Sizing> {
    var minWidth :- x.minWidth;
    var width :- x.width;
    var maxWidth :- x.maxWidth;
    var minHeight :- x.minHeight;
    var height :- x.height;
    var maxHeight :- x.maxHeight;
    var margin :- x.margin;
    var border :- x.border;
    var padding :- x.padding;
    Ok(Sizing(minWidth, width, maxWidth, minHeight, height, maxHeight, margin, border, padding))
  }

  /** An item is configured exactly when every argument parses, and then holds the
      parse of each argument; otherwise it raises what the first failing assignment
      raises. With no arguments every measurement is unspecified and every frame is
      the default one. */
  lemma ConfigureSpec(a: ItemArgs)
    ensures Configure(a).Ok? <==>
      Parse(a.minWidth).Ok? && Parse(a.width).Ok? && Parse(a.maxWidth).Ok?
      && Parse(a.minHeight).Ok? && Parse(a.height).Ok? && Parse(a.maxHeight).Ok?
      && Parse(a.margin).Ok? && Parse(a.border).Ok? && Parse(a.padding).Ok?
    ensures Configure(a).Ok? ==> Configure(a).value == Sizing(
      Parse(a.minWidth).value, Parse(a.width).value, Parse(a.maxWidth).value,
      Parse(a.minHeight).value, Parse(a.height).value, Parse(a.maxHeight).value,
      AssignFrame(a.margin).value, AssignFrame(a.border).value, AssignFrame(a.padding).value)
    ensures Configure(a).Err? ==> FirstFailure(Assign(a).Failures()) == Some(Configure(a).error)
    ensures Configure(DefaultArgs()) == Ok(Sizing(
      Unspecified(), Unspecified(), Unspecified(), Unspecified(), Unspecified(), Unspecified(),
      DefaultFrame(), DefaultFrame(), DefaultFrame()))
  {
    AssignFrameSpec(a.margin, 0.0);
    AssignFrameSpec(a.border, 0.0);
    AssignFrameSpec(a.padding, 0.0);
    AssignFrameSpec(NoneValue, 0.0);
    assert Configure(a) == SizingOf(Assign(a));
    SizingOfFails(Assign(a));
  }

  /** The attributes raise what the first failing assignment raises. */
  lemma SizingOfFails(x: Assigned)
    ensures SizingOf(x).Err? ==> FirstFailure(x.Failures()) == Some(SizingOf(x).error)
  {
    if x.minWidth.Ok? && x.width.Ok? && x.maxWidth.Ok? && x.minHeight.Ok? {
      SizingOfFailsLate(x);
    } else {
      SizingOfFailsEarly(x);
    }
  }

  /** SizingOfFails when one of the first four assignments fails. */
  lemma SizingOfFailsEarly(x: Assigned)
    requires !(x.minWidth.Ok? && x.width.Ok? && x.maxWidth.Ok? && x.minHeight.Ok?)
    ensures SizingOf(x).Err? && FirstFailure(x.Failures()) == Some(SizingOf(x).error)
  {
    var fs := x.Failures();
    if x.minWidth.Err? {
      FirstFailureAt(fs, 0);
    } else if x.width.Err? {
      FirstFailureAt(fs, 1);
    } else if x.maxWidth.Err? {
      FirstFailureAt(fs, 2);
    } else {
      FirstFailureAt(fs, 3);
    }
  }

  /** SizingOfFails when the first four assignments succeed. */
  lemma SizingOfFailsLate(x: Assigned)
    requires x.minWidth.Ok? && x.width.Ok? && x.maxWidth.Ok? && x.minHeight.Ok?
    ensures SizingOf(x).Err? ==> FirstFailure(x.Failures()) == Some(SizingOf(x).error)
  {
    var fs := x.Failures();
    if x.height.Err? {
      FirstFailureAt(fs, 4);
    } else if x.maxHeight.Err? {
      FirstFailureAt(fs, 5);
    } else if x.margin.Err? {
      FirstFailureAt(fs, 6);
    } else if x.border.Err? {
      FirstFailureAt(fs, 7);
    } else if x.padding.Err? {
      FirstFailureAt(fs, 8);
    }
  }

  // ---- content ----

  /** What wrap_content answers. */
  datatype Content =
    | Blank                                 // FlexItem.wrap_content: (0, 0)
    | Sample                                // TestItem.wrap_content: (100, 100)
    | Measured(cw: Measure2, ch: Measure2)  // content lengths resolved against the area offered

  /** The content size for an offered area. */
  function ContentSize(c: Content, aw: real, ah: real): (r: (real, real))
  {
    match c
    case Blank => (0.0, 0.0)
    case Sample => (100.0, 100.0)
    case Measured(cw, ch) => (cw.Static() + cw.Relative() * aw, ch.Static() + ch.Relative() * ah)
  }

  /** Content lengths follow the area only through their relative parts: absolute
      content answers the same whatever it is offered. */
  lemma ContentSizeSpec(c: Content, aw: real, ah: real)
    ensures c.Blank? ==> ContentSize(c, aw, ah) == (0.0, 0.0)
    ensures c.Sample? ==> ContentSize(c, aw, ah) == (100.0, 100.0)
    ensures c.Measured? ==>
      c.cw.WithBase(aw).Float().Ok? && ContentSize(c, aw, ah).0 == c.cw.WithBase(aw).Float().value
      && c.ch.WithBase(ah).Float().Ok? && ContentSize(c, aw, ah).1 == c.ch.WithBase(ah).Float().value
  {
  }

  // ---- the wrap algorithm as a function ----

  /** `if x:` on None or a float. */
  predicate Truthy(x: Option<real>) {
    x.Some? && x.value != 0.0
  }

  /** `x = max(size, min)`, then `min(x, max)` only when x is truthy. */
  function Clamp(size: Measure2, lo: Measure2, hi: Measure2): Result<Option<real>>
  {
    var x :- MaxOf([Of(size), Of(lo)]);
    if Truthy(x) then MinOf([Length(x.value), Of(hi)]) else Ok(x)
  }

  /** The area offered to the content on one axis: `size - frame if size else 0`. */
  function Area(size: Option<real>, frame: real): real {
    if Truthy(size) then size.value - frame else 0.0
  }

  /** An automatic axis takes `min(content + frame)`, which is None when that is 0. */
  function AutoSize(size: Option<real>, content: real, frame: real): Result<Option<real>>
  {
    if size.None? then MinOf([Length(content + frame)]) else Ok(size)
  }

  /** frame_width: the widths of padding, margin and border. */
  function FrameWidth(s: Sizing): Result<real>
  {
    var p :- s.padding.Width();
    var m :- s.margin.Width();
    var b :- s.border.Width();
    Ok(p + m + b)
  }

  /** frame_height: the heights of padding and margin plus the WIDTH of the border. */
  function FrameHeight(s: Sizing): Result<real>
  {
    var p :- s.padding.Height();
    var m :- s.margin.Height();
    var b :- s.border.Width();
    Ok(p + m + b)
  }

  /** What wrap returns and leaves behind. */
  datatype Wrapped = Wrapped(width: real, height: real, contentWidth: real, contentHeight: real, after: Sizing)

  /** FlexItem.wrap: bind the bases, resolve both axes, then settle the frames and the content. */
  function WrapOf(s: Sizing, c: Content, aw: real, ah: real): Result<Wrapped>
  {
    var b := s.Bound(aw, ah);
    var w :- Clamp(b.width, b.minWidth, b.maxWidth);
    var h :- Clamp(b.height, b.minHeight, b.maxHeight);
    SettleOf(b.WithFrameBase(FrameBase(w)), c, w, h)
  }

  /** `width or 0`: the base every frame takes. */
  function FrameBase(w: Option<real>): real {
    if Truthy(w) then w.value else 0.0
  }

  /** The frame sums, once the frames have their base. */
  function SettleOf(f: Sizing, c: Content, w: Option<real>, h: Option<real>): Result<Wrapped>
  {
    var fw :- FrameWidth(f);
    var fh :- FrameHeight(f);
    FinishOf(f, c, w, h, fw, fh)
  }

  /** The content size for the area left inside the frames and, for an automatic
      axis, content plus frame and a second content size. */
  function FinishOf(f: Sizing, c: Content, w: Option<real>, h: Option<real>, fw: real, fh: real): Result<Wrapped>
  {
    var first := ContentSize(c, Area(w, fw), Area(h, fh));
    if w.Some? && h.Some? then
      Ok(Wrapped(w.value, h.value, first.0, first.1, f.Settled(w.value, h.value)))
    else
      var w2 :- AutoSize(w, first.0, fw);
      var h2 :- AutoSize(h, first.1, fh);
      if w2.None? || h2.None? then Err(TypeError)
      else
        var second := ContentSize(c, w2.value - fw, h2.value - fh);
        Ok(Wrapped(w2.value, h2.value, second.0, second.1, f.Settled(w2.value, h2.value)))
  }

  // ---- the item ----

  /** FlexItem of flexbox2: the sizing attributes, the content and the cached content size. */
  class FlexItem {
    var minWidth: Measure2
    var width: Measure2
    var maxWidth: Measure2
    var minHeight: Measure2
    var height: Measure2
    var maxHeight: Measure2
    var margin: Frame2
    var border: Frame2
    var padding: Frame2
    var contentWidth: Option<real>
    var contentHeight: Option<real>
    const content: Content

    /** The sizing attributes as they stand. */
    function Attributes(): Sizing
      reads this
    {
      Sizing(minWidth, width, maxWidth, minHeight, height, maxHeight, margin, border, padding)
    }

    /** An item with the given attributes and no content size yet. */
    constructor(s: Sizing, c: Content)
      ensures Attributes() == s && content == c
      ensures contentWidth.None? && contentHeight.None?
    {
      minWidth, width, maxWidth := s.minWidth, s.width, s.maxWidth;
      minHeight, height, maxHeight := s.minHeight, s.height, s.maxHeight;
      margin, border, padding := s.margin, s.border, s.padding;
      contentWidth, contentHeight := None, None;
      content := c;
    }

    /** FlexItem.wrap: binds every base, resolves both axes, caches the content size
        and keeps the resolved size as the item's width and height. */
    method Wrap(aw: real, ah: real) returns (r: Result<(real, real)>)
      modifies this
      ensures Outcome(WrapOf(old(Attributes()), content, aw, ah), r, Attributes(), contentWidth, contentHeight)
    {
      ghost var s := Attributes();
      minWidth, width, maxWidth := minWidth.WithBase(aw), width.WithBase(aw), maxWidth.WithBase(aw);
      minHeight, height, maxHeight := minHeight.WithBase(ah), height.WithBase(ah), maxHeight.WithBase(ah);
      assert Attributes() == s.Bound(aw, ah);
      var w :- Clamp(width, minWidth, maxWidth);
      var h :- Clamp(height, minHeight, maxHeight);
      r := Settle(w, h);
    }

    /** The frames take the resolved width (0 when automatic) as base; then the frame sums. */
    method Settle(w: Option<real>, h: Option<real>) returns (r: Result<(real, real)>)
      modifies this
      ensures Outcome(SettleOf(old(Attributes()).WithFrameBase(FrameBase(w)), content, w, h),
                      r, Attributes(), contentWidth, contentHeight)
    {
      ghost var s := Attributes();
      var fb := if Truthy(w) then w.value else 0.0;
      padding, margin, border := padding.WithBase(fb), margin.WithBase(fb), border.WithBase(fb);
      assert Attributes() == s.WithFrameBase(FrameBase(w));
      FrameSums(Attributes());
      // every side now has a base, so the frame sums cannot raise
      var fw := padding.Width().value + margin.Width().value + border.Width().value;
      var fh := padding.Height().value + margin.Height().value + border.Width().value;
      SettleIs(Attributes(), content, w, h, fw, fh);
      r := Finish(w, h, fw, fh);
    }

    /** The content calls, the automatic axes, and the new width, height and content size. */
    method Finish(w: Option<real>, h: Option<real>, fw: real, fh: real) returns (r: Result<(real, real)>)
      modifies this
      ensures Outcome(FinishOf(old(Attributes()), content, w, h, fw, fh), r, Attributes(), contentWidth, contentHeight)
    {
      ghost var f := Attributes();
      var first := ContentSize(content, Area(w, fw), Area(h, fh));
      var width2, height2, size := w, h, first;
      if w.None? || h.None? {
        width2 :- AutoSize(w, first.0, fw);
        height2 :- AutoSize(h, first.1, fh);
        if width2.None? || height2.None? {
          FinishFails(f, content, w, h, fw, fh);
          return Err(TypeError);
        }
        size := ContentSize(content, width2.value - fw, height2.value - fh);
      }
      FinishSucceeds(f, content, w, h, fw, fh, width2.value, height2.value, size);
      Store(width2.value, height2.value, size.0, size.1);
      r := Ok((width2.value, height2.value));
    }

    /** Caches the content size and keeps the resolved size as width and height. */
    method Store(w: real, h: real, cw: real, ch: real)
      modifies this
      ensures Attributes() == old(Attributes()).Settled(w, h)
      ensures contentWidth == Some(cw) && contentHeight == Some(ch)
    {
      contentWidth, contentHeight := Some(cw), Some(ch);
      width := Parse(Number(w)).value;
      width := width.WithBase(0.0);
      height := Parse(Number(h)).value;
      height := height.WithBase(0.0);
    }
  }

  /** Frames whose sides carry their base: frame_width and frame_height are the sums
      of the frames' own widths and heights, with the border's width in the height. */
  lemma FrameSums(f: Sizing)
    requires f.padding.base.Some? && f.margin.base.Some? && f.border.base.Some?
    requires f.padding == f.padding.WithBase(f.padding.base.value)
    requires f.margin == f.margin.WithBase(f.margin.base.value)
    requires f.border == f.border.WithBase(f.border.base.value)
    ensures f.padding.Width().Ok? && f.margin.Width().Ok? && f.border.Width().Ok?
    ensures f.padding.Height().Ok? && f.margin.Height().Ok?
    ensures FrameWidth(f) == Ok(f.padding.Width().value + f.margin.Width().value + f.border.Width().value)
    ensures FrameHeight(f) == Ok(f.padding.Height().value + f.margin.Height().value + f.border.Width().value)
  {
    FrameWithBase(f.padding, f.padding.base.value);
    FrameWithBase(f.margin, f.margin.base.value);
    FrameWithBase(f.border, f.border.base.value);
  }

  /** SettleOf, once the frame sums are known, is its last stage. */
  lemma SettleIs(f: Sizing, c: Content, w: Option<real>, h: Option<real>, fw: real, fh: real)
    requires FrameWidth(f) == Ok(fw) && FrameHeight(f) == Ok(fh)
    ensures SettleOf(f, c, w, h) == FinishOf(f, c, w, h, fw, fh)
  {
  }

  /** The automatic branch of FinishOf when an axis comes out None. */
  lemma FinishFails(f: Sizing, c: Content, w: Option<real>, h: Option<real>, fw: real, fh: real)
    requires w.None? || h.None?
    requires var first := ContentSize(c, Area(w, fw), Area(h, fh));
      AutoSize(w, first.0, fw).Ok? && AutoSize(h, first.1, fh).Ok?
      && (AutoSize(w, first.0, fw).value.None? || AutoSize(h, first.1, fh).value.None?)
    ensures FinishOf(f, c, w, h, fw, fh) == Err(TypeError)
  {
  }

  /** FinishOf when both axes end up with a size. */
  lemma FinishSucceeds(f: Sizing, c: Content, w: Option<real>, h: Option<real>, fw: real, fh: real,
                       w2: real, h2: real, size: (real, real))
    requires var first := ContentSize(c, Area(w, fw), Area(h, fh));
      (w.Some? && h.Some? && w2 == w.value && h2 == h.value && size == first)
      || (!(w.Some? && h.Some?) && AutoSize(w, first.0, fw) == Ok(Some(w2)) && AutoSize(h, first.1, fh) == Ok(Some(h2))
          && size == ContentSize(c, w2 - fw, h2 - fh))
    ensures FinishOf(f, c, w, h, fw, fh).Ok?
    ensures var r := FinishOf(f, c, w, h, fw, fh).value;
      r.width == w2 && r.height == h2 && r.contentWidth == size.0 && r.contentHeight == size.1
      && r.after == f.Settled(w2, h2)
  {
  }

  /** The method's answer and the item's new state agree with the function's: success,
      errors, sizes, attributes and cached content size. */
  predicate Outcome(spec: Result<Wrapped>, r: Result<(real, real)>, attrs: Sizing, cw: Option<real>, ch: Option<real>) {
    (r.Ok? <==> spec.Ok?)
    && (r.Err? ==> r.error == spec.error)
    && (r.Ok? ==>
          r.value.0 == spec.value.width && r.value.1 == spec.value.height
          && attrs == spec.value.after && cw == Some(spec.value.contentWidth) && ch == Some(spec.value.contentHeight))
  }

  /** FlexItem.__init__ with its arguments as given: the item exists exactly when
      every argument parses. */
  method NewItem(a: ItemArgs, c: Content) returns (r: Result<FlexItem>)
    ensures r.Ok? <==> Configure(a).Ok?
    ensures r.Err? ==> r.error == Configure(a).error
    ensures r.Ok? ==>
      fresh(r.value) && r.value.Attributes() == Configure(a).value && r.value.content == c
      && r.value.contentWidth.None? && r.value.contentHeight.None?
  {
    var s := Configure(a);
    if s.Err? {
      return Err(s.error);
    }
    var item := new FlexItem(s.value, c);
    r := Ok(item);
  }

  // ---- what wrap promises ----

  /** A measurement resolved against a base. */
  function At(m: Measure2, b: real): real {
    m.Static() + m.Relative() * b
  }

  function Larger(x: real, y: real): real {
    if x >= y then x else y
  }

  function Smaller(x: real, y: real): real {
    if x <= y then x else y
  }

  /** The size of an axis that the item specifies: the larger of size and minimum
      among those given, then capped by the maximum when given, unless the size is 0. */
  function Expected(size: Measure2, lo: Measure2, hi: Measure2, b: real): real {
    var x := if size.Truthy() && lo.Truthy() then Larger(At(size, b), At(lo, b))
             else if size.Truthy() then At(size, b) else At(lo, b);
    if hi.Truthy() && x != 0.0 then Smaller(x, At(hi, b)) else x
  }

  /** An axis is specified when its size or its minimum is given. */
  predicate Specified(size: Measure2, lo: Measure2) {
    size.Truthy() || lo.Truthy()
  }

  /** The truthy floats of two resolvable arguments. */
  lemma PairFloats(a0: Arg, a1: Arg)
    requires a0.Float().Ok? && a1.Float().Ok?
    ensures TruthyFloats([a0, a1]).Ok?
    ensures TruthyFloats([a0, a1]).value
            == (if a0.Truthy() then [a0.Float().value] else []) + (if a1.Truthy() then [a1.Float().value] else [])
  {
    assert [a0, a1][..1] == [a0];
    assert [a0][..0] == [];
    assert TruthyFloats([]) == Ok([]);
    assert [a0][|[a0]| - 1] == a0;
    var init := TruthyFloats([a0]);
    assert init.Ok? && init.value == if a0.Truthy() then [a0.Float().value] else [];
  }

  /** max of two resolvable arguments, in closed form. */
  lemma MaxPair(a0: Arg, a1: Arg)
    requires a0.Float().Ok? && a1.Float().Ok?
    ensures MaxOf([a0, a1]).Ok?
    ensures MaxOf([a0, a1]).value.None? <==> !a0.Truthy() && !a1.Truthy()
    ensures MaxOf([a0, a1]).value.Some? ==>
      MaxOf([a0, a1]).value.value
      == if a0.Truthy() && a1.Truthy() then Larger(a0.Float().value, a1.Float().value)
         else if a0.Truthy() then a0.Float().value else a1.Float().value
  {
    PairFloats(a0, a1);
  }

  /** min of two resolvable arguments, in closed form. */
  lemma MinPair(a0: Arg, a1: Arg)
    requires a0.Float().Ok? && a1.Float().Ok?
    ensures MinOf([a0, a1]).Ok?
    ensures MinOf([a0, a1]).value.None? <==> !a0.Truthy() && !a1.Truthy()
    ensures MinOf([a0, a1]).value.Some? ==>
      MinOf([a0, a1]).value.value
      == if a0.Truthy() && a1.Truthy() then Smaller(a0.Float().value, a1.Float().value)
         else if a0.Truthy() then a0.Float().value else a1.Float().value
  {
    PairFloats(a0, a1);
  }

  /** The first step of the clamp: max of size and minimum, resolved. */
  lemma Widest(size: Measure2, lo: Measure2, b: real)
    ensures MaxOf([Of(size.WithBase(b)), Of(lo.WithBase(b))]).Ok?
    ensures MaxOf([Of(size.WithBase(b)), Of(lo.WithBase(b))]).value.None? <==> !Specified(size, lo)
    ensures Specified(size, lo) ==>
      MaxOf([Of(size.WithBase(b)), Of(lo.WithBase(b))]).value.value
      == if size.Truthy() && lo.Truthy() then Larger(At(size, b), At(lo, b))
         else if size.Truthy() then At(size, b) else At(lo, b)
  {
    var a0, a1 := Of(size.WithBase(b)), Of(lo.WithBase(b));
    assert a0.Float().Ok? && a0.Float().value == At(size, b);
    assert a1.Float().Ok? && a1.Float().value == At(lo, b);
    MaxPair(a0, a1);
  }

  /** The second step of the clamp: a non-zero length capped by the maximum, resolved. */
  lemma Capped(x: real, hi: Measure2, b: real)
    requires x != 0.0
    ensures MinOf([Length(x), Of(hi.WithBase(b))]).Ok?
    ensures MinOf([Length(x), Of(hi.WithBase(b))]).value.Some?
    ensures MinOf([Length(x), Of(hi.WithBase(b))]).value.value == if hi.Truthy() then Smaller(x, At(hi, b)) else x
  {
    var c0, c1 := Length(x), Of(hi.WithBase(b));
    assert c1.Float().Ok? && c1.Float().value == At(hi, b);
    MinPair(c0, c1);
  }

  /** Once the bases are bound, the clamp never raises: it is None for an axis with
      neither size nor minimum, and otherwise the closed form above. */
  lemma ClampSpec(size: Measure2, lo: Measure2, hi: Measure2, b: real)
    ensures Clamp(size.WithBase(b), lo.WithBase(b), hi.WithBase(b)).Ok?
    ensures Clamp(size.WithBase(b), lo.WithBase(b), hi.WithBase(b)).value.None? <==> !Specified(size, lo)
    ensures Specified(size, lo) ==>
      Clamp(size.WithBase(b), lo.WithBase(b), hi.WithBase(b)).value.value == Expected(size, lo, hi, b)
  {
    Widest(size, lo, b);
    var x := MaxOf([Of(size.WithBase(b)), Of(lo.WithBase(b))]).value;
    if Truthy(x) {
      Capped(x.value, hi, b);
    }
  }

  /** An automatic axis never raises on the way to its size: content plus frame,
      None exactly when that is 0. */
  lemma AutoSizeSpec(size: Option<real>, content: real, frame: real)
    ensures AutoSize(size, content, frame).Ok?
    ensures size.None? ==>
      AutoSize(size, content, frame).value == if content + frame == 0.0 then None else Some(content + frame)
    ensures size.Some? ==> AutoSize(size, content, frame).value == size
  {
    if size.None? {
      MinMaxSpec([Length(content + frame)]);
      assert [Length(content + frame)][0].Float().value == content + frame;
    }
  }

  /** Frames whose sides carry a base never raise. */
  lemma FramesResolve(f: Sizing, b: real)
    ensures FrameWidth(f.WithFrameBase(b)).Ok? && FrameHeight(f.WithFrameBase(b)).Ok?
    ensures FrameWidth(f.WithFrameBase(b)).value
            == At(f.padding.left, b) + At(f.padding.right, b) + (At(f.margin.left, b) + At(f.margin.right, b))
               + (At(f.border.left, b) + At(f.border.right, b))
    ensures FrameHeight(f.WithFrameBase(b)).value
            == At(f.padding.top, b) + At(f.padding.bottom, b) + (At(f.margin.top, b) + At(f.margin.bottom, b))
               + (At(f.border.left, b) + At(f.border.right, b))
  {
    FrameWithBase(f.padding, b);
    FrameWithBase(f.margin, b);
    FrameWithBase(f.border, b);
  }

  /** The size an axis resolves to: None when automatic. */
  function Axis(size: Measure2, lo: Measure2, hi: Measure2, b: real): Option<real> {
    if Specified(size, lo) then Some(Expected(size, lo, hi, b)) else None
  }

  /** wrap, once the clamps and the frame sums are known, is its last stage. */
  lemma WrapStages(s: Sizing, c: Content, aw: real, ah: real)
    ensures var f := s.Bound(aw, ah).WithFrameBase(FrameBase(Axis(s.width, s.minWidth, s.maxWidth, aw)));
      FrameWidth(f).Ok? && FrameHeight(f).Ok?
      && WrapOf(s, c, aw, ah)
         == FinishOf(f, c, Axis(s.width, s.minWidth, s.maxWidth, aw), Axis(s.height, s.minHeight, s.maxHeight, ah),
                     FrameWidth(f).value, FrameHeight(f).value)
  {
    var b := s.Bound(aw, ah);
    ClampSpec(s.width, s.minWidth, s.maxWidth, aw);
    ClampSpec(s.height, s.minHeight, s.maxHeight, ah);
    var w := Axis(s.width, s.minWidth, s.maxWidth, aw);
    assert Clamp(b.width, b.minWidth, b.maxWidth).value == w;
    assert Clamp(b.height, b.minHeight, b.maxHeight).value == Axis(s.height, s.minHeight, s.maxHeight, ah);
    FramesResolve(b, FrameBase(w));
  }

  /** wrap raises only TypeError, only for an item with an automatic axis; an item
      that specifies both axes always wraps. */
  lemma {:induction false} WrapErrors(s: Sizing, c: Content, aw: real, ah: real)
    ensures WrapOf(s, c, aw, ah).Err? ==> WrapOf(s, c, aw, ah).error == TypeError
    ensures Specified(s.width, s.minWidth) && Specified(s.height, s.minHeight) ==> WrapOf(s, c, aw, ah).Ok?
  {
    WrapStages(s, c, aw, ah);
    var w, h := Axis(s.width, s.minWidth, s.maxWidth, aw), Axis(s.height, s.minHeight, s.maxHeight, ah);
    var f := s.Bound(aw, ah).WithFrameBase(FrameBase(w));
    var fw, fh := FrameWidth(f).value, FrameHeight(f).value;
    var first := ContentSize(c, Area(w, fw), Area(h, fh));
    AutoSizeSpec(w, first.0, fw);
    AutoSizeSpec(h, first.1, fh);
  }

  /** An item that specifies both axes wraps to the clamped sizes, whatever its
      content; its frames then take that width as base. */
  lemma {:induction false} WrapSpecified(s: Sizing, c: Content, aw: real, ah: real)
    requires Specified(s.width, s.minWidth) && Specified(s.height, s.minHeight)
    ensures WrapOf(s, c, aw, ah).Ok?
    ensures WrapOf(s, c, aw, ah).value.width == Expected(s.width, s.minWidth, s.maxWidth, aw)
    ensures WrapOf(s, c, aw, ah).value.height == Expected(s.height, s.minHeight, s.maxHeight, ah)
    ensures var r := WrapOf(s, c, aw, ah).value;
      r.after.padding.base == Some(r.width) && r.after.margin.base == Some(r.width)
      && r.after.border.base == Some(r.width)
  {
    WrapStages(s, c, aw, ah);
  }

  /** The content of a wrapped item was measured in the area inside its frames,
      the frames summed as they stand after wrap. */
  predicate OffersInnerArea(c: Content, r: Wrapped) {
    FrameWidth(r.after).Ok? && FrameHeight(r.after).Ok?
    && var inner := ContentSize(c, r.width - FrameWidth(r.after).value, r.height - FrameHeight(r.after).value);
       r.contentWidth == inner.0 && r.contentHeight == inner.1
  }

  /** An item that specifies both axes at non-zero sizes offers its content the
      area inside its frames, the frames measured against the resolved width, and
      caches the answer. */
  lemma {:induction false} WrapOffersInnerArea(s: Sizing, c: Content, aw: real, ah: real)
    requires Specified(s.width, s.minWidth) && Specified(s.height, s.minHeight)
    requires Expected(s.width, s.minWidth, s.maxWidth, aw) != 0.0 && Expected(s.height, s.minHeight, s.maxHeight, ah) != 0.0
    ensures WrapOf(s, c, aw, ah).Ok? && OffersInnerArea(c, WrapOf(s, c, aw, ah).value)
  {
    WrapStages(s, c, aw, ah);
    var w, h := Axis(s.width, s.minWidth, s.maxWidth, aw), Axis(s.height, s.minHeight, s.maxHeight, ah);
    var f := s.Bound(aw, ah).WithFrameBase(FrameBase(w));
    FinishSpecified(f, c, w.value, h.value, FrameWidth(f).value, FrameHeight(f).value);
  }

  /** The last stage of wrap for two non-zero sizes: the content is offered the area
      inside the frames, and the frames keep their sums once width and height settle. */
  lemma FinishSpecified(f: Sizing, c: Content, w: real, h: real, fw: real, fh: real)
    requires w != 0.0 && h != 0.0
    requires FrameWidth(f) == Ok(fw) && FrameHeight(f) == Ok(fh)
    ensures var r := FinishOf(f, c, Some(w), Some(h), fw, fh);
      r.Ok? && r.value.width == w && r.value.height == h && OffersInnerArea(c, r.value)
  {
    var after := f.Settled(w, h);
    assert after.padding == f.padding && after.margin == f.margin && after.border == f.border;
  }

  /** The content width when it does not depend on the area offered. */
  function FixedWidth(c: Content): real {
    match c
    case Blank => 0.0
    case Sample => 100.0
    case Measured(cw, _) => cw.Static()
  }

  /** The content height when it does not depend on the area offered. */
  function FixedHeight(c: Content): real {
    match c
    case Blank => 0.0
    case Sample => 100.0
    case Measured(_, ch) => ch.Static()
  }

  /** Content whose lengths are absolute. */
  predicate Fixed(c: Content) {
    c.Measured? ==> c.cw.Relative() == 0.0 && c.ch.Relative() == 0.0
  }

  /** The frame width of an automatic item: static parts only. */
  function StaticFrameWidth(s: Sizing): real {
    s.padding.left.Static() + s.padding.right.Static() + (s.margin.left.Static() + s.margin.right.Static())
    + (s.border.left.Static() + s.border.right.Static())
  }

  /** The frame height of an automatic item: static parts only, and the border's left
      and right sides in place of its top and bottom. */
  function StaticFrameHeight(s: Sizing): real {
    s.padding.top.Static() + s.padding.bottom.Static() + (s.margin.top.Static() + s.margin.bottom.Static())
    + (s.border.left.Static() + s.border.right.Static())
  }

  /** An item with neither axis specified and absolute content wraps to content plus
      frame on each axis, the frames resolved against 0 so that their percentages
      count for nothing; it raises exactly when either sum is 0. */
  lemma {:induction false} WrapAutomatic(s: Sizing, c: Content, aw: real, ah: real)
    requires !Specified(s.width, s.minWidth) && !Specified(s.height, s.minHeight) && Fixed(c)
    ensures var fw, fh := FixedWidth(c) + StaticFrameWidth(s), FixedHeight(c) + StaticFrameHeight(s);
      (WrapOf(s, c, aw, ah).Ok? <==> fw != 0.0 && fh != 0.0)
      && (WrapOf(s, c, aw, ah).Ok? ==>
            WrapOf(s, c, aw, ah).value.width == fw && WrapOf(s, c, aw, ah).value.height == fh
            && WrapOf(s, c, aw, ah).value.contentWidth == FixedWidth(c)
            && WrapOf(s, c, aw, ah).value.contentHeight == FixedHeight(c))
  {
    WrapStages(s, c, aw, ah);
    var f := s.Bound(aw, ah).WithFrameBase(0.0);
    AutomaticFrames(s, aw, ah);
    AutomaticFinish(f, c, StaticFrameWidth(s), StaticFrameHeight(s));
  }

  /** Frames resolved against 0 count their static parts only. */
  lemma AutomaticFrames(s: Sizing, aw: real, ah: real)
    ensures FrameWidth(s.Bound(aw, ah).WithFrameBase(0.0)) == Ok(StaticFrameWidth(s))
    ensures FrameHeight(s.Bound(aw, ah).WithFrameBase(0.0)) == Ok(StaticFrameHeight(s))
  {
    FramesResolve(s.Bound(aw, ah), 0.0);
  }

  /** The last stage of wrap for an item automatic on both axes with absolute content. */
  lemma AutomaticFinish(f: Sizing, c: Content, fw: real, fh: real)
    requires Fixed(c)
    ensures var r := FinishOf(f, c, None, None, fw, fh);
      (r.Ok? <==> FixedWidth(c) + fw != 0.0 && FixedHeight(c) + fh != 0.0)
      && (r.Ok? ==>
            r.value.width == FixedWidth(c) + fw && r.value.height == FixedHeight(c) + fh
            && r.value.contentWidth == FixedWidth(c) && r.value.contentHeight == FixedHeight(c))
  {
    if FixedWidth(c) + fw != 0.0 && FixedHeight(c) + fh != 0.0 {
      AutomaticSizes(f, c, fw, fh);
    } else {
      AutomaticZero(f, c, fw, fh);
    }
  }

  /** Non-zero sums: the sizes are content plus frame, and the content is asked again. */
  lemma AutomaticSizes(f: Sizing, c: Content, fw: real, fh: real)
    requires Fixed(c) && FixedWidth(c) + fw != 0.0 && FixedHeight(c) + fh != 0.0
    ensures var r := FinishOf(f, c, None, None, fw, fh);
      r.Ok? && r.value.width == FixedWidth(c) + fw && r.value.height == FixedHeight(c) + fh
      && r.value.contentWidth == FixedWidth(c) && r.value.contentHeight == FixedHeight(c)
  {
    var cw, ch := FixedWidth(c), FixedHeight(c);
    FixedContent(c, Area(None, fw), Area(None, fh));
    AutoSizeSpec(None, cw, fw);
    AutoSizeSpec(None, ch, fh);
    FixedContent(c, cw + fw - fw, ch + fh - fh);
  }

  /** A zero sum on either axis: min of a single zero is None, and wrap raises. */
  lemma AutomaticZero(f: Sizing, c: Content, fw: real, fh: real)
    requires Fixed(c) && (FixedWidth(c) + fw == 0.0 || FixedHeight(c) + fh == 0.0)
    ensures FinishOf(f, c, None, None, fw, fh).Err?
  {
    FixedContent(c, Area(None, fw), Area(None, fh));
    AutoSizeSpec(None, FixedWidth(c), fw);
    AutoSizeSpec(None, FixedHeight(c), fh);
  }

  /** Absolute content answers its own lengths whatever it is offered. */
  lemma FixedContent(c: Content, aw: real, ah: real)
    requires Fixed(c)
    ensures ContentSize(c, aw, ah).0 == FixedWidth(c) && ContentSize(c, aw, ah).1 == FixedHeight(c)
  {
  }

  /** After a wrap, width and height are absolute lengths, so an item without minima
      or maxima wraps again to the same size whatever it is offered. */
  lemma {:induction false} WrapIdempotent(s: Sizing, c: Content, aw: real, ah: real, aw2: real, ah2: real)
    requires !s.minWidth.Truthy() && !s.maxWidth.Truthy() && !s.minHeight.Truthy() && !s.maxHeight.Truthy()
    requires WrapOf(s, c, aw, ah).Ok?
    ensures WrapOf(WrapOf(s, c, aw, ah).value.after, c, aw2, ah2).Ok?
    ensures WrapOf(WrapOf(s, c, aw, ah).value.after, c, aw2, ah2).value.width == WrapOf(s, c, aw, ah).value.width
    ensures WrapOf(WrapOf(s, c, aw, ah).value.after, c, aw2, ah2).value.height == WrapOf(s, c, aw, ah).value.height
  {
    var r := WrapOf(s, c, aw, ah).value;
    WrapSettles(s, c, aw, ah);
    var t := r.after;
    ExpectedAbsolute(r.width, t.minWidth, t.maxWidth, aw2);
    ExpectedAbsolute(r.height, t.minHeight, t.maxHeight, ah2);
    WrapSpecified(t, c, aw2, ah2);
  }

  /** An absolute size with no minimum and no maximum is its own expected size. */
  lemma ExpectedAbsolute(x: real, lo: Measure2, hi: Measure2, b: real)
    requires !lo.Truthy() && !hi.Truthy()
    ensures Specified(Absolute(x), lo) && Expected(Absolute(x), lo, hi, b) == x
  {
  }

  /** What a successful wrap leaves behind: the minima and maxima and the frames keep
      their parts and take their bases, and width and height become the returned
      lengths, absolute. */
  lemma {:induction false} WrapSettles(s: Sizing, c: Content, aw: real, ah: real)
    requires WrapOf(s, c, aw, ah).Ok?
    ensures var r := WrapOf(s, c, aw, ah).value;
      r.after.width == Absolute(r.width) && r.after.height == Absolute(r.height)
      && r.after.minWidth == s.minWidth.WithBase(aw) && r.after.maxWidth == s.maxWidth.WithBase(aw)
      && r.after.minHeight == s.minHeight.WithBase(ah) && r.after.maxHeight == s.maxHeight.WithBase(ah)
      && r.after.padding.base == r.after.margin.base == r.after.border.base
         == Some(if Specified(s.width, s.minWidth) then r.width else 0.0)
  {
    WrapStages(s, c, aw, ah);
  }

  // ---- the source's own expectations ----

  /** TestItem of the item module answers (100, 100): with no other attribute it
      wraps to that size whatever it is offered. */
  lemma SampleItem(aw: real, ah: real)
    ensures Configure(DefaultArgs()).Ok?
    ensures var r := WrapOf(Configure(DefaultArgs()).value, Sample, aw, ah);
      r.Ok? && r.value.width == 100.0 && r.value.height == 100.0
  {
    ConfigureSpec(DefaultArgs());
    var s := Configure(DefaultArgs()).value;
    assert s == Sizing(Unspecified(), Unspecified(), Unspecified(), Unspecified(), Unspecified(), Unspecified(),
                       DefaultFrame(), DefaultFrame(), DefaultFrame());
    WrapAutomatic(s, Sample, aw, ah);
  }

  /** The content of the wrap tests: two lengths given as numbers. */
  function TestContent(cw: real, ch: real): Content {
    Measured(Parse(Number(cw)).value, Parse(Number(ch)).value)
  }

  /** An item configured with the given frames and nothing else. */
  function FramedArgs(margin: Input2, border: Input2, padding: Input2): ItemArgs {
    DefaultArgs().(margin := margin, border := border, padding := padding)
  }

  /** A frame argument that is None or a number. */
  predicate Plain(i: Input2) {
    i.NoneValue? || i.Number?
  }

  /** The length each side of such a frame gets. */
  function Side(i: Input2): real {
    if i.Number? then i.x else 0.0
  }

  /** An item configured with plain frames and nothing else is automatic on both
      axes, and each frame counts twice on each axis. */
  lemma FramedSizing(m: Input2, b: Input2, p: Input2)
    requires Plain(m) && Plain(b) && Plain(p)
    ensures var s := Configure(FramedArgs(m, b, p));
      s.Ok? && !Specified(s.value.width, s.value.minWidth) && !Specified(s.value.height, s.value.minHeight)
      && StaticFrameWidth(s.value) == 2.0 * (Side(m) + Side(b) + Side(p))
      && StaticFrameHeight(s.value) == 2.0 * (Side(m) + Side(b) + Side(p))
  {
    var a := FramedArgs(m, b, p);
    ConfigureSpec(a);
    AssignFrameSpec(m, 0.0);
    AssignFrameSpec(b, 0.0);
    AssignFrameSpec(p, 0.0);
  }

  /** test_auto_no_frame: content 100 by 100 wraps to (100, 100) at (0, 0), and then
      again to (100, 100) at (1000, 1000). */
  lemma TestAutoNoFrame()
    ensures var s := Configure(DefaultArgs());
      s.Ok?
      && var first := WrapOf(s.value, TestContent(100.0, 100.0), 0.0, 0.0);
      first.Ok? && first.value.width == 100.0 && first.value.height == 100.0
      && var second := WrapOf(first.value.after, TestContent(100.0, 100.0), 1000.0, 1000.0);
      second.Ok? && second.value.width == 100.0 && second.value.height == 100.0
  {
    assert FramedArgs(NoneValue, NoneValue, NoneValue) == DefaultArgs();
    FramedSizing(NoneValue, NoneValue, NoneValue);
    ConfigureSpec(DefaultArgs());
    var s := Configure(DefaultArgs()).value;
    var c := TestContent(100.0, 100.0);
    WrapAutomatic(s, c, 0.0, 0.0);
    WrapIdempotent(s, c, 0.0, 0.0, 1000.0, 1000.0);
  }

  /** One automatic test: content 100 by 100 inside plain frames wraps at (0, 0) to
      100 plus twice the frames on each axis. */
  lemma TestAutoFramed(m: Input2, b: Input2, p: Input2)
    requires Plain(m) && Plain(b) && Plain(p)
    requires 100.0 + 2.0 * (Side(m) + Side(b) + Side(p)) != 0.0
    ensures var s := Configure(FramedArgs(m, b, p));
      s.Ok? && WrapOf(s.value, TestContent(100.0, 100.0), 0.0, 0.0).Ok?
      && WrapOf(s.value, TestContent(100.0, 100.0), 0.0, 0.0).value.width == 100.0 + 2.0 * (Side(m) + Side(b) + Side(p))
      && WrapOf(s.value, TestContent(100.0, 100.0), 0.0, 0.0).value.height == 100.0 + 2.0 * (Side(m) + Side(b) + Side(p))
  {
    FramedSizing(m, b, p);
    WrapAutomatic(Configure(FramedArgs(m, b, p)).value, TestContent(100.0, 100.0), 0.0, 0.0);
  }

  /** test_auto_margin: a margin of 10 wraps at (0, 0) to (120, 120). */
  lemma TestAutoMargin()
    ensures var s := Configure(FramedArgs(Number(10.0), NoneValue, NoneValue));
      s.Ok? && WrapOf(s.value, TestContent(100.0, 100.0), 0.0, 0.0).Ok?
      && WrapOf(s.value, TestContent(100.0, 100.0), 0.0, 0.0).value.width == 120.0
      && WrapOf(s.value, TestContent(100.0, 100.0), 0.0, 0.0).value.height == 120.0
  {
    TestAutoFramed(Number(10.0), NoneValue, NoneValue);
  }

  /** test_auto_padding: a padding of 10 wraps at (0, 0) to (120, 120). */
  lemma TestAutoPadding()
    ensures var s := Configure(FramedArgs(NoneValue, NoneValue, Number(10.0)));
      s.Ok? && WrapOf(s.value, TestContent(100.0, 100.0), 0.0, 0.0).Ok?
      && WrapOf(s.value, TestContent(100.0, 100.0), 0.0, 0.0).value.width == 120.0
      && WrapOf(s.value, TestContent(100.0, 100.0), 0.0, 0.0).value.height == 120.0
  {
    TestAutoFramed(NoneValue, NoneValue, Number(10.0));
  }

  /** test_auto_border: a border of 10 wraps at (0, 0) to (120, 120). */
  lemma TestAutoBorder()
    ensures var s := Configure(FramedArgs(NoneValue, Number(10.0), NoneValue));
      s.Ok? && WrapOf(s.value, TestContent(100.0, 100.0), 0.0, 0.0).Ok?
      && WrapOf(s.value, TestContent(100.0, 100.0), 0.0, 0.0).value.width == 120.0
      && WrapOf(s.value, TestContent(100.0, 100.0), 0.0, 0.0).value.height == 120.0
  {
    TestAutoFramed(NoneValue, Number(10.0), NoneValue);
  }

  /** test_auto_all: border 10, padding 20 and margin 20 wrap at (0, 0) to (200, 200). */
  lemma TestAutoAll()
    ensures var s := Configure(FramedArgs(Number(20.0), Number(10.0), Number(20.0)));
      s.Ok? && WrapOf(s.value, TestContent(100.0, 100.0), 0.0, 0.0).Ok?
      && WrapOf(s.value, TestContent(100.0, 100.0), 0.0, 0.0).value.width == 200.0
      && WrapOf(s.value, TestContent(100.0, 100.0), 0.0, 0.0).value.height == 200.0
  {
    TestAutoFramed(Number(20.0), Number(10.0), Number(20.0));
  }

  /** test_full_width: width and height "100%", padding 25 and content 200 by 100
      wrap at (50, 25) to (50, 25): the specified size wins over the content. */
  lemma TestFullWidth()
    ensures var s := Configure(FullWidthArgs());
      s.Ok? && WrapOf(s.value, TestContent(200.0, 100.0), 50.0, 25.0).Ok?
      && WrapOf(s.value, TestContent(200.0, 100.0), 50.0, 25.0).value.width == 50.0
      && WrapOf(s.value, TestContent(200.0, 100.0), 50.0, 25.0).value.height == 25.0
  {
    FullWidthSizing();
    var s := Configure(FullWidthArgs()).value;
    WrapSpecified(s, TestContent(200.0, 100.0), 50.0, 25.0);
  }

  /** The arguments of test_full_width. */
  function FullWidthArgs(): ItemArgs {
    DefaultArgs().(width := Text("100%"), height := Text("100%"), padding := Number(25.0))
  }

  /** "100%" is the whole of the base. */
  lemma WholePercent()
    ensures Parse(Text("100%")) == Ok(Measure2(Some(0.0), Some(1.0), None))
  {
    ParsePercent(100);
    assert Decimal.Render(100) + "%" == "100%";
  }

  /** Width and height "100%" are the whole of their base; nothing else is given. */
  lemma FullWidthSizing()
    ensures var s := Configure(FullWidthArgs());
      s.Ok? && s.value.width == Measure2(Some(0.0), Some(1.0), None) && s.value.height == s.value.width
      && !s.value.minWidth.Truthy() && !s.value.maxWidth.Truthy()
      && !s.value.minHeight.Truthy() && !s.value.maxHeight.Truthy()
  {
    var whole := Measure2(Some(0.0), Some(1.0), None);
    WholePercent();
    AssignFrameSpec(Number(25.0), 0.0);
    AssignFrameSpec(NoneValue, 0.0);
    var pad := Measure2(Some(25.0), Some(0.0), None);
    assert Configure(FullWidthArgs()) == Ok(Sizing(Unspecified(), whole, Unspecified(), Unspecified(), whole, Unspecified(),
      DefaultFrame(), DefaultFrame(), Frame2(pad, pad, pad, pad, None)));
  }

  /** The frame height counts the border's left and right sides, not its top and
      bottom: an otherwise empty item whose border is 0 at top and bottom and 10 at
      left and right wraps to 20 high. */
  lemma FrameHeightCountsBorderWidth(aw: real, ah: real)
    ensures var border := Shorthand([Number(0.0), Number(10.0)]);
      border.Ok? && border.value.top.Static() + border.value.bottom.Static() == 0.0
      && var s := Sizing(Unspecified(), Unspecified(), Unspecified(), Unspecified(), Unspecified(), Unspecified(),
                         DefaultFrame(), border.value, DefaultFrame());
      WrapOf(s, Blank, aw, ah).Ok? && WrapOf(s, Blank, aw, ah).value.height == 20.0
  {
    var border := Shorthand([Number(0.0), Number(10.0)]).value;
    var s := Sizing(Unspecified(), Unspecified(), Unspecified(), Unspecified(), Unspecified(), Unspecified(),
                    DefaultFrame(), border, DefaultFrame());
    WrapAutomatic(s, Blank, aw, ah);
  }
}
