/** Lengths of the draft second engine (flexbox2/measurement.py): a measurement is an
    optional static part plus an optional part relative to a base, sums resolve at
    once to plain numbers, and a frame's base is set on all four sides together. */
module Measurement2 {
  import opened Common
  import opened Reals
  import Decimal

  /** FlexMeasurement2: the static and relative parts as given (either may be
      missing) and the base, once it has been set. */
  datatype Measure2 = Measure2(staticPart: Option<real>, relativePart: Option<real>, base: Option<real>)
  {
    /** `_static or 0`. */
    function Static(): real {
      staticPart.GetOr(0.0)
    }

    /** `_relative or 0`. */
    function Relative(): real {
      relativePart.GetOr(0.0)
    }

    /** __bool__: false only when neither part was given. */
    predicate Truthy() {
      staticPart.Some? || relativePart.Some?
    }

    /** The base getter, which raises while no base has been set. */
    function Base(): (r: Result<real>)
      ensures r.Ok? <==> base.Some?
      ensures r.Ok? ==> r.value == base.value
    {
      if base.None? then Err(BaseNotSet) else Ok(base.value)
    }

    function WithBase(b: real): (r: Measure2)
      ensures r.staticPart == staticPart && r.relativePart == relativePart && r.base == Some(b)
    {
      this.(base := Some(b))
    }

    /** __float__: the static part plus the relative part times the base. */
    function Float(): (r: Result<real>)
    {
      var b :- Base();
      Ok(Static() + Relative() * b)
    }
  }

  function Unspecified(): Measure2 {
    Measure2(None, None, None)
  }

  /** float(m) succeeds exactly once a base is set, and is then the static part
      plus the relative part times the base. */
  lemma FloatSpec(m: Measure2)
    ensures m.Float().Ok? <==> m.base.Some?
    ensures m.base.None? ==> m.Float().error == BaseNotSet
    ensures m.base.Some? ==> m.Float().value == m.Static() + m.Relative() * m.base.value
  {
  }

  /** A measurement with neither part resolves to 0 against any base. */
  lemma UnspecifiedIsZero(b: real)
    ensures !Unspecified().Truthy()
    ensures Unspecified().WithBase(b).Float().Ok? && Unspecified().WithBase(b).Float().value == 0.0
  {
  }

  // ---- parsing ----

  /** The values a measurement can be given as. */
  datatype Input2 =
    | NoneValue              // None
    | Number(x: real)        // an int or a float
    | Text(s: string)        // a str
    | Given(m: Measure2)     // an existing FlexMeasurement2
    | Unsupported            // anything else, a tuple for one

  /** FlexMeasurement2.parse. */
  function Parse(i: Input2): (r: Result<Measure2>)
  {
    match i
    case Given(m) => Ok(m)
    case NoneValue => Ok(Unspecified())
    case Number(x) => Ok(Measure2(Some(x), Some(0.0), None))
    case Text(s) =>
      if '%' in s then
        (match Decimal.ParseNumber(Decimal.RemoveAll(s, '%'))
         case None => Err(ValueError)
         case Some(p) => Ok(Measure2(Some(0.0), Some(p / 100.0), None)))
      else Err(ParseError)
    case Unsupported => Err(ParseError)
  }

  /** What parse accepts: a measurement unchanged, None as unspecified, a number as
      absolute, a string only with a '%' sign, as a fraction of the base; a string
      without '%' and anything else raise. */
  lemma ParseSpec(i: Input2)
    ensures i.Given? ==> Parse(i).Ok? && Parse(i).value == i.m
    ensures i.NoneValue? ==> Parse(i).Ok? && !Parse(i).value.Truthy()
    ensures i.Number? ==>
      Parse(i).Ok? && Parse(i).value.Truthy() && Parse(i).value.Static() == i.x && Parse(i).value.Relative() == 0.0
    ensures i.Text? && '%' !in i.s ==> Parse(i) == Err(ParseError)
    ensures i.Unsupported? ==> Parse(i) == Err(ParseError)
    ensures Parse(i).Ok? && !i.Given? ==> Parse(i).value.base.None?
    ensures i.Text? && Parse(i).Ok? ==> Parse(i).value.Static() == 0.0 && Parse(i).value.Truthy()
  {
  }

  /** "n%" parses to n hundredths, relative. */
  lemma ParsePercent(n: nat)
    ensures Parse(Text(Decimal.Render(n) + "%")) == Ok(Measure2(Some(0.0), Some(n as real / 100.0), None))
  {
    Decimal.PercentText(n);
  }

  /** A purely relative measurement resolves to its share of the base. */
  lemma RelativeFloat(p: real, b: real)
    ensures Measure2(Some(0.0), Some(p), None).WithBase(b).Float().Ok?
    ensures Measure2(Some(0.0), Some(p), None).WithBase(b).Float().value == p * b
  {
    var m := Measure2(Some(0.0), Some(p), None).WithBase(b);
    assert m.Static() == 0.0 && m.Relative() == p && m.Base().value == b;
  }

  /** A number resolves to itself whatever the base. */
  lemma ParseNumberIsAbsolute(x: real, b: real)
    ensures Parse(Number(x)).Ok?
    ensures Parse(Number(x)).value.WithBase(b).Float().value == x
  {
  }

  // ---- arithmetic ----

  /** `a + b`: both resolved, the result a plain number. */
  function Plus(a: Measure2, b: Measure2): (r: Result<real>)
  {
    var x :- a.Float();
    var y :- b.Float();
    Ok(x + y)
  }

  /** `a - b`: both resolved, the result a plain number. */
  function Minus(a: Measure2, b: Measure2): (r: Result<real>)
  {
    var x :- a.Float();
    var y :- b.Float();
    Ok(x - y)
  }

  /** Sums and differences need both bases, are the sums and differences of the
      resolved lengths, and undo each other. */
  lemma PlusMinusSpec(a: Measure2, b: Measure2)
    ensures Plus(a, b).Ok? <==> a.base.Some? && b.base.Some?
    ensures Minus(a, b).Ok? <==> a.base.Some? && b.base.Some?
    ensures Plus(a, b).Ok? ==>
      Plus(a, b).value == a.Float().value + b.Float().value
      && Minus(a, b).value == a.Float().value - b.Float().value
      && Plus(a, b).value - b.Float().value == a.Float().value
      && Plus(a, b).value == Plus(b, a).value
  {
  }

  // ---- FlexMeasurement2.min / FlexMeasurement2.max ----

  /** An argument of min or max: a plain number or a measurement. */
  datatype Arg = Length(x: real) | Of(m: Measure2)
  {
    /** `if m`: a number is true when non-zero, a measurement when given. */
    predicate Truthy() {
      match this
      case Length(x) => x != 0.0
      case Of(m) => m.Truthy()
    }

    function Float(): Result<real> {
      match this
      case Length(x) => Ok(x)
      case Of(m) => m.Float()
    }
  }

  /** The floats of the truthy arguments, in order. */
  function TruthyFloats(args: seq<Arg>): (r: Result<seq<real>>)
  {
    if args == [] then Ok([])
    else
      var init :- TruthyFloats(args[..|args| - 1]);
      var last := args[|args| - 1];
      if last.Truthy() then
        var f :- last.Float();
        Ok(init + [f])
      else Ok(init)
  }

  /** Every truthy argument has a float. */
  predicate Resolvable(args: seq<Arg>) {
    forall i :: 0 <= i < |args| && args[i].Truthy() ==> args[i].Float().Ok?
  }

  /** The truthy floats are exactly the floats of the truthy arguments: each of
      them comes from a truthy argument and each truthy argument gives one. */
  lemma {:induction false} TruthyFloatsSpec(args: seq<Arg>)
    ensures TruthyFloats(args).Ok? <==> Resolvable(args)
    ensures TruthyFloats(args).Ok? ==>
      var fs := TruthyFloats(args).value;
      (forall k :: 0 <= k < |fs| ==> exists i :: 0 <= i < |args| && args[i].Truthy() && args[i].Float() == Ok(fs[k]))
      && (forall i :: 0 <= i < |args| && args[i].Truthy() ==> args[i].Float().value in fs)
      && (fs == [] <==> forall i :: 0 <= i < |args| ==> !args[i].Truthy())
    decreases |args|
  {
    if args != [] {
      var init := args[..|args| - 1];
      var last := args[|args| - 1];
      TruthyFloatsSpec(init);
      assert forall i :: 0 <= i < |init| ==> init[i] == args[i];
      if TruthyFloats(init).Ok? && last.Truthy() && last.Float().Ok? {
        var fs := TruthyFloats(args).value;
        assert fs == TruthyFloats(init).value + [last.Float().value];
        assert fs[|fs| - 1] == last.Float().value;
      }
      if !Resolvable(init) {
        var i :| 0 <= i < |init| && init[i].Truthy() && init[i].Float().Err?;
        assert args[i] == init[i];
      }
    }
  }

  /** FlexMeasurement2.min: the least float of the truthy arguments, None if there are none. */
  function MinOf(args: seq<Arg>): Result<Option<real>>
  {
    var fs :- TruthyFloats(args);
    if fs == [] then Ok(None) else Ok(Some(Min(fs)))
  }

  /** FlexMeasurement2.max: the greatest float of the truthy arguments, None if there are none. */
  function MaxOf(args: seq<Arg>): Result<Option<real>>
  {
    var fs :- TruthyFloats(args);
    if fs == [] then Ok(None) else Ok(Some(Max(fs)))
  }

  /** min and max raise only on a truthy measurement without a base; they give None
      exactly when no argument is truthy, and otherwise the float of a truthy
      argument that is at most (min) or at least (max) every truthy float. */
  lemma MinMaxSpec(args: seq<Arg>)
    ensures MinOf(args).Ok? <==> Resolvable(args)
    ensures MaxOf(args).Ok? <==> Resolvable(args)
    ensures Resolvable(args) ==>
      (MinOf(args).value.None? <==> forall i :: 0 <= i < |args| ==> !args[i].Truthy())
      && (MaxOf(args).value.None? <==> forall i :: 0 <= i < |args| ==> !args[i].Truthy())
    ensures MinOf(args).Ok? && MinOf(args).value.Some? ==>
      (exists i :: 0 <= i < |args| && args[i].Truthy() && args[i].Float() == Ok(MinOf(args).value.value))
      && forall i :: 0 <= i < |args| && args[i].Truthy() ==> MinOf(args).value.value <= args[i].Float().value
    ensures MaxOf(args).Ok? && MaxOf(args).value.Some? ==>
      (exists i :: 0 <= i < |args| && args[i].Truthy() && args[i].Float() == Ok(MaxOf(args).value.value))
      && forall i :: 0 <= i < |args| && args[i].Truthy() ==> args[i].Float().value <= MaxOf(args).value.value
  {
    TruthyFloatsSpec(args);
    if TruthyFloats(args).Ok? && TruthyFloats(args).value != [] {
      var fs := TruthyFloats(args).value;
      var lo :| 0 <= lo < |fs| && fs[lo] == Min(fs);
      var hi :| 0 <= hi < |fs| && fs[hi] == Max(fs);
      forall i | 0 <= i < |args| && args[i].Truthy()
        ensures Min(fs) <= args[i].Float().value <= Max(fs)
      {
        var k :| 0 <= k < |fs| && fs[k] == args[i].Float().value;
      }
    }
  }

  // ---- frames ----

  /** Frame2: four sides and the base last set on the frame. */
  datatype Frame2 = Frame2(top: Measure2, right: Measure2, bottom: Measure2, left: Measure2, base: Option<real>)
  {
    /** The base getter, which raises while no base has been set. */
    function Base(): Result<real> {
      if base.None? then Err(BaseNotSet) else Ok(base.value)
    }

    /** The base setter: the frame keeps the base and binds it on every side. */
    function WithBase(b: real): Frame2 {
      Frame2(top.WithBase(b), right.WithBase(b), bottom.WithBase(b), left.WithBase(b), Some(b))
    }

    /** `left + right`, a plain number. */
    function Width(): Result<real> {
      Plus(left, right)
    }

    /** `top + bottom`, a plain number. */
    function Height(): Result<real> {
      Plus(top, bottom)
    }
  }

  /** Once the frame's base is set, its base reads back, and width and height are the
      static sums plus the relative sums times the base. */
  lemma FrameWithBase(f: Frame2, b: real)
    ensures f.WithBase(b).Base() == Ok(b)
    ensures f.WithBase(b).Width().Ok?
      && f.WithBase(b).Width().value
         == (f.left.Static() + f.right.Static()) + (f.left.Relative() + f.right.Relative()) * b
    ensures f.WithBase(b).Height().Ok?
      && f.WithBase(b).Height().value
         == (f.top.Static() + f.bottom.Static()) + (f.top.Relative() + f.bottom.Relative()) * b
  {
    var g := f.WithBase(b);
    assert g.left.Float().value == f.left.Static() + f.left.Relative() * b;
    assert g.right.Float().value == f.right.Static() + f.right.Relative() * b;
    assert g.top.Float().value == f.top.Static() + f.top.Relative() * b;
    assert g.bottom.Float().value == f.bottom.Static() + f.bottom.Relative() * b;
  }

  /** Before any base is set the width raises unless the sides carry their own. */
  lemma FrameWidthNeedsBase(f: Frame2)
    requires f.left.base.None?
    ensures f.Width() == Err(BaseNotSet)
  {
  }

  /** Frame2(*measurements): CSS shorthand for one to four values; any other count
      leaves all four sides unspecified. */
  function Shorthand(values: seq<Input2>): Result<Frame2>
  {
    if |values| == 1 then
      var a :- Parse(values[0]);
      Ok(Frame2(a, a, a, a, None))
    else if |values| == 2 then
      var a :- Parse(values[0]);
      var b :- Parse(values[1]);
      Ok(Frame2(a, b, a, b, None))
    else if |values| == 3 then
      var a :- Parse(values[0]);
      var b :- Parse(values[1]);
      var c :- Parse(values[2]);
      Ok(Frame2(a, b, c, b, None))
    else if |values| == 4 then
      var a :- Parse(values[0]);
      var b :- Parse(values[1]);
      var c :- Parse(values[2]);
      var d :- Parse(values[3]);
      Ok(Frame2(a, b, c, d, None))
    else
      Ok(DefaultFrame())
  }

  /** Frame2(): every side None, no base. */
  function DefaultFrame(): Frame2 {
    Frame2(Unspecified(), Unspecified(), Unspecified(), Unspecified(), None)
  }

  /** Which of the given values each side takes: top is the first; right the second
      if given, else the first; bottom the third if given, else the first; left the
      fourth if given, else the right. No value that fails to parse is skipped. */
  lemma ShorthandSides(values: seq<Input2>)
    requires 1 <= |values| <= 4
    ensures Shorthand(values).Ok? <==> forall i :: 0 <= i < |values| ==> Parse(values[i]).Ok?
    ensures Shorthand(values).Ok? ==>
      var f, n := Shorthand(values).value, |values|;
      var right := if n >= 2 then 1 else 0;
      f.top == Parse(values[0]).value
      && f.right == Parse(values[right]).value
      && f.bottom == Parse(values[if n >= 3 then 2 else 0]).value
      && f.left == Parse(values[if n == 4 then 3 else right]).value
      && f.base.None?
  {
  }

  /** Any other number of values gives the default frame, whatever the values are. */
  lemma ShorthandOtherCounts(values: seq<Input2>)
    requires |values| == 0 || |values| > 4
    ensures Shorthand(values) == Ok(DefaultFrame())
  {
  }

  /** The shorthand of the frame tests: Frame2(5, "10%", 10, 15). */
  lemma ShorthandExample()
    ensures var f := Shorthand([Number(5.0), Text("10%"), Number(10.0), Number(15.0)]);
      f.Ok?
      && f.value.top == Measure2(Some(5.0), Some(0.0), None)
      && f.value.right == Measure2(Some(0.0), Some(0.1), None)
      && f.value.bottom == Measure2(Some(10.0), Some(0.0), None)
      && f.value.left == Measure2(Some(15.0), Some(0.0), None)
  {
    TenPercent();
    var values := [Number(5.0), Text("10%"), Number(10.0), Number(15.0)];
    assert values[1] == Text("10%");
    var f := Shorthand(values);
    assert f.Ok? && f.value.right == Measure2(Some(0.0), Some(0.1), None);
  }

  /** "10%" is a tenth of the base. */
  lemma TenPercent()
    ensures Parse(Text("10%")) == Ok(Measure2(Some(0.0), Some(0.1), None))
  {
    ParsePercent(10);
    assert Decimal.Render(10) + "%" == "10%";
  }

  /** FrameDescriptor.__set__: the value is always wrapped as Frame2(value), so it
      is parsed as one measurement for all four sides. */
  function AssignFrame(value: Input2): Result<Frame2> {
    Shorthand([value])
  }

  /** FrameDescriptor.__get__: the frame stored for the item, or a new default one. */
  function ReadFrame(stored: Option<Frame2>): Frame2 {
    stored.GetOr(DefaultFrame())
  }

  /** Assigning a value puts it on all four sides, with no base; assigning None
      gives a frame that resolves to zero everywhere like the default one; anything
      parse refuses, a tuple of side values among them, raises. */
  lemma AssignFrameSpec(value: Input2, b: real)
    ensures AssignFrame(value).Ok? <==> Parse(value).Ok?
    ensures AssignFrame(value).Ok? ==>
      var m := Parse(value).value;
      AssignFrame(value).value == Frame2(m, m, m, m, None)
    ensures value.Unsupported? ==> AssignFrame(value) == Err(ParseError)
    ensures AssignFrame(NoneValue) == Ok(DefaultFrame())
    ensures ReadFrame(None).WithBase(b).Width() == Ok(0.0) && ReadFrame(None).WithBase(b).Height() == Ok(0.0)
  {
    FrameWithBase(DefaultFrame(), b);
    assert ReadFrame(None) == DefaultFrame();
    assert ReadFrame(None).WithBase(b).Width().value == 0.0;
    assert ReadFrame(None).WithBase(b).Height().value == 0.0;
  }
}
