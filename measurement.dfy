/** Lengths of the first layout engine: a measurement is a static part plus a part
    relative to a base (the available size), and sums and differences of measurements
    are kept symbolic until a base is known (flexbox/measurement.py). */
module Measurement {
  import opened Common
  import opened Reals
  import Decimal

  /** FlexMeasurement: a static part and a relative part, each of which may be left
      unspecified, and the base the relative part is a fraction of, once it is set. */
  datatype FlexMeasurement = FlexMeasurement(staticPart: Option<real>, relativePart: Option<real>, base: Option<real>)
  {
    /** The static part, 0 when unspecified. */
    function Static(): real {
      staticPart.GetOr(0.0)
    }

    /** The relative part, 0 when unspecified. */
    function Relative(): real {
      relativePart.GetOr(0.0)
    }

    /** Truthiness: false only when neither part was given. */
    predicate IsSpecified() {
      staticPart.Some? || relativePart.Some?
    }

    /** The base getter, which raises while no base has been set. */
    function Base(): (r: Result<real>)
      ensures r.Ok? <==> base.Some?
      ensures base.Some? ==> r.value == base.value
    {
      if base.None? then Err(BaseNotSet) else Ok(base.value)
    }

    function WithBase(b: real): FlexMeasurement {
      this.(base := Some(b))
    }

    function Resolved(): real
      requires base.Some?
    {
      Static() + Relative() * base.value
    }

    /** float(m): the static part plus the relative part times the base. */
    function Float(): (r: Result<real>)
      ensures r.Ok? <==> base.Some?
      ensures r.Ok? ==> r.value == Static() + Relative() * base.value
    {
      var b :- Base();
      Ok(Static() + Relative() * b)
    }
  }

  function Unspecified(): FlexMeasurement {
    FlexMeasurement(None, None, None)
  }

  function Statics(ms: seq<FlexMeasurement>): (r: seq<real>)
    ensures |r| == |ms|
  {
    seq(|ms|, i requires 0 <= i < |ms| => ms[i].Static())
  }

  function Relatives(ms: seq<FlexMeasurement>): (r: seq<real>)
    ensures |r| == |ms|
  {
    seq(|ms|, i requires 0 <= i < |ms| => ms[i].Relative())
  }

  predicate AnySpecified(ms: seq<FlexMeasurement>) {
    exists i :: 0 <= i < |ms| && ms[i].IsSpecified()
  }

  lemma AnySpecifiedConcat(a: seq<FlexMeasurement>, b: seq<FlexMeasurement>)
    ensures AnySpecified(a + b) <==> AnySpecified(a) || AnySpecified(b)
  {
    if AnySpecified(a + b) {
      var i :| 0 <= i < |a + b| && (a + b)[i].IsSpecified();
      if i < |a| {
        assert a[i] == (a + b)[i];
      } else {
        assert b[i - |a|] == (a + b)[i];
      }
    }
    if AnySpecified(a) {
      var i :| 0 <= i < |a| && a[i].IsSpecified();
      assert (a + b)[i] == a[i];
    }
    if AnySpecified(b) {
      var i :| 0 <= i < |b| && b[i].IsSpecified();
      assert (a + b)[|a| + i] == b[i];
    }
  }

  predicate AllBound(ms: seq<FlexMeasurement>) {
    forall i :: 0 <= i < |ms| ==> ms[i].base.Some?
  }

  function Floats(ms: seq<FlexMeasurement>): (r: seq<real>)
    requires AllBound(ms)
    ensures |r| == |ms|
  {
    seq(|ms|, i requires 0 <= i < |ms| => ms[i].Resolved())
  }

  /** The base setter of a compound: every component gets the same base. */
  function BindAll(ms: seq<FlexMeasurement>, b: real): (r: seq<FlexMeasurement>)
    ensures |r| == |ms| && AllBound(r)
  {
    seq(|ms|, i requires 0 <= i < |ms| => ms[i].WithBase(b))
  }

  /** A measurement as the layout code holds it: a single FlexMeasurement or a
      CompoundFlexMeasurement, the positive components minus the negative ones. */
  datatype Value =
    | Single(m: FlexMeasurement)
    | Compound(positive: seq<FlexMeasurement>, negative: seq<FlexMeasurement>)
  {
    function Static(): real {
      match this
      case Single(m) => m.Static()
      case Compound(pos, neg) => Sum(Statics(pos)) - Sum(Statics(neg))
    }

    function Relative(): real {
      match this
      case Single(m) => m.Relative()
      case Compound(pos, neg) => Sum(Relatives(pos)) - Sum(Relatives(neg))
    }

    /** Truthiness: a compound is true when any of its components is. */
    predicate Truthy() {
      match this
      case Single(m) => m.IsSpecified()
      case Compound(pos, neg) => AnySpecified(pos + neg)
    }

    predicate Bound() {
      match this
      case Single(m) => m.base.Some?
      case Compound(pos, neg) => AllBound(pos) && AllBound(neg)
    }

    function Resolve(): real
      requires Bound()
    {
      match this
      case Single(m) => m.Resolved()
      case Compound(pos, neg) => Sum(Floats(pos)) - Sum(Floats(neg))
    }

    /** float(v), which raises while some component has no base. */
    function Float(): (r: Result<real>)
      ensures r.Ok? <==> Bound()
      ensures r.Ok? ==> r.value == Resolve()
    {
      if Bound() then Ok(Resolve()) else Err(BaseNotSet)
    }

    /** The base getter: a compound has none. */
    function Base(): (r: Result<real>)
      ensures Compound? ==> r == Err(NotImplemented)
    {
      match this
      case Single(m) => m.Base()
      case Compound(_, _) => Err(NotImplemented)
    }

    /** The base setter. */
    function WithBase(b: real): (r: Value)
      ensures r.Bound()
      ensures r.Single? <==> Single?
    {
      match this
      case Single(m) => Single(m.WithBase(b))
      case Compound(pos, neg) => Compound(BindAll(pos, b), BindAll(neg, b))
    }
  }

  /** x is the static part s plus the relative part r of base b. */
  predicate Affine(x: real, s: real, r: real, b: real) {
    x == s + r * b
  }

  lemma {:induction false} SumFloatsSplit(ms: seq<FlexMeasurement>, b: real)
    ensures Affine(Sum(Floats(BindAll(ms, b))), Sum(Statics(ms)), Sum(Relatives(ms)), b)
    decreases |ms|
  {
    if ms != [] {
      var init := ms[..|ms| - 1];
      SumFloatsSplit(init, b);
      assert Floats(BindAll(ms, b))[..|ms| - 1] == Floats(BindAll(init, b));
      assert Statics(ms)[..|ms| - 1] == Statics(init);
      assert Relatives(ms)[..|ms| - 1] == Relatives(init);
      var last := ms[|ms| - 1];
      assert Floats(BindAll(ms, b))[|ms| - 1] == last.Static() + last.Relative() * b;
      AffineAdd(Sum(Floats(BindAll(init, b))), Sum(Statics(init)), Sum(Relatives(init)),
                last.Static() + last.Relative() * b, last.Static(), last.Relative(), b);
    }
  }

  lemma AffineAdd(x: real, s: real, r: real, y: real, t: real, q: real, b: real)
    requires Affine(x, s, r, b) && Affine(y, t, q, b)
    ensures Affine(x + y, s + t, r + q, b)
  {
    assert (r + q) * b == r * b + q * b;
  }

  lemma StaticsBound(ms: seq<FlexMeasurement>, b: real)
    ensures Statics(BindAll(ms, b)) == Statics(ms)
    ensures Relatives(BindAll(ms, b)) == Relatives(ms)
  {
  }

  lemma AnySpecifiedBound(ms: seq<FlexMeasurement>, b: real)
    ensures AnySpecified(BindAll(ms, b)) == AnySpecified(ms)
  {
    if AnySpecified(ms) {
      var i :| 0 <= i < |ms| && ms[i].IsSpecified();
      assert BindAll(ms, b)[i].IsSpecified();
    }
  }

  lemma CompoundResolves(pos: seq<FlexMeasurement>, neg: seq<FlexMeasurement>, b: real)
    ensures Affine(Compound(pos, neg).WithBase(b).Resolve(), Compound(pos, neg).Static(), Compound(pos, neg).Relative(), b)
  {
    BoundCompound(pos, neg, b);
    SumFloatsSplit(pos, b);
    SumFloatsSplit(neg, b);
    Distribute(Sum(Floats(BindAll(pos, b))), Sum(Floats(BindAll(neg, b))),
               Sum(Statics(pos)), Sum(Statics(neg)), Sum(Relatives(pos)), Sum(Relatives(neg)),
               Compound(pos, neg).Static(), Compound(pos, neg).Relative(), b);
  }

  lemma BoundCompound(pos: seq<FlexMeasurement>, neg: seq<FlexMeasurement>, b: real)
    ensures Compound(pos, neg).WithBase(b).Resolve() == Sum(Floats(BindAll(pos, b))) - Sum(Floats(BindAll(neg, b)))
  {
    assert Compound(pos, neg).WithBase(b) == Compound(BindAll(pos, b), BindAll(neg, b));
  }

  /** The arithmetic step of CompoundResolves, kept apart from the sequences. */
  lemma Distribute(xp: real, xn: real, sp: real, sn: real, rp: real, rn: real, s: real, r: real, b: real)
    requires Affine(xp, sp, rp, b) && Affine(xn, sn, rn, b)
    requires s == sp - sn && r == rp - rn
    ensures Affine(xp - xn, s, r, b)
  {
    assert r * b == rp * b - rn * b;
  }

  lemma SingleWithBase(m: FlexMeasurement, b: real)
    ensures Single(m).WithBase(b).Static() == m.Static()
    ensures Single(m).WithBase(b).Relative() == m.Relative()
    ensures Single(m).WithBase(b).Truthy() == m.IsSpecified()
    ensures Single(m).WithBase(b).Float() == Ok(m.Static() + m.Relative() * b)
  {
    var w := m.WithBase(b);
    assert Single(m).WithBase(b) == Single(w);
    assert w.Resolved() == m.Static() + m.Relative() * b;
  }

  /** Setting a base resolves every measurement to its static part plus its relative
      part times that base, and leaves both parts and the truthiness unchanged. */
  lemma ResolveWithBase(v: Value, b: real)
    ensures v.WithBase(b).Static() == v.Static()
    ensures v.WithBase(b).Relative() == v.Relative()
    ensures v.WithBase(b).Truthy() == v.Truthy()
    ensures v.WithBase(b).Float() == Ok(v.Static() + v.Relative() * b)
  {
    if v.Single? {
      SingleWithBase(v.m, b);
      var w := v.WithBase(b);
      assert v == Single(v.m);
      assert w.Float() == Ok(w.Resolve());
      assert w.Resolve() == v.Static() + v.Relative() * b;
    } else {
      CompoundWithBase(v, b);
    }
  }

  lemma CompoundWithBase(v: Value, b: real)
    requires v.Compound?
    ensures v.WithBase(b).Static() == v.Static()
    ensures v.WithBase(b).Relative() == v.Relative()
    ensures v.WithBase(b).Truthy() == v.Truthy()
    ensures v.WithBase(b).Float() == Ok(v.Static() + v.Relative() * b)
  {
    var pos, neg := v.positive, v.negative;
    StaticsBound(pos, b);
    StaticsBound(neg, b);
    assert BindAll(pos, b) + BindAll(neg, b) == BindAll(pos + neg, b);
    AnySpecifiedBound(pos + neg, b);
    CompoundResolves(pos, neg, b);
    var w := v.WithBase(b);
    assert v == Compound(pos, neg);
    assert w.Bound();
    assert w.Float() == Ok(w.Resolve());
    assert w.Resolve() == v.Static() + v.Relative() * b;
  }

  // ---- parsing ----

  /** The values a measurement can be given as. */
  datatype Input =
    | NoneValue             // None
    | Number(x: real)       // an int or a float
    | Text(s: string)       // a str: "12", "12.5", "25%"
    | Measure(v: Value)     // an existing FlexMeasurement or CompoundFlexMeasurement
    | Unsupported           // anything else

  /** FlexMeasurement.parse. */
  function Parse(i: Input): (r: Result<Value>)
    ensures i.Measure? ==> r == Ok(i.v)
    ensures i.Unsupported? ==> r == Err(ParseError)
    ensures r.Ok? && !i.Measure? ==> r.value.Single? && r.value.m.base.None?
  {
    match i
    case Measure(v) => Ok(v)
    case NoneValue => Ok(Single(Unspecified()))
    case Number(x) => Ok(Single(FlexMeasurement(Some(x), Some(0.0), None)))
    case Text(s) =>
      if '%' in s then
        (match Decimal.ParseNumber(Decimal.RemoveAll(s, '%'))
         case None => Err(ValueError)
         case Some(p) => Ok(Single(FlexMeasurement(Some(0.0), Some(p / 100.0), None))))
      else
        (match Decimal.ParseNumber(s)
         case None => Err(ValueError)
         case Some(x) => Ok(Single(FlexMeasurement(Some(x), Some(0.0), None))))
    case Unsupported => Err(ParseError)
  }

  /** None parses to a measurement that is false and resolves to 0 against any base. */
  lemma ParseNone(b: real)
    ensures Parse(NoneValue).Ok?
    ensures !Parse(NoneValue).value.Truthy()
    ensures Parse(NoneValue).value.WithBase(b).Float() == Ok(0.0)
  {
  }

  /** A number is an absolute length: it resolves to itself whatever the base. */
  lemma ParseNumberIsAbsolute(x: real, b: real)
    ensures Parse(Number(x)).Ok? && Parse(Number(x)).value.Truthy()
    ensures Parse(Number(x)).value.WithBase(b).Float() == Ok(x)
  {
  }

  /** "n%" parses to n hundredths, relative. */
  lemma ParsePercentValue(n: nat)
    ensures Parse(Text(Decimal.Render(n) + "%")) == Ok(Single(FlexMeasurement(Some(0.0), Some(n as real / 100.0), None)))
  {
    Decimal.PercentText(n);
  }

  /** A purely relative measurement resolves to its fraction of the base. */
  lemma RelativeResolves(p: real, b: real)
    ensures Single(FlexMeasurement(Some(0.0), Some(p), Some(b))).Resolve() == p * b
  {
    var m := FlexMeasurement(Some(0.0), Some(p), Some(b));
    assert m.Static() == 0.0 && m.Relative() == p;
  }

  /** A purely static measurement resolves to itself. */
  lemma StaticResolves(x: real, b: real)
    ensures Single(FlexMeasurement(Some(x), Some(0.0), Some(b))).Resolve() == x
  {
    var m := FlexMeasurement(Some(x), Some(0.0), Some(b));
    assert m.Static() == x && m.Relative() == 0.0;
  }

  /** A purely relative measurement, once given a base, floats to its share of it. */
  lemma RelativeFloat(p: real, b: real)
    ensures Single(FlexMeasurement(Some(0.0), Some(p), None)).WithBase(b).Float().Ok?
    ensures Single(FlexMeasurement(Some(0.0), Some(p), None)).WithBase(b).Float().value == p * b
  {
    var w := Single(FlexMeasurement(Some(0.0), Some(p), None)).WithBase(b);
    assert w == Single(FlexMeasurement(Some(0.0), Some(p), Some(b)));
    RelativeResolves(p, b);
    var f := w.Float();
    assert f.Ok? && f.value == w.Resolve();
  }

  /** "n" and "-n" parse to n and -n, absolute. */
  lemma ParseAbsoluteValue(n: nat)
    ensures Parse(Text(Decimal.Render(n))) == Ok(Single(FlexMeasurement(Some(n as real), Some(0.0), None)))
    ensures Parse(Text("-" + Decimal.Render(n))) == Ok(Single(FlexMeasurement(Some(-(n as real)), Some(0.0), None)))
  {
    var r := Decimal.Render(n);
    Decimal.ParseRendered(n);
    assert '%' !in r by {
      assert !Decimal.IsDigit('%');
    }
    assert '%' !in "-" + r by {
      assert ("-" + r)[1..] == r;
    }
  }

  /** "n" and "-n" are absolute lengths. */
  lemma ParseAbsoluteText(n: nat, b: real)
    ensures Parse(Text(Decimal.Render(n))).Ok?
    ensures Parse(Text(Decimal.Render(n))).value.WithBase(b).Float() == Ok(n as real)
    ensures Parse(Text("-" + Decimal.Render(n))).Ok?
    ensures Parse(Text("-" + Decimal.Render(n))).value.WithBase(b).Float() == Ok(-(n as real))
  {
    ParseAbsoluteValue(n);
    var v := Parse(Text(Decimal.Render(n))).value.WithBase(b);
    assert v == Single(FlexMeasurement(Some(n as real), Some(0.0), Some(b)));
    StaticResolves(n as real, b);
    assert v.Float() == Ok(v.Resolve());
    var u := Parse(Text("-" + Decimal.Render(n))).value.WithBase(b);
    assert u == Single(FlexMeasurement(Some(-(n as real)), Some(0.0), Some(b)));
    StaticResolves(-(n as real), b);
    assert u.Float() == Ok(u.Resolve());
  }

  // ---- comparison ----

  /** The right-hand side of `m == other`. */
  datatype Operand = OfMeasurement(other: FlexMeasurement) | OfFloat(x: real) | OfOther

  /** FlexMeasurement.__eq__. */
  function Equals(a: FlexMeasurement, o: Operand): (r: Result<bool>)
    ensures o.OfMeasurement? ==> r == Ok(a == o.other)
    ensures o.OfOther? ==> r == Ok(false)
  {
    match o
    case OfMeasurement(b) =>
      Ok(a.staticPart == b.staticPart && a.relativePart == b.relativePart && a.base == b.base)
    case OfFloat(x) =>
      var f :- a.Float();
      Ok(f == x)
    case OfOther => Ok(false)
  }

  /** Against a float, equality compares the resolved length, and needs a base. */
  lemma EqualsFloat(a: FlexMeasurement, x: real)
    ensures a.base.None? ==> Equals(a, OfFloat(x)) == Err(BaseNotSet)
    ensures a.base.Some? ==> Equals(a, OfFloat(x)) == Ok(a.Resolved() == x)
  {
  }

  // ---- FlexMeasurement.min / FlexMeasurement.max ----

  /** The floats of the truthy arguments, in order. */
  function TruthyFloats(vs: seq<Value>): (r: Result<seq<real>>)
    ensures r.Ok? ==> |r.value| <= |vs|
  {
    if vs == [] then Ok([])
    else
      var init :- TruthyFloats(vs[..|vs| - 1]);
      var last := vs[|vs| - 1];
      if last.Truthy() then
        var f :- last.Float();
        Ok(init + [f])
      else Ok(init)
  }

  /** FlexMeasurement.min: the least float of the truthy arguments, None if there are none. */
  function MinOf(vs: seq<Value>): Result<Option<real>>
  {
    var fs :- TruthyFloats(vs);
    if fs == [] then Ok(None) else Ok(Some(Min(fs)))
  }

  /** FlexMeasurement.max: the greatest float of the truthy arguments, None if there are none. */
  function MaxOf(vs: seq<Value>): Result<Option<real>>
  {
    var fs :- TruthyFloats(vs);
    if fs == [] then Ok(None) else Ok(Some(Max(fs)))
  }

  predicate TruthyBound(vs: seq<Value>) {
    forall i :: 0 <= i < |vs| && vs[i].Truthy() ==> vs[i].Bound()
  }

  /** The floats taken are exactly those of the truthy arguments. */
  lemma {:induction false} TruthyFloatsSpec(vs: seq<Value>)
    requires TruthyBound(vs)
    ensures TruthyFloats(vs).Ok?
    ensures forall i :: 0 <= i < |vs| && vs[i].Truthy() ==> vs[i].Resolve() in TruthyFloats(vs).value
    ensures forall x :: x in TruthyFloats(vs).value ==>
              exists i :: 0 <= i < |vs| && vs[i].Truthy() && vs[i].Resolve() == x
    ensures TruthyFloats(vs).value == [] <==> forall i :: 0 <= i < |vs| ==> !vs[i].Truthy()
    decreases |vs|
  {
    if vs != [] {
      var init := vs[..|vs| - 1];
      assert forall i :: 0 <= i < |init| ==> init[i] == vs[i];
      TruthyFloatsSpec(init);
    }
  }

  /** min over the truthy arguments: None exactly when none is truthy, otherwise the
      float of one of them that no truthy argument undercuts. */
  lemma MinOfSpec(vs: seq<Value>)
    requires TruthyBound(vs)
    ensures MinOf(vs).Ok?
    ensures MinOf(vs).value.None? <==> forall i :: 0 <= i < |vs| ==> !vs[i].Truthy()
    ensures MinOf(vs).value.Some? ==>
              (exists i :: 0 <= i < |vs| && vs[i].Truthy() && vs[i].Resolve() == MinOf(vs).value.value)
              && forall i :: 0 <= i < |vs| && vs[i].Truthy() ==> MinOf(vs).value.value <= vs[i].Resolve()
  {
    TruthyFloatsSpec(vs);
    var fs := TruthyFloats(vs).value;
    if fs != [] {
      var m := Min(fs);
      forall i | 0 <= i < |vs| && vs[i].Truthy()
        ensures m <= vs[i].Resolve()
      {
        var k :| 0 <= k < |fs| && fs[k] == vs[i].Resolve();
      }
    }
  }

  /** max over the truthy arguments, symmetrically. */
  lemma MaxOfSpec(vs: seq<Value>)
    requires TruthyBound(vs)
    ensures MaxOf(vs).Ok?
    ensures MaxOf(vs).value.None? <==> forall i :: 0 <= i < |vs| ==> !vs[i].Truthy()
    ensures MaxOf(vs).value.Some? ==>
              (exists i :: 0 <= i < |vs| && vs[i].Truthy() && vs[i].Resolve() == MaxOf(vs).value.value)
              && forall i :: 0 <= i < |vs| && vs[i].Truthy() ==> vs[i].Resolve() <= MaxOf(vs).value.value
  {
    TruthyFloatsSpec(vs);
    var fs := TruthyFloats(vs).value;
    if fs != [] {
      var m := Max(fs);
      forall i | 0 <= i < |vs| && vs[i].Truthy()
        ensures vs[i].Resolve() <= m
      {
        var k :| 0 <= k < |fs| && fs[k] == vs[i].Resolve();
      }
    }
  }

  // ---- addition and subtraction ----

  /** `a + b` for two measurements: the components are concatenated, positive with
      positive and negative with negative. */
  function Add(a: Value, b: Value): (r: Value)
    ensures r.Compound?
  {
    match (a, b)
    case (Single(x), Single(y)) => Compound([x, y], [])
    case (Single(x), Compound(p, n)) => Compound([x] + p, n)
    case (Compound(p, n), Single(y)) => Compound(p + [y], n)
    case (Compound(p1, n1), Compound(p2, n2)) => Compound(p1 + p2, n1 + n2)
  }

  /** `a + other` for anything on the right: a non-measurement is parsed first. */
  function Plus(a: Value, other: Input): (r: Result<Value>)
    ensures Parse(other).Ok? ==> r == Ok(Add(a, Parse(other).value))
    ensures Parse(other).Err? ==> r.Err?
  {
    var b :- Parse(other);
    Ok(Add(a, b))
  }

  lemma StaticsConcat(a: seq<FlexMeasurement>, b: seq<FlexMeasurement>)
    ensures Sum(Statics(a + b)) == Sum(Statics(a)) + Sum(Statics(b))
    ensures Sum(Relatives(a + b)) == Sum(Relatives(a)) + Sum(Relatives(b))
  {
    assert Statics(a + b) == Statics(a) + Statics(b);
    assert Relatives(a + b) == Relatives(a) + Relatives(b);
    SumConcat(Statics(a), Statics(b));
    SumConcat(Relatives(a), Relatives(b));
  }

  lemma FloatsConcat(a: seq<FlexMeasurement>, b: seq<FlexMeasurement>)
    requires AllBound(a) && AllBound(b)
    ensures AllBound(a + b)
    ensures Sum(Floats(a + b)) == Sum(Floats(a)) + Sum(Floats(b))
  {
    assert Floats(a + b) == Floats(a) + Floats(b);
    SumConcat(Floats(a), Floats(b));
  }

  /** The components a value adds and subtracts: a single measurement is one positive
      component. */
  function Positives(v: Value): seq<FlexMeasurement> {
    if v.Single? then [v.m] else v.positive
  }

  function Negatives(v: Value): seq<FlexMeasurement> {
    if v.Single? then [] else v.negative
  }

  /** Every value measures the same as the compound of its components. */
  lemma AsCompound(v: Value)
    ensures v.Static() == Compound(Positives(v), Negatives(v)).Static()
    ensures v.Relative() == Compound(Positives(v), Negatives(v)).Relative()
    ensures v.Bound() == Compound(Positives(v), Negatives(v)).Bound()
    ensures v.Bound() ==> v.Resolve() == Compound(Positives(v), Negatives(v)).Resolve()
  {
    if v.Single? {
      var x := v.m;
      assert Statics([x]) == [x.Static()] && Relatives([x]) == [x.Relative()];
      assert Statics([]) == [] && Relatives([]) == [];
      SumSingleton(x.Static());
      SumSingleton(x.Relative());
      if v.Bound() {
        assert Floats([x]) == [x.Resolved()] && Floats([]) == [];
        SumSingleton(x.Resolved());
      }
    }
  }

  lemma AddIsCompound(a: Value, b: Value)
    ensures Add(a, b) == Compound(Positives(a) + Positives(b), Negatives(a) + Negatives(b))
  {
    match (a, b)
    case (Single(x), Single(y)) =>
      assert [x] + [y] == [x, y];
    case (Single(x), Compound(p, n)) =>
      assert [] + n == n;
    case (Compound(p, n), Single(y)) =>
      assert n + [] == n;
    case (Compound(p1, n1), Compound(p2, n2)) =>
  }

  /** Joining two compounds adds their parts and, once bound, their lengths. */
  lemma CompoundJoin(p1: seq<FlexMeasurement>, n1: seq<FlexMeasurement>, p2: seq<FlexMeasurement>, n2: seq<FlexMeasurement>)
    ensures Compound(p1 + p2, n1 + n2).Static() == Compound(p1, n1).Static() + Compound(p2, n2).Static()
    ensures Compound(p1 + p2, n1 + n2).Relative() == Compound(p1, n1).Relative() + Compound(p2, n2).Relative()
    ensures Compound(p1, n1).Bound() && Compound(p2, n2).Bound() ==>
              Compound(p1 + p2, n1 + n2).Bound() &&
              Compound(p1 + p2, n1 + n2).Resolve() == Compound(p1, n1).Resolve() + Compound(p2, n2).Resolve()
  {
    StaticsConcat(p1, p2);
    StaticsConcat(n1, n2);
    if Compound(p1, n1).Bound() && Compound(p2, n2).Bound() {
      FloatsConcat(p1, p2);
      FloatsConcat(n1, n2);
    }
  }

  /** A sum keeps the static and relative parts of both terms, and once bound it
      resolves to the sum of their lengths. */
  lemma AddSpec(a: Value, b: Value)
    ensures Add(a, b).Static() == a.Static() + b.Static()
    ensures Add(a, b).Relative() == a.Relative() + b.Relative()
    ensures a.Bound() && b.Bound() ==> Add(a, b).Bound() && Add(a, b).Resolve() == a.Resolve() + b.Resolve()
  {
    AsCompound(a);
    AsCompound(b);
    AddIsCompound(a, b);
    CompoundJoin(Positives(a), Negatives(a), Positives(b), Negatives(b));
  }

  /** A sum is true when either term is. */
  lemma AddTruthy(a: Value, b: Value)
    ensures Add(a, b).Truthy() <==> a.Truthy() || b.Truthy()
  {
    match (a, b)
    case (Single(x), Single(y)) =>
      assert [x, y] + [] == [x] + [y];
      AnySpecifiedConcat([x], [y]);
      assert [x][0] == x && [y][0] == y;
    case (Single(x), Compound(p, n)) =>
      assert [x] + p + n == [x] + (p + n);
      AnySpecifiedConcat([x], p + n);
      assert [x][0] == x;
    case (Compound(p, n), Single(y)) =>
      assert p + [y] + n == (p + n) + [y] || true;
      AnySpecifiedConcat(p, [y]);
      AnySpecifiedConcat(p + [y], n);
      AnySpecifiedConcat(p, n);
      assert [y][0] == y;
    case (Compound(p1, n1), Compound(p2, n2)) =>
      AnySpecifiedConcat(p1 + p2, n1 + n2);
      AnySpecifiedConcat(p1, p2);
      AnySpecifiedConcat(n1, n2);
      AnySpecifiedConcat(p1, n1);
      AnySpecifiedConcat(p2, n2);
  }

  lemma FloatsSingleton(x: FlexMeasurement)
    requires x.base.Some?
    ensures Sum(Floats([x])) == x.Resolved()
  {
    assert Floats([x]) == [x.Resolved()];
    SumSingleton(x.Resolved());
  }

  /** `a - other` as written: for a single measurement minus a compound, `a` is put
      among the negative components, so the result is `-other - a`; a right-hand
      side that is not a measurement gives None. */
  function SubAsWritten(a: Value, other: Input): (r: Option<Value>)
    ensures r.Some? <==> other.Measure?
  {
    match other
    case Measure(b) =>
      (match (a, b)
       case (Single(x), Compound(p, n)) => Some(Compound(n, p + [x]))
       case (Single(x), Single(y)) => Some(Compound([x], [y]))
       case (Compound(p1, n1), Compound(p2, n2)) => Some(Compound(p1 + n2, n1 + p2))
       case (Compound(p, n), Single(y)) => Some(Compound(p, n + [y])))
    case _ => None
  }

  /** `a - other` with the single-minus-compound case corrected to `a` plus the
      compound's negative part minus its positive part. */
  function Sub(a: Value, other: Input): (r: Option<Value>)
    ensures r.Some? <==> other.Measure?
  {
    match other
    case Measure(b) =>
      (match (a, b)
       case (Single(x), Compound(p, n)) => Some(Compound([x] + n, p))
       case (Single(x), Single(y)) => Some(Compound([x], [y]))
       case (Compound(p1, n1), Compound(p2, n2)) => Some(Compound(p1 + n2, n1 + p2))
       case (Compound(p, n), Single(y)) => Some(Compound(p, n + [y])))
    case _ => None
  }

  /** The corrected subtraction differs from the written one only for a single
      measurement minus a compound. */
  lemma SubAgreesElsewhere(a: Value, other: Input)
    requires !(a.Single? && other.Measure? && other.v.Compound?)
    ensures Sub(a, other) == SubAsWritten(a, other)
  {
  }

  /** Once bound, a difference resolves to the difference of the lengths. */
  lemma SubResolves(a: Value, b: Value)
    requires a.Bound() && b.Bound()
    ensures Sub(a, Measure(b)).Some?
    ensures Sub(a, Measure(b)).value.Bound()
    ensures Sub(a, Measure(b)).value.Resolve() == a.Resolve() - b.Resolve()
  {
    var r := Sub(a, Measure(b)).value;
    match (a, b)
    case (Single(x), Compound(p, n)) =>
      FloatsConcat([x], n);
      FloatsSingleton(x);
    case (Single(x), Single(y)) =>
      FloatsSingleton(x);
      FloatsSingleton(y);
    case (Compound(p1, n1), Compound(p2, n2)) =>
      FloatsConcat(p1, n2);
      FloatsConcat(n1, p2);
    case (Compound(p, n), Single(y)) =>
      FloatsConcat(n, [y]);
      FloatsSingleton(y);
  }

  /** As written, a single measurement minus a compound resolves to minus both:
      the single measurement enters with the wrong sign. */
  lemma SubAsWrittenReversesSign(x: FlexMeasurement, p: seq<FlexMeasurement>, n: seq<FlexMeasurement>)
    requires x.base.Some? && AllBound(p) && AllBound(n)
    ensures SubAsWritten(Single(x), Measure(Compound(p, n))).Some?
    ensures SubAsWritten(Single(x), Measure(Compound(p, n))).value.Bound()
    ensures SubAsWritten(Single(x), Measure(Compound(p, n))).value.Resolve()
            == -Compound(p, n).Resolve() - x.Resolved()
  {
    FloatsConcat(p, [x]);
    FloatsSingleton(x);
    assert Compound(p, n).Resolve() == Sum(Floats(p)) - Sum(Floats(n));
  }

  /** 10 - (3) evaluates to -13 as written, where 7 is meant. */
  lemma SubAsWrittenCounterexample()
    ensures var ten, three := FlexMeasurement(Some(10.0), Some(0.0), Some(0.0)), FlexMeasurement(Some(3.0), Some(0.0), Some(0.0));
            SubAsWritten(Single(ten), Measure(Compound([three], []))).value.Resolve() == -13.0
            && Sub(Single(ten), Measure(Compound([three], []))).value.Resolve() == 7.0
  {
    var ten, three := FlexMeasurement(Some(10.0), Some(0.0), Some(0.0)), FlexMeasurement(Some(3.0), Some(0.0), Some(0.0));
    SubAsWrittenReversesSign(ten, [three], []);
    SubResolves(Single(ten), Compound([three], []));
    FloatsSingleton(three);
  }

  // ---- frames ----

  /** FlexFrame: four sides, with the compound spans `width` (right + left) and
      `height` (top + bottom). */
  datatype FlexFrame = FlexFrame(top: Value, right: Value, bottom: Value, left: Value)
  {
    function Width(): Value {
      Add(right, left)
    }

    function Height(): Value {
      Add(top, bottom)
    }

    /** `frame.width.base = b`: the base of the right and left sides. */
    function WithWidthBase(b: real): FlexFrame {
      this.(right := right.WithBase(b), left := left.WithBase(b))
    }

    /** `frame.height.base = b`: the base of the top and bottom sides. */
    function WithHeightBase(b: real): FlexFrame {
      this.(top := top.WithBase(b), bottom := bottom.WithBase(b))
    }
  }

  lemma BindAllConcat(p: seq<FlexMeasurement>, q: seq<FlexMeasurement>, b: real)
    ensures BindAll(p + q, b) == BindAll(p, b) + BindAll(q, b)
  {
  }

  lemma AddWithBase(x: Value, y: Value, b: real)
    ensures Add(x.WithBase(b), y.WithBase(b)) == Add(x, y).WithBase(b)
  {
    match (x, y)
    case (Single(u), Single(v)) =>
    case (Single(u), Compound(p, n)) =>
      BindAllConcat([u], p, b);
    case (Compound(p, n), Single(v)) =>
      BindAllConcat(p, [v], b);
    case (Compound(p1, n1), Compound(p2, n2)) =>
      BindAllConcat(p1, p2, b);
      BindAllConcat(n1, n2, b);
  }

  /** Setting the width base binds the whole width span, resolving it to its static
      part plus its relative part times the base, and leaves the height span alone;
      symmetrically for the height base. */
  lemma FrameSpanBases(f: FlexFrame, w: real, h: real)
    ensures f.WithWidthBase(w).Width() == f.Width().WithBase(w)
    ensures f.WithWidthBase(w).Height() == f.Height()
    ensures f.WithHeightBase(h).Height() == f.Height().WithBase(h)
    ensures f.WithHeightBase(h).Width() == f.Width()
    ensures f.WithWidthBase(w).Width().Float() == Ok(f.Width().Static() + f.Width().Relative() * w)
    ensures f.WithHeightBase(h).Height().Float() == Ok(f.Height().Static() + f.Height().Relative() * h)
  {
    AddWithBase(f.right, f.left, w);
    AddWithBase(f.top, f.bottom, h);
    ResolveWithBase(f.Width(), w);
    ResolveWithBase(f.Height(), h);
  }

  /** FlexFrame(*values): CSS shorthand for one to four values; any other count
      leaves all four sides unspecified. */
  function Shorthand(values: seq<Input>): Result<FlexFrame>
  {
    if |values| == 1 then
      var a :- Parse(values[0]);
      Ok(FlexFrame(a, a, a, a))
    else if |values| == 2 then
      var a :- Parse(values[0]);
      var b :- Parse(values[1]);
      Ok(FlexFrame(a, b, a, b))
    else if |values| == 3 then
      var a :- Parse(values[0]);
      var b :- Parse(values[1]);
      var c :- Parse(values[2]);
      Ok(FlexFrame(a, b, c, b))
    else if |values| == 4 then
      var a :- Parse(values[0]);
      var b :- Parse(values[1]);
      var c :- Parse(values[2]);
      var d :- Parse(values[3]);
      Ok(FlexFrame(a, b, c, d))
    else
      Ok(DefaultFrame())
  }

  /** FlexFrame(): every side None. */
  function DefaultFrame(): FlexFrame {
    var none := Single(Unspecified());
    FlexFrame(none, none, none, none)
  }

  /** Which of the given values each side takes: top is the first; right the second
      if given, else the first; bottom the third if given, else the first; left the
      fourth if given, else the right. */
  lemma ShorthandSides(values: seq<Input>)
    requires 1 <= |values| <= 4
    requires forall i :: 0 <= i < |values| ==> Parse(values[i]).Ok?
    ensures Shorthand(values).Ok?
    ensures var f, n := Shorthand(values).value, |values|;
            var right := if n >= 2 then 1 else 0;
            f.top == Parse(values[0]).value
            && f.right == Parse(values[right]).value
            && f.bottom == Parse(values[if n >= 3 then 2 else 0]).value
            && f.left == Parse(values[if n == 4 then 3 else right]).value
  {
  }

  /** Any other number of values gives the default frame, whatever the values are. */
  lemma ShorthandOtherCounts(values: seq<Input>)
    requires |values| == 0 || |values| > 4
    ensures Shorthand(values) == Ok(DefaultFrame())
    ensures !Shorthand(values).value.Width().Truthy() && !Shorthand(values).value.Height().Truthy()
  {
    AddTruthy(Single(Unspecified()), Single(Unspecified()));
  }

  /** A value that does not parse makes the whole frame fail. */
  lemma ShorthandFails(values: seq<Input>, i: nat)
    requires 1 <= |values| <= 4 && i < |values|
    requires Parse(values[i]).Err?
    ensures Shorthand(values).Err?
  {
  }

  /** What can be assigned to a frame attribute (margin, border, padding, frame). */
  datatype FrameInput =
    | AFrame(frame: FlexFrame)     // a FlexFrame, stored as it is
    | One(value: Input)            // a str, int, float, measurement or None
    | Several(values: seq<Input>)  // an iterable, spread as FlexFrame(*values)

  /** FlexFrameDescriptor.__set__. */
  function AssignFrame(fi: FrameInput): (r: Result<FlexFrame>)
    ensures fi.AFrame? ==> r == Ok(fi.frame)
    ensures fi.Several? ==> r == Shorthand(fi.values)
    ensures fi.One? && fi.value.Unsupported? ==> r == Err(TypeError)
  {
    match fi
    case AFrame(f) => Ok(f)
    case One(i) => if i.Unsupported? then Err(TypeError) else Shorthand([i])
    case Several(vs) => Shorthand(vs)
  }

  /** A single assigned value applies to all four sides. */
  lemma AssignOneToAllSides(i: Input)
    requires Parse(i).Ok?
    ensures AssignFrame(One(i)) == Ok(FlexFrame(Parse(i).value, Parse(i).value, Parse(i).value, Parse(i).value))
  {
  }
}
