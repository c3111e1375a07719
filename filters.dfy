/**
 * The filter algebra: single-attribute predicates on close approaches, the
 * factory that builds them from optional criteria, their conjunction as the
 * database's query applies it, and the limiting of a result stream.
 */
module Filters {
  import opened Wrappers
  import opened Records

  /** The three comparators a filter may carry. */
  datatype Op = Eq | Le | Ge

  /**
   * Which attribute a filter extracts. `Base` is the general filter class,
   * whose extraction is not overridden.
   */
  datatype Kind = Base | Designation | CalendarDate | Distance | Velocity | Diameter | Hazardous

  /** An attribute or reference value. */
  datatype Value = Text(s: string) | Day(d: Date) | Number(f: Float) | Flag(b: bool)

  /** What evaluating a filter can raise. */
  datatype FilterError =
    | UnsupportedCriterion  // the base class's extraction was called
    | MissingNeo            // the approach is not linked to an object
    | IncomparableTypes     // an ordering comparison between values of different types

  /** A filter: compare the attribute of kind `kind` with `value` (on the right) by `op`. */
  datatype Filter = Filter(kind: Kind, op: Op, value: Value)

  /** String ordering: lexicographic by character. */
  predicate TextLe(s: string, t: string) {
    if s == [] then true
    else if t == [] then false
    else if s[0] != t[0] then s[0] < t[0]
    else TextLe(s[1..], t[1..])
  }

  lemma {:induction false} TextLeReflexive(s: string)
    ensures TextLe(s, s)
  {
    if s != [] {
      TextLeReflexive(s[1..]);
    }
  }

  lemma {:induction false} TextLeAntisymmetric(s: string, t: string)
    requires TextLe(s, t) && TextLe(t, s)
    ensures s == t
  {
    if s != [] && t != [] {
      TextLeAntisymmetric(s[1..], t[1..]);
      assert s == [s[0]] + s[1..];
      assert t == [t[0]] + t[1..];
    }
  }

  /** Both values have the same type, so that an ordering comparison between them is defined. */
  predicate SameType(x: Value, y: Value) {
    (x.Text? && y.Text?) || (x.Day? && y.Day?) || (x.Number? && y.Number?) || (x.Flag? && y.Flag?)
  }

  /** The value is the not-a-number sentinel. */
  predicate IsNaN(x: Value) {
    x.Number? && x.f.NaN?
  }

  /** `x <= y` on two values of one type; a comparison involving NaN is false; `False < True`. */
  predicate Ordered(x: Value, y: Value)
    requires SameType(x, y)
  {
    match x
    case Text(s) => TextLe(s, y.s)
    case Day(d) => DateLe(d, y.d)
    case Number(f) => f.Finite? && y.f.Finite? && f.x <= y.f.x
    case Flag(b) => !b || y.b
  }

  /**
   * `op(x, y)`. Equality between values of different types is false;
   * an ordering between them raises.
   */
  function Compare(op: Op, x: Value, y: Value): (r: Result<bool, FilterError>)
    ensures r.Err? <==> op != Eq && !SameType(x, y)
    ensures r.Err? ==> r.error == IncomparableTypes
    ensures op == Eq && r == Ok(true) ==> x == y && !IsNaN(x)
    ensures op == Eq && x == y && !IsNaN(x) ==> r == Ok(true)
    ensures op == Le && SameType(x, y) ==> r == Ok(Ordered(x, y))
    ensures op == Ge && SameType(x, y) ==> r == Ok(Ordered(y, x))
  {
    match op
    case Eq => Ok(x == y && !IsNaN(x))
    case Le => if SameType(x, y) then Ok(Ordered(x, y)) else Err(IncomparableTypes)
    case Ge => if SameType(x, y) then Ok(Ordered(y, x)) else Err(IncomparableTypes)
  }

  /** On values of one type without NaN, `<=` and `>=` together amount to `==`. */
  lemma CompareLeGeIsEq(x: Value, y: Value)
    requires SameType(x, y) && !IsNaN(x) && !IsNaN(y)
    ensures (Compare(Le, x, y) == Ok(true) && Compare(Ge, x, y) == Ok(true)) <==> Compare(Eq, x, y) == Ok(true)
  {
    match x
    case Text(s) =>
      if TextLe(s, y.s) && TextLe(y.s, s) {
        TextLeAntisymmetric(s, y.s);
      }
      if x == y {
        TextLeReflexive(s);
      }
    case Day(d) =>
    case Number(f) =>
    case Flag(b) =>
  }

  /** The kinds whose extraction goes through the approach's object. */
  predicate ReadsNeo(kind: Kind) {
    kind == Designation || kind == Diameter || kind == Hazardous
  }

  /**
   * The attribute of kind `kind` of approach `a`. The base kind always raises;
   * a kind that reads the object raises on an unlinked approach.
   */
  function Get(kind: Kind, a: CloseApproach): (r: Result<Value, FilterError>)
    reads a
    ensures r.Err? <==> kind == Base || (ReadsNeo(kind) && a.neo == null)
    ensures kind == Base ==> r == Err(UnsupportedCriterion)
    ensures r.Ok? ==> (r.value.Text? <==> kind == Designation)
    ensures r.Ok? ==> (r.value.Day? <==> kind == CalendarDate)
    ensures r.Ok? ==> (r.value.Number? <==> kind in {Distance, Velocity, Diameter})
    ensures r.Ok? ==> (r.value.Flag? <==> kind == Hazardous)
  {
    match kind
    case Base => Err(UnsupportedCriterion)
    case Designation => if a.neo == null then Err(MissingNeo) else Ok(Text(a.neo.designation))
    case CalendarDate => Ok(Day(a.time.date))
    case Distance => Ok(Number(Finite(a.distance)))
    case Velocity => Ok(Number(Finite(a.velocity)))
    case Diameter => if a.neo == null then Err(MissingNeo) else Ok(Number(a.neo.diameter))
    case Hazardous => if a.neo == null then Err(MissingNeo) else Ok(Flag(a.neo.hazardous))
  }

  /**
   * Calling filter `f` on approach `a`: extract the attribute, then compare it,
   * on the left, with the reference value, on the right.
   */
  function Apply(f: Filter, a: CloseApproach): (r: Result<bool, FilterError>)
    reads a
    ensures r.Err? <==> Get(f.kind, a).Err? || (f.op != Eq && !SameType(Get(f.kind, a).value, f.value))
    ensures Get(f.kind, a).Err? ==> r == Err(Get(f.kind, a).error)
  {
    match Get(f.kind, a)
    case Err(e) => Err(e)
    case Ok(attribute) => Compare(f.op, attribute, f.value)
  }

  /**
   * A designation filter compares the designation of the approach's object,
   * on the left, with the reference string, on the right.
   */
  lemma DesignationFilterMeaning(t: string, a: CloseApproach)
    requires a.neo != null
    ensures Apply(Filter(Designation, Eq, Text(t)), a) == Ok(a.neo.designation == t)
    ensures Apply(Filter(Designation, Le, Text(t)), a) == Ok(TextLe(a.neo.designation, t))
    ensures Apply(Filter(Designation, Ge, Text(t)), a) == Ok(TextLe(t, a.neo.designation))
  {
  }

  /** Every filter in `filters` holds of `a`. */
  predicate Passes(filters: seq<Filter>, a: CloseApproach)
    reads a
  {
    forall f :: f in filters ==> Apply(f, a) == Ok(true)
  }

  /**
   * `all(f(a) for f in filters)`: the filters are called in order, the first
   * false one ends the evaluation, and an error raised by a call propagates.
   */
  function AllHold(filters: seq<Filter>, a: CloseApproach): (r: Result<bool, FilterError>)
    reads a
    ensures r == Ok(true) <==> Passes(filters, a)
    ensures r.Err? ==> exists f :: f in filters && Apply(f, a) == Err(r.error)
    ensures (forall f :: f in filters ==> Apply(f, a).Ok?) ==> r.Ok?
  {
    if filters == [] then Ok(true)
    else match Apply(filters[0], a)
      case Err(e) => Err(e)
      case Ok(holds) => if holds then AllHold(filters[1..], a) else Ok(false)
  }

  /**
   * The optional criteria of a query, one per command-line option;
   * `None` means the option was not given.
   */
  datatype Criteria = Criteria(
    date: Option<Date>, startDate: Option<Date>, endDate: Option<Date>,
    distanceMin: Option<real>, distanceMax: Option<real>,
    velocityMin: Option<real>, velocityMax: Option<real>,
    diameterMin: Option<real>, diameterMax: Option<real>,
    hazardous: Option<bool>)

  /** No criterion given. */
  const NoCriteria := Criteria(None, None, None, None, None, None, None, None, None, None)

  function Given<T>(o: Option<T>): (r: nat) {
    if o.Some? then 1 else 0
  }

  /** How many criteria were given. */
  function GivenCount(c: Criteria): (r: nat) {
    Given(c.date) + Given(c.startDate) + Given(c.endDate)
    + Given(c.distanceMin) + Given(c.distanceMax)
    + Given(c.velocityMin) + Given(c.velocityMax)
    + Given(c.diameterMin) + Given(c.diameterMax)
    + Given(c.hazardous)
  }

  /** The filter a date criterion asks for: equality for an exact date, inclusive bounds for a range. */
  predicate DateRequested(c: Criteria, f: Filter) {
    match f
    case Filter(_, Eq, Day(d)) => c.date == Some(d)
    case Filter(_, Ge, Day(d)) => c.startDate == Some(d)
    case Filter(_, Le, Day(d)) => c.endDate == Some(d)
    case _ => false
  }

  /** The filter a numeric bound asks for: `>=` for the minimum, `<=` for the maximum. */
  predicate BoundRequested(lo: Option<real>, hi: Option<real>, f: Filter) {
    match f
    case Filter(_, Ge, Number(Finite(x))) => lo == Some(x)
    case Filter(_, Le, Number(Finite(x))) => hi == Some(x)
    case _ => false
  }

  /** Which filters the criteria ask for, kind by kind. */
  predicate Requested(c: Criteria, f: Filter) {
    match f.kind
    case CalendarDate => DateRequested(c, f)
    case Distance => BoundRequested(c.distanceMin, c.distanceMax, f)
    case Velocity => BoundRequested(c.velocityMin, c.velocityMax, f)
    case Diameter => BoundRequested(c.diameterMin, c.diameterMax, f)
    case Hazardous => f.op == Eq && f.value.Flag? && c.hazardous == Some(f.value.b)
    case Base => false
    case Designation => false
  }

  /** The date filters, for the exact date, the start date and the end date. */
  function DateFilters(c: Criteria): (r: seq<Filter>)
    ensures |r| == Given(c.date) + Given(c.startDate) + Given(c.endDate)
    ensures forall f :: f in r <==> f.kind == CalendarDate && DateRequested(c, f)
  {
    (if c.date.Some? then [Filter(CalendarDate, Eq, Day(c.date.value))] else [])
    + (if c.startDate.Some? then [Filter(CalendarDate, Ge, Day(c.startDate.value))] else [])
    + (if c.endDate.Some? then [Filter(CalendarDate, Le, Day(c.endDate.value))] else [])
  }

  /** The filters for a minimum and a maximum on one numeric kind. */
  function BoundFilters(kind: Kind, lo: Option<real>, hi: Option<real>): (r: seq<Filter>)
    ensures |r| == Given(lo) + Given(hi)
    ensures forall f :: f in r <==> f.kind == kind && BoundRequested(lo, hi, f)
  {
    (if lo.Some? then [Filter(kind, Ge, Number(Finite(lo.value)))] else [])
    + (if hi.Some? then [Filter(kind, Le, Number(Finite(hi.value)))] else [])
  }

  /** The filters for the distance, velocity and diameter bounds. */
  function NumericFilters(c: Criteria): (r: seq<Filter>)
    ensures |r| == Given(c.distanceMin) + Given(c.distanceMax) + Given(c.velocityMin)
      + Given(c.velocityMax) + Given(c.diameterMin) + Given(c.diameterMax)
    ensures forall f :: f in r <==> f.kind in {Distance, Velocity, Diameter} && Requested(c, f)
  {
    BoundFilters(Distance, c.distanceMin, c.distanceMax)
    + BoundFilters(Velocity, c.velocityMin, c.velocityMax)
    + BoundFilters(Diameter, c.diameterMin, c.diameterMax)
  }

  /** The hazard filter, when a hazard criterion is given. */
  function HazardFilters(c: Criteria): (r: seq<Filter>)
    ensures |r| == Given(c.hazardous)
    ensures forall f :: f in r <==> f.kind == Hazardous && Requested(c, f)
  {
    if c.hazardous.Some? then [Filter(Hazardous, Eq, Flag(c.hazardous.value))] else []
  }

  /**
   * The filters for the given criteria, one per criterion given, in the order
   * of the parameter list.
   */
  function CreateFilters(c: Criteria): (r: seq<Filter>)
    ensures |r| == GivenCount(c)
    ensures forall f :: f in r <==> Requested(c, f)
  {
    DateFilters(c) + NumericFilters(c) + HazardFilters(c)
  }

  /** With no criterion given there is no filter. */
  lemma CreateFiltersNone()
    ensures CreateFilters(NoCriteria) == []
  {
  }

  /**
   * `hazardous = false` asks for non-hazardous objects, while an absent
   * hazard criterion asks for no hazard filter at all.
   */
  lemma HazardousFalseIsNotAbsent(c: Criteria)
    ensures c.hazardous == Some(false) ==> Filter(Hazardous, Eq, Flag(false)) in CreateFilters(c)
    ensures c.hazardous == None ==> forall f :: f in CreateFilters(c) ==> f.kind != Hazardous
  {
  }

  /** `v` lies within the optional bounds; NaN lies within no bound. */
  predicate Within(lo: Option<real>, hi: Option<real>, v: Float) {
    && (lo.Some? ==> v.Finite? && v.x >= lo.value)
    && (hi.Some? ==> v.Finite? && v.x <= hi.value)
  }

  /** `d` meets the exact date and the inclusive date range. */
  predicate OnDates(c: Criteria, d: Date) {
    && (c.date.Some? ==> d == c.date.value)
    && (c.startDate.Some? ==> DateLe(c.startDate.value, d))
    && (c.endDate.Some? ==> DateLe(d, c.endDate.value))
  }

  /** The approach's distance, velocity and its object's diameter lie within the given bounds. */
  predicate InBounds(c: Criteria, a: CloseApproach)
    reads a
    requires a.neo != null
  {
    && Within(c.distanceMin, c.distanceMax, Finite(a.distance))
    && Within(c.velocityMin, c.velocityMax, Finite(a.velocity))
    && Within(c.diameterMin, c.diameterMax, a.neo.diameter)
  }

  /** What the criteria mean for a linked approach, attribute by attribute. */
  predicate Satisfies(c: Criteria, a: CloseApproach)
    reads a
    requires a.neo != null
  {
    && OnDates(c, a.time.date)
    && InBounds(c, a)
    && (c.hazardous.Some? ==> a.neo.hazardous == c.hazardous.value)
  }

  /** Evaluating the concatenation of two filter lists evaluates the second only when the first holds. */
  lemma {:induction false} AllHoldConcat(xs: seq<Filter>, ys: seq<Filter>, a: CloseApproach)
    requires AllHold(xs, a).Ok?
    ensures AllHold(xs + ys, a) == if AllHold(xs, a).value then AllHold(ys, a) else Ok(false)
  {
    if xs != [] {
      assert (xs + ys)[0] == xs[0];
      assert (xs + ys)[1..] == xs[1..] + ys;
      if Apply(xs[0], a) == Ok(true) {
        AllHoldConcat(xs[1..], ys, a);
        assert AllHold(xs + ys, a) == AllHold(xs[1..] + ys, a);
      } else {
        assert Apply(xs[0], a) == Ok(false);
      }
    } else {
      assert xs + ys == ys;
    }
  }

  lemma DateFiltersMeaning(c: Criteria, a: CloseApproach)
    ensures AllHold(DateFilters(c), a) == Ok(OnDates(c, a.time.date))
  {
    var x := if c.date.Some? then [Filter(CalendarDate, Eq, Day(c.date.value))] else [];
    var y := if c.startDate.Some? then [Filter(CalendarDate, Ge, Day(c.startDate.value))] else [];
    var z := if c.endDate.Some? then [Filter(CalendarDate, Le, Day(c.endDate.value))] else [];
    AllHoldConcat(x, y, a);
    AllHoldConcat(x + y, z, a);
  }

  lemma BoundFiltersMeaning(kind: Kind, lo: Option<real>, hi: Option<real>, a: CloseApproach, v: Float)
    requires Get(kind, a) == Ok(Number(v))
    ensures AllHold(BoundFilters(kind, lo, hi), a) == Ok(Within(lo, hi, v))
  {
  }

  lemma NumericFiltersMeaning(c: Criteria, a: CloseApproach)
    requires a.neo != null
    ensures AllHold(NumericFilters(c), a) == Ok(InBounds(c, a))
  {
    var di := BoundFilters(Distance, c.distanceMin, c.distanceMax);
    var ve := BoundFilters(Velocity, c.velocityMin, c.velocityMax);
    var dm := BoundFilters(Diameter, c.diameterMin, c.diameterMax);
    BoundFiltersMeaning(Distance, c.distanceMin, c.distanceMax, a, Finite(a.distance));
    BoundFiltersMeaning(Velocity, c.velocityMin, c.velocityMax, a, Finite(a.velocity));
    BoundFiltersMeaning(Diameter, c.diameterMin, c.diameterMax, a, a.neo.diameter);
    AllHoldConcat(di, ve, a);
    AllHoldConcat(di + ve, dm, a);
  }

  /**
   * The filters built from the criteria never raise on a linked approach,
   * and together they hold exactly when the approach satisfies the criteria.
   */
  lemma CreateFiltersMeaning(c: Criteria, a: CloseApproach)
    requires a.neo != null
    ensures AllHold(CreateFilters(c), a) == Ok(Satisfies(c, a))
  {
    var d, nu, h := DateFilters(c), NumericFilters(c), HazardFilters(c);
    DateFiltersMeaning(c, a);
    NumericFiltersMeaning(c, a);
    HazardFiltersMeaning(c, a);
    AllHoldConcat(d, nu, a);
    assert AllHold(d + nu, a) == Ok(OnDates(c, a.time.date) && InBounds(c, a));
    AllHoldConcat(d + nu, h, a);
  }

  lemma HazardFiltersMeaning(c: Criteria, a: CloseApproach)
    requires a.neo != null
    ensures AllHold(HazardFilters(c), a) == Ok(c.hazardous.Some? ==> a.neo.hazardous == c.hazardous.value)
  {
    if c.hazardous.Some? {
      var f := Filter(Hazardous, Eq, Flag(c.hazardous.value));
      assert Get(Hazardous, a) == Ok(Flag(a.neo.hazardous));
      assert Apply(f, a) == Ok(a.neo.hazardous == c.hazardous.value);
      assert HazardFilters(c)[1..] == [];
    }
  }

  /**
   * The first `n` items of `s`, or all of them when `n` is absent or below 1.
   */
  function Limit<T>(s: seq<T>, n: Option<int>): (r: seq<T>)
    ensures r <= s
    ensures |r| == if n.Some? && n.value >= 1 then Min(n.value, |s|) else |s|
  {
    if n.Some? && n.value >= 1 && n.value < |s| then s[..n.value] else s
  }

  function Min(x: int, y: int): (r: int) {
    if x <= y then x else y
  }

  /** Without a positive limit the stream passes through unchanged. */
  lemma LimitPassesThrough<T>(s: seq<T>, n: Option<int>)
    requires n.None? || n.value < 1
    ensures Limit(s, n) == s
  {
  }

  /** A positive limit keeps exactly the first items, whatever follows them. */
  lemma LimitIgnoresRest<T>(s: seq<T>, t: seq<T>, n: int)
    requires 1 <= n <= |s|
    ensures Limit(s + t, Some(n)) == s[..n]
  {
  }

  /** Limiting twice by the same bound is limiting once. */
  lemma LimitIdempotent<T>(s: seq<T>, n: Option<int>)
    ensures Limit(Limit(s, n), n) == Limit(s, n)
  {
  }
}
