/** The value-level functions of the expression API that normalise their arguments before
    building a node: interval literals, string slicing, casting, clipping and substitution. */
module ValueApi {
  import opened Common
  import opened Text
  import opened DataTypes
  import opened Generic

  // ---------------------------------------------------------------------------
  // interval

  /** The unit codes of `interval`'s keyword arguments, in parameter order: years, quarters,
      months, weeks, days, hours, minutes, seconds, milliseconds, microseconds, nanoseconds. */
  const KeywordUnits: seq<string> := ["Y", "Q", "M", "W", "D", "h", "m", "s", "ms", "us", "ns"]

  /** The `value` argument of `interval`. */
  datatype IntervalValue =
    | NoValue                     // `None`
    | IntValue(n: int)            // an `int` that is not a `bool`
    | BoolValue(b: bool)          // a `bool`, which passes the `int` test and is kept as it is
    | TimedeltaValue(micros: int) // a `datetime.timedelta`, by its length in microseconds
    | OtherValue                  // anything else

  /** `int(x)` for the quotient `a / b` of two integers: rounds toward zero. */
  function TruncatedQuotient(a: int, b: int): (q: int)
    requires b > 0
    ensures 0 <= a ==> 0 <= a - q * b < b
    ensures a < 0 ==> -b < a - q * b <= 0
  {
    if a >= 0 then a / b else -((-a) / b)
  }

  /** The positions, from `from` on, of the keyword arguments that were given, in order. */
  function GivenPositions(amounts: seq<Option<int>>, from: nat): (ps: seq<nat>)
    requires from <= |amounts|
    ensures forall k :: 0 <= k < |ps| ==> from <= ps[k] < |amounts| && amounts[ps[k]].Some?
    ensures forall i :: from <= i < |amounts| && amounts[i].Some? ==> i in ps
    ensures forall k, l :: 0 <= k < l < |ps| ==> ps[k] < ps[l]
    decreases |amounts| - from
  {
    if from == |amounts| then []
    else (if amounts[from].Some? then [from] else []) + GivenPositions(amounts, from + 1)
  }

  /** Exactly one keyword argument is given, the one at position `i`. */
  ghost predicate OnlyGiven(amounts: seq<Option<int>>, i: int) {
    0 <= i < |amounts| && amounts[i].Some? && forall j :: 0 <= j < |amounts| && amounts[j].Some? ==> j == i
  }

  /** The value and unit `interval` settles on. With a `value`: a timedelta becomes its whole
      seconds, cut toward zero, in unit `s`; an integer or a boolean is kept with the given
      unit; anything else raises ValueError. Without one: exactly one keyword argument must be
      given, else ValueError, and its code is the unit. */
  function IntervalArgs(value: IntervalValue, unit: string, amounts: seq<Option<int>>): (r: Result<(PyValue, string)>)
    requires |amounts| == |KeywordUnits|
    ensures value.TimedeltaValue? ==> r == Ok((PyInt(TruncatedQuotient(value.micros, 1000000)), "s"))
    ensures value.IntValue? ==> r == Ok((PyInt(value.n), unit))
    ensures value.BoolValue? ==> r == Ok((PyBool(value.b), unit))
    ensures value.OtherValue? ==> r == Err(ValueError)
    ensures value.NoValue? ==> (r.Ok? <==> exists i :: OnlyGiven(amounts, i))
    ensures value.NoValue? && r.Err? ==> r.error == ValueError
    ensures value.NoValue? && r.Ok? ==>
              exists i :: OnlyGiven(amounts, i) && r.value == (PyInt(amounts[i].value), KeywordUnits[i])
  {
    match value
    case TimedeltaValue(micros) => Ok((PyInt(TruncatedQuotient(micros, 1000000)), "s"))
    case IntValue(n) => Ok((PyInt(n), unit))
    case BoolValue(b) => Ok((PyBool(b), unit))
    case OtherValue => Err(ValueError)
    case NoValue =>
      var ps := GivenPositions(amounts, 0);
      forall i | OnlyGiven(amounts, i) ensures ps == [i] {
        OnlyGivenPosition(amounts, i, 0);
      }
      if |ps| != 1 then Err(ValueError)
      else
        assert OnlyGiven(amounts, ps[0]);
        Ok((PyInt(amounts[ps[0]].value), KeywordUnits[ps[0]]))
  }

  /** When one keyword argument alone is given, its position is the only one found. */
  lemma {:induction false} OnlyGivenPosition(amounts: seq<Option<int>>, i: int, from: nat)
    requires OnlyGiven(amounts, i) && from <= |amounts|
    ensures GivenPositions(amounts, from) == if from <= i then [i] else []
    decreases |amounts| - from
  {
    if from < |amounts| {
      OnlyGivenPosition(amounts, i, from + 1);
    }
  }

  /** The type `literal(v)` infers for an integer or a boolean: booleans are boolean, and the
      type of an integer is left to the data type module. */
  function InferredType(rules: Rules, v: PyValue): DType
    requires v.PyInt? || v.PyBool?
  {
    if v.PyBool? then Boolean else rules.inferInteger(v.i)
  }

  /** `interval(...)`: a literal of the settled value, typed as an interval of the settled unit
      over the type `literal` infers for the value. */
  function IntervalLiteral(rules: Rules, value: IntervalValue, unit: string, amounts: seq<Option<int>>): (r: Result<Literal>)
    requires |amounts| == |KeywordUnits|
    ensures r.Ok? <==> IntervalArgs(value, unit, amounts).Ok?
    ensures r.Err? ==> r.error == ValueError
    ensures r.Ok? ==> var (v, u) := IntervalArgs(value, unit, amounts).value;
                      r.value.value == v && r.value.dtype.Interval? && r.value.dtype.unit == u
    ensures r.Ok? && value.BoolValue? ==> r.value == Literal(PyBool(value.b), Interval(unit, Boolean))
    ensures r.Ok? && !value.BoolValue? ==> r.value.value.PyInt?
    ensures r.Ok? && r.value.value.PyInt? ==> r.value.dtype.valueType == rules.inferInteger(r.value.value.i)
  {
    var (v, u) :- IntervalArgs(value, unit, amounts);
    Ok(Literal(v, Interval(u, InferredType(rules, v))))
  }

  /** `interval(True)` and `interval(1)` build different literals unless integers are inferred
      to be boolean: the first holds a `bool` typed as a boolean interval. This is a fact about
      the model, in which building the interval type does not validate its value type. */
  lemma BoolIntervalIsNotIntInterval(rules: Rules, unit: string, amounts: seq<Option<int>>)
    requires |amounts| == |KeywordUnits| && rules.inferInteger(1) != Boolean
    ensures var t := IntervalLiteral(rules, BoolValue(true), unit, amounts);
            var one := IntervalLiteral(rules, IntValue(1), unit, amounts);
            t.Ok? && one.Ok? &&
            !LiteralEquals(t.value, LiteralNode(one.value)) && !LiteralEquals(one.value, LiteralNode(t.value))
  {
  }

  /** The eleven keyword arguments with only the one at position `i` given. */
  function OneKeyword(i: nat, n: int): (amounts: seq<Option<int>>)
    requires i < |KeywordUnits|
    ensures |amounts| == |KeywordUnits| && OnlyGiven(amounts, i) && amounts[i] == Some(n)
  {
    seq(|KeywordUnits|, j requires 0 <= j < |KeywordUnits| => if j == i then Some(n) else None)
  }

  /** Interval literals built from different keyword arguments are unequal, whatever their
      amounts: `interval(seconds=1)` differs from `interval(minutes=1)`, and so does
      `interval(seconds=60)`. */
  lemma IntervalKeywordsDiffer(rules: Rules, i: nat, j: nat, m: int, n: int)
    requires i < |KeywordUnits| && j < |KeywordUnits| && i != j
    ensures var a := IntervalLiteral(rules, NoValue, "s", OneKeyword(i, m));
            var b := IntervalLiteral(rules, NoValue, "s", OneKeyword(j, n));
            a.Ok? && b.Ok? && !LiteralEquals(a.value, LiteralNode(b.value))
  {
    var a := OneKeyword(i, m);
    var b := OneKeyword(j, n);
    var ra := IntervalArgs(NoValue, "s", a);
    var rb := IntervalArgs(NoValue, "s", b);
    var ia :| OnlyGiven(a, ia) && ra.value == (PyInt(a[ia].value), KeywordUnits[ia]);
    var ib :| OnlyGiven(b, ib) && rb.value == (PyInt(b[ib].value), KeywordUnits[ib]);
    assert ia == i && ib == j;
    assert KeywordUnits[i] != KeywordUnits[j];
  }

  /** An integer literal never equals an interval literal of the same amount, as long as
      integers are not inferred to be intervals. */
  lemma IntegerIsNotInterval(rules: Rules, n: int)
    requires !rules.inferInteger(n).Interval?
    ensures var b := IntervalLiteral(rules, NoValue, "s", OneKeyword(7, n));
            b.Ok? && !LiteralEquals(Literal(PyInt(n), rules.inferInteger(n)), LiteralNode(b.value))
  {
  }

  // ---------------------------------------------------------------------------
  // String slicing

  /** An integer-valued term of the expression being built: a number, an expression the
      caller supplied (identified by a number), the string's length, or a difference. */
  datatype IntTerm = Lit(n: int) | ExprTerm(id: nat) | LengthOf | Minus(a: IntTerm, b: IntTerm)

  /** A slice bound or step: absent, a Python `int`, or an expression. */
  datatype Bound = NoBound | IntBound(n: int) | ExprBound(id: nat)

  /** The key of `s[key]`. */
  datatype Key = SliceKey(start: Bound, stop: Bound, step: Bound) | IntKey(i: int) | OtherKey

  /** `substr(start, length)`. */
  datatype Substr = Substr(start: IntTerm, length: IntTerm)

  /** `a - b`: two numbers subtract at once; anything else builds a subtraction. */
  function Sub(a: IntTerm, b: IntTerm): IntTerm {
    if a.Lit? && b.Lit? then Lit(a.n - b.n) else Minus(a, b)
  }

  /** The value of a term, given the string's length and the values of supplied expressions. */
  function Eval(t: IntTerm, length: int, env: nat -> int): int {
    match t
    case Lit(n) => n
    case ExprTerm(id) => env(id)
    case LengthOf => length
    case Minus(a, b) => Eval(a, length, env) - Eval(b, length, env)
  }

  /** A bound as a term, with the default for an absent one. */
  function BoundTerm(b: Bound, default: IntTerm): IntTerm {
    match b
    case NoBound => default
    case IntBound(n) => Lit(n)
    case ExprBound(id) => ExprTerm(id)
  }

  /** A bound that is a negative number. */
  predicate NegativeBound(b: Bound) {
    b.IntBound? && b.n < 0
  }

  /** String `__getitem__`. A slice must have no step, an expression step or a step of 1, and
      neither a negative start nor a negative stop number (ValueError otherwise); start defaults
      to 0 and stop to the string's length, and the result is `substr(start, stop - start)`.
      An integer `i` gives `substr(i, 1)`; any other key raises NotImplementedError. */
  function StringGetItem(key: Key): (r: Result<Substr>)
    ensures key.IntKey? ==> r == Ok(Substr(Lit(key.i), Lit(1)))
    ensures key.OtherKey? ==> r == Err(NotImplementedError)
    ensures key.SliceKey? ==>
              (r.Err? <==> (key.step.IntBound? && key.step.n != 1) || NegativeBound(key.start) || NegativeBound(key.stop))
    ensures key.SliceKey? && r.Err? ==> r.error == ValueError
    ensures key.SliceKey? && r.Ok? ==> r.value.start == BoundTerm(key.start, Lit(0))
  {
    match key
    case IntKey(i) => Ok(Substr(Lit(i), Lit(1)))
    case OtherKey => Err(NotImplementedError)
    case SliceKey(start, stop, step) =>
      if step.IntBound? && step.n != 1 then Err(ValueError)
      else if NegativeBound(start) then Err(ValueError)
      else if NegativeBound(stop) then Err(ValueError)
      else
        var startTerm := BoundTerm(start, Lit(0));
        var stopTerm := BoundTerm(stop, LengthOf);
        Ok(Substr(startTerm, Sub(stopTerm, startTerm)))
  }

  /** A slice selects from its start up to its stop: the length term always evaluates to the
      stop minus the start, with 0 and the string's length standing in for absent bounds. */
  lemma SliceSpansStartToStop(start: Bound, stop: Bound, step: Bound, length: int, env: nat -> int)
    requires StringGetItem(SliceKey(start, stop, step)).Ok?
    ensures var s := StringGetItem(SliceKey(start, stop, step)).value;
            Eval(s.start, length, env) == Eval(BoundTerm(start, Lit(0)), length, env) &&
            Eval(s.length, length, env) == Eval(BoundTerm(stop, LengthOf), length, env) - Eval(BoundTerm(start, Lit(0)), length, env)
  {
  }

  /** Slicing with two numbers builds no subtraction: the length is their difference. */
  lemma LiteralSliceLength(a: nat, b: nat)
    ensures StringGetItem(SliceKey(IntBound(a), IntBound(b), NoBound)) == Ok(Substr(Lit(a), Lit(b - a)))
  {
  }

  // ---------------------------------------------------------------------------
  // cast

  /** What `cast` returns: the argument itself, or a new cast expression with its name. */
  datatype CastResult = SameArg | NewCast(value: Value, name: Option<string>)

  /** `arg.type().geotype or 'geometry'` for a spatial type. */
  function FromGeotype(t: DType): string
    requires IsSpatial(t)
  {
    match Geotype(t)
    case None => "geometry"
    case Some(g) => if g == "" then "geometry" else g
  }

  /** `cast(arg, target_type)`. Casting to the argument's own type returns the argument. A
      geography or geometry target returns the argument when the argument's geotype (geometry
      by default) is the target's; a non-spatial argument has no geotype, an AttributeError.
      Otherwise a cast node shaped like the argument, named `cast(<name>, <type>)` when the
      argument has a name. Casting that result to the same type again returns it, by the first
      rule. */
  function Cast(rules: Rules, arg: Value, argName: Option<string>, to: DType): (r: Result<CastResult>)
    ensures to == arg.dtype ==> r == Ok(SameArg)
    ensures r.Err? <==> to != arg.dtype && (to.Geography? || to.Geometry?) && !IsSpatial(arg.dtype)
    ensures r.Err? ==> r.error == AttributeError
    ensures r == Ok(SameArg) <==>
              to == arg.dtype ||
              ((to.Geography? || to.Geometry?) && IsSpatial(arg.dtype) && Some(FromGeotype(arg.dtype)) == Geotype(to))
    ensures r.Ok? && r.value.NewCast? ==> r.value.value == Value(to, arg.shape)
    ensures r.Ok? && r.value.NewCast? ==>
              r.value.name == match argName
                              case None => None
                              case Some(n) => Some("cast(" + n + ", " + rules.render(to) + ")")
  {
    if to == arg.dtype then Ok(SameArg)
    else if (to.Geography? || to.Geometry?) && !IsSpatial(arg.dtype) then Err(AttributeError)
    else if (to.Geography? || to.Geometry?) && Some(FromGeotype(arg.dtype)) == Geotype(to) then Ok(SameArg)
    else
      var result := CastOutput(arg, to);
      match argName
      case None => Ok(NewCast(result, None))
      case Some(n) => Ok(NewCast(result, Some("cast(" + n + ", " + rules.render(to) + ")")))
  }

  /** A geometry value whose geotype is unset is already a geometry: casting it to geometry
      returns it. */
  lemma UnsetGeotypeIsGeometry(rules: Rules, kind: string, shape: Shape, argName: Option<string>)
    ensures Cast(rules, Value(GeoSpatial(kind, None), shape), argName, Geometry) == Ok(SameArg)
  {
  }

  // ---------------------------------------------------------------------------
  // clip

  /** The arguments of a `Clip` node. */
  datatype Clip = Clip(arg: Value, lower: Option<Value>, upper: Option<Value>)

  /** `clip(arg, lower, upper)`: at least one bound is required (ValueError otherwise). */
  function ClipApi(arg: Value, lower: Option<Value>, upper: Option<Value>): (r: Result<Clip>)
    ensures r.Ok? <==> lower.Some? || upper.Some?
    ensures r.Err? ==> r.error == ValueError
    ensures r.Ok? ==> r.value.arg == arg && r.value.lower == lower && r.value.upper == upper
  {
    if lower.None? && upper.None? then Err(ValueError) else Ok(Clip(arg, lower, upper))
  }

  // ---------------------------------------------------------------------------
  // substitute

  /** What `substitute` replaces: one value by a replacement (a missing replacement is a null
      literal), or every key of a mapping by its value. */
  datatype Substitution = Single(value: Value, replacement: Option<Value>) | Mapping(pairs: Dict<Value>)

  /** A string key as the literal value it is compared with. */
  const KeyValue: Value := Value(String, Scalar)

  /** The null literal a missing replacement stands for. */
  const NullValue: Value := Value(Null, Scalar)

  /** The results for a list of keys, in that order. */
  function ResultsFor(pairs: Dict<Value>, keys: seq<string>): (rs: seq<Value>)
    requires forall i :: 0 <= i < |keys| ==> keys[i] in Keys(pairs)
    ensures |rs| == |keys|
    ensures forall i :: 0 <= i < |keys| ==> rs[i] == Lookup(pairs, keys[i])
  {
    seq(|keys|, i requires 0 <= i < |keys| => Lookup(pairs, keys[i]))
  }

  /** The sorted keys of a mapping are its keys. */
  lemma SortedKeysAreKeys(pairs: Dict<Value>)
    requires DistinctKeys(pairs)
    ensures forall i :: 0 <= i < |Sort(Keys(pairs))| ==> Sort(Keys(pairs))[i] in Keys(pairs)
  {
    var names := Sort(Keys(pairs));
    forall i | 0 <= i < |names| ensures names[i] in Keys(pairs) {
      assert names[i] in multiset(names);
    }
  }

  /** `substitute(arg, value, replacement, else_)`: a CASE on `arg` with one branch per
      replaced value (for a mapping, one per key in ascending order of key) and the `else_`
      value, or `arg` itself, as default. The case builder takes only values comparable with
      `arg` (TypeError otherwise) and needs at least one branch, so an empty mapping raises
      ExpressionError. */
  function Substitute(rules: Rules, arg: Value, subst: Substitution, elseValue: Option<Value>): (r: Result<SimpleCase>)
    requires subst.Mapping? ==> DistinctKeys(subst.pairs)
    ensures subst.Single? ==> (r.Ok? <==> rules.comparable(arg.dtype, subst.value.dtype))
    ensures subst.Mapping? ==> (r.Ok? <==> |subst.pairs| > 0 && rules.comparable(arg.dtype, KeyValue.dtype))
    ensures r.Err? ==> r.error == if subst.Mapping? && subst.pairs == [] then ExpressionError else TypeError
    ensures r.Ok? ==> r.value.base == arg
    ensures r.Ok? ==> r.value.default == match elseValue case Some(e) => e case None => arg
    ensures r.Ok? && subst.Single? ==>
              r.value.cases == [subst.value] &&
              r.value.results == [match subst.replacement case Some(v) => v case None => NullValue]
    ensures r.Ok? && subst.Mapping? ==>
              |r.value.cases| == |r.value.results| == |subst.pairs| &&
              (forall i :: 0 <= i < |r.value.cases| ==> r.value.cases[i] == KeyValue)
  {
    var default := match elseValue case Some(e) => e case None => arg;
    match subst
    case Single(value, replacement) =>
      if !rules.comparable(arg.dtype, value.dtype) then Err(TypeError)
      else
        var result := match replacement case Some(v) => v case None => NullValue;
        Ok(SimpleCase(arg, [value], [result], default))
    case Mapping(pairs) =>
      if pairs == [] then Err(ExpressionError)
      else if !rules.comparable(arg.dtype, KeyValue.dtype) then Err(TypeError)
      else
        var keys := Sort(Keys(pairs));
        SortedKeysAreKeys(pairs);
        assert |keys| == |pairs| by {
          assert |multiset(keys)| == |multiset(Keys(pairs))|;
        }
        var cases := seq(|keys|, i => KeyValue);
        Ok(SimpleCase(arg, cases, ResultsFor(pairs, keys), default))
  }

  /** A mapping's values in ascending order of key, the results of the CASE it builds. */
  function SortedResults(pairs: Dict<Value>): (rs: seq<Value>)
    requires DistinctKeys(pairs)
    ensures |rs| == |Sort(Keys(pairs))|
    ensures forall i :: 0 <= i < |rs| ==>
              Sort(Keys(pairs))[i] in Keys(pairs) && rs[i] == Lookup(pairs, Sort(Keys(pairs))[i])
  {
    SortedKeysAreKeys(pairs);
    ResultsFor(pairs, Sort(Keys(pairs)))
  }

  /** `substitute(...)` as it returns: `expr.end()` turns the CASE into an expression, whose
      type is the highest precedence of the results and the default (IbisTypeError when they
      have none) and whose shape is the argument's. A refusal of the case builder comes first. */
  function SubstituteExpr(rules: Rules, arg: Value, subst: Substitution, elseValue: Option<Value>): (r: Result<Value>)
    requires subst.Mapping? ==> DistinctKeys(subst.pairs)
    ensures Substitute(rules, arg, subst, elseValue).Err? ==> r == Err(Substitute(rules, arg, subst, elseValue).error)
    ensures var default := match elseValue case Some(e) => e case None => arg;
            subst.Single? ==>
              var result := match subst.replacement case Some(v) => v case None => NullValue;
              (r.Ok? <==> rules.comparable(arg.dtype, subst.value.dtype) &&
                          rules.highestPrecedence([result.dtype, default.dtype]).Some?) &&
              (r.Ok? ==> Some(r.value.dtype) == rules.highestPrecedence([result.dtype, default.dtype]))
    ensures var default := match elseValue case Some(e) => e case None => arg;
            subst.Mapping? ==>
              var results := SortedResults(subst.pairs);
              (r.Ok? <==> |subst.pairs| > 0 && rules.comparable(arg.dtype, KeyValue.dtype) &&
                          rules.highestPrecedence(Types(results + [default])).Some?) &&
              (r.Ok? ==> Some(r.value.dtype) == rules.highestPrecedence(Types(results + [default])))
    ensures Substitute(rules, arg, subst, elseValue).Ok? && r.Err? ==> r.error == IbisTypeError([])
    ensures r.Ok? ==> r.value.shape == arg.shape
  {
    var c :- Substitute(rules, arg, subst, elseValue);
    assert subst.Single? ==> Types(c.results + [c.default]) == [c.results[0].dtype, c.default.dtype];
    SimpleCaseOutput(rules, c)
  }

  /** The CASE `substitute` builds always has as many results as cases, so it passes the node's
      own arity check; for a mapping, its results are the mapping's values in ascending order
      of key. */
  lemma SubstituteBuildsValidCase(rules: Rules, arg: Value, subst: Substitution, elseValue: Option<Value>)
    requires subst.Mapping? ==> DistinctKeys(subst.pairs)
    requires Substitute(rules, arg, subst, elseValue).Ok?
    ensures var c := Substitute(rules, arg, subst, elseValue).value;
            NewSimpleCase(c.base, c.cases, c.results, c.default) == Ok(c)
    ensures subst.Mapping? ==>
              var keys := Sort(Keys(subst.pairs));
              (forall i :: 0 <= i < |keys| ==> keys[i] in Keys(subst.pairs)) &&
              Substitute(rules, arg, subst, elseValue).value.results == ResultsFor(subst.pairs, keys)
  {
    if subst.Mapping? {
      SortedKeysAreKeys(subst.pairs);
    }
  }
}
