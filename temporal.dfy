/** Temporal operation nodes: the unit-name tables, truncation, date/time/timestamp arithmetic
    with intervals, intervals built from integers, interval arithmetic and field extraction. */
module Temporal {
  import opened Common
  import opened DataTypes

  /** Accepted spellings of the date units, each mapped to its one-letter code. */
  const DateUnits: map<string, string> := map[
    "Y" := "Y", "y" := "Y", "year" := "Y", "YEAR" := "Y",
    "YYYY" := "Y", "SYYYY" := "Y", "YYY" := "Y", "YY" := "Y",
    "Q" := "Q", "q" := "Q", "quarter" := "Q", "QUARTER" := "Q",
    "M" := "M", "month" := "M", "MONTH" := "M",
    "w" := "W", "W" := "W", "week" := "W", "WEEK" := "W",
    "d" := "D", "D" := "D", "J" := "D", "day" := "D", "DAY" := "D"
  ]

  /** Accepted spellings of the time units. The two spellings of "microsecond" map to the
      millisecond code, exactly as the source's table has them. */
  const TimeUnits: map<string, string> := map[
    "h" := "h", "H" := "h", "HH24" := "h", "hour" := "h", "HOUR" := "h",
    "m" := "m", "MI" := "m", "minute" := "m", "MINUTE" := "m",
    "s" := "s", "second" := "s", "SECOND" := "s",
    "ms" := "ms", "millisecond" := "ms", "MILLISECOND" := "ms",
    "us" := "us", "microsecond" := "ms", "MICROSECOND" := "ms",
    "ns" := "ns", "nanosecond" := "ns", "NANOSECOND" := "ns"
  ]

  /** `toolz.merge(date_units, time_units)`: on a shared key the time table would win. */
  const TimestampUnits: map<string, string> := DateUnits + TimeUnits

  const DateCodes: set<string> := {"Y", "Q", "M", "W", "D"}
  const TimeCodes: set<string> := {"h", "m", "s", "ms", "us", "ns"}
  const IntervalCodes: set<string> := DateCodes + TimeCodes

  lemma DateUnitsRange()
    ensures forall k :: k in DateUnits ==> DateUnits[k] in DateCodes
  {
  }

  lemma TimeUnitsRange()
    ensures forall k :: k in TimeUnits ==> TimeUnits[k] in TimeCodes
  {
  }

  /** Every date spelling starts with one of these letters, with these lengths for the
      letters that time spellings also start with. */
  predicate DateSpelling(k: string) {
    k != [] && k[0] in "YySQqMmwWdDJ" &&
    (k[0] == 'S' ==> |k| == 5) && (k[0] == 'M' ==> |k| in {1, 5}) && (k[0] == 'm' ==> |k| == 5)
  }

  predicate TimeSpelling(k: string) {
    k != [] && k[0] in "hHmMsSunN" &&
    (k[0] == 'S' ==> |k| == 6) && (k[0] == 'M' ==> |k| in {2, 6, 11}) && (k[0] == 'm' ==> |k| in {1, 2, 6, 11})
  }

  lemma DateSpellingShapes()
    ensures forall k :: k in DateUnits ==> DateSpelling(k)
  {
  }

  lemma TimeSpellingShapes()
    ensures forall k :: k in TimeUnits ==> TimeSpelling(k)
  {
  }

  lemma SpellingsDiffer(k: string)
    ensures !(DateSpelling(k) && TimeSpelling(k))
  {
  }

  /** No spelling is both a date unit and a time unit, and no code is both. */
  lemma UnitTablesDisjoint()
    ensures DateUnits.Keys !! TimeUnits.Keys
    ensures DateCodes !! TimeCodes
  {
    DateSpellingShapes();
    TimeSpellingShapes();
    forall k | k in DateUnits
      ensures k !in TimeUnits
    {
      SpellingsDiffer(k);
    }
  }

  /** The merged table is the union of the two and agrees with each of them on its own keys. */
  lemma TimestampUnitsMerge()
    ensures TimestampUnits.Keys == DateUnits.Keys + TimeUnits.Keys
    ensures forall k :: k in DateUnits ==> TimestampUnits[k] == DateUnits[k]
    ensures forall k :: k in TimeUnits ==> TimestampUnits[k] == TimeUnits[k]
    ensures forall k :: k in TimestampUnits ==> TimestampUnits[k] in IntervalCodes
  {
    UnitTablesDisjoint();
    DateUnitsRange();
    TimeUnitsRange();
  }

  lemma MicrosecondIsMillisecond()
    ensures TimeUnits["microsecond"] == "ms" && TimeUnits["MICROSECOND"] == "ms"
    ensures TimeUnits["us"] == "us"
  {
  }

  /** Normalising is idempotent: every code is a key of its table and maps to itself. */
  lemma CodesNormaliseToThemselves()
    ensures forall c :: c in DateCodes ==> c in DateUnits && DateUnits[c] == c
    ensures forall c :: c in TimeCodes ==> c in TimeUnits && TimeUnits[c] == c
  {
  }

  // ---------------------------------------------------------------------------
  // Truncation

  datatype TruncateKind = TimestampTruncate | DateTruncate | TimeTruncate

  /** The argument type a truncation accepts, which is also its output type. */
  function TruncateOperand(kind: TruncateKind): DType {
    match kind
    case TimestampTruncate => Timestamp
    case DateTruncate => Date
    case TimeTruncate => Time
  }

  function TruncateUnits(kind: TruncateKind): map<string, string> {
    match kind
    case TimestampTruncate => TimestampUnits
    case DateTruncate => DateUnits
    case TimeTruncate => TimeUnits
  }

  /** A validated truncation node; `unit` holds the normalised code. */
  datatype Truncate = Truncate(kind: TruncateKind, arg: Value, unit: string)

  /** Construction: the argument must have the operand type and the unit must be one of the
      table's spellings; the node keeps the code that spelling maps to. */
  function NewTruncate(kind: TruncateKind, arg: Value, unit: string): (r: Result<Truncate>)
    ensures r.Ok? <==> arg.dtype == TruncateOperand(kind) && unit in TruncateUnits(kind)
    ensures r.Ok? ==> r.value.kind == kind && r.value.arg == arg
    ensures r.Ok? && kind == DateTruncate ==> r.value.unit in DateCodes
    ensures r.Ok? && kind == TimeTruncate ==> r.value.unit in TimeCodes
    ensures r.Ok? && kind == TimestampTruncate ==> r.value.unit in IntervalCodes
  {
    if arg.dtype != TruncateOperand(kind) then Err(IbisTypeError([]))
    else if unit !in TruncateUnits(kind) then Err(IbisTypeError([unit]))
    else
      DateUnitsRange();
      TimeUnitsRange();
      TimestampUnitsMerge();
      Ok(Truncate(kind, arg, TruncateUnits(kind)[unit]))
  }

  /** A truncation keeps its argument's type and shape. */
  function TruncateOutput(node: Truncate): (v: Value)
    ensures v.dtype == TruncateOperand(node.kind) && v.shape == node.arg.shape
  {
    ShapeLike([node.arg], TruncateOperand(node.kind))
  }

  /** A unit spelling a date or time truncation accepts is accepted by a timestamp truncation
      too, and normalises to the same code there. */
  lemma TimestampTruncateAcceptsDateAndTimeUnits(arg: Value, unit: string)
    requires arg.dtype == Timestamp
    requires unit in DateUnits || unit in TimeUnits
    ensures NewTruncate(TimestampTruncate, arg, unit).Ok?
    ensures unit in DateUnits ==> NewTruncate(TimestampTruncate, arg, unit).value.unit == DateUnits[unit]
    ensures unit in TimeUnits ==> NewTruncate(TimestampTruncate, arg, unit).value.unit == TimeUnits[unit]
  {
    TimestampUnitsMerge();
  }

  // ---------------------------------------------------------------------------
  // Adding and subtracting intervals

  datatype TemporalArith = DateAdd | DateSub | TimeAdd | TimeSub | TimestampAdd | TimestampSub

  function ArithOperand(op: TemporalArith): DType {
    match op
    case DateAdd | DateSub => Date
    case TimeAdd | TimeSub => Time
    case TimestampAdd | TimestampSub => Timestamp
  }

  /** The interval units the right operand may have. */
  function ArithUnits(op: TemporalArith): set<string> {
    match op
    case DateAdd | DateSub => DateCodes
    case TimeAdd | TimeSub => TimeCodes
    case TimestampAdd | TimestampSub => IntervalCodes
  }

  /** The output of a date/time/timestamp plus or minus an interval: the left operand's type
      and shape, once the left operand has the operand type and the right one is an interval
      in an allowed unit. */
  function TemporalArithmetic(op: TemporalArith, left: Value, right: Value): (r: Result<Value>)
    ensures r.Ok? <==>
      left.dtype == ArithOperand(op) && right.dtype.Interval? && right.dtype.unit in ArithUnits(op)
    ensures r.Ok? ==> r.value == left
  {
    if left.dtype != ArithOperand(op) then Err(IbisTypeError([]))
    else if !right.dtype.Interval? || right.dtype.unit !in ArithUnits(op) then Err(IbisTypeError([]))
    else Ok(ShapeLike([left], left.dtype))
  }

  datatype TemporalDiff = DateDiff | TimeDiff | TimestampDiff

  function DiffOperand(op: TemporalDiff): DType {
    match op
    case DateDiff => Date
    case TimeDiff => Time
    case TimestampDiff => Timestamp
  }

  /** The difference of two dates is an interval of days; of two times or timestamps, of seconds. */
  function TemporalDifference(op: TemporalDiff, left: Value, right: Value): (r: Result<Value>)
    ensures r.Ok? <==> left.dtype == DiffOperand(op) && right.dtype == DiffOperand(op)
    ensures r.Ok? ==> r.value.shape == left.shape && r.value.dtype.Interval?
    ensures r.Ok? ==> r.value.dtype.unit == (if op == DateDiff then "D" else "s")
  {
    if left.dtype != DiffOperand(op) || right.dtype != DiffOperand(op) then Err(IbisTypeError([]))
    else Ok(ShapeLike([left], Interval(if op == DateDiff then "D" else "s", DefaultIntervalValue)))
  }

  /** A difference can be added back: the interval a difference yields is accepted by the
      addition on the same kind of operand, which gives back the left operand's type. */
  lemma DifferenceAddsBack(op: TemporalDiff, left: Value, right: Value)
    requires TemporalDifference(op, left, right).Ok?
    ensures
      var add := match op case DateDiff => DateAdd case TimeDiff => TimeAdd case TimestampDiff => TimestampAdd;
      TemporalArithmetic(add, left, TemporalDifference(op, left, right).value) == Ok(left)
  {
  }

  // ---------------------------------------------------------------------------
  // Intervals built from integers, and interval arithmetic

  /** An integer becomes an interval of the given unit whose value type is the integer's type. */
  function IntervalFromInteger(arg: Value, unit: string): (r: Result<Value>)
    ensures r.Ok? <==> IsInteger(arg.dtype) && unit in IntervalCodes
    ensures r.Ok? ==> r.value == Value(Interval(unit, arg.dtype), arg.shape)
  {
    if !IsInteger(arg.dtype) then Err(IbisTypeError([]))
    else if unit !in IntervalCodes then Err(IbisTypeError([unit]))
    else Ok(ShapeLike([arg], Interval(unit, arg.dtype)))
  }

  /** Which temporal arithmetic accepts an interval built from an integer depends on its unit
      alone: timestamps take every unit, dates only date units, times only time units. */
  lemma IntervalFromIntegerAddable(arg: Value, unit: string, left: Value)
    requires IntervalFromInteger(arg, unit).Ok?
    ensures left.dtype == Timestamp ==> TemporalArithmetic(TimestampAdd, left, IntervalFromInteger(arg, unit).value).Ok?
    ensures left.dtype == Date ==> (TemporalArithmetic(DateAdd, left, IntervalFromInteger(arg, unit).value).Ok? <==> unit in DateCodes)
    ensures left.dtype == Time ==> (TemporalArithmetic(TimeAdd, left, IntervalFromInteger(arg, unit).value).Ok? <==> unit in TimeCodes)
  {
  }

  /** An interval's value as a plain number: `arg.cast(arg.type().value_type)` for an interval. */
  function Unwrap(v: Value): (u: Value)
    ensures u.shape == v.shape
    ensures v.dtype.Interval? ==> u.dtype == v.dtype.valueType
    ensures !v.dtype.Interval? ==> u == v
  {
    if v.dtype.Interval? then Value(v.dtype.valueType, v.shape) else v
  }

  /** IntervalAdd and IntervalSubtract take two intervals; IntervalMultiply and
      IntervalFloorDivide an interval and a number. The result keeps the left operand's unit,
      its value type is the numeric result over the unwrapped value types, and it is
      broadcast over both operands. */
  function IntervalBinary(rules: Rules, op: ArithOp, left: Value, right: Value): (r: Result<Value>)
    ensures r.Ok? <==>
      left.dtype.Interval? &&
      (if op == Add || op == Subtract then right.dtype.Interval? else IsNumeric(right.dtype))
    ensures r.Ok? ==> r.value.dtype.Interval? && r.value.dtype.unit == left.dtype.unit
    ensures r.Ok? ==> r.value.dtype.valueType == rules.numeric(op, Unwrap(left).dtype, Unwrap(right).dtype)
    ensures r.Ok? ==> (r.value.shape == Column <==> left.shape == Column || right.shape == Column)
  {
    if !left.dtype.Interval? then Err(IbisTypeError([]))
    else if op == Add || op == Subtract then
      if !right.dtype.Interval? then Err(IbisTypeError([]))
      else
        var valueType := rules.numeric(op, Unwrap(left).dtype, Unwrap(right).dtype);
        ShapeOfPair(left, right);
        Ok(ShapeLike([left, right], Interval(left.dtype.unit, valueType)))
    else if !IsNumeric(right.dtype) then Err(IbisTypeError([]))
    else
      var valueType := rules.numeric(op, Unwrap(left).dtype, Unwrap(right).dtype);
      ShapeOfPair(left, right);
      Ok(ShapeLike([left, right], Interval(left.dtype.unit, valueType)))
  }

  /** Adding an interval of one unit to an interval of another unit is accepted and keeps the
      first unit; the value types are combined without converting between units. */
  lemma IntervalSumKeepsLeftUnit(rules: Rules, a: Value, u: string, b: Value, w: string)
    requires IntervalFromInteger(a, u).Ok? && IntervalFromInteger(b, w).Ok?
    ensures
      var sum := IntervalBinary(rules, Add, IntervalFromInteger(a, u).value, IntervalFromInteger(b, w).value);
      sum.Ok? && sum.value.dtype == Interval(u, rules.numeric(Add, a.dtype, b.dtype))
  {
  }

  // ---------------------------------------------------------------------------
  // Field extraction

  datatype TemporalField =
    | Year | Month | Day | DayOfYear | Quarter | EpochSeconds | WeekOfYear
    | Hour | Minute | Second | Millisecond

  predicate IsDateField(f: TemporalField) {
    f.Year? || f.Month? || f.Day? || f.DayOfYear? || f.Quarter? || f.EpochSeconds? || f.WeekOfYear?
  }

  /** Extracting a date field takes a date or a timestamp, a time field a time or a timestamp;
      the result is a 32-bit integer shaped like the argument. */
  function Extract(field: TemporalField, arg: Value): (r: Result<Value>)
    ensures r.Ok? <==> arg.dtype.Timestamp? || (if IsDateField(field) then arg.dtype.Date? else arg.dtype.Time?)
    ensures r.Ok? ==> r.value == Value(Int32, arg.shape)
  {
    var accepted := if IsDateField(field) then arg.dtype.Date? || arg.dtype.Timestamp?
                    else arg.dtype.Time? || arg.dtype.Timestamp?;
    if !accepted then Err(IbisTypeError([])) else Ok(ShapeLike([arg], Int32))
  }

  /** No field is extractable from both a date and a time. */
  lemma ExtractDateOrTime(field: TemporalField, d: Value, t: Value)
    requires d.dtype == Date && t.dtype == Time
    ensures Extract(field, d).Ok? != Extract(field, t).Ok?
  {
  }
}
