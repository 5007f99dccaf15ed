/** Logical and comparison operation nodes: boolean connectives, comparisons with their
    operand-casting fallback, range tests, membership tests and the ternary `Where`. */
module Logical {
  import opened Common
  import opened DataTypes

  datatype LogicalOp = And | Or | Xor

  /** `And`, `Or` and `Xor` take two booleans and give a boolean broadcast over both. */
  function LogicalBinary(op: LogicalOp, left: Value, right: Value): (r: Result<Value>)
    ensures r.Ok? <==> left.dtype == Boolean && right.dtype == Boolean
    ensures r.Ok? ==> r.value.dtype == Boolean
    ensures r.Ok? ==> (r.value.shape == Column <==> left.shape == Column || right.shape == Column)
  {
    if left.dtype != Boolean || right.dtype != Boolean then Err(IbisTypeError([]))
    else
      ShapeOfPair(left, right);
      Ok(ShapeLike([left, right], Boolean))
  }

  /** `Not` takes a boolean and keeps its shape. */
  function Not(arg: Value): (r: Result<Value>)
    ensures r.Ok? <==> arg.dtype == Boolean
    ensures r.Ok? ==> r.value == arg
  {
    if arg.dtype != Boolean then Err(IbisTypeError([])) else Ok(ShapeLike([arg], Boolean))
  }

  /** The typing of a connective does not depend on the order of its operands. */
  lemma LogicalBinarySymmetric(op: LogicalOp, left: Value, right: Value)
    ensures LogicalBinary(op, left, right) == LogicalBinary(op, right, left)
  {
  }

  // ---------------------------------------------------------------------------
  // Comparisons

  datatype ComparisonOp = Equals | NotEquals | GreaterEqual | Greater | LessEqual | Less | IdenticalTo

  /** A comparison node, holding its operands after `_maybe_cast_args`. */
  datatype Comparison = Comparison(op: ComparisonOp, left: Value, right: Value)

  /** The operands a comparison keeps: the right one cast to the left one's type if that cast
      is accepted, otherwise the left one cast to the right one's type if that is accepted,
      otherwise both unchanged. */
  function MaybeCastArgs(rules: Rules, left: Value, right: Value): (r: (Value, Value))
    ensures r.0 == left || r.1 == right
    ensures rules.cast(right, left).Some? ==> r == (left, rules.cast(right, left).value)
    ensures r.0 != left ==> rules.cast(right, left).None? && rules.cast(left, right) == Some(r.0)
    ensures rules.cast(right, left).None? && rules.cast(left, right).Some? ==> r == (rules.cast(left, right).value, right)
    ensures rules.cast(right, left).None? && rules.cast(left, right).None? ==> r == (left, right)
  {
    match rules.cast(right, left)
    case Some(right') => (left, right')
    case None =>
      match rules.cast(left, right)
      case Some(left') => (left', right)
      case None => (left, right)
  }

  function NewComparison(rules: Rules, op: ComparisonOp, left: Value, right: Value): Comparison {
    var (left', right') := MaybeCastArgs(rules, left, right);
    Comparison(op, left', right')
  }

  /** A comparison of comparable operands is a boolean, a column exactly when either operand
      is; operands that are not comparable raise a type error. */
  function ComparisonOutput(rules: Rules, c: Comparison): (r: Result<Value>)
    ensures r.Ok? <==> rules.comparable(c.left.dtype, c.right.dtype)
    ensures r.Err? ==> r.error == TypeError
    ensures r.Ok? ==> r.value.dtype == Boolean
    ensures r.Ok? ==> (r.value.shape == Column <==> c.left.shape == Column || c.right.shape == Column)
  {
    if !rules.comparable(c.left.dtype, c.right.dtype) then Err(TypeError)
    else
      ShapeOfPair(c.left, c.right);
      Ok(ShapeLike([c.left, c.right], Boolean))
  }

  /** The cast helper keeps the shape of the value it casts. */
  ghost predicate CastKeepsShape(rules: Rules) {
    forall a: Value, b: Value :: rules.cast(a, b).Some? ==> rules.cast(a, b).value.shape == a.shape
  }

  /** When casting keeps shapes, a comparison built from two operands is a column exactly when
      one of the operands as given is a column. */
  lemma ComparisonShapeFromOperands(rules: Rules, op: ComparisonOp, left: Value, right: Value)
    requires CastKeepsShape(rules)
    requires ComparisonOutput(rules, NewComparison(rules, op, left, right)).Ok?
    ensures ComparisonOutput(rules, NewComparison(rules, op, left, right)).value.shape == Column
            <==> left.shape == Column || right.shape == Column
  {
    var c := NewComparison(rules, op, left, right);
    assert c.left.shape == left.shape && c.right.shape == right.shape;
  }

  /** `arg BETWEEN lower AND upper`: a boolean broadcast over all three, provided the argument
      is comparable with both bounds. */
  function Between(rules: Rules, arg: Value, lower: Value, upper: Value): (r: Result<Value>)
    ensures r.Ok? <==> rules.comparable(arg.dtype, lower.dtype) && rules.comparable(arg.dtype, upper.dtype)
    ensures r.Err? ==> r.error == TypeError
    ensures r.Ok? ==> r.value.dtype == Boolean
  {
    if !(rules.comparable(arg.dtype, lower.dtype) && rules.comparable(arg.dtype, upper.dtype)) then Err(TypeError)
    else Ok(ShapeLike([arg, lower, upper], Boolean))
  }

  /** A range test is typed as the conjunction `(arg >= lower) & (arg <= upper)` of the two
      comparisons on the same, uncast operands: one is accepted exactly when the other is,
      and then both have the same type and shape. */
  lemma {:induction false} BetweenIsConjunction(rules: Rules, arg: Value, lower: Value, upper: Value)
    ensures
      var ge := ComparisonOutput(rules, Comparison(GreaterEqual, arg, lower));
      var le := ComparisonOutput(rules, Comparison(LessEqual, arg, upper));
      var between := Between(rules, arg, lower, upper);
      (between.Ok? <==> ge.Ok? && le.Ok?) &&
      (between.Ok? ==> LogicalBinary(And, ge.value, le.value) == between)
  {
    var between := Between(rules, arg, lower, upper);
    if between.Ok? {
      var ge := ComparisonOutput(rules, Comparison(GreaterEqual, arg, lower));
      var le := ComparisonOutput(rules, Comparison(LessEqual, arg, upper));
      var both := LogicalBinary(And, ge.value, le.value);
      var args := [arg, lower, upper];
      assert args[0] == arg && args[1] == lower && args[2] == upper;
      assert both.value.shape == between.value.shape;
    }
  }

  // ---------------------------------------------------------------------------
  // Membership and the ternary

  /** The option list `Contains` accepts: a list of values, a set of values, or one
      expression, which `one_of` accepts as a column or, failing that, as an array. */
  datatype Options =
    | ValueListOptions(items: seq<Value>)
    | SetOptions(items: seq<Value>)
    | ExprOptions(expr: Value)

  /** The node's arguments with the option list spread out, as `flat_args` gives them. */
  function FlatArgs(value: Value, options: Options): (args: seq<Value>)
    ensures |args| >= 1 && args[0] == value
    ensures options.ValueListOptions? || options.SetOptions? ==> args[1..] == options.items
    ensures options.ExprOptions? ==> args == [value, options.expr]
  {
    match options
    case ValueListOptions(items) => [value] + items
    case SetOptions(items) => [value] + items
    case ExprOptions(expr) => [value, expr]
  }

  /** `Contains` and `NotContains`: a boolean broadcast over the value and every option. A
      single expression of options must be a column or have an array type. */
  function ContainsOutput(value: Value, options: Options): (r: Result<Value>)
    ensures r.Ok? <==> (options.ExprOptions? ==> options.expr.shape == Column || options.expr.dtype.Array?)
    ensures r.Ok? ==> r.value.dtype == Boolean
    ensures r.Ok? ==> (r.value.shape == Column <==>
      value.shape == Column ||
      (options.ExprOptions? && options.expr.shape == Column) ||
      ((options.ValueListOptions? || options.SetOptions?) &&
        exists i :: 0 <= i < |options.items| && options.items[i].shape == Column))
  {
    if options.ExprOptions? && options.expr.shape != Column && !options.expr.dtype.Array? then
      Err(IbisTypeError([]))
    else
      var args := FlatArgs(value, options);
      if options.ExprOptions? then
        ShapeOfPair(args[0], args[1]);
        Ok(ShapeLike(args, Boolean))
      else
        assert forall i :: 1 <= i < |args| ==> args[i] == options.items[i - 1];
        assert forall i :: 0 <= i < |options.items| ==> options.items[i] == args[i + 1];
        Ok(ShapeLike(args, Boolean))
  }

  /** `Where(bool_expr, true_expr, false_null_expr)`: the type of the true branch, the shape of
      the condition. */
  function Where(boolExpr: Value, trueExpr: Value, falseExpr: Value): (r: Result<Value>)
    ensures r.Ok? <==> boolExpr.dtype == Boolean
    ensures r.Ok? ==> r.value == Value(trueExpr.dtype, boolExpr.shape)
  {
    if boolExpr.dtype != Boolean then Err(IbisTypeError([]))
    else Ok(ShapeLike([boolExpr], trueExpr.dtype))
  }

  /** Neither branch's shape, nor the false branch at all, affects a `Where`: a scalar condition
      over two column branches is still a scalar. */
  lemma WhereShapeFromConditionOnly(boolExpr: Value, t1: Value, t2: Value, f1: Value, f2: Value)
    requires boolExpr.dtype == Boolean && t1.dtype == t2.dtype
    ensures Where(boolExpr, t1, f1) == Where(boolExpr, t2, f2)
  {
  }
}
