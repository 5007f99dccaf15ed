/** Data types, the scalar/column shape of a value expression, the broadcasting rule that
    combines shapes, and the type-level helpers that operation nodes consult. */
module DataTypes {
  import opened Common

  /** A column's or scalar's logical type. Nullability is not modelled. */
  datatype DType =
    | Null
    | Boolean
    | Int8 | Int16 | Int32 | Int64
    | UInt8 | UInt16 | UInt32 | UInt64
    | Float16 | Float32 | Float64
    | Decimal(precision: nat, scale: nat)
    | String
    | Binary
    | Date
    | Time
    | Timestamp
    | Interval(unit: string, valueType: DType)
    | Array(valueType: DType)
    | Struct(fields: seq<(string, DType)>)
    | Geography
    | Geometry
    | GeoSpatial(kind: string, geotype: Option<string>)   // Point, LineString, Polygon, ...

  /** The value type an `Interval` gets when it is built from a unit alone. */
  const DefaultIntervalValue: DType := Int32

  predicate IsInteger(t: DType) {
    t.Int8? || t.Int16? || t.Int32? || t.Int64? || t.UInt8? || t.UInt16? || t.UInt32? || t.UInt64?
  }

  predicate IsNumeric(t: DType) {
    IsInteger(t) || t.Float16? || t.Float32? || t.Float64? || t.Decimal?
  }

  predicate IsTemporal(t: DType) {
    t.Date? || t.Time? || t.Timestamp?
  }

  predicate IsSpatial(t: DType) {
    t.Geography? || t.Geometry? || t.GeoSpatial?
  }

  /** The `geotype` attribute of a spatial type; only spatial types carry one. */
  function Geotype(t: DType): (g: Option<string>)
    requires IsSpatial(t)
    ensures t.Geography? ==> g == Some("geography")
    ensures t.Geometry? ==> g == Some("geometry")
  {
    match t
    case Geography => Some("geography")
    case Geometry => Some("geometry")
    case GeoSpatial(_, g) => g
  }

  /** A table schema: column names with their types, in column order. */
  type Schema = Dict<DType>

  /** The names of a schema's columns, in order. */
  function Names(schema: Schema): (names: seq<string>)
    ensures names == Keys(schema)
  {
    Keys(schema)
  }

  datatype Shape = Scalar | Column

  /** A value expression as an operation node sees it: its data type and its shape. */
  datatype Value = Value(dtype: DType, shape: Shape)

  /** Broadcasting: a result is a column when any operand is a column, a scalar otherwise. */
  function ShapeOf(args: seq<Value>): (s: Shape)
    ensures s == Column <==> exists i :: 0 <= i < |args| && args[i].shape == Column
  {
    if args == [] then Scalar
    else if args[0].shape == Column then Column
    else
      var s := ShapeOf(args[1..]);
      assert forall i :: 1 <= i < |args| ==> args[i] == args[1..][i - 1];
      s
  }

  /** `shape_like(args, dtype)`: a value of type `dtype` broadcast over `args`. */
  function ShapeLike(args: seq<Value>, dtype: DType): (v: Value)
    ensures v.dtype == dtype
    ensures v.shape == Column <==> exists i :: 0 <= i < |args| && args[i].shape == Column
  {
    Value(dtype, ShapeOf(args))
  }

  lemma ShapeOfPair(a: Value, b: Value)
    ensures ShapeOf([a, b]) == Column <==> a.shape == Column || b.shape == Column
  {
    assert [a, b][0] == a && [a, b][1] == b;
  }

  /** Broadcasting depends only on which operands are present, not on their order. */
  lemma ShapeOfPermutation(a: seq<Value>, b: seq<Value>)
    requires multiset(a) == multiset(b)
    ensures ShapeOf(a) == ShapeOf(b)
  {
    forall i | 0 <= i < |a| && a[i].shape == Column
      ensures exists j :: 0 <= j < |b| && b[j].shape == Column
    {
      assert a[i] in multiset(b);
    }
    forall j | 0 <= j < |b| && b[j].shape == Column
      ensures exists i :: 0 <= i < |a| && a[i].shape == Column
    {
      assert b[j] in multiset(a);
    }
  }

  datatype ArithOp = Add | Subtract | Multiply | FloorDivide

  /** Type-level helpers of the rules and data type modules, which are not part of this model.
      Every property of this model holds whatever these functions compute. */
  datatype Rules = Rules(
    // the highest-precedence type of a list of types; None when they have no common type
    highestPrecedence: seq<DType> -> Option<DType>,
    // whether values of two types can be compared
    comparable: (DType, DType) -> bool,
    // casting the first value to the type of the second; None when the cast is refused
    cast: (Value, Value) -> Option<Value>,
    // the `largest` attribute of a type (integer and floating point kinds), None when absent
    largest: DType -> Option<DType>,
    // the result type of numeric arithmetic on two value types
    numeric: (ArithOp, DType, DType) -> DType,
    // `str(dtype)`
    render: DType -> string,
    // the type `literal(n)` infers for a Python integer
    inferInteger: int -> DType
  )
}
