/** Generic operation nodes: column selection, the base-table search, literals and query
    parameters with their equality, coalescing, hashing, struct fields and the two CASE forms. */
module Generic {
  import opened Common
  import opened Text
  import opened DataTypes

  // ---------------------------------------------------------------------------
  // Column selection

  /** How a column is named when it is selected: by name or by position. */
  datatype ColumnKey = ByName(name: string) | ByPosition(position: int)

  /** What `__init__` makes of a column key: a position becomes the name at that position
      (positions outside the schema raise ValueError), and a name the schema lacks raises
      IbisTypeError. */
  function ResolveColumn(schema: Schema, key: ColumnKey): (r: Result<string>)
    ensures r.Ok? ==> r.value in Names(schema)
    ensures key.ByName? ==> (r.Ok? <==> key.name in Names(schema)) && (r.Ok? ==> r.value == key.name)
    ensures key.ByName? && r.Err? ==> r.error == IbisTypeError([key.name])
    ensures key.ByPosition? ==> (r.Ok? <==> 0 <= key.position < |schema|)
    ensures key.ByPosition? && r.Ok? ==> r.value == schema[key.position].0
    ensures key.ByPosition? && r.Err? ==> r.error == ValueError
  {
    match key
    case ByPosition(i) => if 0 <= i < |schema| then Ok(schema[i].0) else Err(ValueError)
    case ByName(n) => if n in Names(schema) then Ok(n) else Err(IbisTypeError([n]))
  }

  /** `TableColumn`: a column of a table, selected by name or position. */
  class TableColumn {
    const table: Schema
    var name: ColumnKey

    /** The generic node initialiser, which stores the validated fields. */
    constructor Init(table: Schema, name: ColumnKey)
      ensures this.table == table && this.name == name
    {
      this.table := table;
      this.name := name;
    }

    /** The rest of `__init__`: a position is replaced in place by the name at that position,
        then the name is checked against the schema. */
    method Resolve() returns (err: Option<Error>)
      modifies this
      ensures err.None? <==> ResolveColumn(table, old(name)).Ok?
      ensures err.Some? ==> err.value == ResolveColumn(table, old(name)).error
      ensures err.None? ==> name == ByName(ResolveColumn(table, old(name)).value)
    {
      if name.ByPosition? {
        if !(0 <= name.position < |table|) {
          return Some(ValueError);
        }
        name := ByName(table[name.position].0);
      }
      if name.name !in Names(table) {
        return Some(IbisTypeError([name.name]));
      }
      return None;
    }

    /** A selected column is a column of the type the schema gives its name. */
    function Output(): (v: Value)
      reads this
      requires name.ByName? && name.name in Names(table)
      ensures v.shape == Column
      ensures exists i :: 0 <= i < |table| && table[i] == (name.name, v.dtype)
    {
      Value(Lookup(table, name.name), Column)
    }
  }

  /** Building a `TableColumn`: fails exactly when the key does not resolve, and otherwise
      holds the resolved name. */
  method NewTableColumn(table: Schema, name: ColumnKey) returns (r: Result<TableColumn>)
    ensures r.Err? <==> ResolveColumn(table, name).Err?
    ensures r.Err? ==> r.error == ResolveColumn(table, name).error
    ensures r.Ok? ==> fresh(r.value) && r.value.table == table
    ensures r.Ok? ==> r.value.name == ByName(ResolveColumn(table, name).value)
  {
    var column := new TableColumn.Init(table, name);
    var err := column.Resolve();
    if err.Some? {
      return Err(err.value);
    }
    return Ok(column);
  }

  // ---------------------------------------------------------------------------
  // The base-table search

  /** An expression: a table or value expression wrapping an operation node. */
  datatype Expr = Expr(isTable: bool, op: Op)

  /** An operation node: its kind, whether it `blocks()` the search for base tables, and its
      flattened arguments. */
  datatype Op = Op(kind: string, blocks: bool, args: seq<Arg>)

  /** A flattened argument: an expression, or a plain value (a name, a number, a type). */
  datatype Arg = ExprArg(expr: Expr) | Plain

  /** The nodes the search records for `e`: the node of a blocking table expression itself,
      otherwise everything found below its expression arguments. */
  ghost function BaseTables(e: Expr): set<Op>
    decreases e, |e.op.args| + 1
  {
    if e.isTable && e.op.blocks then {e.op} else ArgsBaseTables(e, |e.op.args|)
  }

  /** The nodes found below the first `n` arguments of `e`. */
  ghost function ArgsBaseTables(e: Expr, n: nat): set<Op>
    requires n <= |e.op.args|
    decreases e, n
  {
    if n == 0 then {}
    else
      ArgsBaseTables(e, n - 1) +
      match e.op.args[n - 1]
      case ExprArg(x) => BaseTables(x)
      case Plain => {}
  }

  /** Everything the search records is a blocking node. */
  lemma {:induction false} BaseTablesBlock(e: Expr)
    ensures forall op :: op in BaseTables(e) ==> op.blocks
    decreases e, |e.op.args| + 1
  {
    if !(e.isTable && e.op.blocks) {
      ArgsBaseTablesBlock(e, |e.op.args|);
    }
  }

  lemma {:induction false} ArgsBaseTablesBlock(e: Expr, n: nat)
    requires n <= |e.op.args|
    ensures forall op :: op in ArgsBaseTables(e, n) ==> op.blocks
    decreases e, n
  {
    if n > 0 {
      ArgsBaseTablesBlock(e, n - 1);
      match e.op.args[n - 1] {
        case ExprArg(x) => BaseTablesBlock(x);
        case Plain =>
      }
    }
  }

  /** A node whose arguments are all plain values, such as a literal, has no base tables
      below it unless it is a blocking table itself. */
  lemma {:induction false} LeafBaseTables(e: Expr)
    requires forall i :: 0 <= i < |e.op.args| ==> e.op.args[i] == Plain
    ensures BaseTables(e) == if e.isTable && e.op.blocks then {e.op} else {}
  {
    if !(e.isTable && e.op.blocks) {
      var n := |e.op.args|;
      while n > 0
        invariant 0 <= n <= |e.op.args|
        invariant ArgsBaseTables(e, |e.op.args|) == ArgsBaseTables(e, n)
        decreases n
      {
        assert e.op.args[n - 1] == Plain;
        n := n - 1;
      }
    }
  }

  /** The `memo` dictionary of `find_all_base_tables`, from nodes to the expressions that
      wrap them. */
  class BaseTableMemo {
    var tables: map<Op, Expr>

    constructor ()
      ensures tables == map[]
    {
      tables := map[];
    }

    /** `find_all_base_tables(expr, memo)`: records every blocking table below `e`, not
        descending into them. The guard `expr not in memo` looks an expression up among node
        keys, so it never stops the write: a node met again is mapped to the expression it
        was last met through. */
    method Collect(e: Expr)
      modifies this
      ensures tables.Keys == old(tables.Keys) + BaseTables(e)
      ensures forall op :: op in old(tables) && op !in BaseTables(e) ==> tables[op] == old(tables[op])
      ensures forall op :: op in BaseTables(e) ==> tables[op].op == op && tables[op].isTable
      decreases e, |e.op.args| + 1
    {
      if e.isTable && e.op.blocks {
        tables := tables[e.op := e];
        return;
      }
      var i := 0;
      while i < |e.op.args|
        invariant 0 <= i <= |e.op.args|
        invariant tables.Keys == old(tables.Keys) + ArgsBaseTables(e, i)
        invariant forall op :: op in old(tables) && op !in ArgsBaseTables(e, i) ==> tables[op] == old(tables[op])
        invariant forall op :: op in ArgsBaseTables(e, i) ==> tables[op].op == op && tables[op].isTable
      {
        match e.op.args[i] {
          case ExprArg(x) => Collect(x);
          case Plain =>
        }
        i := i + 1;
      }
    }
  }

  /** `find_all_base_tables(expr)` with a fresh memo: the blocking table nodes below `expr`,
      each mapped to a table expression wrapping it. */
  method FindAllBaseTables(e: Expr) returns (m: map<Op, Expr>)
    ensures m.Keys == BaseTables(e)
    ensures forall op :: op in m ==> op.blocks && m[op].op == op && m[op].isTable
  {
    var memo := new BaseTableMemo();
    memo.Collect(e);
    BaseTablesBlock(e);
    m := memo.tables;
  }

  // ---------------------------------------------------------------------------
  // Literals

  /** A Python float. */
  datatype Float = Finite(r: real) | Infinity(positive: bool) | NaN

  /** The Python value a literal holds (the kinds the equality rules need). */
  datatype PyValue =
    | PyNone
    | PyBool(b: bool)
    | PyInt(i: int)
    | PyFloat(f: Float)
    | PyStr(s: string)
    | PyBytes(bytes: seq<bv8>)
    | PyTimedelta(micros: int)   // a `datetime.timedelta`, by its length in microseconds

  datatype PyType = NoneType | BoolType | IntType | FloatType | StrType | BytesType | TimedeltaType

  function TypeOf(v: PyValue): PyType {
    match v
    case PyNone => NoneType
    case PyBool(_) => BoolType
    case PyInt(_) => IntType
    case PyFloat(_) => FloatType
    case PyStr(_) => StrType
    case PyBytes(_) => BytesType
    case PyTimedelta(_) => TimedeltaType
  }

  /** `isinstance(v, t)`: `bool` is a subclass of `int`. */
  predicate IsInstance(v: PyValue, t: PyType) {
    TypeOf(v) == t || (TypeOf(v) == BoolType && t == IntType)
  }

  predicate IsNumber(v: PyValue) {
    v.PyBool? || v.PyInt? || v.PyFloat?
  }

  /** A number as a float; Python compares `bool`, `int` and `float` by this value exactly. */
  function AsFloat(v: PyValue): Float
    requires IsNumber(v)
  {
    match v
    case PyBool(b) => Finite(if b then 1.0 else 0.0)
    case PyInt(i) => Finite(i as real)
    case PyFloat(f) => f
  }

  /** Python's `==` on the values a literal holds: numbers by value (NaN equals nothing),
      everything else within its own kind. */
  predicate PyEq(a: PyValue, b: PyValue) {
    if IsNumber(a) && IsNumber(b) then AsFloat(a) != NaN && AsFloat(a) == AsFloat(b)
    else
      match (a, b)
      case (PyNone, PyNone) => true
      case (PyStr(x), PyStr(y)) => x == y
      case (PyBytes(x), PyBytes(y)) => x == y
      case (PyTimedelta(x), PyTimedelta(y)) => x == y
      case _ => false
  }

  /** A literal node: a Python value with the data type it is given. */
  datatype Literal = Literal(value: PyValue, dtype: DType)

  /** A query parameter node: a data type and a number that identifies it. */
  datatype ScalarParameter = ScalarParameter(dtype: DType, counter: int)

  /** The node an equality test is handed. */
  datatype Node = LiteralNode(literal: Literal) | ParameterNode(parameter: ScalarParameter) | OtherNode(kind: string)

  /** `Literal.equals`: the other node is a literal whose value is an instance of this value's
      type, whose data type is equal, and whose value is equal under Python's `==`. */
  predicate LiteralEquals(self: Literal, other: Node) {
    other.LiteralNode? &&
    IsInstance(other.literal.value, TypeOf(self.value)) &&
    self.dtype == other.literal.dtype &&
    PyEq(self.value, other.literal.value)
  }

  /** An integer literal never equals a float literal, even where Python's `==` holds between
      the two values. */
  lemma IntFloatLiteralsDiffer(n: int, x: Float, d1: DType, d2: DType)
    ensures !LiteralEquals(Literal(PyInt(n), d1), LiteralNode(Literal(PyFloat(x), d2)))
    ensures !LiteralEquals(Literal(PyFloat(x), d2), LiteralNode(Literal(PyInt(n), d1)))
    ensures x == Finite(n as real) ==> PyEq(PyInt(n), PyFloat(x))
  {
  }

  /** Literals of different data types differ, whatever their values: `1` as int16 and as int32,
      or `1` as an interval of seconds and of minutes. */
  lemma DTypeSeparatesLiterals(a: PyValue, b: PyValue, d1: DType, d2: DType)
    requires d1 != d2
    ensures !LiteralEquals(Literal(a, d1), LiteralNode(Literal(b, d2)))
  {
  }

  /** Equality is not symmetric: the integer literal 1 equals the boolean literal `True` of
      the same type, because `bool` is a subclass of `int`, but not the other way round. */
  lemma LiteralEqualsNotSymmetric(d: DType)
    ensures LiteralEquals(Literal(PyInt(1), d), LiteralNode(Literal(PyBool(true), d)))
    ensures !LiteralEquals(Literal(PyBool(true), d), LiteralNode(Literal(PyInt(1), d)))
  {
  }

  /** Equality is reflexive on every literal except a NaN float. */
  lemma LiteralEqualsReflexive(l: Literal)
    ensures LiteralEquals(l, LiteralNode(l)) <==> l.value != PyFloat(NaN)
  {
  }

  /** Between literals whose values have the same Python type, equality is symmetric. */
  lemma LiteralEqualsSymmetricWithinType(a: Literal, b: Literal)
    requires TypeOf(a.value) == TypeOf(b.value)
    ensures LiteralEquals(a, LiteralNode(b)) <==> LiteralEquals(b, LiteralNode(a))
  {
  }

  // ---------------------------------------------------------------------------
  // Query parameters

  /** `resolve_name`: `param_` followed by the counter in decimal; the counter can be read
      back from the name. */
  function ParameterName(p: ScalarParameter): (name: string)
    ensures |name| > 6 && name[..6] == "param_"
    ensures ParseInt(name[6..]) == p.counter
  {
    IntToDecimalRoundTrip(p.counter);
    var digits := IntToDecimal(p.counter);
    assert ("param_" + digits)[6..] == digits;
    "param_" + digits
  }

  /** Two parameters have the same name exactly when they have the same counter. */
  lemma ParameterNameIdentifiesCounter(p: ScalarParameter, q: ScalarParameter)
    ensures ParameterName(p) == ParameterName(q) <==> p.counter == q.counter
  {
  }

  /** `ScalarParameter.equals`: the other node is a parameter with the same counter and an
      equal data type. */
  predicate ParameterEquals(self: ScalarParameter, other: Node) {
    other.ParameterNode? && self.counter == other.parameter.counter && self.dtype == other.parameter.dtype
  }

  /** `ScalarParameter.__hash__`: the hash of the pair `(dtype, counter)`. */
  function ParameterHash(p: ScalarParameter, hashPair: (DType, int) -> int): int {
    hashPair(p.dtype, p.counter)
  }

  /** Equal parameters have equal hashes, whatever the pair hash, and equal names. */
  lemma EqualParametersAgree(p: ScalarParameter, q: ScalarParameter, hashPair: (DType, int) -> int)
    requires ParameterEquals(p, ParameterNode(q))
    ensures ParameterHash(p, hashPair) == ParameterHash(q, hashPair)
    ensures ParameterName(p) == ParameterName(q)
    ensures ParameterEquals(q, ParameterNode(p))
  {
  }

  /** Parameters with different counters are unequal and have different names. */
  lemma DistinctCountersSeparateParameters(p: ScalarParameter, q: ScalarParameter)
    requires p.counter != q.counter
    ensures !ParameterEquals(p, ParameterNode(q)) && ParameterName(p) != ParameterName(q)
  {
    ParameterNameIdentifiesCounter(p, q);
  }

  /** The shared `itertools.count()` that numbers parameters created without a counter. */
  class ParameterCounter {
    var next: nat
    ghost var issued: set<int>

    ghost predicate Valid()
      reads this
    {
      forall c :: c in issued ==> 0 <= c < next
    }

    constructor ()
      ensures Valid() && next == 0 && issued == {}
    {
      next := 0;
      issued := {};
    }

    /** `next(counter)`: a number never handed out before. */
    method Draw() returns (c: int)
      requires Valid()
      modifies this
      ensures Valid()
      ensures c == old(next) && c !in old(issued)
      ensures next == old(next) + 1 && issued == old(issued) + {c}
    {
      c := next;
      next := next + 1;
      issued := issued + {c};
    }
  }

  /** Building a `ScalarParameter`: a given counter is kept as it is (nothing checks it against
      the shared count); without one, a fresh number is drawn. */
  method NewScalarParameter(supply: ParameterCounter, dtype: DType, counter: Option<int>) returns (p: ScalarParameter)
    requires supply.Valid()
    modifies supply
    ensures supply.Valid() && p.dtype == dtype
    ensures counter.Some? ==> p.counter == counter.value && supply.next == old(supply.next) && supply.issued == old(supply.issued)
    ensures counter.None? ==> p.counter !in old(supply.issued) && supply.issued == old(supply.issued) + {p.counter}
  {
    if counter.Some? {
      p := ScalarParameter(dtype, counter.value);
    } else {
      var c := supply.Draw();
      p := ScalarParameter(dtype, c);
    }
  }

  // ---------------------------------------------------------------------------
  // Value nodes

  /** `Cast`: the target type, shaped like the argument. */
  function CastOutput(arg: Value, to: DType): (r: Value)
    ensures r.dtype == to && r.shape == arg.shape
  {
    ShapeLike([arg], to)
  }

  datatype CoalesceKind = Coalesce | Greatest | Least

  /** `Coalesce`, `Greatest` and `Least`: the `largest` type of the first argument (the type
      itself when it has none), broadcast over all arguments. An empty argument list has no
      first element. The type is therefore decided by the first argument alone: a later
      argument may change only the shape. */
  function CoalesceOutput(rules: Rules, kind: CoalesceKind, args: seq<Value>): (r: Result<Value>)
    ensures r.Ok? <==> |args| > 0
    ensures r.Err? ==> r.error == IndexError
    ensures r.Ok? ==> r.value.dtype == match rules.largest(args[0].dtype)
                                      case Some(t) => t
                                      case None => args[0].dtype
    ensures r.Ok? ==> (r.value.shape == Column <==> exists i :: 0 <= i < |args| && args[i].shape == Column)
  {
    if args == [] then Err(IndexError)
    else
      var first := args[0].dtype;
      var dtype := match rules.largest(first) case Some(t) => t case None => first;
      Ok(ShapeLike(args, dtype))
  }

  /** `Hash`: any argument, a hash function from {fnv, farm_fingerprint}; an int64 shaped like
      the argument. */
  function HashOutput(arg: Value, how: string): (r: Result<Value>)
    ensures r.Ok? <==> how == "fnv" || how == "farm_fingerprint"
    ensures r.Ok? ==> r.value == Value(Int64, arg.shape)
  {
    if how == "fnv" || how == "farm_fingerprint" then Ok(ShapeLike([arg], Int64))
    else Err(IbisTypeError([how]))
  }

  /** `HashBytes`: a string or binary argument, a digest from {md5, sha1, sha256, sha512};
      a binary value shaped like the argument. */
  function HashBytesOutput(arg: Value, how: string): (r: Result<Value>)
    ensures r.Ok? <==> (arg.dtype == String || arg.dtype == Binary) &&
                       (how == "md5" || how == "sha1" || how == "sha256" || how == "sha512")
    ensures r.Ok? ==> r.value == Value(Binary, arg.shape)
  {
    if !(arg.dtype == String || arg.dtype == Binary) then Err(IbisTypeError([]))
    else if !(how == "md5" || how == "sha1" || how == "sha256" || how == "sha512") then Err(IbisTypeError([how]))
    else Ok(ShapeLike([arg], Binary))
  }

  /** `StructField`: the type the struct gives the field, shaped like the struct; a field the
      struct lacks raises KeyError. */
  function StructFieldOutput(arg: Value, field: string): (r: Result<Value>)
    ensures r.Ok? <==> arg.dtype.Struct? && field in Keys(arg.dtype.fields)
    ensures arg.dtype.Struct? && r.Err? ==> r.error == KeyError([field])
    ensures r.Ok? ==> r.value.shape == arg.shape
    ensures r.Ok? ==> exists i :: 0 <= i < |arg.dtype.fields| && arg.dtype.fields[i] == (field, r.value.dtype)
  {
    if !arg.dtype.Struct? then Err(IbisTypeError([]))
    else if field !in Keys(arg.dtype.fields) then Err(KeyError([field]))
    else Ok(ShapeLike([arg], Lookup(arg.dtype.fields, field)))
  }

  // ---------------------------------------------------------------------------
  // CASE expressions

  /** The data types of a list of values, in order. */
  function Types(values: seq<Value>): (ts: seq<DType>)
    ensures |ts| == |values|
    ensures forall i :: 0 <= i < |values| ==> ts[i] == values[i].dtype
  {
    if values == [] then [] else [values[0].dtype] + Types(values[1..])
  }

  /** `SimpleCase(base, cases, results, default)`. */
  datatype SimpleCase = SimpleCase(base: Value, cases: seq<Value>, results: seq<Value>, default: Value)

  /** `SearchedCase(cases, results, default)`. */
  datatype SearchedCase = SearchedCase(cases: seq<Value>, results: seq<Value>, default: Value)

  /** Building a `SimpleCase`: `_validate` asserts that there are as many results as cases. */
  function NewSimpleCase(base: Value, cases: seq<Value>, results: seq<Value>, default: Value): (r: Result<SimpleCase>)
    ensures r.Ok? <==> |cases| == |results|
    ensures r.Err? ==> r.error == AssertionError
    ensures r.Ok? ==> r.value == SimpleCase(base, cases, results, default)
  {
    if |cases| != |results| then Err(AssertionError) else Ok(SimpleCase(base, cases, results, default))
  }

  /** Building a `SearchedCase`: every case must be a boolean, then `_validate` asserts that
      there are as many results as cases. */
  function NewSearchedCase(cases: seq<Value>, results: seq<Value>, default: Value): (r: Result<SearchedCase>)
    ensures r.Ok? <==> (forall i :: 0 <= i < |cases| ==> cases[i].dtype == Boolean) && |cases| == |results|
    ensures r.Err? && (forall i :: 0 <= i < |cases| ==> cases[i].dtype == Boolean) ==> r.error == AssertionError
    ensures r.Ok? ==> r.value == SearchedCase(cases, results, default)
  {
    if exists i :: 0 <= i < |cases| && cases[i].dtype != Boolean then Err(IbisTypeError([]))
    else if |cases| != |results| then Err(AssertionError)
    else Ok(SearchedCase(cases, results, default))
  }

  /** The output type of a CASE: the highest-precedence type of the results followed by the
      default. Types with no common type raise IbisTypeError. */
  function CaseType(rules: Rules, results: seq<Value>, default: Value): (r: Result<DType>)
    ensures r.Ok? <==> rules.highestPrecedence(Types(results + [default])).Some?
    ensures r.Ok? ==> Some(r.value) == rules.highestPrecedence(Types(results + [default]))
  {
    match rules.highestPrecedence(Types(results + [default]))
    case Some(t) => Ok(t)
    case None => Err(IbisTypeError([]))
  }

  /** `SimpleCase.output_type`: the CASE type, shaped like the base alone. */
  function SimpleCaseOutput(rules: Rules, c: SimpleCase): (r: Result<Value>)
    ensures r.Ok? <==> CaseType(rules, c.results, c.default).Ok?
    ensures r.Ok? ==> r.value == Value(CaseType(rules, c.results, c.default).value, c.base.shape)
  {
    var dtype :- CaseType(rules, c.results, c.default);
    Ok(ShapeLike([c.base], dtype))
  }

  /** `SearchedCase.output_type`: the CASE type, broadcast over the conditions alone. */
  function SearchedCaseOutput(rules: Rules, c: SearchedCase): (r: Result<Value>)
    ensures r.Ok? <==> CaseType(rules, c.results, c.default).Ok?
    ensures r.Ok? ==> r.value.dtype == CaseType(rules, c.results, c.default).value
    ensures r.Ok? ==> (r.value.shape == Column <==> exists i :: 0 <= i < |c.cases| && c.cases[i].shape == Column)
  {
    var dtype :- CaseType(rules, c.results, c.default);
    Ok(ShapeLike(c.cases, dtype))
  }

  /** The two CASE forms agree on their type: given the same results and default, both are
      typed, or neither, and then with the same type; a scalar base, or all-scalar conditions,
      give a scalar even over column results. */
  lemma CaseFormsAgreeOnType(rules: Rules, s: SimpleCase, t: SearchedCase)
    requires s.results == t.results && s.default == t.default
    ensures SimpleCaseOutput(rules, s).Ok? <==> SearchedCaseOutput(rules, t).Ok?
    ensures SimpleCaseOutput(rules, s).Ok? ==>
              SimpleCaseOutput(rules, s).value.dtype == SearchedCaseOutput(rules, t).value.dtype
    ensures SimpleCaseOutput(rules, s).Ok? && s.base.shape == Scalar ==> SimpleCaseOutput(rules, s).value.shape == Scalar
    ensures SearchedCaseOutput(rules, t).Ok? && (forall i :: 0 <= i < |t.cases| ==> t.cases[i].shape == Scalar) ==>
              SearchedCaseOutput(rules, t).value.shape == Scalar
  {
  }
}
