# ibis expression construction, modelled in Dafny

This project models the expression-construction layer of ibis, a deferred query builder.
This layer builds and validates operation nodes and rewrites a table's column list. It never
touches data. Everything it does can be stated as rules about data types, shapes
(scalar or column) and schemas, and the model proves those rules.

Modules:

- `Common` (common.dfy): `Option`, `Result` and the error kinds the layer raises (KeyError,
  IbisTypeError, TypeError, ValueError, ExpressionError, AttributeError, IndexError,
  AssertionError, NotImplementedError). A Python dict is an ordered sequence of
  `(key, value)` pairs with distinct keys, so its insertion order is kept.
- `Text` (text.dfy): Python's string order (code point by code point), `sorted()` on names,
  ASCII `str.lower()`, and decimal rendering and parsing of integers.
- `DataTypes` (datatypes.dfy): the data types, the `Scalar | Column` shape, and broadcasting
  (`shape_like`: a result is a column when any operand is a column). It also holds `Rules`,
  a record of the type helpers that live outside this layer: highest precedence, comparability,
  casting, `largest`, numeric result types, `str(dtype)` and the type `literal()` infers for an
  integer. They are parameters, so every property holds whatever they compute.
- `Temporal` (temporal.dfy): the unit-name tables, truncation, date/time/timestamp arithmetic
  with intervals, differences, intervals built from integers, interval arithmetic and field
  extraction (`ibis/expr/operations/temporal.py`).
- `Logical` (logical.dfy): boolean connectives, comparisons with the cast fallback order, range
  tests, membership tests and `Where` (`ibis/expr/operations/logical.py`).
- `Generic` (generic.dfy): column selection (`TableColumn`, a class whose `name` field is
  rewritten in place), the base-table search (a class holding the `memo` map), literal and
  parameter equality, the shared parameter counter (a class), `Cast`, coalescing, hashing,
  struct fields and the two CASE forms (`ibis/expr/operations/generic.py`).
- `TableApi` (tableapi.dfy): `drop`, `relabel`, `set_column`, `mutate`, `aggregate`, `fillna`,
  `to_array` and `join` (`ibis/expr/api.py`). The loops of `relabel`, `set_column` and
  `mutate` are methods proved against the functions that specify them.
- `ValueApi` (valueapi.dfy): `interval`, string `__getitem__`, `cast`, `clip` and
  `substitute` (`ibis/expr/api.py`).

## Model

| member | source | states |
|---|---|---|
| TableApi.Drop | ibis/expr/api.py:5421-5436 | No fields (empty string or empty list) returns the table itself. Otherwise it fails exactly when a field is not a column, with a KeyError listing exactly the missing fields. On success the projection is the table's columns in order, as a subsequence, holding exactly the columns whose names were not dropped. |
| TableApi.KeptSpec | ibis/expr/api.py:5436 | The comprehension over the schema keeps the columns in schema order and keeps a column exactly when its name is not dropped. |
| TableApi.DropOneIsDropList | ibis/expr/api.py:5425-5427 | A single non-empty name is dropped exactly as the one-element list holding it. |
| TableApi.DropOneColumn | ibis/expr/api.py:5429-5436 | With distinct column names, dropping one column keeps every column before it and every column after it, in order. |
| TableApi.Relabeled | ibis/expr/api.py:5364-5372 | The relabelled list has as many columns as the table, in the same order and with the same sources and types. A column is renamed to its substitution exactly when its name is a key. |
| TableApi.Relabel | ibis/expr/api.py:5364-5378 | The loop fails exactly when some key matches no column, with a KeyError naming the first such key in dict order. Otherwise it returns the relabelled list. |
| TableApi.RelabelIdentity | ibis/expr/api.py:5367-5372 | Substitutions mapping every key to itself leave the column list equal to the table's columns. |
| TableApi.SetColumnExprs | ibis/expr/api.py:4844-4849 | The rebuilt list keeps the table's column names in order. The position named `name` holds the new expression under that name; every other position holds the table's own column. |
| TableApi.SetColumn | ibis/expr/api.py:4835-4851 | Fails with KeyError([name]) exactly when `name` is not a column. Otherwise the loop's list is the rebuilt list for the value made an expression (a function is called with the table). |
| TableApi.SetColumnChangesOnePosition | ibis/expr/api.py:4844-4849 | With distinct names, every position other than the one named `name` is unchanged. |
| TableApi.SetColumnToItself | ibis/expr/api.py:4844-4849 | Setting a column to the table's own column of that name gives back the table's columns. |
| TableApi.Mutate | ibis/expr/api.py:5231-5237 | The loop's result is the positional expressions followed by the keyword expressions in ascending order of name. |
| TableApi.MutationOrder | ibis/expr/api.py:5231-5237 | In a mutation the positional expressions come first, unchanged. The keyword expressions follow, named by exactly the keyword names, strictly ascending. Each is the value given for its name, called with the table when it is a function. |
| TableApi.Aggregate | ibis/expr/api.py:4968-4979 | The keyword metrics, in ascending order of name, extend the positional metrics. `by` and `having` become lists, empty when absent. |
| TableApi.FillNa | ibis/expr/api.py:4780-4788 | Fails exactly when a mapping names a key that is not a column, with an IbisTypeError listing exactly those keys. A single value, or a valid mapping, is kept as given. |
| TableApi.ToArray | ibis/expr/api.py:5155-5161 | Succeeds exactly when the table has one column, and then gives a column of that column's name and type. Any other table raises ExpressionError. |
| TableApi.JoinClass | ibis/expr/api.py:4487-4498 | Each of the ten names maps to its join node, and each node is reached from exactly its names: "left_semi" and "semi" both give the left semi join. Any other name has no entry. |
| TableApi.Join | ibis/expr/api.py:4540-4556 | An unknown lower-cased name raises KeyError with that name. Otherwise the node is the table's entry for the lower-cased name, and de-duplication is skipped exactly when `how` as given is "semi" or "anti". |
| TableApi.JoinLeftSemiDeduplicated | ibis/expr/api.py:4548-4549 | As written, "left_semi" builds a left semi join and still de-duplicates. |
| TableApi.JoinUpperCaseAntiDeduplicated | ibis/expr/api.py:4540-4549 | As written, "ANTI" builds an anti join and still de-duplicates. |
| TableApi.JoinSemiSkipsDedup | ibis/expr/api.py:4546-4549 | "semi" builds a left semi join and skips de-duplication. |
| TableApi.JoinByKind | ibis/expr/api.py:4546-4549 | Corrected rule: the node is chosen as before, and de-duplication is skipped exactly for semi and anti join nodes, whatever the spelling. |
| TableApi.JoinByKindAgrees | ibis/expr/api.py:4548-4549 | The corrected rule agrees with the written one exactly when the join is neither semi nor anti, or `how` is exactly "semi" or "anti". |
| ValueApi.TruncatedQuotient | ibis/expr/api.py:485-486 | `int()` of a quotient rounds toward zero: the remainder lies in [0, b) for a non-negative dividend and in (-b, 0] for a negative one. |
| ValueApi.GivenPositions | ibis/expr/api.py:503 | Gives exactly the positions of the keyword arguments that were given, in strictly ascending order. |
| ValueApi.IntervalArgs | ibis/expr/api.py:483-508 | A timedelta becomes its whole seconds, cut toward zero, in unit "s". An integer or a boolean is kept as it is, with the given unit. Any other value raises ValueError. Without a value it succeeds exactly when exactly one keyword argument is given (ValueError otherwise), and takes that argument's amount and unit code. |
| ValueApi.OnlyGivenPosition | ibis/expr/api.py:503-508 | When one keyword argument alone is given, the list of given arguments is exactly that one. |
| ValueApi.IntervalLiteral | ibis/expr/api.py:510-513 | The result is a literal of the settled value, typed as an interval of the settled unit. Its value type is boolean for a boolean value and the type inferred for an integer otherwise. It fails with ValueError exactly when the arguments fail. |
| ValueApi.BoolIntervalIsNotIntInterval | ibis/expr/api.py:483-513 | `interval(True)` keeps the boolean and is typed as a boolean interval, so it is unequal to `interval(1)` in both directions, unless integers are inferred to be boolean. This holds in the model, where building the interval type does not validate its value type. |
| ValueApi.IntervalKeywordsDiffer | ibis/tests/expr/test_literal.py:42-52 | Interval literals built from different keyword arguments are unequal, whatever their amounts. This covers seconds=1 against minutes=1 and seconds=60 against minutes=1. |
| ValueApi.IntegerIsNotInterval | ibis/tests/expr/test_literal.py:35-39 | An integer literal is not equal to the interval literal `interval(seconds=n)`, provided integers are not inferred to be intervals. |
| ValueApi.StringGetItem | ibis/expr/api.py:3829-3856 | An integer key gives `substr(i, 1)`. A key that is neither an integer nor a slice raises NotImplementedError. A slice fails with ValueError exactly when its step is a number other than 1 or a bound is a negative number. Otherwise the start is the given start, 0 by default. |
| ValueApi.SliceSpansStartToStop | ibis/expr/api.py:3841-3853 | For any string length and any values of the supplied expressions, the substring's length evaluates to stop minus start. Absent bounds stand for 0 and the length. |
| ValueApi.LiteralSliceLength | ibis/expr/api.py:3853 | Two numeric bounds give `substr(a, b - a)` with the difference computed at once. |
| ValueApi.Cast | ibis/expr/api.py:791-808 | Casting to the argument's own type returns the argument. For a geography or geometry target, a non-spatial argument raises AttributeError, and the argument is returned when its geotype (geometry when unset) is the target's. Otherwise the result is a cast value shaped like the argument, named `cast(<name>, <type>)` exactly when the argument has a name. |
| ValueApi.UnsetGeotypeIsGeometry | ibis/expr/api.py:798-802 | A spatial value whose geotype is unset is returned as it is by a cast to geometry. |
| ValueApi.ClipApi | ibis/expr/api.py:1526-1530 | Fails with ValueError exactly when both bounds are absent. Otherwise the node holds the argument and both bounds as given. |
| ValueApi.Substitute | ibis/expr/api.py:1154-1164 | Builds a CASE on the argument whose default is `else_`, or the argument when none is given. A single value gives one branch, with a null result for a missing replacement. A mapping gives one string-key branch per key. A branch value not comparable with the argument raises TypeError. An empty mapping gives no branch, which the case builder refuses with ExpressionError. These are the builder's only refusals; the CASE's typing is stated by `SubstituteExpr`. |
| ValueApi.SubstituteExpr | ibis/expr/api.py:1154-1166 | The expression `substitute` returns: a builder refusal is passed on. Otherwise it succeeds exactly when the results and the default (`else_`, or the argument) have a highest-precedence type, and then has that type and the argument's shape; it raises IbisTypeError when they have none. For a mapping, the results are its values in ascending order of key. |
| ValueApi.SubstituteBuildsValidCase | ibis/expr/api.py:1155-1157 | The CASE that substitute builds always passes the node's arity check. For a mapping, its results are the mapping's values in ascending order of key. |
| Generic.ResolveColumn | ibis/expr/operations/generic.py:41-47 | A position inside the schema resolves to the name at that position, and any other position raises ValueError. A name resolves to itself exactly when it is a column, and otherwise raises IbisTypeError with that name. |
| Generic.TableColumn.Init | ibis/expr/operations/generic.py:33-34 | The node stores the table and the key it is given. |
| Generic.TableColumn.Resolve | ibis/expr/operations/generic.py:36-47 | Reports no error exactly when the stored key resolves, and then leaves the resolved name in the `name` field. An error is the one resolution gives. |
| Generic.TableColumn.Output | ibis/expr/operations/generic.py:61-64 | A selected column is a column whose type is the type the schema gives its name. |
| Generic.NewTableColumn | ibis/expr/operations/generic.py:33-47 | Construction fails exactly when the key does not resolve, with the error resolution gives. Otherwise it yields a new node holding the resolved name. |
| Generic.BaseTablesBlock | ibis/expr/operations/generic.py:88-91 | Every node the search records is a blocking node. |
| Generic.LeafBaseTables | ibis/expr/operations/generic.py:93-97 | A node with no expression arguments has no base tables below it, unless it is a blocking table itself. |
| Generic.BaseTableMemo.constructor | ibis/expr/operations/generic.py:83-84 | The memo starts empty. |
| Generic.BaseTableMemo.Collect | ibis/expr/operations/generic.py:86-97 | Adds exactly the base tables of the expression to the memo's keys. Each one is mapped to a table expression wrapping it, and other entries are kept. |
| Generic.FindAllBaseTables | ibis/expr/operations/generic.py:82-97 | With a fresh memo, the keys are exactly the blocking table nodes found without descending into them. Each is mapped to a table expression wrapping it. |
| Generic.IntFloatLiteralsDiffer | ibis/tests/expr/test_literal.py:19-24 | An integer literal and a float literal are unequal in both directions, even when Python's `==` holds between their values. |
| Generic.DTypeSeparatesLiterals | ibis/tests/expr/test_literal.py:27-32 | Literals of different data types are unequal, whatever their values. |
| Generic.LiteralEqualsNotSymmetric | ibis/expr/operations/generic.py:263-266 | The integer literal 1 equals the boolean literal True of the same type, but not the other way round, because `bool` is a subclass of `int`. |
| Generic.LiteralEqualsReflexive | ibis/expr/operations/generic.py:270-274 | A literal equals itself exactly when it is not a NaN float. |
| Generic.LiteralEqualsSymmetricWithinType | ibis/expr/operations/generic.py:261-274 | Between literals whose values have the same Python type, equality is symmetric. |
| Generic.ParameterName | ibis/expr/operations/generic.py:309-310 | The name is "param_" followed by digits that parse back to the counter. |
| Generic.ParameterNameIdentifiesCounter | ibis/expr/operations/generic.py:309-310 | Two parameters have the same name exactly when they have the same counter. |
| Generic.EqualParametersAgree | ibis/expr/operations/generic.py:315-326 | Equal parameters have equal hashes, whatever the pair hash, and equal names, and equality holds in both directions. |
| Generic.DistinctCountersSeparateParameters | ibis/expr/operations/generic.py:321-326 | Parameters with different counters are unequal and have different names. |
| Generic.ParameterCounter.constructor | ibis/expr/operations/generic.py:302 | The counter starts at 0 with nothing issued. |
| Generic.ParameterCounter.Draw | ibis/expr/operations/generic.py:306 | Hands out a number never issued before and advances the count by one. |
| Generic.NewScalarParameter | ibis/expr/operations/generic.py:305-307 | A given counter is kept and nothing is drawn. Without one, a number never issued before is drawn and recorded. |
| Generic.CastOutput | ibis/expr/operations/generic.py:127-128 | A cast has the target type and the argument's shape. |
| Generic.CoalesceOutput | ibis/expr/operations/generic.py:198-203 | An empty argument list raises IndexError. Otherwise the type is the first argument's `largest` type, or the type itself when it has none, and the result is a column exactly when some argument is. |
| Generic.HashOutput | ibis/expr/operations/generic.py:410-413 | Accepted exactly for "fnv" and "farm_fingerprint", giving an int64 shaped like the argument. |
| Generic.HashBytesOutput | ibis/expr/operations/generic.py:417-420 | Accepted exactly for a string or binary argument and one of md5, sha1, sha256 and sha512, giving a binary value shaped like the argument. |
| Generic.StructFieldOutput | ibis/expr/operations/generic.py:384-391 | Accepted exactly for a struct holding the field, giving the field's type shaped like the struct. A missing field raises KeyError with the field's name. |
| Generic.NewSimpleCase | ibis/expr/operations/generic.py:450-457 | Construction succeeds exactly when there are as many results as cases, and otherwise raises AssertionError. |
| Generic.NewSearchedCase | ibis/expr/operations/generic.py:469-475 | Construction succeeds exactly when every case is boolean and there are as many results as cases. With boolean cases the failure is an AssertionError. |
| Generic.CaseType | ibis/expr/operations/generic.py:463-464 | The CASE type is the highest-precedence type of the results followed by the default, and fails exactly when there is none. |
| Generic.SimpleCaseOutput | ibis/expr/operations/generic.py:462-465 | The CASE type, shaped like the base alone. |
| Generic.SearchedCaseOutput | ibis/expr/operations/generic.py:480-483 | The CASE type, and a column exactly when some condition is a column. |
| Generic.CaseFormsAgreeOnType | ibis/expr/operations/generic.py:462-483 | Given the same results and default, both forms are typed or neither is, and then with the same type. A scalar base, or all-scalar conditions, give a scalar. |
| Temporal.DateUnitsRange | ibis/expr/operations/temporal.py:23-48 | Every date spelling maps to one of Y, Q, M, W and D. |
| Temporal.TimeUnitsRange | ibis/expr/operations/temporal.py:50-72 | Every time spelling maps to one of h, m, s, ms, us and ns. |
| Temporal.UnitTablesDisjoint | ibis/expr/operations/temporal.py:23-72 | No spelling is in both tables, and no code is in both code sets. |
| Temporal.TimestampUnitsMerge | ibis/expr/operations/temporal.py:74 | The merged table's keys are the union of both tables' keys, and it agrees with each table on that table's keys. Every value it holds is an interval code. |
| Temporal.MicrosecondIsMillisecond | ibis/expr/operations/temporal.py:67-68 | "microsecond" and "MICROSECOND" map to "ms", while "us" maps to "us". |
| Temporal.CodesNormaliseToThemselves | ibis/expr/operations/temporal.py:23-72 | Every code is a spelling of its own table and maps to itself, so normalising is idempotent. |
| Temporal.NewTruncate | ibis/expr/operations/temporal.py:77-95 | A truncation is accepted exactly when its argument has the kind's type and the unit is in the kind's table. Its unit is then a date code, a time code or an interval code, by kind. |
| Temporal.TruncateOutput | ibis/expr/operations/temporal.py:81-95 | A truncation keeps its argument's type and shape. |
| Temporal.TimestampTruncateAcceptsDateAndTimeUnits | ibis/expr/operations/temporal.py:74-80 | A timestamp truncation accepts every date and time spelling and normalises each as its own table does. |
| Temporal.TemporalArithmetic | ibis/expr/operations/temporal.py:225-281 | Accepted exactly when the left operand has the operation's type and the right is an interval in an allowed unit: date codes for dates, time codes for times, all eleven for timestamps. The result is the left operand's type and shape. |
| Temporal.TemporalDifference | ibis/expr/operations/temporal.py:239-288 | Accepted exactly when both operands have the operation's type. The result is an interval of days for dates and of seconds for times and timestamps, shaped like the left operand. |
| Temporal.DifferenceAddsBack | ibis/expr/operations/temporal.py:225-288 | The interval a difference yields is accepted by the addition on the same kind of operand, which gives back the left operand. |
| Temporal.IntervalFromInteger | ibis/expr/operations/temporal.py:341-351 | Accepted exactly for an integer argument and one of the eleven codes. The result is an interval of that unit over the argument's type, shaped like the argument. |
| Temporal.IntervalFromIntegerAddable | ibis/expr/operations/temporal.py:341-351 | Timestamps accept such an interval in every unit, dates exactly in date units and times exactly in time units. |
| Temporal.Unwrap | ibis/expr/operations/temporal.py:294-299 | An interval becomes a value of its value type with the same shape; any other value is unchanged. |
| Temporal.IntervalBinary | ibis/expr/operations/temporal.py:292-337 | Accepted exactly for an interval on the left and, on the right, an interval for add and subtract or a number for multiply and floor-divide. The result keeps the left unit, its value type is the numeric result over the unwrapped types, and it is broadcast over both operands. |
| Temporal.IntervalSumKeepsLeftUnit | ibis/expr/operations/temporal.py:301-309 | Adding intervals of different units is accepted and keeps the first unit, with no conversion between units. |
| Temporal.Extract | ibis/expr/operations/temporal.py:114-183 | A date field is accepted exactly from a date or timestamp, and a time field exactly from a time or timestamp. The result is an int32 shaped like the argument. |
| Temporal.ExtractDateOrTime | ibis/expr/operations/temporal.py:122-128 | No field can be extracted from both a date and a time. |
| Logical.LogicalBinary | ibis/expr/operations/logical.py:12-36 | Accepted exactly for two booleans. The result is a boolean, a column exactly when either operand is. |
| Logical.Not | ibis/expr/operations/logical.py:19-21 | Accepted exactly for a boolean, and keeps its shape. |
| Logical.LogicalBinarySymmetric | ibis/expr/operations/logical.py:12-15 | The typing of a connective does not depend on operand order. |
| Logical.MaybeCastArgs | ibis/expr/operations/logical.py:57-65 | The right operand is cast to the left's type if that cast is accepted, and the left is kept. Failing that, the left is cast to the right's type if that is accepted, and the right is kept. Otherwise both are unchanged. At most one operand changes. |
| Logical.ComparisonOutput | ibis/expr/operations/logical.py:67-73 | Raises TypeError exactly when the operands are not comparable. Otherwise the result is a boolean, a column exactly when either operand is. |
| Logical.ComparisonShapeFromOperands | ibis/expr/operations/logical.py:44-73 | When casting keeps shapes, a comparison is a column exactly when one of the operands as given is. |
| Logical.Between | ibis/expr/operations/logical.py:112-123 | Raises TypeError unless the argument is comparable with both bounds. Otherwise the result is a boolean. |
| Logical.BetweenIsConjunction | ibis/expr/operations/logical.py:112-123 | A range test is accepted exactly when the two comparisons `arg >= lower` and `arg <= upper` are. Then it has the type and shape of their conjunction. |
| Logical.FlatArgs | ibis/expr/operations/logical.py:127-136 | The flattened arguments are the value followed by the options: a list or set spread out, or a single expression as one argument. |
| Logical.ContainsOutput | ibis/expr/operations/logical.py:127-144 | A single expression of options is accepted exactly when it is a column or has an array type, as `one_of` tries the column rule and then the array rule. The result is a boolean, a column exactly when the value or any option is. |
| Logical.Where | ibis/expr/operations/logical.py:148-163 | Accepted exactly for a boolean condition. The result has the true branch's type and the condition's shape. |
| Logical.WhereShapeFromConditionOnly | ibis/expr/operations/logical.py:162-163 | Neither branch's shape, nor the false branch at all, affects the result. |

## Left out

- Nullability of data types, and the data type module itself (precedence lattice, casting and comparability rules, `largest`, the rendering of types). These are parameters of the model (`Rules`); `shape_like` is defined by its stated broadcasting rule.
- Argument rules (`rlz.boolean`, `rlz.date`, `rlz.interval`, `rlz.numeric`, ...) are modelled as accepting exactly the named kind of value. Implicit casts they may perform are not modelled.
- Logical.ContainsOutput: the rule `rlz.set_` is not part of this model; a set of options is taken to be spread into the node's arguments like a list of values, in the order given.
- `Schema.name_at_position` is not part of this model. `Generic.ResolveColumn` assumes it returns the name for positions 0 to n-1 and raises ValueError for any other position.
- The projection machinery (`Projector`, `get_mutation_exprs`) and `_dedup_join_columns`: the table operations return the column list or join plan handed to them.
- TableApi.Mutate, TableApi.Aggregate: when the caller passes a list, `promote_list` returns that very list and the source appends to it in place, so the caller's list grows. The model builds a new sequence and does not capture this aliasing.
- `_ensure_expr` on a string (a column name) is not modelled; values are expressions or functions of the table. `mutate` applies `rlz.any` to non-function values, which the model treats as the value itself.
- The join predicates and suffixes are not modelled; `TableApi.Join` covers the choice of node and of de-duplication.
- TableApi.Join: `Text.Lower` lower-cases ASCII letters only. The choice of node is unaffected: every key of the join table is lower-case ASCII, so only a non-ASCII letter whose lower case is ASCII could matter, and the one such letter, the Kelvin sign, lower-cases to "k", which no key contains. The KeyError payload for an unknown name is affected: for "INNÉR" Python reports "innér", the model "innÉr". The same holds for TableApi.JoinByKind.
- ValueApi.TruncatedQuotient: the timedelta branch works on whole microseconds and does not model the floating-point rounding of `total_seconds()`.
- ValueApi.IntervalLiteral: the type `literal()` infers for an integer is the parameter `Rules.inferInteger`, and for a boolean it is boolean. Keyword amounts are integers only; a boolean given as a keyword amount is not modelled. The unit given with a value is not validated (interval type construction is not part of this model).
- ValueApi.StringGetItem: a bound or step that is neither an integer nor an expression (a float, say) is not modelled.
- ValueApi.Substitute: mapping keys are strings only. The case builder is not part of this model; its two refusals are modelled from its documented rules: a branch value not comparable with the argument (reported as TypeError, the error comparisons raise) and a CASE with no branch (ExpressionError). The builder's check of each result value is not modelled.
- ValueApi.ClipApi: the output type of `Clip` is not part of this model.
- The numpy branch of `Literal.equals` and `Literal.__hash__`, which call into numpy and the data type module.
- `Literal.root_tables` and `ScalarParameter.root_tables` (both return an empty list), as plain constants.
- Thread-safety of the shared parameter counter: it is modelled as a fresh-number supply.
- Backends, `_table_info`, `prevent_rewrite`, date and time string parsing, dynamic method attachment and the one-line wrappers of `api.py`: connection handling, I/O, foreign calls or no logic of their own.

## Findings

| source | as written | input that shows it | evidently intended | confidence | as-written member | corrected member |
|---|---|---|---|---|---|---|
| ibis/expr/api.py:4548-4549 | The join node is chosen from `how.lower()`, but the de-duplication skip tests `how` as given against "semi" and "anti". | `how="left_semi"` (or "ANTI") builds a semi (anti) join that still goes through de-duplication. | Semi and anti joins expose only the left table's columns, as the comment above the test says, so every spelling of them should skip de-duplication. | not executed | TableApi.Join, TableApi.JoinLeftSemiDeduplicated | TableApi.JoinByKind, TableApi.JoinByKindAgrees |
