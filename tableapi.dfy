/** The table methods of the expression API that rewrite a table's column list: dropping,
    relabelling and replacing columns, appending named mutations and metrics, checking
    fill-null mappings, viewing a one-column table as an array, and choosing a join. A result
    is the list of value expressions handed on to the projection machinery. */
module TableApi {
  import opened Common
  import opened Text
  import opened DataTypes

  /** Where a value expression's values come from: a column of the table, or an expression
      built elsewhere (identified by a number). */
  datatype Source = ColumnOf(column: string) | Computed(id: nat)

  /** A named value expression in a column list. */
  datatype NamedExpr = NamedExpr(source: Source, name: string, dtype: DType)

  /** `table[c]` for a column `(c, t)` of the schema. */
  function ColumnRef(column: (string, DType)): (e: NamedExpr)
    ensures e.source == ColumnOf(column.0) && e.name == column.0 && e.dtype == column.1
  {
    NamedExpr(ColumnOf(column.0), column.0, column.1)
  }

  /** Every column of the table, in order. */
  function Refs(schema: Schema): (exprs: seq<NamedExpr>)
    ensures |exprs| == |schema|
    ensures forall i :: 0 <= i < |schema| ==> exprs[i] == ColumnRef(schema[i])
  {
    seq(|schema|, i requires 0 <= i < |schema| => ColumnRef(schema[i]))
  }

  function ExprNames(exprs: seq<NamedExpr>): (names: seq<string>)
    ensures |names| == |exprs|
    ensures forall i :: 0 <= i < |exprs| ==> names[i] == exprs[i].name
  {
    seq(|exprs|, i requires 0 <= i < |exprs| => exprs[i].name)
  }

  /** `xs` is `ys` with some elements left out, the rest in their order. */
  predicate IsSubsequence<T(==)>(xs: seq<T>, ys: seq<T>) {
    if xs == [] then true
    else if ys == [] then false
    else if xs[0] == ys[0] then IsSubsequence(xs[1..], ys[1..])
    else IsSubsequence(xs, ys[1..])
  }

  /** The elements of `xs` absent from `names`, in order. */
  function Absent(xs: seq<string>, names: seq<string>): (r: seq<string>)
    ensures forall k :: k in r <==> k in xs && k !in names
  {
    if xs == [] then []
    else (if xs[0] in names then [] else [xs[0]]) + Absent(xs[1..], names)
  }

  /** The position of the first element of `keys` absent from `names`; `|keys|` when there is none. */
  function FirstAbsent(keys: seq<string>, names: seq<string>): (i: nat)
    ensures i <= |keys|
    ensures forall j :: 0 <= j < i ==> keys[j] in names
    ensures i < |keys| ==> keys[i] !in names
  {
    if keys == [] || keys[0] !in names then 0 else 1 + FirstAbsent(keys[1..], names)
  }

  /** How a value is handed to a table method: as an expression, or as a function of the table
      (`_ensure_expr` and the `is_function` test call it with the table). */
  datatype ValueArg = Given(expr: NamedExpr) | Deferred(f: Schema -> NamedExpr)

  function EnsureExpr(schema: Schema, arg: ValueArg): NamedExpr {
    match arg
    case Given(e) => e
    case Deferred(f) => f(schema)
  }

  // ---------------------------------------------------------------------------
  // drop

  /** The `fields` argument of `drop`: one name, or a sequence of names. */
  datatype Fields = OneField(field: string) | FieldList(fields: seq<string>)

  /** A table method's result: the table itself, or a projection of a column list. */
  datatype TableResult = SameTable | Projection(exprs: seq<NamedExpr>)

  /** The names `fields` stands for: a single name is a one-element list. */
  function FieldNames(fields: Fields): (names: seq<string>)
    ensures fields.OneField? ==> names == [fields.field]
    ensures fields.FieldList? ==> names == fields.fields
  {
    match fields
    case OneField(f) => [f]
    case FieldList(fs) => fs
  }

  /** `not fields`: the empty string or the empty list. */
  predicate NoFields(fields: Fields) {
    fields == OneField("") || fields == FieldList([])
  }

  /** The columns of the schema whose names are not in `dropped`, in schema order. */
  function Kept(schema: Schema, dropped: seq<string>): seq<NamedExpr> {
    if schema == [] then []
    else if schema[0].0 in dropped then Kept(schema[1..], dropped)
    else [ColumnRef(schema[0])] + Kept(schema[1..], dropped)
  }

  /** The kept columns are the table's columns in order, with exactly those named in `dropped`
      left out. */
  lemma {:induction false} KeptSpec(schema: Schema, dropped: seq<string>)
    ensures IsSubsequence(Kept(schema, dropped), Refs(schema))
    ensures forall e :: e in Kept(schema, dropped) <==> e in Refs(schema) && e.name !in dropped
  {
    if schema != [] {
      var rest := Kept(schema[1..], dropped);
      KeptSpec(schema[1..], dropped);
      assert Refs(schema) == [ColumnRef(schema[0])] + Refs(schema[1..]);
      if schema[0].0 in dropped {
        SubsequenceOfTail(rest, ColumnRef(schema[0]), Refs(schema[1..]));
      }
    }
  }

  lemma {:induction false} SubsequenceOfTail<T>(xs: seq<T>, y: T, ys: seq<T>)
    requires IsSubsequence(xs, ys)
    ensures IsSubsequence(xs, [y] + ys)
    decreases |ys|, 1
  {
    assert ([y] + ys)[1..] == ys;
    if xs != [] && xs[0] == y {
      SubsequenceDropHead(xs, ys);
    }
  }

  lemma {:induction false} SubsequenceDropHead<T>(xs: seq<T>, ys: seq<T>)
    requires xs != [] && IsSubsequence(xs, ys)
    ensures IsSubsequence(xs[1..], ys)
    decreases |ys|, 0
  {
    assert [ys[0]] + ys[1..] == ys;
    if xs[0] != ys[0] {
      SubsequenceDropHead(xs, ys[1..]);
    }
    SubsequenceOfTail(xs[1..], ys[0], ys[1..]);
  }

  /** `drop(fields)`: no fields leaves the table as it is; a name the schema lacks raises
      KeyError listing every such name; otherwise the table's other columns, in order. */
  function Drop(schema: Schema, fields: Fields): (r: Result<TableResult>)
    ensures NoFields(fields) ==> r == Ok(SameTable)
    ensures !NoFields(fields) ==> (r.Err? <==> exists f :: f in FieldNames(fields) && f !in Names(schema))
    ensures r.Err? ==> r.error.KeyError? &&
                       forall k :: k in r.error.keys <==> k in FieldNames(fields) && k !in Names(schema)
    ensures r.Ok? && !NoFields(fields) ==>
              && r.value.Projection?
              && IsSubsequence(r.value.exprs, Refs(schema))
              && (forall e :: e in r.value.exprs <==> e in Refs(schema) && e.name !in FieldNames(fields))
  {
    if NoFields(fields) then Ok(SameTable)
    else
      var names := FieldNames(fields);
      var missing := Absent(names, Names(schema));
      if missing != [] then
        assert missing[0] in names;
        Err(KeyError(missing))
      else
        KeptSpec(schema, names);
        Ok(Projection(Kept(schema, names)))
  }

  /** A single name is dropped as the list holding it. */
  lemma DropOneIsDropList(schema: Schema, field: string)
    requires field != ""
    ensures Drop(schema, OneField(field)) == Drop(schema, FieldList([field]))
  {
  }

  /** Dropping works column by column: the kept columns of two parts of a schema, joined. */
  lemma {:induction false} KeptAppend(a: Schema, b: Schema, dropped: seq<string>)
    ensures Kept(a + b, dropped) == Kept(a, dropped) + Kept(b, dropped)
  {
    if a == [] {
      assert a + b == b;
    } else {
      assert (a + b)[0] == a[0] && (a + b)[1..] == a[1..] + b;
      KeptAppend(a[1..], b, dropped);
    }
  }

  /** Dropping names no column of the schema has keeps every column. */
  lemma {:induction false} KeptNone(schema: Schema, dropped: seq<string>)
    requires forall i :: 0 <= i < |schema| ==> schema[i].0 !in dropped
    ensures Kept(schema, dropped) == Refs(schema)
  {
    if schema != [] {
      KeptNone(schema[1..], dropped);
      assert Refs(schema) == [ColumnRef(schema[0])] + Refs(schema[1..]);
    }
  }

  lemma KeptSplit(schema: Schema, i: nat, d: seq<string>)
    requires i < |schema|
    ensures Kept(schema, d) == Kept(schema[..i], d) + Kept([schema[i]], d) + Kept(schema[i + 1..], d)
  {
    assert schema == schema[..i] + ([schema[i]] + schema[i + 1..]);
    KeptAppend(schema[..i], [schema[i]] + schema[i + 1..], d);
    KeptAppend([schema[i]], schema[i + 1..], d);
  }

  /** Dropping one column of a schema with distinct names keeps every other column, in order. */
  lemma DropOneColumn(schema: Schema, i: nat)
    requires DistinctKeys(schema) && i < |schema|
    ensures Kept(schema, [schema[i].0]) == Refs(schema[..i]) + Refs(schema[i + 1..])
  {
    var d := [schema[i].0];
    var before, after := schema[..i], schema[i + 1..];
    KeptSplit(schema, i, d);
    forall j | 0 <= j < |before| ensures before[j].0 !in d {
      assert before[j] == schema[j];
    }
    KeptNone(before, d);
    forall j | 0 <= j < |after| ensures after[j].0 !in d {
      assert after[j] == schema[i + 1 + j];
    }
    KeptNone(after, d);
    assert Kept([schema[i]], d) == [];
  }

  // ---------------------------------------------------------------------------
  // relabel

  /** A column after relabelling: renamed when the substitutions have its name as a key. */
  function RelabelColumn(column: (string, DType), substitutions: Dict<string>): NamedExpr {
    if column.0 in Keys(substitutions) then ColumnRef(column).(name := Lookup(substitutions, column.0))
    else ColumnRef(column)
  }

  /** The column list `relabel` builds: the same columns in the same order with the same
      types, each renamed exactly when its name is a key of the substitutions. */
  function Relabeled(schema: Schema, substitutions: Dict<string>): (exprs: seq<NamedExpr>)
    ensures |exprs| == |schema|
    ensures forall i :: 0 <= i < |schema| ==>
              exprs[i].source == ColumnOf(schema[i].0) && exprs[i].dtype == schema[i].1
    ensures forall i :: 0 <= i < |schema| ==>
              exprs[i].name == if schema[i].0 in Keys(substitutions) then Lookup(substitutions, schema[i].0) else schema[i].0
  {
    seq(|schema|, i requires 0 <= i < |schema| => RelabelColumn(schema[i], substitutions))
  }

  /** `relabel(substitutions)`. The column list is built first while the matched keys are
      recorded; then the first key, in dict order, that matched no column raises KeyError. */
  method Relabel(schema: Schema, substitutions: Dict<string>) returns (r: Result<seq<NamedExpr>>)
    ensures r.Ok? <==> FirstAbsent(Keys(substitutions), Names(schema)) == |substitutions|
    ensures r.Err? ==> r.error == KeyError([Keys(substitutions)[FirstAbsent(Keys(substitutions), Names(schema))]])
    ensures r.Ok? ==> r.value == Relabeled(schema, substitutions)
  {
    var keys := Keys(substitutions);
    var names := Names(schema);
    var observed: set<string> := {};
    var exprs: seq<NamedExpr> := [];
    for i := 0 to |schema|
      invariant |exprs| == i
      invariant forall j :: 0 <= j < i ==> exprs[j] == RelabelColumn(schema[j], substitutions)
      invariant forall c :: c in observed ==> c in names
      invariant forall j :: 0 <= j < i && schema[j].0 in keys ==> schema[j].0 in observed
    {
      var c := schema[i].0;
      var expr := ColumnRef(schema[i]);
      if c in keys {
        expr := expr.(name := Lookup(substitutions, c));
        observed := observed + {c};
      }
      exprs := exprs + [expr];
    }
    ghost var first := FirstAbsent(keys, names);
    for k := 0 to |keys|
      invariant k <= first
    {
      if keys[k] !in observed {
        assert k == first by {
          assert keys[k] !in names;
        }
        return Err(KeyError([keys[k]]));
      }
    }
    assert first == |keys|;
    assert exprs == Relabeled(schema, substitutions);
    return Ok(exprs);
  }

  /** A substitution that maps each key to itself leaves the column list as it is. */
  lemma RelabelIdentity(schema: Schema, substitutions: Dict<string>)
    requires forall i :: 0 <= i < |substitutions| ==> substitutions[i].1 == substitutions[i].0
    ensures Relabeled(schema, substitutions) == Refs(schema)
  {
    forall i | 0 <= i < |schema| && schema[i].0 in Keys(substitutions)
      ensures Lookup(substitutions, schema[i].0) == schema[i].0
    {
      var j :| 0 <= j < |substitutions| && substitutions[j] == (schema[i].0, Lookup(substitutions, schema[i].0));
    }
  }

  // ---------------------------------------------------------------------------
  // set_column

  /** The column list `set_column` builds: the table's columns, the one named `name` replaced
      by `expr` under that name. */
  function SetColumnExprs(schema: Schema, name: string, expr: NamedExpr): (exprs: seq<NamedExpr>)
    ensures |exprs| == |schema|
    ensures ExprNames(exprs) == Names(schema)
    ensures forall i :: 0 <= i < |schema| && schema[i].0 != name ==> exprs[i] == ColumnRef(schema[i])
    ensures forall i :: 0 <= i < |schema| && schema[i].0 == name ==> exprs[i] == expr.(name := name)
  {
    seq(|schema|, i requires 0 <= i < |schema| => if schema[i].0 == name then expr.(name := name) else ColumnRef(schema[i]))
  }

  /** `set_column(name, expr)`: the value is made an expression and named `name`; a name the
      table lacks raises KeyError; otherwise the columns are rebuilt one by one. */
  method SetColumn(schema: Schema, name: string, arg: ValueArg) returns (r: Result<seq<NamedExpr>>)
    ensures r.Err? <==> name !in Names(schema)
    ensures r.Err? ==> r.error == KeyError([name])
    ensures r.Ok? ==> r.value == SetColumnExprs(schema, name, EnsureExpr(schema, arg))
  {
    var expr := EnsureExpr(schema, arg);
    if expr.name != name {
      expr := expr.(name := name);
    }
    if name !in Names(schema) {
      return Err(KeyError([name]));
    }
    var projExprs: seq<NamedExpr> := [];
    for i := 0 to |schema|
      invariant |projExprs| == i
      invariant forall j :: 0 <= j < i ==> projExprs[j] == SetColumnExprs(schema, name, EnsureExpr(schema, arg))[j]
    {
      if schema[i].0 == name {
        projExprs := projExprs + [expr];
      } else {
        projExprs := projExprs + [ColumnRef(schema[i])];
      }
    }
    return Ok(projExprs);
  }

  /** In a schema with distinct names exactly one position changes: the one named `name`. */
  lemma SetColumnChangesOnePosition(schema: Schema, i: nat, expr: NamedExpr)
    requires DistinctKeys(schema) && i < |schema|
    ensures forall j :: 0 <= j < |schema| && j != i ==> SetColumnExprs(schema, schema[i].0, expr)[j] == Refs(schema)[j]
  {
  }

  /** Setting a column to the table's own column of that name gives back the table's columns. */
  lemma SetColumnToItself(schema: Schema, i: nat)
    requires DistinctKeys(schema) && i < |schema|
    ensures SetColumnExprs(schema, schema[i].0, ColumnRef(schema[i])) == Refs(schema)
  {
  }

  // ---------------------------------------------------------------------------
  // mutate and aggregate

  /** An argument `util.promote_list` turns into a list: absent, one value, or a list. */
  datatype Many<T> = NoneGiven | One(item: T) | List(items: seq<T>)

  /** `[] if x is None else util.promote_list(x)`. */
  function PromoteList<T>(m: Many<T>): (r: seq<T>)
    ensures m.NoneGiven? ==> r == []
    ensures m.One? ==> r == [m.item]
    ensures m.List? ==> r == m.items
  {
    match m
    case NoneGiven => []
    case One(x) => [x]
    case List(xs) => xs
  }

  /** The value given for keyword `name`, called with the table when it is a function, renamed
      to `name`. */
  function NamedArg(schema: Schema, kwargs: Dict<ValueArg>, name: string): (e: NamedExpr)
    requires name in Keys(kwargs)
    ensures e.name == name
  {
    EnsureExpr(schema, Lookup(kwargs, name)).(name := name)
  }

  /** The sorted keyword names are keyword names. */
  lemma SortedNamesAreKeys(kwargs: Dict<ValueArg>)
    requires DistinctKeys(kwargs)
    ensures forall i :: 0 <= i < |Sort(Keys(kwargs))| ==> Sort(Keys(kwargs))[i] in Keys(kwargs)
  {
    var names := Sort(Keys(kwargs));
    forall i | 0 <= i < |names| ensures names[i] in Keys(kwargs) {
      assert names[i] in multiset(names);
    }
  }

  /** The named expressions for a list of keyword names, in that order. */
  function NamedFor(schema: Schema, kwargs: Dict<ValueArg>, names: seq<string>): (exprs: seq<NamedExpr>)
    requires forall i :: 0 <= i < |names| ==> names[i] in Keys(kwargs)
    ensures |exprs| == |names|
    ensures forall i :: 0 <= i < |names| ==> exprs[i] == NamedArg(schema, kwargs, names[i])
  {
    seq(|names|, i requires 0 <= i < |names| => NamedArg(schema, kwargs, names[i]))
  }

  /** The keyword arguments as named expressions, in ascending order of name. */
  function SortedNamed(schema: Schema, kwargs: Dict<ValueArg>): seq<NamedExpr>
    requires DistinctKeys(kwargs)
  {
    SortedNamesAreKeys(kwargs);
    NamedFor(schema, kwargs, Sort(Keys(kwargs)))
  }

  /** `mutate(exprs, **mutations)`: the positional expressions, then one expression per keyword
      in ascending order of name. */
  method Mutate(schema: Schema, exprs: Many<NamedExpr>, mutations: Dict<ValueArg>) returns (r: seq<NamedExpr>)
    requires DistinctKeys(mutations)
    ensures r == PromoteList(exprs) + SortedNamed(schema, mutations)
  {
    var names := Sort(Keys(mutations));
    SortedNamesAreKeys(mutations);
    var appended: seq<NamedExpr> := [];
    for i := 0 to |names|
      invariant |appended| == i
      invariant forall j :: 0 <= j < i ==> appended[j] == NamedArg(schema, mutations, names[j])
    {
      appended := appended + [NamedArg(schema, mutations, names[i])];
    }
    assert appended == NamedFor(schema, mutations, names);
    r := PromoteList(exprs) + appended;
  }

  /** The positional expressions of a mutation come first, unchanged; after them come the keyword
      expressions, carrying exactly the keyword names, in ascending order, each the value given
      for its name. */
  lemma MutationOrder(schema: Schema, exprs: Many<NamedExpr>, mutations: Dict<ValueArg>)
    requires DistinctKeys(mutations)
    ensures var r := PromoteList(exprs) + SortedNamed(schema, mutations);
            var n := |PromoteList(exprs)|;
            && r[..n] == PromoteList(exprs)
            && StrictlySorted(ExprNames(r[n..]))
            && multiset(ExprNames(r[n..])) == multiset(Keys(mutations))
            && (forall i :: n <= i < |r| ==> r[i].name in Keys(mutations) && r[i] == NamedArg(schema, mutations, r[i].name))
  {
    var named := SortedNamed(schema, mutations);
    var names := Sort(Keys(mutations));
    SortedNamesAreKeys(mutations);
    assert ExprNames(named) == names;
    var r := PromoteList(exprs) + named;
    assert r[|PromoteList(exprs)|..] == named;
  }

  /** The arguments of an aggregation node. */
  datatype Aggregation = Aggregation(metrics: seq<NamedExpr>, groupBy: seq<NamedExpr>, having: seq<NamedExpr>)

  /** `aggregate(metrics, by, having, **kwargs)`: the keyword metrics, in ascending order of
      name, extend the positional ones; `by` (here `groupBy`) and `having` become lists. */
  method Aggregate(schema: Schema, metrics: Many<NamedExpr>, groupBy: Many<NamedExpr>, having: Many<NamedExpr>,
                   kwargs: Dict<ValueArg>) returns (a: Aggregation)
    requires DistinctKeys(kwargs)
    ensures a.metrics == PromoteList(metrics) + SortedNamed(schema, kwargs)
    ensures a.groupBy == PromoteList(groupBy) && a.having == PromoteList(having)
  {
    var ms := PromoteList(metrics);
    ms := ms + SortedNamed(schema, kwargs);
    a := Aggregation(ms, PromoteList(groupBy), PromoteList(having));
  }

  // ---------------------------------------------------------------------------
  // fillna, to_array

  /** The replacement `fillna` is given: one value for every column, or a value per column. */
  datatype Replacements = Uniform(value: Value) | PerColumn(mapping: Dict<Value>)

  /** `fillna(replacements)`: a mapping naming a column the table lacks raises IbisTypeError
      listing those names; anything else builds the `FillNa` node. */
  function FillNa(schema: Schema, replacements: Replacements): (r: Result<Replacements>)
    ensures r.Err? <==> replacements.PerColumn? && exists k :: k in Keys(replacements.mapping) && k !in Names(schema)
    ensures r.Err? ==> r.error.IbisTypeError? &&
                       forall k :: k in r.error.names <==> k in Keys(replacements.mapping) && k !in Names(schema)
    ensures r.Ok? ==> r.value == replacements
  {
    match replacements
    case Uniform(_) => Ok(replacements)
    case PerColumn(mapping) =>
      var invalid := Absent(Keys(mapping), Names(schema));
      if invalid != [] then
        assert invalid[0] in Keys(mapping);
        Err(IbisTypeError(invalid))
      else Ok(replacements)
  }

  /** `to_array()`: a table with exactly one column viewed as a column of that column's name
      and type; any other table raises ExpressionError. */
  function ToArray(schema: Schema): (r: Result<(string, Value)>)
    ensures r.Ok? <==> |schema| == 1
    ensures r.Err? ==> r.error == ExpressionError
    ensures r.Ok? ==> r.value == (schema[0].0, Value(schema[0].1, Column))
  {
    if |schema| != 1 then Err(ExpressionError) else Ok((schema[0].0, Value(schema[0].1, Column)))
  }

  // ---------------------------------------------------------------------------
  // join

  datatype JoinKind =
    | InnerJoin | LeftJoin | AnyInnerJoin | AnyLeftJoin | OuterJoin | RightJoin
    | LeftSemiJoin | LeftAntiJoin | CrossJoin

  /** `_join_classes`: the join node for each lower-case option name. */
  function JoinClass(key: string): (k: Option<JoinKind>)
    ensures k == Some(InnerJoin) <==> key == "inner"
    ensures k == Some(LeftJoin) <==> key == "left"
    ensures k == Some(AnyInnerJoin) <==> key == "any_inner"
    ensures k == Some(AnyLeftJoin) <==> key == "any_left"
    ensures k == Some(OuterJoin) <==> key == "outer"
    ensures k == Some(RightJoin) <==> key == "right"
    ensures k == Some(LeftSemiJoin) <==> key == "left_semi" || key == "semi"
    ensures k == Some(LeftAntiJoin) <==> key == "anti"
    ensures k == Some(CrossJoin) <==> key == "cross"
  {
    if key == "inner" then Some(InnerJoin)
    else if key == "left" then Some(LeftJoin)
    else if key == "any_inner" then Some(AnyInnerJoin)
    else if key == "any_left" then Some(AnyLeftJoin)
    else if key == "outer" then Some(OuterJoin)
    else if key == "right" then Some(RightJoin)
    else if key == "left_semi" then Some(LeftSemiJoin)
    else if key == "semi" then Some(LeftSemiJoin)
    else if key == "anti" then Some(LeftAntiJoin)
    else if key == "cross" then Some(CrossJoin)
    else None
  }

  /** What `join` builds: the join node, and whether overlapping columns are then
      de-duplicated with the suffixes. */
  datatype JoinPlan = JoinPlan(kind: JoinKind, dedup: bool)

  /** `join(left, right, predicates, how)`: the node is chosen by the lower-cased `how` (an
      unknown name raises KeyError); de-duplication is skipped when `how`, as given, is exactly
      "semi" or "anti". */
  function Join(how: string): (r: Result<JoinPlan>)
    ensures r.Ok? <==> JoinClass(Lower(how)).Some?
    ensures r.Err? ==> r.error == KeyError([Lower(how)])
    ensures r.Ok? ==> Some(r.value.kind) == JoinClass(Lower(how))
    ensures r.Ok? ==> (r.value.dedup <==> how != "semi" && how != "anti")
  {
    match JoinClass(Lower(how))
    case None => Err(KeyError([Lower(how)]))
    case Some(kind) => Ok(JoinPlan(kind, !(how == "semi" || how == "anti")))
  }

  /** As written, a left semi join asked for as "left_semi" still goes through
      de-duplication. */
  lemma JoinLeftSemiDeduplicated()
    ensures Join("left_semi") == Ok(JoinPlan(LeftSemiJoin, true))
  {
    LowerOfLowerCase("left_semi");
  }

  /** As written, an anti join asked for as "ANTI" still goes through de-duplication. */
  lemma JoinUpperCaseAntiDeduplicated()
    ensures Join("ANTI") == Ok(JoinPlan(LeftAntiJoin, true))
  {
    assert Lower("ANTI") == "anti";
  }

  /** A semi join asked for as "semi" skips de-duplication. */
  lemma JoinSemiSkipsDedup()
    ensures Join("semi") == Ok(JoinPlan(LeftSemiJoin, false))
  {
    LowerOfLowerCase("semi");
  }

  /** Semi and anti joins expose only the left table's columns, so there is nothing to
      de-duplicate: the choice made from the join node rather than from the spelling. */
  function JoinByKind(how: string): (r: Result<JoinPlan>)
    ensures r.Ok? <==> JoinClass(Lower(how)).Some?
    ensures r.Err? ==> r.error == KeyError([Lower(how)])
    ensures r.Ok? ==> Some(r.value.kind) == JoinClass(Lower(how))
    ensures r.Ok? ==> (r.value.dedup <==> r.value.kind != LeftSemiJoin && r.value.kind != LeftAntiJoin)
  {
    match JoinClass(Lower(how))
    case None => Err(KeyError([Lower(how)]))
    case Some(kind) => Ok(JoinPlan(kind, kind != LeftSemiJoin && kind != LeftAntiJoin))
  }

  /** The corrected choice agrees with the written one exactly on the names of joins other than
      semi and anti joins and on the exact spellings "semi" and "anti". */
  lemma JoinByKindAgrees(how: string)
    requires Join(how).Ok?
    ensures var kind := Join(how).value.kind;
            JoinByKind(how) == Join(how) <==>
              (kind != LeftSemiJoin && kind != LeftAntiJoin) || how == "semi" || how == "anti"
  {
    if how == "semi" {
      assert Lower(how) == "semi";
    } else if how == "anti" {
      assert Lower(how) == "anti";
    }
  }
}
