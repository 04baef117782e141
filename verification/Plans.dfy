/** Logical plans: their output schema, and the list of rows each one denotes. */
module Plans {
  import opened Values
  import opened Expressions
  import opened Sequences
  import opened Aggregates
  import opened Relations
  import opened Batches

  /** A table: its schema and its row groups, dense batches of at least one row. */
  datatype SourceData = SourceData(schema: Schema, groups: seq<Batch>)

  predicate ValidSource(src: SourceData) {
    && UniqueIds(src.schema)
    && ValidStream(src.groups, SchemaTypes(src.schema))
    && forall g <- src.groups :: g.selection == Dense(g.physicalSize)
  }

  type Source = src: SourceData | ValidSource(src) witness SourceData([], [])

  datatype Plan =
    | Scan(source: Source, columns: seq<ColumnId>)
    | Filter(left: Plan, condition: Expr)
    | Projection(left: Plan, expressions: seq<NamedExpr>)
    | Aggregate(left: Plan, keys: seq<ColumnId>, aggregates: seq<AggregateSpec>)
    | Join(left: Plan, right: Plan, keys: seq<ColumnId>, rightKeys: seq<ColumnId>)
    | Sort(left: Plan, sortKeys: seq<SortKey>)
    | Limit(left: Plan, count: nat)

  // ---------------------------------------------------------------------------------------
  // Schemas. None stands for the exceptions thrown on ill-formed plans.

  function Validated(s: Schema): Option<Schema> {
    if UniqueIds(s) then Some(s) else None
  }

  function SelectFields(s: Schema, ids: seq<ColumnId>): (r: Schema)
    requires KeySet(ids) <= Ids(s)
    ensures |r| == |ids| && forall i :: 0 <= i < |ids| ==> r[i] == Lookup(s, ids[i])
  {
    seq(|ids|, i requires 0 <= i < |ids| => assert ids[i] in KeySet(ids); Lookup(s, ids[i]))
  }

  function SelectSchema(s: Schema, ids: seq<ColumnId>): Option<Schema> {
    if KeySet(ids) <= Ids(s) then Validated(SelectFields(s, ids)) else None
  }

  predicate ExpressionsTyped(xs: seq<NamedExpr>, env: TypeEnv) {
    forall x <- xs :: ExpressionType(x.expr, env) == Some(x.field.typ)
  }

  function ProjectionSchema(xs: seq<NamedExpr>, input: Schema): Option<Schema> {
    if ExpressionsTyped(xs, Types(input)) then Validated(OutputFields(xs)) else None
  }

  predicate AggregateOk(a: AggregateSpec, env: TypeEnv) {
    && (a.input.Some? ==> a.input.value in env)
    && AggregateTypeOk(a.kind, if a.input.Some? then Some(env[a.input.value]) else None, a.output.typ)
  }

  function AggregateSchema(input: Schema, keys: seq<ColumnId>, aggs: seq<AggregateSpec>): Option<Schema> {
    var ks := SelectSchema(input, keys);
    if ks.None? || !(forall a <- aggs :: AggregateOk(a, Types(input))) then None
    else Validated(ks.value + AggregateFields(aggs))
  }

  predicate JoinKeysOk(keys: seq<ColumnId>, rightKeys: seq<ColumnId>, l: TypeEnv, r: TypeEnv) {
    && keys != [] && |keys| == |rightKeys|
    && forall i :: 0 <= i < |keys| ==> keys[i] in l && rightKeys[i] in r && l[keys[i]] == r[rightKeys[i]]
  }

  function OutputSchema(p: Plan): Option<Schema> {
    match p
    case Scan(source, columns) => SelectSchema(source.schema, columns)
    case Filter(child, e) =>
      var s := OutputSchema(child);
      if s.Some? && ExpressionType(e, Types(s.value)) == Some(BooleanType) then s else None
    case Projection(child, xs) =>
      var s := OutputSchema(child);
      if s.Some? then ProjectionSchema(xs, s.value) else None
    case Aggregate(child, keys, aggs) =>
      var s := OutputSchema(child);
      if s.Some? then AggregateSchema(s.value, keys, aggs) else None
    case Join(l, r, keys, rightKeys) =>
      var ls, rs := OutputSchema(l), OutputSchema(r);
      if ls.Some? && rs.Some? && JoinKeysOk(keys, rightKeys, Types(ls.value), Types(rs.value))
      then Validated(ls.value + rs.value) else None
    case Sort(child, sortKeys) =>
      var s := OutputSchema(child);
      if s.Some? && (forall k <- sortKeys :: k.column in Ids(s.value)) then s else None
    case Limit(child, _) => OutputSchema(child)
  }

  predicate WellFormed(p: Plan) {
    OutputSchema(p).Some?
  }

  function SchemaOf(p: Plan): Schema
    requires WellFormed(p)
  {
    OutputSchema(p).value
  }

  function OutputIds(p: Plan): set<ColumnId> {
    if WellFormed(p) then Ids(SchemaOf(p)) else {}
  }

  // ---------------------------------------------------------------------------------------
  // Rows.

  function ToRow(s: Schema, t: Tuple): Row {
    map id <- Ids(s) :: if IndexOf(s, id) < |t| then t[IndexOf(s, id)] else Null
  }

  function Naming(s: Schema): Tuple -> Row {
    t => ToRow(s, t)
  }

  function SourceRows(src: Source): seq<Row> {
    Map(Naming(src.schema), StreamRows(src.groups))
  }

  function Take<T>(s: seq<T>, n: nat): seq<T> {
    if n <= |s| then s[..n] else s
  }

  /** The list of rows a plan denotes. */
  function Rows(p: Plan): seq<Row> {
    match p
    case Scan(source, columns) => RestrictRows(KeySet(columns), SourceRows(source))
    case Filter(child, e) => Keep([e], Rows(child))
    case Projection(child, xs) => Map(Projecting(xs), Rows(child))
    case Aggregate(child, keys, aggs) => AggregateRows(keys, aggs, Rows(child))
    case Join(l, r, keys, rightKeys) => JoinRows(keys, rightKeys, Rows(l), Rows(r))
    case Sort(child, sortKeys) => SortRows(sortKeys, Rows(child))
    case Limit(child, n) => Take(Rows(child), n)
  }

  // ---------------------------------------------------------------------------------------
  // Every row of a well-formed plan has the columns and types of its schema.

  ghost predicate AllTyped(rows: seq<Row>, s: Schema) {
    forall row <- rows :: RowHasTypes(row, Types(s))
  }

  lemma {:induction false} OutputUnique(p: Plan)
    requires WellFormed(p)
    ensures UniqueIds(SchemaOf(p))
  {
    match p
    case Filter(child, _) => OutputUnique(child);
    case Sort(child, _) => OutputUnique(child);
    case Limit(child, _) => OutputUnique(child);
    case _ =>
  }

  lemma SelectFieldsIds(s: Schema, ids: seq<ColumnId>)
    requires KeySet(ids) <= Ids(s)
    ensures Ids(SelectFields(s, ids)) == KeySet(ids)
    ensures forall id <- KeySet(ids) :: Lookup(SelectFields(s, ids), id) == Lookup(s, id)
  {
    var r := SelectFields(s, ids);
    forall i | 0 <= i < |ids| ensures r[i].id == ids[i] && ids[i] in Ids(r) {
      assert ids[i] in KeySet(ids);
      assert r[i] in r;
    }
    forall id | id in Ids(r) ensures id in KeySet(ids) {
      var i := IndexOf(r, id);
      assert r[i].id == ids[i];
    }
    forall id | id in KeySet(ids) ensures id in Ids(r) && Lookup(r, id) == Lookup(s, id) {
      var i :| 0 <= i < |ids| && ids[i] == id;
      assert r[i].id in Ids(r);
      assert ids[IndexOf(r, id)] == id;
    }
  }

  lemma NamedTyped(s: Schema, t: Tuple)
    requires TupleTyped(t, SchemaTypes(s))
    ensures RowHasTypes(ToRow(s, t), Types(s))
  {
  }

  lemma SourceTyped(src: Source)
    ensures AllTyped(SourceRows(src), src.schema)
  {
    StreamTyped(src.groups, SchemaTypes(src.schema));
    var all := StreamRows(src.groups);
    forall k | 0 <= k < |all| ensures RowHasTypes(SourceRows(src)[k], Types(src.schema)) {
      NamedTyped(src.schema, all[k]);
    }
  }

  lemma ScanTyped(p: Plan)
    requires p.Scan? && WellFormed(p)
    ensures AllTyped(Rows(p), SchemaOf(p))
  {
    SourceTyped(p.source);
    SelectFieldsIds(p.source.schema, p.columns);
    var rows := SourceRows(p.source);
    forall k | 0 <= k < |rows| ensures RowHasTypes(Rows(p)[k], Types(SchemaOf(p))) {
      assert RowHasTypes(rows[k], Types(p.source.schema));
    }
  }

  lemma ProjectTyped(xs: seq<NamedExpr>, rows: seq<Row>, s: Schema)
    requires AllTyped(rows, s) && ProjectionSchema(xs, s).Some?
    ensures AllTyped(Map(Projecting(xs), rows), OutputFields(xs))
  {
    var out := OutputFields(xs);
    forall k, id | 0 <= k < |rows| && id in Ids(out)
      ensures HasType(ProjectRow(xs, rows[k])[id], Lookup(out, id).typ)
    {
      var x := xs[IndexOf(out, id)];
      assert x in xs;
      EvalTyped(x.expr, rows[k], Types(s));
    }
  }

  lemma AggregateRowTyped(keys: seq<ColumnId>, aggs: seq<AggregateSpec>, rep: Row, members: seq<Row>, s: Schema)
    requires UniqueIds(s) && AggregateSchema(s, keys, aggs).Some?
    requires keys != [] ==> RowHasTypes(rep, Types(s))
    requires AllTyped(members, s)
    ensures RowHasTypes(AggregateRow(keys, aggs, rep, members), Types(AggregateSchema(s, keys, aggs).value))
  {
    var ks, outs := SelectFields(s, keys), AggregateFields(aggs);
    SelectFieldsIds(s, keys);
    IdsAppend(ks, outs);
    forall id | id in Ids(ks + outs)
      ensures HasType(AggregateRow(keys, aggs, rep, members)[id], Lookup(ks + outs, id).typ)
    {
      LookupAppend(ks, outs, id);
      if id in Ids(outs) {
        var a := aggs[IndexOf(outs, id)];
        assert a in aggs;
        AggregateCellTyped(a, members, s);
      } else {
        assert id in KeySet(keys);
      }
    }
  }

  lemma AggregateCellTyped(a: AggregateSpec, rows: seq<Row>, s: Schema)
    requires AggregateOk(a, Types(s)) && AllTyped(rows, s)
    ensures HasType(AggregateCell(a, rows), a.output.typ)
  {
    var input := if a.input.Some? then Some(Types(s)[a.input.value]) else None;
    var vs := AggregateInputs(a.input, rows);
    if a.input.Some? {
      forall v | v in vs ensures HasType(v, input.value) {
        var k :| 0 <= k < |rows| && v == Map(Reading(a.input.value), rows)[k];
        assert RowHasTypes(rows[k], Types(s));
      }
    }
    AggregateTyped(a.kind, input, a.output.typ, vs);
  }

  lemma AggregateRowsTyped(keys: seq<ColumnId>, aggs: seq<AggregateSpec>, rows: seq<Row>, s: Schema)
    requires UniqueIds(s) && AggregateSchema(s, keys, aggs).Some? && AllTyped(rows, s)
    ensures AllTyped(AggregateRows(keys, aggs, rows), AggregateSchema(s, keys, aggs).value)
  {
    var out := AggregateSchema(s, keys, aggs).value;
    if keys == [] {
      AggregateRowTyped(keys, aggs, map[], rows, s);
    } else {
      var reps := Representatives(keys, rows);
      forall k | 0 <= k < |reps| ensures RowHasTypes(AggregateRows(keys, aggs, rows)[k], Types(out)) {
        assert reps[k] in rows;
        AggregateRowTyped(keys, aggs, reps[k], Members(keys, KeyOf(keys, reps[k]), rows), s);
      }
    }
  }

  lemma {:induction false} JoinMembers(lk: seq<ColumnId>, rk: seq<ColumnId>, left: seq<Row>, right: seq<Row>, x: Row)
    requires x in JoinRows(lk, rk, left, right)
    ensures exists l, r :: l in left && r in right && x == l + r
  {
    var l, init := left[|left| - 1], left[..|left| - 1];
    if x in JoinOne(lk, rk, l, right) {
      var i :| 0 <= i < |JoinOne(lk, rk, l, right)| && x == JoinOne(lk, rk, l, right)[i];
      var r := Select(MatchingWith(lk, rk, l), right)[i];
      assert l in left && r in right;
    } else {
      JoinMembers(lk, rk, init, right, x);
    }
  }

  lemma JoinedCellTyped(l: Row, r: Row, ls: Schema, rs: Schema, id: ColumnId)
    requires RowHasTypes(l, Types(ls)) && RowHasTypes(r, Types(rs)) && UniqueIds(ls + rs)
    requires id in Ids(ls + rs)
    ensures id in l + r && HasType((l + r)[id], Lookup(ls + rs, id).typ)
  {
    LookupAppend(ls, rs, id);
    if id in Ids(ls) {
      assert id in Types(ls) && id !in Types(rs);
      assert (l + r)[id] == l[id];
    } else {
      assert id in Types(rs);
      assert (l + r)[id] == r[id];
    }
  }

  lemma JoinedRowTyped(l: Row, r: Row, ls: Schema, rs: Schema)
    requires RowHasTypes(l, Types(ls)) && RowHasTypes(r, Types(rs)) && UniqueIds(ls + rs)
    ensures RowHasTypes(l + r, Types(ls + rs))
  {
    hide Ids;
    hide UniqueIds;
    hide HasType;
    IdsAppend(ls, rs);
    assert (l + r).Keys == Types(ls).Keys + Types(rs).Keys == Ids(ls + rs);
    var env := Types(ls + rs);
    forall id | id in env ensures HasType((l + r)[id], env[id]) {
      JoinedCellTyped(l, r, ls, rs, id);
    }
  }

  lemma JoinTyped(lk: seq<ColumnId>, rk: seq<ColumnId>, left: seq<Row>, right: seq<Row>, ls: Schema, rs: Schema)
    requires AllTyped(left, ls) && AllTyped(right, rs) && UniqueIds(ls + rs)
    ensures AllTyped(JoinRows(lk, rk, left, right), ls + rs)
  {
    forall x | x in JoinRows(lk, rk, left, right) ensures RowHasTypes(x, Types(ls + rs)) {
      JoinMembers(lk, rk, left, right, x);
      var l, r :| l in left && r in right && x == l + r;
      JoinedRowTyped(l, r, ls, rs);
    }
  }

  lemma KeepTyped(es: seq<Expr>, rows: seq<Row>, s: Schema)
    requires AllTyped(rows, s)
    ensures AllTyped(Keep(es, rows), s)
  {
  }

  lemma SortTyped(keys: seq<SortKey>, rows: seq<Row>, s: Schema)
    requires AllTyped(rows, s)
    ensures AllTyped(SortRows(keys, rows), s)
  {
    StableSortMembers(RowOrder(keys), rows);
    forall row | row in SortRows(keys, rows) ensures row in rows {
      assert row in multiset(SortRows(keys, rows));
    }
  }

  lemma TakeTyped(rows: seq<Row>, n: nat, s: Schema)
    requires AllTyped(rows, s)
    ensures AllTyped(Take(rows, n), s)
  {
  }

  /** Every row a well-formed plan denotes fits the output schema. */
  lemma {:induction false} RowsTyped(p: Plan)
    requires WellFormed(p)
    ensures AllTyped(Rows(p), SchemaOf(p))
  {
    hide AllTyped;
    hide Keep;
    hide SortRows;
    hide AggregateRows;
    hide JoinRows;
    match p
    case Scan(_, _) => ScanTyped(p);
    case Filter(child, e) =>
      RowsTyped(child);
      KeepTyped([e], Rows(child), SchemaOf(child));
    case Projection(child, xs) =>
      RowsTyped(child);
      ProjectTyped(xs, Rows(child), SchemaOf(child));
    case Aggregate(child, keys, aggs) =>
      RowsTyped(child);
      OutputUnique(child);
      AggregateRowsTyped(keys, aggs, Rows(child), SchemaOf(child));
    case Join(l, r, keys, rightKeys) =>
      RowsTyped(l);
      RowsTyped(r);
      JoinTyped(keys, rightKeys, Rows(l), Rows(r), SchemaOf(l), SchemaOf(r));
    case Sort(child, sortKeys) =>
      RowsTyped(child);
      SortTyped(sortKeys, Rows(child), SchemaOf(child));
    case Limit(child, n) =>
      RowsTyped(child);
      TakeTyped(Rows(child), n, SchemaOf(child));
  }
}
