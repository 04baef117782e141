/**
 The list semantics of the relational operators: a filter keeps order, a join is a left-major
 nested loop, groups come in order of first appearance, and a sort is stable.
 */
module Relations {
  import opened Values
  import opened Expressions
  import opened Sequences
  import opened Aggregates

  /** A row by position, as batches hold it. */
  type Tuple = seq<Value>

  // ---------------------------------------------------------------------------------------
  // Schemas.

  datatype Field = Field(id: ColumnId, typ: Type, name: string)
  type Schema = seq<Field>

  function Ids(s: Schema): set<ColumnId> {
    set f <- s :: f.id
  }

  predicate UniqueIds(s: Schema) {
    forall i, j :: 0 <= i < j < |s| ==> s[i].id != s[j].id
  }

  function IndexOf(s: Schema, id: ColumnId): (k: nat)
    requires id in Ids(s)
    ensures k < |s| && s[k].id == id
    ensures forall j :: 0 <= j < k ==> s[j].id != id
  {
    if s[0].id == id then 0 else
      assert s == [s[0]] + s[1..];
      1 + IndexOf(s[1..], id)
  }

  function Lookup(s: Schema, id: ColumnId): Field
    requires id in Ids(s)
  {
    s[IndexOf(s, id)]
  }

  function Types(s: Schema): TypeEnv {
    map id <- Ids(s) :: Lookup(s, id).typ
  }

  function SchemaTypes(s: Schema): (types: seq<Type>)
    ensures |types| == |s| && forall i :: 0 <= i < |s| ==> types[i] == s[i].typ
  {
    seq(|s|, i requires 0 <= i < |s| => s[i].typ)
  }

  lemma FieldAt(s: Schema, k: nat)
    requires k < |s| && UniqueIds(s)
    ensures s[k].id in Ids(s) && Lookup(s, s[k].id) == s[k] && IndexOf(s, s[k].id) == k
  {
    assert s[k] in s;
  }

  lemma LookupAppend(a: Schema, b: Schema, id: ColumnId)
    requires UniqueIds(a + b) && id in Ids(a + b)
    ensures id in Ids(a) ==> id !in Ids(b) && Lookup(a + b, id) == Lookup(a, id)
    ensures id in Ids(b) ==> id !in Ids(a) && Lookup(a + b, id) == Lookup(b, id)
    ensures id in Ids(a) || id in Ids(b)
  {
    var s := a + b;
    if id in Ids(a) {
      var k := IndexOf(a, id);
      assert s[k] == a[k];
      FieldAt(s, k);
      forall j | 0 <= j < |b| ensures b[j].id != id {
        assert s[|a| + j] == b[j];
      }
    }
    if id in Ids(b) {
      var k := IndexOf(b, id);
      assert s[|a| + k] == b[k];
      FieldAt(s, |a| + k);
    }
  }

  lemma IdsAppend(a: Schema, b: Schema)
    ensures Ids(a + b) == Ids(a) + Ids(b)
  {
    forall id ensures id in Ids(a + b) <==> id in Ids(a) + Ids(b) {
      if id in Ids(a) {
        var f :| f in a && f.id == id;
        assert f in a + b;
      }
      if id in Ids(b) {
        var f :| f in b && f.id == id;
        assert f in a + b;
      }
    }
  }

  // ---------------------------------------------------------------------------------------
  // Filter.

  predicate AllHold(es: seq<Expr>, row: Row) {
    forall e <- es :: Holds(e, row)
  }

  function Holding(es: seq<Expr>): Row -> bool {
    row => AllHold(es, row)
  }

  /** The rows on which every predicate is TRUE. */
  function Keep(es: seq<Expr>, rows: seq<Row>): seq<Row> {
    Select(Holding(es), rows)
  }

  lemma KeepNothing(rows: seq<Row>)
    ensures Keep([], rows) == rows
  {
    SelectAll(Holding([]), rows);
  }

  lemma KeepSame(es: seq<Expr>, fs: seq<Expr>, rows: seq<Row>)
    requires forall row <- rows :: AllHold(es, row) <==> AllHold(fs, row)
    ensures Keep(es, rows) == Keep(fs, rows)
  {
    SelectSame(Holding(es), Holding(fs), rows);
  }

  lemma KeepKeep(es: seq<Expr>, fs: seq<Expr>, rows: seq<Row>)
    ensures Keep(es, Keep(fs, rows)) == Keep(es + fs, rows)
  {
    SelectSelect(Holding(es), Holding(fs), Holding(es + fs), rows);
  }

  // ---------------------------------------------------------------------------------------
  // Projections of rows.

  function RestrictRow(row: Row, ids: set<ColumnId>): Row {
    map id <- row.Keys * ids :: row[id]
  }

  function Restricting(ids: set<ColumnId>): Row -> Row {
    row => RestrictRow(row, ids)
  }

  function RestrictRows(ids: set<ColumnId>, rows: seq<Row>): seq<Row> {
    Map(Restricting(ids), rows)
  }

  datatype NamedExpr = NamedExpr(field: Field, expr: Expr)

  function OutputFields(xs: seq<NamedExpr>): (s: Schema)
    ensures |s| == |xs| && forall i :: 0 <= i < |xs| ==> s[i] == xs[i].field
  {
    seq(|xs|, i requires 0 <= i < |xs| => xs[i].field)
  }

  function ProjectRow(xs: seq<NamedExpr>, row: Row): Row {
    map id <- Ids(OutputFields(xs)) :: Eval(xs[IndexOf(OutputFields(xs), id)].expr, row)
  }

  function Projecting(xs: seq<NamedExpr>): Row -> Row {
    row => ProjectRow(xs, row)
  }

  // ---------------------------------------------------------------------------------------
  // Keys: cells compare as grouping does (NULLs together, NaNs together, both zeros together).

  function KeyOf(keys: seq<ColumnId>, row: Row): (k: seq<Value>)
    ensures |k| == |keys| && forall i :: 0 <= i < |keys| ==> k[i] == Canon(Cell(row, keys[i]))
  {
    seq(|keys|, i requires 0 <= i < |keys| => Canon(Cell(row, keys[i])))
  }

  function HavingKey(keys: seq<ColumnId>, key: seq<Value>): Row -> bool {
    row => KeyOf(keys, row) == key
  }

  /** The rows of one group, in input order. */
  function Members(keys: seq<ColumnId>, key: seq<Value>, rows: seq<Row>): seq<Row> {
    Select(HavingKey(keys, key), rows)
  }

  // ---------------------------------------------------------------------------------------
  // Join.

  /** NULL and NaN never match an equality join key. */
  predicate JoinableCell(v: Value) {
    !v.Null? && v != Dbl(NaN)
  }

  predicate Joinable(keys: seq<ColumnId>, row: Row) {
    forall k <- keys :: JoinableCell(Cell(row, k))
  }

  predicate Matching(lk: seq<ColumnId>, rk: seq<ColumnId>, l: Row, r: Row) {
    Joinable(lk, l) && Joinable(rk, r) && KeyOf(lk, l) == KeyOf(rk, r)
  }

  function MatchingWith(lk: seq<ColumnId>, rk: seq<ColumnId>, l: Row): Row -> bool {
    r => Matching(lk, rk, l, r)
  }

  function Pairing(l: Row): Row -> Row {
    r => l + r
  }

  function JoinOne(lk: seq<ColumnId>, rk: seq<ColumnId>, l: Row, right: seq<Row>): seq<Row> {
    Map(Pairing(l), Select(MatchingWith(lk, rk, l), right))
  }

  function JoinRows(lk: seq<ColumnId>, rk: seq<ColumnId>, left: seq<Row>, right: seq<Row>): seq<Row> {
    if left == [] then []
    else JoinRows(lk, rk, left[..|left| - 1], right) + JoinOne(lk, rk, left[|left| - 1], right)
  }

  // ---------------------------------------------------------------------------------------
  // Aggregation.

  datatype AggregateSpec = AggregateSpec(output: Field, kind: AggregateKind, input: Option<ColumnId>)

  function AggregateFields(aggs: seq<AggregateSpec>): (s: Schema)
    ensures |s| == |aggs| && forall i :: 0 <= i < |aggs| ==> s[i] == aggs[i].output
  {
    seq(|aggs|, i requires 0 <= i < |aggs| => aggs[i].output)
  }

  /** The first row of each group, in order of first appearance. */
  function Representatives(keys: seq<ColumnId>, rows: seq<Row>): (reps: seq<Row>)
    ensures forall rep <- reps :: rep in rows
  {
    if rows == [] then [] else
      var last, reps := rows[|rows| - 1], Representatives(keys, rows[..|rows| - 1]);
      if Represented(keys, reps, last) then reps else reps + [last]
  }

  predicate Represented(keys: seq<ColumnId>, reps: seq<Row>, row: Row) {
    exists i :: 0 <= i < |reps| && KeyOf(keys, reps[i]) == KeyOf(keys, row)
  }

  function Reading(id: ColumnId): Row -> Value {
    row => Cell(row, id)
  }

  /** The inputs one aggregate sees: COUNT(*) counts rows, the others skip NULL. */
  function AggregateInputs(input: Option<ColumnId>, rows: seq<Row>): seq<Value> {
    if input.None? then seq(|rows|, _ => TRUE) else NonNull(Map(Reading(input.value), rows))
  }

  function AggregateCell(a: AggregateSpec, rows: seq<Row>): Value {
    AggregateValue(a.kind, a.output.typ, AggregateInputs(a.input, rows))
  }

  function AggregateRow(keys: seq<ColumnId>, aggs: seq<AggregateSpec>, rep: Row, members: seq<Row>): Row {
    var outputs := AggregateFields(aggs);
    map id <- KeySet(keys) + Ids(outputs) ::
      if id in Ids(outputs) then AggregateCell(aggs[IndexOf(outputs, id)], members) else Cell(rep, id)
  }

  function KeySet(keys: seq<ColumnId>): set<ColumnId> {
    set k <- keys
  }

  function Summarizing(keys: seq<ColumnId>, aggs: seq<AggregateSpec>, rows: seq<Row>): Row -> Row {
    rep => AggregateRow(keys, aggs, rep, Members(keys, KeyOf(keys, rep), rows))
  }

  /** One row per group; without keys, one row even for no input. */
  function AggregateRows(keys: seq<ColumnId>, aggs: seq<AggregateSpec>, rows: seq<Row>): seq<Row> {
    if keys == [] then [AggregateRow(keys, aggs, map[], rows)]
    else Map(Summarizing(keys, aggs, rows), Representatives(keys, rows))
  }

  // ---------------------------------------------------------------------------------------
  // Sort.

  datatype SortKey = SortKey(column: ColumnId, ascending: bool, nullsFirst: bool)

  /** NULL placement does not depend on the direction of the key. */
  function CompareSortCells(k: SortKey, a: Value, b: Value): int {
    if a.Null? != b.Null? then (if a.Null? == k.nullsFirst then -1 else 1)
    else if k.ascending then CompareCell(a, b) else -CompareCell(a, b)
  }

  function CompareRows(keys: seq<SortKey>, a: Row, b: Row): int {
    if keys == [] then 0 else
      var c := CompareSortCells(keys[0], Cell(a, keys[0].column), Cell(b, keys[0].column));
      if c != 0 then c else CompareRows(keys[1..], a, b)
  }

  function RowOrder(keys: seq<SortKey>): Comparison<Row> {
    (a, b) => CompareRows(keys, a, b)
  }

  function SortRows(keys: seq<SortKey>, rows: seq<Row>): seq<Row> {
    StableSort(RowOrder(keys), rows)
  }
}
