/** Scans as lists of positional rows, and what pruning leaves out of them. */
module ScanLists {
  import opened Values
  import opened Expressions
  import opened Sequences
  import opened Relations
  import opened Batches
  import opened RowStore
  import opened Statistics
  import opened Tables

  /** The table schema, the positions of the scanned columns, and the pruning predicate, if any. */
  datatype ScanShape = ScanShape(schema: Schema, indices: seq<nat>, pruning: Option<Expr>)

  predicate PruningOk(schema: Schema, pruning: Option<Expr>) {
    pruning.Some? ==>
      Refs(pruning.value) <= Ids(schema) && ExpressionType(pruning.value, Types(schema)) == Some(BooleanType)
  }

  lemma TypedPruning(schema: Schema, e: Expr)
    requires ExpressionType(e, Types(schema)) == Some(BooleanType)
    ensures PruningOk(schema, Some(e))
  {
    RefsTyped(e, Types(schema));
  }

  predicate Survives(shape: ScanShape, stats: seq<ColumnStatistics>)
    requires PruningOk(shape.schema, shape.pruning) && |stats| == |shape.schema|
  {
    shape.pruning.None? || MayMatch(shape.pruning.value, shape.schema, stats)
  }

  lemma SurvivalTest(shape: ScanShape, stats: seq<ColumnStatistics>)
    requires PruningOk(shape.schema, shape.pruning) && |stats| == |shape.schema|
    ensures shape.pruning.Some? ==> Refs(shape.pruning.value) <= Ids(shape.schema)
    ensures Survives(shape, stats) <==> shape.pruning.None? || MayMatch(shape.pruning.value, shape.schema, stats)
  {
  }

  function GroupStatistics(schema: Schema, g: Batch): (stats: seq<ColumnStatistics>)
    ensures |stats| == |schema|
  {
    RowsStatistics(|schema|, g.Active())
  }

  function Picking(indices: seq<nat>): Tuple -> Tuple {
    (t: Tuple) => PickCells(indices, t)
  }

  function Picked(indices: seq<nat>, rows: seq<Tuple>): (r: seq<Tuple>)
    ensures |r| == |rows|
  {
    Map(Picking(indices), rows)
  }

  /** The rows of the surviving groups from g on. */
  function ScanFrom(shape: ScanShape, groups: seq<Batch>, g: nat): seq<Tuple>
    requires PruningOk(shape.schema, shape.pruning)
    decreases |groups| - g
  {
    if g >= |groups| then []
    else if Survives(shape, GroupStatistics(shape.schema, groups[g]))
    then Picked(shape.indices, groups[g].Active()) + ScanFrom(shape, groups, g + 1)
    else ScanFrom(shape, groups, g + 1)
  }

  /** The rows from row r of group g on; a group entered is read to its end. */
  function ScanRest(shape: ScanShape, groups: seq<Batch>, g: nat, r: nat): seq<Tuple>
    requires PruningOk(shape.schema, shape.pruning)
    requires g < |groups| ==> r <= |groups[g].Active()|
  {
    if g >= |groups| || r == 0 then ScanFrom(shape, groups, g)
    else Picked(shape.indices, groups[g].Active()[r..]) + ScanFrom(shape, groups, g + 1)
  }

  /** How many of the first groups are skipped. */
  function SkippedBefore(shape: ScanShape, groups: seq<Batch>, g: nat): nat
    requires PruningOk(shape.schema, shape.pruning) && g <= |groups|
  {
    if g == 0 then 0
    else SkippedBefore(shape, groups, g - 1)
         + if Survives(shape, GroupStatistics(shape.schema, groups[g - 1])) then 0 else 1
  }

  /** Where a scan stands, and how many groups it has read and skipped to get there. */
  ghost predicate Progress(shape: ScanShape, groups: seq<Batch>, group: nat, row: nat, read: nat, skipped: nat)
    requires PruningOk(shape.schema, shape.pruning)
  {
    && group <= |groups| && (if group < |groups| then row < |groups[group].Active()| else row == 0)
    && skipped == SkippedBefore(shape, groups, group)
    && read + skipped == group + (if row > 0 then 1 else 0)
    && (row > 0 ==> Survives(shape, GroupStatistics(shape.schema, groups[group])))
  }

  ghost predicate GroupsFilled(groups: seq<Batch>) {
    forall g :: 0 <= g < |groups| ==> |groups[g].Active()| > 0
  }

  lemma Bounds(shape: ScanShape, groups: seq<Batch>, g: nat, r: nat, read: nat, skipped: nat)
    requires PruningOk(shape.schema, shape.pruning) && Progress(shape, groups, g, r, read, skipped)
    ensures g <= |groups| && (if g < |groups| then r < groups[g].selection.Size() else r == 0)
  {
  }

  lemma AnalyzedGroup(shape: ScanShape, groups: seq<Batch>, statistics: seq<seq<ColumnStatistics>>, g: nat)
    requires GroupsAnalyzed(|shape.schema|, groups, statistics) && g < |groups|
    ensures g < |statistics| && statistics[g] == GroupStatistics(shape.schema, groups[g])
  {
  }

  lemma SkipGroup(shape: ScanShape, groups: seq<Batch>, g: nat, read: nat, skipped: nat)
    requires PruningOk(shape.schema, shape.pruning) && GroupsFilled(groups) && g < |groups|
    requires Progress(shape, groups, g, 0, read, skipped)
    requires !Survives(shape, GroupStatistics(shape.schema, groups[g]))
    ensures ScanRest(shape, groups, g, 0) == ScanRest(shape, groups, g + 1, 0)
    ensures Progress(shape, groups, g + 1, 0, read, skipped + 1)
  {
  }

  lemma ReadOn(shape: ScanShape, groups: seq<Batch>, g: nat, r: nat, count: nat, read: nat, skipped: nat)
    requires PruningOk(shape.schema, shape.pruning) && GroupsFilled(groups) && g < |groups|
    requires 0 < count && r + count <= |groups[g].Active()|
    requires r == 0 ==> Survives(shape, GroupStatistics(shape.schema, groups[g]))
    requires Progress(shape, groups, g, r, read, skipped)
    ensures var more, over := if r == 0 then read + 1 else read, r + count == |groups[g].Active()|;
      Progress(shape, groups, if over then g + 1 else g, if over then 0 else r + count, more, skipped)
  {
  }

  lemma ScanOver(shape: ScanShape, groups: seq<Batch>)
    requires PruningOk(shape.schema, shape.pruning)
    ensures ScanRest(shape, groups, |groups|, 0) == []
  {
  }

  lemma ScanStep(shape: ScanShape, groups: seq<Batch>, g: nat, r: nat, count: nat)
    requires PruningOk(shape.schema, shape.pruning) && g < |groups|
    requires 0 < count && r + count <= |groups[g].Active()|
    requires r == 0 ==> Survives(shape, GroupStatistics(shape.schema, groups[g]))
    ensures var rows := groups[g].Active();
      Splits(ScanRest(shape, groups, g, r), Picked(shape.indices, rows[r..r + count]),
             if r + count == |rows| then ScanRest(shape, groups, g + 1, 0)
             else ScanRest(shape, groups, g, r + count))
  {
    hide Survives;
    var rows, later := groups[g].Active(), ScanFrom(shape, groups, g + 1);
    assert rows[r..] == rows[r..r + count] + rows[r + count..] && rows[0..] == rows;
    MapAppend(Picking(shape.indices), rows[r..r + count], rows[r + count..]);
    var now, rest := Picked(shape.indices, rows[r..r + count]), Picked(shape.indices, rows[r + count..]);
    assert (now + rest) + later == now + (rest + later);
    if r + count == |rows| {
      assert rest == [] && rest + later == later;
    }
  }

  lemma RangeCells(v: Vector, n: nat, source: Vector, size: nat, start: nat, count: nat)
    requires v.Valid() && |v.data| == n && source.Valid() && |source.data| == size && start + count <= size
    requires source.typ == v.typ
    ensures var w := v.AppendRange(source, start, count);
      && w.Valid() && |w.data| == n + count
      && (forall i :: 0 <= i < n ==> w.CellAt(i) == v.CellAt(i))
      && (forall i :: n <= i < n + count ==> w.CellAt(i) == source.CellAt(start + (i - n)))
  {
  }

  /** Columns to which a range of the picked source columns was appended hold those rows too. */
  lemma RangeAppended(columns: seq<Vector>, types: seq<Type>, rows: seq<Tuple>, more: seq<Vector>,
                      source: seq<Vector>, sourceTypes: seq<Type>, size: nat, indices: seq<nat>,
                      start: nat, count: nat)
    requires Stores(columns, types, rows) && ColumnsOk(source, sourceTypes, size) && start + count <= size
    requires KeyTypes(indices, sourceTypes, types) && |more| == |columns|
    requires forall c :: 0 <= c < |more| ==> more[c] == columns[c].AppendRange(source[indices[c]], start, count)
    ensures Stores(more, types, rows + Picked(indices, Tuples(source, size)[start..start + count]))
  {
    var n, picked := |rows|, Picked(indices, Tuples(source, size)[start..start + count]);
    forall c | 0 <= c < |more|
      ensures ColumnOk(more, types, n + count, c)
      ensures forall i :: 0 <= i < n ==> more[c].CellAt(i) == columns[c].CellAt(i)
      ensures forall i :: n <= i < n + count ==> more[c].CellAt(i) == source[indices[c]].CellAt(start + (i - n))
    {
      assert ColumnOk(columns, types, n, c) && ColumnOk(source, sourceTypes, size, indices[c]);
      RangeCells(columns[c], n, source[indices[c]], size, start, count);
    }
    forall i | 0 <= i < n ensures TupleAt(more, i) == rows[i] {
      assert TupleAt(more, i) == TupleAt(columns, i);
    }
    forall i | n <= i < n + count ensures TupleAt(more, i) == picked[i - n] {
      assert picked[i - n] == PickCells(indices, TupleAt(source, start + (i - n)));
    }
    assert Tuples(more, n + count) == rows + picked;
  }
}
