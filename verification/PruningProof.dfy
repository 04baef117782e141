/** A pruned scan under its filter chain yields exactly the rows of the unpruned one. */
module PruningProof {
  import opened Values
  import opened Expressions
  import opened Sequences
  import opened Relations
  import opened Plans
  import opened Batches
  import opened RowStore
  import opened Statistics
  import opened Tables
  import opened ScanLists
  import opened OperatorLists
  import opened PhysicalPlans

  /** The statistics of a list of rows cover each of them. */
  lemma StatisticsCoverRow(s: Schema, rows: seq<Tuple>, j: nat)
    requires j < |rows| && |rows[j]| == |s|
    ensures CoversRow(s, RowsStatistics(|s|, rows), ToRow(s, rows[j]))
  {
    forall id <- Ids(s) ensures CoversCell(RowsStatistics(|s|, rows)[IndexOf(s, id)], Cell(ToRow(s, rows[j]), id)) {
      var cells := ColumnCells(rows, IndexOf(s, id));
      StatisticsCover(cells);
      assert cells[j] in cells;
      assert CoversCell(StatisticsOf(cells), cells[j]);
    }
  }

  /** A scanned row has the same cells as the table row it was picked from. */
  lemma PickedCell(s: Schema, columns: seq<ColumnId>, t: Tuple, id: ColumnId)
    requires SelectSchema(s, columns).Some? && |t| == |s|
    requires id in Ids(SelectFields(s, columns))
    ensures id in Ids(s)
    ensures Cell(ToRow(SelectFields(s, columns), PickCells(Indices(s, columns), t)), id) == Cell(ToRow(s, t), id)
  {
    var out := SelectFields(s, columns);
    SelectFieldsIds(s, columns);
    var i := IndexOf(out, id);
    assert columns[i] in KeySet(columns);
    assert out[i].id == columns[i] == id;
  }

  lemma PickedHolds(s: Schema, columns: seq<ColumnId>, e: Expr, t: Tuple)
    requires SelectSchema(s, columns).Some? && |t| == |s|
    requires Refs(e) <= Ids(SelectFields(s, columns))
    ensures Holds(e, ToRow(SelectFields(s, columns), PickCells(Indices(s, columns), t))) == Holds(e, ToRow(s, t))
  {
    forall id <- Refs(e)
      ensures Cell(ToRow(SelectFields(s, columns), PickCells(Indices(s, columns), t)), id) == Cell(ToRow(s, t), id)
    {
      PickedCell(s, columns, t, id);
    }
    EvalDependsOnRefs(e, ToRow(SelectFields(s, columns), PickCells(Indices(s, columns), t)), ToRow(s, t));
  }

  /** No row of a group that cannot match satisfies the predicate. */
  lemma NoneMatch(s: Schema, columns: seq<ColumnId>, e: Expr, g: Batch)
    requires SelectSchema(s, columns).Some? && g.Valid(SchemaTypes(s))
    requires ExpressionType(e, Types(SelectFields(s, columns))) == Some(BooleanType)
    requires PruningOk(s, Some(e)) && !MayMatch(e, s, GroupStatistics(s, g))
    ensures FilterTuples(SelectFields(s, columns), e, Picked(Indices(s, columns), g.Active())) == []
  {
    var out, rows, picked := SelectFields(s, columns), g.Active(), Picked(Indices(s, columns), g.Active());
    RefsTyped(e, Types(out));
    BatchTyped(g, SchemaTypes(s));
    forall j | 0 <= j < |rows| ensures !Passing(out, e)(picked[j]) {
      assert rows[j] in rows;
      PickedHolds(s, columns, e, rows[j]);
      if Holds(e, ToRow(s, rows[j])) {
        NamedTyped(s, rows[j]);
        StatisticsCoverRow(s, rows, j);
        MayMatchSound(e, s, GroupStatistics(s, g), ToRow(s, rows[j]));
      }
    }
    SelectNone(Passing(out, e), picked);
  }

  /** Pruning by one more predicate drops only rows that predicate rejects. */
  lemma {:induction false} PrunedScanKeeps(source: Source, columns: seq<ColumnId>, pruning: Option<Expr>, e: Expr,
                                           g: nat)
    requires SelectSchema(source.schema, columns).Some? && PruningOk(source.schema, pruning)
    requires PruningOk(source.schema, Some(if pruning.Some? then Binary(And, pruning.value, e) else e))
    requires ExpressionType(e, Types(SelectFields(source.schema, columns))) == Some(BooleanType)
    requires PruningOk(source.schema, Some(e))
    ensures var s, more := source.schema, Some(if pruning.Some? then Binary(And, pruning.value, e) else e);
      FilterTuples(SelectFields(s, columns), e, ScanFrom(ScanShapeOf(s, columns, more), source.groups, g))
      == FilterTuples(SelectFields(s, columns), e, ScanFrom(ScanShapeOf(s, columns, pruning), source.groups, g))
    decreases |source.groups| - g
  {
    hide PruningOk;
    hide Survives;
    hide FilterTuples;
    hide SelectFields;
    hide ExpressionType;
    hide ValidSource;
    if g < |source.groups| {
      PrunedScanKeeps(source, columns, pruning, e, g + 1);
      PrunedGroupKeeps(source, columns, pruning, e, g);
    }
  }

  lemma PrunedGroupKeeps(source: Source, columns: seq<ColumnId>, pruning: Option<Expr>, e: Expr, g: nat)
    requires SelectSchema(source.schema, columns).Some? && PruningOk(source.schema, pruning) && g < |source.groups|
    requires PruningOk(source.schema, Some(if pruning.Some? then Binary(And, pruning.value, e) else e))
    requires ExpressionType(e, Types(SelectFields(source.schema, columns))) == Some(BooleanType)
    requires PruningOk(source.schema, Some(e))
    requires var s, more := source.schema, Some(if pruning.Some? then Binary(And, pruning.value, e) else e);
      FilterTuples(SelectFields(s, columns), e, ScanFrom(ScanShapeOf(s, columns, more), source.groups, g + 1))
      == FilterTuples(SelectFields(s, columns), e, ScanFrom(ScanShapeOf(s, columns, pruning), source.groups, g + 1))
    ensures var s, more := source.schema, Some(if pruning.Some? then Binary(And, pruning.value, e) else e);
      FilterTuples(SelectFields(s, columns), e, ScanFrom(ScanShapeOf(s, columns, more), source.groups, g))
      == FilterTuples(SelectFields(s, columns), e, ScanFrom(ScanShapeOf(s, columns, pruning), source.groups, g))
  {
    hide Passing;
    hide Picked;
    hide ExpressionType;
    hide SelectFields;
    hide Types;
    hide Select;
    var s, more := source.schema, Some(if pruning.Some? then Binary(And, pruning.value, e) else e);
    var out, b := SelectFields(s, columns), source.groups[g];
    assert b in source.groups && b.Valid(SchemaTypes(s));
    var here := Picked(Indices(s, columns), b.Active());
    var stats := GroupStatistics(s, b);
    SelectAppend(Passing(out, e), here, ScanFrom(ScanShapeOf(s, columns, more), source.groups, g + 1));
    SelectAppend(Passing(out, e), here, ScanFrom(ScanShapeOf(s, columns, pruning), source.groups, g + 1));
    if !MayMatch(e, s, stats) {
      NoneMatch(s, columns, e, b);
    }
    assert Survives(ScanShapeOf(s, columns, more), stats)
      <==> Survives(ScanShapeOf(s, columns, pruning), stats) && MayMatch(e, s, stats);
  }

  lemma FiltersCommute(s: Schema, e: Expr, f: Expr, rows: seq<Tuple>)
    ensures FilterTuples(s, e, FilterTuples(s, f, rows)) == FilterTuples(s, f, FilterTuples(s, e, rows))
  {
    var both := (t: Tuple) => Passing(s, e)(t) && Passing(s, f)(t);
    SelectSelect(Passing(s, e), Passing(s, f), both, rows);
    SelectSelect(Passing(s, f), Passing(s, e), both, rows);
  }

  /** Under the filter that is added to the pruning, the pruned plan produces the same rows. */
  lemma {:induction false} AddPruningKeeps(p: PhysicalPlan, e: Expr)
    requires Runnable(p) && ExpressionType(e, Types(OutputOf(p))) == Some(BooleanType)
    ensures Runnable(AddPruning(p, e))
    ensures FilterTuples(OutputOf(p), e, Produce(AddPruning(p, e))) == FilterTuples(OutputOf(p), e, Produce(p))
  {
    hide FilterTuples;
    hide ScanFrom;
    AddPruningRuns(p, e);
    match p
    case ColumnScan(source, columns, pruning) =>
      ScanTypesAgree(source.schema, columns, e, BooleanType);
      TypedPruning(source.schema, e);
      PrunedScanKeeps(source, columns, pruning, e, 0);
    case SelectionFilter(l, f) =>
      AddPruningRuns(l, e);
      AddPruningKeeps(l, e);
      FiltersCommute(OutputOf(l), e, f, Produce(l));
      FiltersCommute(OutputOf(l), e, f, Produce(AddPruning(l, e)));
    case _ =>
  }

  // ---------------------------------------------------------------------------------------
  // What lowering makes a scan prune by.

  /** The predicates of a chain of filters over a scan, innermost first; None for any other plan. */
  function FilterChain(p: Plan): Option<seq<Expr>> {
    match p
    case Scan(_, _) => Some([])
    case Filter(l, e) => if FilterChain(l).Some? then Some(FilterChain(l).value + [e]) else None
    case _ => None
  }

  /** The pruning predicate of the scan under a chain of physical filters. */
  function ChainPruning(p: PhysicalPlan): Option<Expr> {
    match p
    case SelectionFilter(l, _) => ChainPruning(l)
    case ColumnScan(_, _, pruning) => pruning
    case _ => None
  }

  predicate PrunesBy(pruning: Option<Expr>, row: Row) {
    pruning.None? || Holds(pruning.value, row)
  }

  lemma {:induction false} PruningAdded(p: PhysicalPlan, q: Plan, e: Expr, row: Row)
    requires Logical(p) == q && FilterChain(q).Some?
    ensures ChainPruning(AddPruning(p, e)).Some?
    ensures PrunesBy(ChainPruning(AddPruning(p, e)), row) <==> PrunesBy(ChainPruning(p), row) && Holds(e, row)
  {
    if p.SelectionFilter? {
      PruningAdded(p.left, q.left, e, row);
    }
  }

  /** The scan under a chain of filters prunes by the conjunction of all their predicates. */
  lemma {:induction false} ScanPrunesByChain(rightSmaller: Smaller, p: Plan, row: Row)
    requires FilterChain(p).Some?
    ensures PrunesBy(ChainPruning(Lower(rightSmaller, p)), row) <==> AllHold(FilterChain(p).value, row)
  {
    if p.Filter? {
      ScanPrunesByChain(rightSmaller, p.left, row);
      LowerIsLogical(rightSmaller, p.left);
      PruningAdded(Lower(rightSmaller, p.left), p.left, p.condition, row);
    }
  }
}
