/** The execution of a physical plan: its operators are put together as a tree and pulled from the root. */
module Execution {
  import opened Values
  import opened Expressions
  import opened Sequences
  import opened Relations
  import opened Batches
  import Plans
  import opened RowStore
  import opened Tables
  import opened ScanLists
  import opened OperatorLists
  import opened JoinLists
  import opened GroupLists
  import opened GroupState
  import opened SortLists
  import opened PhysicalPlans
  import opened Operators
  import ScanOperator = Scan

  ghost predicate SameGroups(a: seq<Batch>, b: seq<Batch>) {
    |a| == |b| && forall g :: 0 <= g < |a| ==> a[g].Active() == b[g].Active()
  }

  lemma {:induction false} SameGroupsSameScan(shape: ScanShape, a: seq<Batch>, b: seq<Batch>, g: nat)
    requires PruningOk(shape.schema, shape.pruning) && SameGroups(a, b)
    ensures ScanFrom(shape, a, g) == ScanFrom(shape, b, g)
    decreases |a| - g
  {
    if g < |a| {
      assert a[g].Active() == b[g].Active();
      SameGroupsSameScan(shape, a, b, g + 1);
    }
  }

  lemma SameGroupsStep(a: seq<Batch>, more: seq<Batch>, b: seq<Batch>, g: nat)
    requires g < |b| && SameGroups(a, b[..g]) && AddedGroup(a, more, b[g].Active())
    ensures SameGroups(more, b[..g + 1])
  {
    forall k | 0 <= k < g ensures more[k] == a[k] && b[..g + 1][k] == b[..g][k] {
      assert more[..|a|][k] == a[k];
    }
  }

  lemma SourceGroup(source: Plans.Source, g: nat)
    requires g < |source.groups|
    ensures source.groups[g].Valid(SchemaTypes(source.schema)) && source.groups[g].selection.Size() > 0
    ensures UniqueIds(source.schema) && SameColumns(source.schema, source.schema)
  {
    assert source.groups[g] in source.groups;
  }

  /** The table a memory source stands for, filled group by group. */
  method LoadTable(source: Plans.Source) returns (table: Table)
    ensures fresh(table) && table.Valid() && table.schema == source.schema
    ensures SameGroups(table.groups, source.groups)
  {
    hide SameGroups;
    hide StreamRows;
    hide ValidStream;
    hide GroupsAnalyzed;
    hide RowsStatistics;
    hide AddedGroup;
    table := new Table(source.schema);
    NoGroups(source.groups);
    for g := 0 to |source.groups|
      invariant fresh(table) && table.Valid() && SameGroups(table.groups, source.groups[..g])
    {
      SourceGroup(source, g);
      ghost var before := table.groups;
      var ok := table.Append(source.groups[g], source.schema);
      SameGroupsStep(before, table.groups, source.groups, g);
    }
    assert source.groups[..|source.groups|] == source.groups;
  }

  lemma NoGroups(groups: seq<Batch>)
    ensures SameGroups([], groups[..0])
  {
  }

  method ExecuteScan(source: Plans.Source, columns: seq<ColumnId>, pruning: Option<Expr>, batchSize: nat)
    returns (op: Operator)
    requires batchSize > 0 && Plans.SelectSchema(source.schema, columns).Some? && PruningOk(source.schema, pruning)
    ensures op.Valid() && fresh(op.Repr()) && op.Capacity() == batchSize
    ensures op.OutputTypes() == SchemaTypes(Plans.SelectFields(source.schema, columns))
    ensures op.Todo() == ScanFrom(ScanShapeOf(source.schema, columns, pruning), source.groups, 0)
  {
    hide ScanFrom;
    hide StreamRows;
    var table := LoadTable(source);
    var shape := ScanShapeOf(source.schema, columns, pruning);
    var types := SchemaTypes(Plans.SelectFields(source.schema, columns));
    PickedTypes(source.schema, columns);
    var scan := new ScanOperator.Scan(shape, types, table, batchSize);
    SameGroupsSameScan(shape, table.groups, source.groups, 0);
    op := ScanNode(scan);
  }

  lemma PickedTypes(s: Schema, columns: seq<ColumnId>)
    requires KeySet(columns) <= Ids(s)
    ensures KeyTypes(Indices(s, columns), SchemaTypes(s), SchemaTypes(Plans.SelectFields(s, columns)))
  {
    forall i | 0 <= i < |columns| ensures columns[i] in Ids(s) {
      assert columns[i] in KeySet(columns);
    }
  }

  /** Builds one side of a join and probes with the other. */
  method ExecuteJoin(ls: Schema, rs: Schema, lk: seq<ColumnId>, rk: seq<ColumnId>, buildRight: bool,
                     left: Operator, right: Operator) returns (op: Operator)
    requires left.Valid() && right.Valid() && left.Repr() !! right.Repr()
    requires left.Capacity() == right.Capacity() > 0 && |lk| == |rk|
    requires left.OutputTypes() == SchemaTypes(ls) && right.OutputTypes() == SchemaTypes(rs)
    ensures op.Valid() && fresh(op.Repr() - old(left.Repr() + right.Repr())) && op.Capacity() == left.Capacity()
    ensures op.OutputTypes() == SchemaTypes(ls + rs)
    ensures var shape := JoinShapeOf(ls, rs, lk, rk, buildRight);
      op.Todo() == if buildRight then JoinTuples(shape, old(right.Todo()), old(left.Todo()))
                   else JoinTuples(shape, old(left.Todo()), old(right.Todo()))
  {
    hide Operator.Valid;
    hide Operator.Todo;
    hide JoinTuples;
    var shape := JoinShapeOf(ls, rs, lk, rk, buildRight);
    assert SchemaTypes(ls + rs) == SchemaTypes(ls) + SchemaTypes(rs);
    if buildRight {
      op := JoinOver(shape, right, left);
    } else {
      op := JoinOver(shape, left, right);
    }
  }

  lemma SlotsBind(s: Schema, keys: seq<ColumnId>, aggs: seq<AggregateSpec>)
    requires Plans.AggregateSchema(s, keys, aggs).Some?
    ensures SlotsBound(GroupShapeOf(s, keys, aggs), SchemaTypes(s))
    ensures SchemaTypes(Plans.SelectFields(s, keys)) + SlotTypes(GroupShapeOf(s, keys, aggs).slots)
         == SchemaTypes(Plans.AggregateSchema(s, keys, aggs).value)
  {
    forall a | 0 <= a < |aggs| ensures SlotBound(SlotOf(s, aggs[a]), SchemaTypes(s)) {
      assert Plans.AggregateOk(aggs[a], Types(s));
    }
  }

  method ExecuteAggregate(s: Schema, keys: seq<ColumnId>, aggs: seq<AggregateSpec>, child: Operator)
    returns (op: Operator)
    requires Plans.AggregateSchema(s, keys, aggs).Some?
    requires child.Valid() && child.Capacity() > 0 && child.OutputTypes() == SchemaTypes(s)
    ensures op.Valid() && fresh(op.Repr() - old(child.Repr())) && op.Capacity() == child.Capacity()
    ensures op.OutputTypes() == SchemaTypes(Plans.AggregateSchema(s, keys, aggs).value)
    ensures op.Todo() == GroupTuples(GroupShapeOf(s, keys, aggs), old(child.Todo()))
  {
    hide Operator.Valid;
    hide Operator.Todo;
    hide GroupTuples;
    PickedTypes(s, keys);
    SlotsBind(s, keys, aggs);
    op := AggregateOver(GroupShapeOf(s, keys, aggs), SchemaTypes(Plans.SelectFields(s, keys)), child);
  }

  /**
   Puts the operators of a physical plan together. Whatever the batch capacity, the root produces
   exactly the rows of the plan, in order; nothing is pulled yet.
   */
  method Execute(p: PhysicalPlan, batchSize: nat) returns (op: Operator)
    requires Runnable(p) && batchSize > 0
    ensures op.Valid() && fresh(op.Repr()) && op.Capacity() == batchSize
    ensures op.OutputTypes() == SchemaTypes(OutputOf(p)) && op.Todo() == Produce(p)
    decreases p
  {
    hide Operator.Valid;
    hide Operator.Todo;
    hide FilterTuples;
    hide ProjectTuples;
    hide GroupTuples;
    hide JoinTuples;
    hide SortTuples;
    hide ScanFrom;
    hide Types;
    hide UniqueIds;
    hide Ids;
    hide ExpressionType;
    hide PruningOk;
    hide Plans.AggregateOk;
    hide Plans.SelectFields;
    hide JoinShapeOf;
    hide GroupShapeOf;
    hide SortShapeOf;
    hide ScanShapeOf;
    match p
    case ColumnScan(source, columns, pruning) =>
      op := ExecuteScan(source, columns, pruning, batchSize);
    case SelectionFilter(l, e) =>
      var child := Execute(l, batchSize);
      op := FilterOver(OutputOf(l), child, e);
    case VectorProjection(l, xs) =>
      var child := Execute(l, batchSize);
      op := ProjectionOver(OutputOf(l), child, xs);
    case HashAggregation(l, keys, aggs) =>
      var child := Execute(l, batchSize);
      op := ExecuteAggregate(OutputOf(l), keys, aggs, child);
    case HashJoining(l, r, lk, rk, buildRight) =>
      var left := Execute(l, batchSize);
      var right := Execute(r, batchSize);
      op := ExecuteJoin(OutputOf(l), OutputOf(r), lk, rk, buildRight, left, right);
    case MaterializedSort(l, keys) =>
      var child := Execute(l, batchSize);
      op := SortOver(SortShapeOf(OutputOf(l), keys), child);
    case Limited(l, n) =>
      var child := Execute(l, batchSize);
      op := LimitOver(child, n);
  }
}
