/** Physical plans: how a logical plan is lowered, and the list of positional rows each one produces. */
module PhysicalPlans {
  import opened Values
  import opened Expressions
  import opened Sequences
  import opened Relations
  import opened Plans
  import opened Batches
  import opened RowStore
  import opened ScanLists
  import opened OperatorLists
  import opened JoinLists
  import opened GroupLists
  import opened SortLists

  datatype PhysicalPlan =
    | ColumnScan(source: Source, columns: seq<ColumnId>, pruning: Option<Expr>)
    | SelectionFilter(left: PhysicalPlan, condition: Expr)
    | VectorProjection(left: PhysicalPlan, expressions: seq<NamedExpr>)
    | HashAggregation(left: PhysicalPlan, keys: seq<ColumnId>, aggregates: seq<AggregateSpec>)
    | HashJoining(left: PhysicalPlan, right: PhysicalPlan, keys: seq<ColumnId>, rightKeys: seq<ColumnId>,
                  buildRight: bool)
    | MaterializedSort(left: PhysicalPlan, sortKeys: seq<SortKey>)
    | Limited(left: PhysicalPlan, count: nat)

  // ---------------------------------------------------------------------------------------
  // Lowering.

  /** Whether the right side is estimated to have at most as many rows as the left. */
  type Smaller = (Plan, Plan) -> bool

  /** Adds a predicate to the pruning of the scan under a chain of filters, if there is one. */
  function AddPruning(p: PhysicalPlan, e: Expr): PhysicalPlan {
    match p
    case SelectionFilter(l, c) => SelectionFilter(AddPruning(l, e), c)
    case ColumnScan(source, columns, pruning) =>
      ColumnScan(source, columns, Some(if pruning.Some? then Binary(And, pruning.value, e) else e))
    case _ => p
  }

  function Lower(rightSmaller: Smaller, p: Plan): PhysicalPlan {
    match p
    case Scan(source, columns) => ColumnScan(source, columns, None)
    case Filter(l, e) => SelectionFilter(AddPruning(Lower(rightSmaller, l), e), e)
    case Projection(l, xs) => VectorProjection(Lower(rightSmaller, l), xs)
    case Aggregate(l, keys, aggs) => HashAggregation(Lower(rightSmaller, l), keys, aggs)
    case Join(l, r, lk, rk) =>
      HashJoining(Lower(rightSmaller, l), Lower(rightSmaller, r), lk, rk, rightSmaller(l, r))
    case Sort(l, keys) => MaterializedSort(Lower(rightSmaller, l), keys)
    case Limit(l, n) => Limited(Lower(rightSmaller, l), n)
  }

  /** The logical plan a physical plan carries out. */
  function Logical(p: PhysicalPlan): Plan {
    match p
    case ColumnScan(source, columns, _) => Scan(source, columns)
    case SelectionFilter(l, e) => Filter(Logical(l), e)
    case VectorProjection(l, xs) => Projection(Logical(l), xs)
    case HashAggregation(l, keys, aggs) => Aggregate(Logical(l), keys, aggs)
    case HashJoining(l, r, lk, rk, _) => Join(Logical(l), Logical(r), lk, rk)
    case MaterializedSort(l, keys) => Sort(Logical(l), keys)
    case Limited(l, n) => Limit(Logical(l), n)
  }

  predicate PruningTyped(p: PhysicalPlan) {
    match p
    case ColumnScan(source, _, pruning) => PruningOk(source.schema, pruning)
    case HashJoining(l, r, _, _, _) => PruningTyped(l) && PruningTyped(r)
    case _ => PruningTyped(p.left)
  }

  /** The operators accept the plan: its schemas bind, and its pruning predicates are Boolean. */
  predicate Runnable(p: PhysicalPlan) {
    WellFormed(Logical(p)) && PruningTyped(p)
  }

  function OutputOf(p: PhysicalPlan): Schema
    requires Runnable(p)
  {
    SchemaOf(Logical(p))
  }

  // ---------------------------------------------------------------------------------------
  // Binding columns to positions.

  function ColumnIndex(s: Schema, id: ColumnId): nat {
    if id in Ids(s) then IndexOf(s, id) else |s|
  }

  function Indices(s: Schema, ids: seq<ColumnId>): (r: seq<nat>)
    ensures |r| == |ids| && forall i :: 0 <= i < |r| ==> r[i] == ColumnIndex(s, ids[i])
  {
    seq(|ids|, i requires 0 <= i < |ids| => ColumnIndex(s, ids[i]))
  }

  function SlotOf(s: Schema, a: AggregateSpec): Slot {
    Slot(a.kind, if a.input.Some? then Some(ColumnIndex(s, a.input.value)) else None, a.output.typ)
  }

  function SlotsOf(s: Schema, aggs: seq<AggregateSpec>): (r: seq<Slot>)
    ensures |r| == |aggs| && forall i :: 0 <= i < |r| ==> r[i] == SlotOf(s, aggs[i])
  {
    seq(|aggs|, i requires 0 <= i < |aggs| => SlotOf(s, aggs[i]))
  }

  function GroupShapeOf(s: Schema, keys: seq<ColumnId>, aggs: seq<AggregateSpec>): GroupShape {
    GroupShape(Indices(s, keys), SlotsOf(s, aggs))
  }

  function JoinShapeOf(ls: Schema, rs: Schema, lk: seq<ColumnId>, rk: seq<ColumnId>, buildRight: bool): JoinShape {
    if buildRight then JoinShape(Indices(rs, rk), Indices(ls, lk), true)
    else JoinShape(Indices(ls, lk), Indices(rs, rk), false)
  }

  function KeyColumns(keys: seq<SortKey>): (r: seq<ColumnId>)
    ensures |r| == |keys| && forall i :: 0 <= i < |r| ==> r[i] == keys[i].column
  {
    seq(|keys|, i requires 0 <= i < |keys| => keys[i].column)
  }

  function SortShapeOf(s: Schema, keys: seq<SortKey>): SortShape {
    SortShape(keys, Indices(s, KeyColumns(keys)))
  }

  function ScanShapeOf(s: Schema, columns: seq<ColumnId>, pruning: Option<Expr>): ScanShape {
    ScanShape(s, Indices(s, columns), pruning)
  }

  /** The positional rows the operators of a plan produce, in order. */
  function Produce(p: PhysicalPlan): seq<Tuple>
    requires Runnable(p)
  {
    match p
    case ColumnScan(source, columns, pruning) =>
      ScanFrom(ScanShapeOf(source.schema, columns, pruning), source.groups, 0)
    case SelectionFilter(l, e) => FilterTuples(OutputOf(l), e, Produce(l))
    case VectorProjection(l, xs) => ProjectTuples(OutputOf(l), xs, Produce(l))
    case HashAggregation(l, keys, aggs) => GroupTuples(GroupShapeOf(OutputOf(l), keys, aggs), Produce(l))
    case HashJoining(l, r, lk, rk, buildRight) =>
      var shape := JoinShapeOf(OutputOf(l), OutputOf(r), lk, rk, buildRight);
      if buildRight then JoinTuples(shape, Produce(r), Produce(l)) else JoinTuples(shape, Produce(l), Produce(r))
    case MaterializedSort(l, keys) => SortTuples(SortShapeOf(OutputOf(l), keys), Produce(l))
    case Limited(l, n) => Take(Produce(l), n)
  }

  /** Lowering changes how a plan is carried out, not which plan. */
  lemma {:induction false} LowerIsLogical(rightSmaller: Smaller, p: Plan)
    ensures Logical(Lower(rightSmaller, p)) == p
  {
    match p
    case Scan(_, _) =>
    case Filter(l, e) =>
      LowerIsLogical(rightSmaller, l);
      PruningIsLogical(Lower(rightSmaller, l), e);
    case Join(l, r, _, _) =>
      LowerIsLogical(rightSmaller, l);
      LowerIsLogical(rightSmaller, r);
    case _ => LowerIsLogical(rightSmaller, p.left);
  }

  lemma {:induction false} PruningIsLogical(p: PhysicalPlan, e: Expr)
    ensures Logical(AddPruning(p, e)) == Logical(p)
  {
    if p.SelectionFilter? {
      PruningIsLogical(p.left, e);
    }
  }

  // ---------------------------------------------------------------------------------------
  // Pruning predicates bind against the table, and lose no row the filters above them keep.

  lemma ScanTypesAgree(s: Schema, columns: seq<ColumnId>, e: Expr, t: Type)
    requires SelectSchema(s, columns).Some?
    requires ExpressionType(e, Types(SelectSchema(s, columns).value)) == Some(t)
    ensures ExpressionType(e, Types(s)) == Some(t)
  {
    SelectFieldsIds(s, columns);
    RefsTyped(e, Types(SelectFields(s, columns)));
    TypeDependsOnRefs(e, Types(SelectFields(s, columns)), Types(s));
  }

  lemma ScanPruningRuns(source: Source, columns: seq<ColumnId>, pruning: Option<Expr>, e: Expr)
    requires SelectSchema(source.schema, columns).Some? && PruningOk(source.schema, pruning)
    requires ExpressionType(e, Types(SelectSchema(source.schema, columns).value)) == Some(BooleanType)
    ensures PruningOk(source.schema, Some(if pruning.Some? then Binary(And, pruning.value, e) else e))
  {
    ScanTypesAgree(source.schema, columns, e, BooleanType);
    TypedPruning(source.schema, if pruning.Some? then Binary(And, pruning.value, e) else e);
  }

  lemma {:induction false} AddPruningRuns(p: PhysicalPlan, e: Expr)
    requires Runnable(p) && ExpressionType(e, Types(OutputOf(p))) == Some(BooleanType)
    ensures Runnable(AddPruning(p, e)) && OutputOf(AddPruning(p, e)) == OutputOf(p)
  {
    hide PruningOk;
    hide ExpressionType;
    hide SelectSchema;
    hide Types;
    PruningIsLogical(p, e);
    match p
    case ColumnScan(source, columns, pruning) => ScanPruningRuns(source, columns, pruning, e);
    case SelectionFilter(l, _) => AddPruningRuns(l, e);
    case _ =>
  }

  /** A lowered well-formed plan can run. */
  lemma {:induction false} LowerRuns(rightSmaller: Smaller, p: Plan)
    requires WellFormed(p)
    ensures Runnable(Lower(rightSmaller, p)) && OutputOf(Lower(rightSmaller, p)) == SchemaOf(p)
  {
    LowerIsLogical(rightSmaller, p);
    match p
    case Scan(_, _) =>
    case Filter(l, e) =>
      LowerRuns(rightSmaller, l);
      AddPruningRuns(Lower(rightSmaller, l), e);
    case Join(l, r, _, _) =>
      LowerRuns(rightSmaller, l);
      LowerRuns(rightSmaller, r);
    case _ => LowerRuns(rightSmaller, p.left);
  }
}
