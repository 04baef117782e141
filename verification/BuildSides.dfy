/**
 What the choice of build sides leaves of a plan's result: the list where every join builds its
 right side, the bag where order decides nothing, and otherwise the bag of what the columns show
 that do not depend on the order of rows.
 */
module BuildSides {
  import opened Values
  import opened Expressions
  import opened Sequences
  import opened Bags
  import opened Relations
  import opened Plans
  import opened PhysicalPlans
  import opened JoinMeaning
  import opened LoweringProof
  import opened Outlines
  import opened GroupOutlines

  /** Every join builds its right side. */
  predicate RightBuilt(p: PhysicalPlan) {
    match p
    case ColumnScan(_, _, _) => true
    case HashJoining(l, r, _, _, buildRight) => buildRight && RightBuilt(l) && RightBuilt(r)
    case _ => RightBuilt(p.left)
  }

  lemma {:induction false} RightBuiltRows(p: PhysicalPlan)
    requires RightBuilt(p)
    ensures Carried(p) == Rows(Logical(p))
  {
    match p
    case ColumnScan(_, _, _) =>
    case HashJoining(l, r, lk, rk, _) =>
      RightBuiltRows(l);
      RightBuiltRows(r);
      BuiltRight(lk, rk, Carried(l), Carried(r));
    case _ => RightBuiltRows(p.left);
  }

  /** No join that builds its left side stands below an aggregation or a limit. */
  predicate BagSafe(p: PhysicalPlan) {
    match p
    case ColumnScan(_, _, _) => true
    case HashJoining(l, r, _, _, _) => BagSafe(l) && BagSafe(r)
    case HashAggregation(l, _, _) => RightBuilt(l)
    case Limited(l, _) => RightBuilt(l)
    case _ => BagSafe(p.left)
  }

  lemma KeepOfBag(es: seq<Expr>, a: seq<Row>, b: seq<Row>)
    requires multiset(a) == multiset(b)
    ensures multiset(Keep(es, a)) == multiset(Keep(es, b))
  {
    SelectOfBag(Holding(es), a, b);
  }

  lemma SortOfBag(keys: seq<SortKey>, a: seq<Row>, b: seq<Row>)
    requires multiset(a) == multiset(b)
    ensures multiset(SortRows(keys, a)) == multiset(SortRows(keys, b))
  {
    StableSortMembers(RowOrder(keys), a);
    StableSortMembers(RowOrder(keys), b);
  }

  /** The same bag of rows, values and all. */
  lemma {:induction false} BagSafeRows(p: PhysicalPlan)
    requires BagSafe(p)
    ensures multiset(Carried(p)) == multiset(Rows(Logical(p)))
  {
    hide Keep;
    hide SortRows;
    hide AggregateRows;
    hide JoinRows;
    hide HashJoinRows;
    hide Map;
    hide Take;
    hide RestrictRows;
    hide SourceRows;
    match p
    case ColumnScan(_, _, _) =>
    case SelectionFilter(l, e) =>
      BagSafeRows(l);
      KeepOfBag([e], Carried(l), Rows(Logical(l)));
    case VectorProjection(l, xs) =>
      BagSafeRows(l);
      MapOfBag(Projecting(xs), Carried(l), Rows(Logical(l)));
    case HashAggregation(l, _, _) => RightBuiltRows(l);
    case HashJoining(l, r, lk, rk, buildRight) =>
      BagSafeRows(l);
      BagSafeRows(r);
      JoinOfBags(buildRight, lk, rk, Carried(l), Carried(r), Rows(Logical(l)), Rows(Logical(r)));
    case MaterializedSort(l, keys) =>
      BagSafeRows(l);
      SortOfBag(keys, Carried(l), Rows(Logical(l)));
    case Limited(l, _) => RightBuiltRows(l);
  }

  // ---------------------------------------------------------------------------------------
  // The columns that do not depend on the order of rows.

  function BothSome(a: Option<set<ColumnId>>, b: Option<set<ColumnId>>): Option<set<ColumnId>> {
    if a.Some? && b.Some? then Some(a.value + b.value) else None
  }

  function Covering(c: Option<set<ColumnId>>, needed: set<ColumnId>): Option<set<ColumnId>> {
    if c.Some? && needed <= c.value then c else None
  }

  /**
   The output columns no build side can change, or None where even the number of rows may depend
   on one. Integer sums count among them when they are taken to fit. A filter, a grouping and a
   join must read such columns only; a limit over rows in another order keeps only their number.
   */
  function Certain(p: PhysicalPlan, sums: bool): Option<set<ColumnId>> {
    if RightBuilt(p) then Some(OutputIds(Logical(p)))
    else match p
      case ColumnScan(_, _, _) => None
      case SelectionFilter(l, e) => Covering(Certain(l, sums), Refs(e))
      case VectorProjection(l, xs) =>
        var c := Certain(l, sums);
        if c.Some? then Some(ShownOutputs(xs, c.value)) else None
      case HashAggregation(l, keys, aggs) =>
        var c := Covering(Certain(l, sums), KeySet(keys));
        if c.Some? then Some(ShownGroups(keys, aggs, c.value, sums)) else None
      case HashJoining(l, r, lk, rk, _) =>
        BothSome(Covering(Certain(l, sums), KeySet(lk)), Covering(Certain(r, sums), KeySet(rk)))
      case MaterializedSort(l, _) => Certain(l, sums)
      case Limited(l, _) => if Certain(l, sums).Some? then Some({}) else None
  }

  /** No integer sum of any group leaves 64 bits on the way, in the order executed or in the order denoted. */
  ghost predicate NoOverflow(p: PhysicalPlan) {
    match p
    case ColumnScan(_, _, _) => true
    case HashAggregation(l, keys, aggs) =>
      NoOverflow(l) && SumsFit(keys, aggs, Carried(l)) && SumsFit(keys, aggs, Rows(Logical(l)))
    case HashJoining(l, r, _, _, _) => NoOverflow(l) && NoOverflow(r)
    case _ => NoOverflow(p.left)
  }

  lemma {:induction false} CertainIsOutput(p: PhysicalPlan, sums: bool)
    requires WellFormed(Logical(p)) && Certain(p, sums).Some?
    ensures Certain(p, sums).value <= OutputIds(Logical(p))
  {
    hide RightBuilt;
    hide ExpressionType;
    if !RightBuilt(p) {
      match p
      case ColumnScan(_, _, _) =>
      case HashAggregation(l, keys, aggs) =>
        var s := SchemaOf(Logical(l));
        SelectFieldsIds(s, keys);
        IdsAppend(SelectFields(s, keys), AggregateFields(aggs));
      case HashJoining(l, r, _, _, _) =>
        CertainIsOutput(l, sums);
        CertainIsOutput(r, sums);
        IdsAppend(SchemaOf(Logical(l)), SchemaOf(Logical(r)));
      case VectorProjection(_, _) =>
      case Limited(_, _) =>
      case _ => CertainIsOutput(p.left, sums);
    }
  }

  // ---------------------------------------------------------------------------------------
  // Every row has the columns of its schema, in either order.

  lemma TypedKeys(rows: seq<Row>, s: Schema)
    requires AllTyped(rows, s)
    ensures AllKeys(rows, Ids(s))
  {
    forall row | row in rows ensures row.Keys == Ids(s) {
      assert RowHasTypes(row, Types(s));
    }
  }

  lemma GroupKeys(s: Schema, keys: seq<ColumnId>, aggs: seq<AggregateSpec>, rows: seq<Row>)
    requires AggregateSchema(s, keys, aggs).Some?
    ensures AllKeys(AggregateRows(keys, aggs, rows), Ids(AggregateSchema(s, keys, aggs).value))
  {
    SelectFieldsIds(s, keys);
    IdsAppend(SelectFields(s, keys), AggregateFields(aggs));
  }

  lemma JoinedKeys(buildRight: bool, ls: Schema, rs: Schema, lk: seq<ColumnId>, rk: seq<ColumnId>,
                   left: seq<Row>, right: seq<Row>)
    requires AllKeys(left, Ids(ls)) && AllKeys(right, Ids(rs))
    ensures AllKeys(HashJoinRows(buildRight, lk, rk, left, right), Ids(ls + rs))
  {
    hide Ids;
    IdsAppend(ls, rs);
    JoinOfBags(buildRight, lk, rk, left, right, left, right);
    forall row | row in JoinRows(lk, rk, left, right) ensures row.Keys == Ids(ls + rs) {
      JoinMembers(lk, rk, left, right, row);
      var l, r :| l in left && r in right && row == l + r;
      assert (l + r).Keys == l.Keys + r.Keys;
    }
    KeysOfBag(HashJoinRows(buildRight, lk, rk, left, right), JoinRows(lk, rk, left, right), Ids(ls + rs));
  }

  lemma SortedKeys(keys: seq<SortKey>, rows: seq<Row>, ids: set<ColumnId>)
    requires AllKeys(rows, ids)
    ensures AllKeys(SortRows(keys, rows), ids)
  {
    StableSortMembers(RowOrder(keys), rows);
    KeysOfBag(SortRows(keys, rows), rows, ids);
  }

  lemma {:induction false} CarriedKeys(p: PhysicalPlan)
    requires WellFormed(Logical(p))
    ensures AllKeys(Carried(p), Ids(SchemaOf(Logical(p))))
  {
    hide Ids;
    hide SortRows;
    hide HashJoinRows;
    hide AggregateRows;
    hide AggregateSchema;
    hide JoinKeysOk;
    hide ExpressionType;
    match p
    case ColumnScan(_, _, _) =>
      RowsTyped(Logical(p));
      TypedKeys(Carried(p), SchemaOf(Logical(p)));
    case HashAggregation(l, keys, aggs) => GroupKeys(SchemaOf(Logical(l)), keys, aggs, Carried(l));
    case HashJoining(l, r, lk, rk, buildRight) =>
      CarriedKeys(l);
      CarriedKeys(r);
      JoinedKeys(buildRight, SchemaOf(Logical(l)), SchemaOf(Logical(r)), lk, rk, Carried(l), Carried(r));
    case VectorProjection(_, _) =>
    case MaterializedSort(l, keys) =>
      CarriedKeys(l);
      SortedKeys(keys, Carried(l), Ids(SchemaOf(Logical(l))));
    case _ => CarriedKeys(p.left);
  }

  lemma DenotedKeys(p: PhysicalPlan)
    requires WellFormed(Logical(p))
    ensures AllKeys(Rows(Logical(p)), Ids(SchemaOf(Logical(p))))
  {
    RowsTyped(Logical(p));
    TypedKeys(Rows(Logical(p)), SchemaOf(Logical(p)));
  }

  // ---------------------------------------------------------------------------------------

  /** In the certain columns, the produced rows are the denoted ones, as a bag. */
  ghost predicate AgreesOnCertain(p: PhysicalPlan, sums: bool, produced: seq<Row>, denoted: seq<Row>) {
    Certain(p, sums).Some? && (sums ==> NoOverflow(p)) ==> SameOutlines(Certain(p, sums).value, produced, denoted)
  }

  ghost predicate Settled(p: PhysicalPlan, sums: bool) {
    AgreesOnCertain(p, sums, Carried(p), Rows(Logical(p)))
  }

  lemma SettledJoin(l: PhysicalPlan, r: PhysicalPlan, lk: seq<ColumnId>, rk: seq<ColumnId>, buildRight: bool,
                    sums: bool)
    requires WellFormed(Join(Logical(l), Logical(r), lk, rk)) && Settled(l, sums) && Settled(r, sums)
    requires !RightBuilt(HashJoining(l, r, lk, rk, buildRight))
    ensures Settled(HashJoining(l, r, lk, rk, buildRight), sums)
  {
    hide HashJoinRows;
    hide JoinRows;
    hide Ids;
    hide UniqueIds;
    hide JoinKeysOk;
    hide AllKeys;
    hide ExpressionType;
    hide AggregateSchema;
    hide ProjectionSchema;
    hide SelectSchema;
    var p := HashJoining(l, r, lk, rk, buildRight);
    if Certain(p, sums).Some? && (sums ==> NoOverflow(p)) {
      CertainIsOutput(l, sums);
      CertainIsOutput(r, sums);
      CarriedKeys(l);
      CarriedKeys(r);
      DenotedKeys(l);
      DenotedKeys(r);
      var ls, rs := SchemaOf(Logical(l)), SchemaOf(Logical(r));
      DisjointSides(ls, rs);
      JoinOutlines(buildRight, Certain(l, sums).value, Certain(r, sums).value, Ids(ls), Ids(rs), lk, rk,
                   Carried(l), Rows(Logical(l)), Carried(r), Rows(Logical(r)));
    }
  }

  lemma DisjointSides(ls: Schema, rs: Schema)
    requires UniqueIds(ls + rs)
    ensures Ids(ls) !! Ids(rs)
  {
    forall id | id in Ids(ls) ensures id !in Ids(rs) {
      IdsAppend(ls, rs);
      LookupAppend(ls, rs, id);
    }
  }

  /**
   Whatever the build sides, the certain columns show the bag the plan denotes: grouping keys,
   counts, minima and maxima always, integer sums when they fit in both orders.
   */
  lemma {:induction false} CertainRows(p: PhysicalPlan, sums: bool)
    requires WellFormed(Logical(p))
    ensures Settled(p, sums)
  {
    hide Keep;
    hide SortRows;
    hide AggregateRows;
    hide JoinRows;
    hide HashJoinRows;
    hide Map;
    hide Take;
    hide RestrictRows;
    hide SourceRows;
    hide ShownOutputs;
    hide ShownGroups;
    hide SumsFit;
    hide ExpressionType;
    hide AggregateSchema;
    hide ProjectionSchema;
    hide SelectSchema;
    hide JoinKeysOk;
    if RightBuilt(p) {
      RightBuiltRows(p);
    } else {
      match p
      case ColumnScan(_, _, _) =>
      case SelectionFilter(l, e) =>
        CertainRows(l, sums);
        if Certain(p, sums).Some? && (sums ==> NoOverflow(p)) {
          KeepOutlines(Certain(l, sums).value, e, Carried(l), Rows(Logical(l)));
        }
      case VectorProjection(l, xs) =>
        CertainRows(l, sums);
        if Certain(p, sums).Some? && (sums ==> NoOverflow(p)) {
          ProjectOutlines(xs, Certain(l, sums).value, Carried(l), Rows(Logical(l)));
        }
      case HashAggregation(l, keys, aggs) =>
        CertainRows(l, sums);
        if Certain(p, sums).Some? && (sums ==> NoOverflow(p)) {
          AggregateOutlines(Certain(l, sums).value, keys, aggs, sums, Carried(l), Rows(Logical(l)));
        }
      case HashJoining(l, r, lk, rk, buildRight) =>
        CertainRows(l, sums);
        CertainRows(r, sums);
        SettledJoin(l, r, lk, rk, buildRight, sums);
      case MaterializedSort(l, keys) =>
        CertainRows(l, sums);
        if Certain(p, sums).Some? && (sums ==> NoOverflow(p)) {
          SortOutlines(Certain(l, sums).value, keys, Carried(l), Rows(Logical(l)));
        }
      case Limited(l, n) =>
        CertainRows(l, sums);
        if Certain(p, sums).Some? && (sums ==> NoOverflow(p)) {
          LimitOutlines(Certain(l, sums).value, Carried(l), Rows(Logical(l)), n);
        }
    }
  }

  /** A limit over rows in another order keeps as many rows, and only rows the limited plan denotes. */
  lemma LimitedRows(p: PhysicalPlan, n: nat, sums: bool)
    requires WellFormed(Logical(p)) && Certain(p, sums).Some? && (sums ==> NoOverflow(p))
    ensures |Carried(Limited(p, n))| == |Rows(Limit(Logical(p), n))|
    ensures var outline := Outline(Certain(p, sums).value);
      multiset(Map(outline, Carried(Limited(p, n)))) <= multiset(Map(outline, Rows(Logical(p))))
  {
    CertainRows(p, sums);
    LimitedParts(p, n);
    var ids, carried, denoted := Certain(p, sums).value, Carried(p), Rows(Logical(p));
    assert SameOutlines(ids, carried, denoted);
    hide *;
    OutlineCount(ids, carried, denoted);
    LimitWithin(ids, carried, denoted, n);
    TakeCount(carried, denoted, n);
  }

  lemma LimitedParts(p: PhysicalPlan, n: nat)
    ensures Carried(Limited(p, n)) == Take(Carried(p), n) && Rows(Limit(Logical(p), n)) == Take(Rows(Logical(p)), n)
  {
    hide Take;
    hide Keep;
    hide Map;
    hide SortRows;
    hide AggregateRows;
    hide JoinRows;
    hide HashJoinRows;
    hide RestrictRows;
    hide SourceRows;
  }

  lemma TakeCount(a: seq<Row>, b: seq<Row>, n: nat)
    requires |a| == |b|
    ensures |Take(a, n)| == |Take(b, n)|
  {
  }

  lemma AllShown(xs: seq<NamedExpr>, s: Schema)
    requires ProjectionSchema(xs, s).Some?
    ensures ShownOutputs(xs, Ids(s)) == Ids(OutputFields(xs))
  {
    forall id | id in Ids(OutputFields(xs)) ensures Refs(xs[IndexOf(OutputFields(xs), id)].expr) <= Ids(s) {
      var x := xs[IndexOf(OutputFields(xs), id)];
      assert x in xs;
      RefsTyped(x.expr, Types(s));
    }
  }

  /** Where no order matters, every output column is certain. */
  lemma {:induction false} BagSafeIsCertain(p: PhysicalPlan, sums: bool)
    requires WellFormed(Logical(p)) && BagSafe(p)
    ensures Certain(p, sums) == Some(Ids(SchemaOf(Logical(p))))
  {
    hide Ids;
    hide ShownOutputs;
    hide ShownGroups;
    if !RightBuilt(p) {
      match p
      case SelectionFilter(l, e) =>
        BagSafeIsCertain(l, sums);
        RefsTyped(e, Types(SchemaOf(Logical(l))));
      case VectorProjection(l, xs) =>
        BagSafeIsCertain(l, sums);
        AllShown(xs, SchemaOf(Logical(l)));
      case HashJoining(l, r, lk, rk, _) =>
        BagSafeIsCertain(l, sums);
        BagSafeIsCertain(r, sums);
        JoinKeysBind(lk, rk, SchemaOf(Logical(l)), SchemaOf(Logical(r)));
        IdsAppend(SchemaOf(Logical(l)), SchemaOf(Logical(r)));
      case MaterializedSort(l, _) => BagSafeIsCertain(l, sums);
      case _ =>
    }
  }

  /** An aggregation over any tree of joins of scans, filters and projections keeps its grouping keys certain. */
  lemma GroupsOverBag(l: PhysicalPlan, keys: seq<ColumnId>, aggs: seq<AggregateSpec>, sums: bool)
    requires WellFormed(Aggregate(Logical(l), keys, aggs)) && BagSafe(l) && !RightBuilt(l)
    ensures Certain(HashAggregation(l, keys, aggs), sums)
         == Some(ShownGroups(keys, aggs, Ids(SchemaOf(Logical(l))), sums))
    ensures KeySet(keys) <= ShownGroups(keys, aggs, Ids(SchemaOf(Logical(l))), sums)
  {
    BagSafeIsCertain(l, sums);
    KeysStayShown(SchemaOf(Logical(l)), keys, aggs, sums);
  }

  lemma KeysStayShown(s: Schema, keys: seq<ColumnId>, aggs: seq<AggregateSpec>, sums: bool)
    requires AggregateSchema(s, keys, aggs).Some?
    ensures KeySet(keys) <= Ids(s) && KeySet(keys) <= ShownGroups(keys, aggs, Ids(s), sums)
  {
    SelectFieldsIds(s, keys);
    DisjointSides(SelectFields(s, keys), AggregateFields(aggs));
  }
}
