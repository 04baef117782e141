/** A lowered plan produces the rows of the plan, in the order its build sides give them. */
module LoweringProof {
  import opened Values
  import opened Expressions
  import opened Sequences
  import opened Relations
  import opened Plans
  import opened Batches
  import opened ScanLists
  import opened OperatorLists
  import opened JoinLists
  import opened GroupLists
  import opened SortLists
  import opened PhysicalPlans
  import opened PruningProof
  import opened OperatorMeaning
  import opened JoinMeaning
  import opened GroupMeaning

  /**
   The rows the operators of a plan produce, named: those of the logical plan, except that a join
   that builds its left side gives its rows right-major.
   */
  function Carried(p: PhysicalPlan): seq<Row> {
    match p
    case ColumnScan(source, columns, _) => RestrictRows(KeySet(columns), SourceRows(source))
    case SelectionFilter(l, e) => Keep([e], Carried(l))
    case VectorProjection(l, xs) => Map(Projecting(xs), Carried(l))
    case HashAggregation(l, keys, aggs) => AggregateRows(keys, aggs, Carried(l))
    case HashJoining(l, r, lk, rk, buildRight) => HashJoinRows(buildRight, lk, rk, Carried(l), Carried(r))
    case MaterializedSort(l, keys) => SortRows(keys, Carried(l))
    case Limited(l, n) => Take(Carried(l), n)
  }

  /** The physical plan runs, for the logical one, and produces exactly the rows it carries. */
  ghost predicate Realizes(pp: PhysicalPlan, p: Plan) {
    && Runnable(pp) && WellFormed(p) && Logical(pp) == p && OutputOf(pp) == SchemaOf(p)
    && AllTuplesTyped(SchemaOf(p), Produce(pp))
    && Named(SchemaOf(p), Produce(pp)) == Carried(pp)
  }

  lemma RealizeScan(source: Source, columns: seq<ColumnId>)
    requires WellFormed(Scan(source, columns))
    ensures Realizes(ColumnScan(source, columns, None), Scan(source, columns))
  {
    ScanMeaning(source, columns);
  }

  lemma {:induction false} PruningCarries(p: PhysicalPlan, e: Expr)
    ensures Carried(AddPruning(p, e)) == Carried(p)
  {
    if p.SelectionFilter? {
      PruningCarries(p.left, e);
    }
  }

  lemma RealizedBy(pp: PhysicalPlan, p: Plan, s: Schema, ts: seq<Tuple>, rows: seq<Row>)
    requires Runnable(pp) && WellFormed(p) && Logical(pp) == p && OutputOf(pp) == SchemaOf(p) == s
    requires Produce(pp) == ts && Carried(pp) == rows && AllTuplesTyped(s, ts)
    requires Named(s, ts) == rows
    ensures Realizes(pp, p)
  {
  }

  lemma FilterPlans(pl: PhysicalPlan, l: Plan, e: Expr)
    requires Realizes(pl, l) && WellFormed(Filter(l, e))
    ensures var q := SelectionFilter(AddPruning(pl, e), e);
      && Runnable(q) && OutputOf(q) == SchemaOf(Filter(l, e)) == SchemaOf(l)
      && Logical(q) == Filter(l, e)
      && Produce(q) == FilterTuples(SchemaOf(l), e, Produce(pl)) && Carried(q) == Keep([e], Carried(pl))
  {
    hide FilterTuples;
    hide Keep;
    hide AllTuplesTyped;
    hide Named;
    hide AddPruning;
    hide ExpressionType;
    hide Types;
    AddPruningRuns(pl, e);
    AddPruningKeeps(pl, e);
    PruningCarries(pl, e);
    PruningIsLogical(pl, e);
  }

  lemma RealizeFilter(pl: PhysicalPlan, l: Plan, e: Expr)
    requires Realizes(pl, l) && WellFormed(Filter(l, e))
    ensures Realizes(SelectionFilter(AddPruning(pl, e), e), Filter(l, e))
  {
    FilterPlans(pl, l, e);
    hide AllTuplesTyped;
    hide Named;
    hide Runnable;
    hide WellFormed;
    hide OutputOf;
    hide SchemaOf;
    hide Produce;
    hide Logical;
    hide Carried;
    hide FilterTuples;
    hide Keep;
    var s, ts := SchemaOf(l), Produce(pl);
    FilterMeaning(s, e, ts);
    RealizedBy(SelectionFilter(AddPruning(pl, e), e), Filter(l, e), s, FilterTuples(s, e, ts), Keep([e], Carried(pl)));
  }

  lemma RealizeProjection(pl: PhysicalPlan, l: Plan, xs: seq<NamedExpr>)
    requires Realizes(pl, l) && WellFormed(Projection(l, xs))
    ensures Realizes(VectorProjection(pl, xs), Projection(l, xs))
  {
    hide ProjectTuples;
    hide AllTuplesTyped;
    hide Named;
    hide Ids;
    hide ExpressionType;
    hide ExpressionsTyped;
    hide UniqueIds;
    hide SelectSchema;
    hide AggregateSchema;
    hide JoinKeysOk;
    hide PruningOk;
    var s, ts := SchemaOf(l), Produce(pl);
    ProjectMeaning(s, xs, ts);
  }

  lemma RealizeAggregate(pl: PhysicalPlan, l: Plan, keys: seq<ColumnId>, aggs: seq<AggregateSpec>)
    requires Realizes(pl, l) && WellFormed(Aggregate(l, keys, aggs))
    ensures Realizes(HashAggregation(pl, keys, aggs), Aggregate(l, keys, aggs))
  {
    hide GroupTuples;
    hide AggregateRows;
    hide AllTuplesTyped;
    hide Named;
    hide AggregateSchema;
    OutputUnique(l);
    AggregateMeaning(SchemaOf(l), keys, aggs, Produce(pl));
  }

  lemma JoinKeysBind(keys: seq<ColumnId>, rightKeys: seq<ColumnId>, ls: Schema, rs: Schema)
    requires JoinKeysOk(keys, rightKeys, Types(ls), Types(rs))
    ensures KeySet(keys) <= Ids(ls) && KeySet(rightKeys) <= Ids(rs)
  {
    forall k | k in KeySet(keys) ensures k in Ids(ls) {
      var i :| 0 <= i < |keys| && keys[i] == k;
    }
    forall k | k in KeySet(rightKeys) ensures k in Ids(rs) {
      var i :| 0 <= i < |rightKeys| && rightKeys[i] == k;
    }
  }

  lemma {:induction false} JoinedTyped(ls: Schema, rs: Schema, shape: JoinShape, build: seq<Tuple>, probe: seq<Tuple>)
    requires shape.buildRight ==> AllTuplesTyped(rs, build) && AllTuplesTyped(ls, probe)
    requires !shape.buildRight ==> AllTuplesTyped(ls, build) && AllTuplesTyped(rs, probe)
    ensures AllTuplesTyped(ls + rs, JoinTuples(shape, build, probe))
  {
    if probe != [] {
      JoinedTyped(ls, rs, shape, build, probe[..|probe| - 1]);
      PairsTyped(ls, rs, shape, build, probe[|probe| - 1], 0);
    }
  }

  lemma {:induction false} PairsTyped(ls: Schema, rs: Schema, shape: JoinShape, build: seq<Tuple>, p: Tuple, i: nat)
    requires shape.buildRight ==> AllTuplesTyped(rs, build) && TupleTyped(p, SchemaTypes(ls))
    requires !shape.buildRight ==> AllTuplesTyped(ls, build) && TupleTyped(p, SchemaTypes(rs))
    ensures AllTuplesTyped(ls + rs, PairsFrom(shape, build, p, i))
    decreases |build| - i
  {
    if i < |build| {
      PairsTyped(ls, rs, shape, build, p, i + 1);
      if shape.buildRight {
        PairedTyped(ls, rs, p, build[i]);
      } else {
        PairedTyped(ls, rs, build[i], p);
      }
    }
  }

  /** A hash join of positional rows is the hash join of the named rows. */
  lemma HashJoinMeaning(ls: Schema, rs: Schema, lk: seq<ColumnId>, rk: seq<ColumnId>, buildRight: bool,
                        left: seq<Tuple>, right: seq<Tuple>)
    requires UniqueIds(ls + rs) && KeySet(lk) <= Ids(ls) && KeySet(rk) <= Ids(rs)
    requires AllTuplesTyped(ls, left) && AllTuplesTyped(rs, right)
    ensures var shape := JoinShapeOf(ls, rs, lk, rk, buildRight);
      var ts := if buildRight then JoinTuples(shape, right, left) else JoinTuples(shape, left, right);
      && AllTuplesTyped(ls + rs, ts)
      && Named(ls + rs, ts) == HashJoinRows(buildRight, lk, rk, Named(ls, left), Named(rs, right))
  {
    var shape := JoinShapeOf(ls, rs, lk, rk, buildRight);
    if buildRight {
      JoinedTyped(ls, rs, shape, right, left);
      JoinRightMeaning(ls, rs, lk, rk, left, right);
    } else {
      JoinedTyped(ls, rs, shape, left, right);
      JoinLeftMeaning(ls, rs, lk, rk, left, right);
    }
  }

  lemma JoinPlans(pl: PhysicalPlan, pr: PhysicalPlan, l: Plan, r: Plan,
                  lk: seq<ColumnId>, rk: seq<ColumnId>, buildRight: bool)
    requires Realizes(pl, l) && Realizes(pr, r) && WellFormed(Join(l, r, lk, rk))
    ensures var q, ls, rs := HashJoining(pl, pr, lk, rk, buildRight), SchemaOf(l), SchemaOf(r);
      var shape := JoinShapeOf(ls, rs, lk, rk, buildRight);
      && Runnable(q) && OutputOf(q) == SchemaOf(Join(l, r, lk, rk)) == ls + rs && UniqueIds(ls + rs)
      && Produce(q) == (if buildRight then JoinTuples(shape, Produce(pr), Produce(pl))
                        else JoinTuples(shape, Produce(pl), Produce(pr)))
      && Carried(q) == HashJoinRows(buildRight, lk, rk, Carried(pl), Carried(pr))
      && JoinKeysOk(lk, rk, Types(ls), Types(rs)) && Logical(q) == Join(l, r, lk, rk)
  {
    hide JoinTuples;
    hide AllTuplesTyped;
    hide Named;
    hide HashJoinRows;
    hide JoinKeysOk;
    hide JoinShapeOf;
    hide UniqueIds;
    hide Types;
    hide ExpressionType;
    hide SelectSchema;
    hide ProjectionSchema;
    hide AggregateSchema;
    hide PruningOk;
  }

  lemma RealizeJoin(pl: PhysicalPlan, pr: PhysicalPlan, l: Plan, r: Plan,
                    lk: seq<ColumnId>, rk: seq<ColumnId>, buildRight: bool)
    requires Realizes(pl, l) && Realizes(pr, r) && WellFormed(Join(l, r, lk, rk))
    ensures Realizes(HashJoining(pl, pr, lk, rk, buildRight), Join(l, r, lk, rk))
  {
    JoinPlans(pl, pr, l, r, lk, rk, buildRight);
    hide AllTuplesTyped;
    hide Named;
    hide Runnable;
    hide WellFormed;
    hide OutputOf;
    hide SchemaOf;
    hide Produce;
    hide Logical;
    hide Carried;
    hide JoinTuples;
    hide HashJoinRows;
    hide JoinKeysOk;
    hide JoinShapeOf;
    hide HashJoinRows;
    hide UniqueIds;
    hide Types;
    var ls, rs, q := SchemaOf(l), SchemaOf(r), HashJoining(pl, pr, lk, rk, buildRight);
    JoinKeysBind(lk, rk, ls, rs);
    HashJoinMeaning(ls, rs, lk, rk, buildRight, Produce(pl), Produce(pr));
    RealizedBy(q, Join(l, r, lk, rk), ls + rs, Produce(q), HashJoinRows(buildRight, lk, rk, Carried(pl), Carried(pr)));
  }

  lemma SortPlans(pl: PhysicalPlan, l: Plan, keys: seq<SortKey>)
    requires Realizes(pl, l) && WellFormed(Sort(l, keys))
    ensures var q := MaterializedSort(pl, keys);
      && Runnable(q) && OutputOf(q) == SchemaOf(Sort(l, keys)) == SchemaOf(l)
      && Produce(q) == SortTuples(SortShapeOf(SchemaOf(l), keys), Produce(pl))
      && Carried(q) == SortRows(keys, Carried(pl)) && Logical(q) == Sort(l, keys)
      && forall key <- keys :: key.column in Ids(SchemaOf(l))
  {
    hide SortTuples;
    hide SortRows;
    hide SortShapeOf;
    hide AllTuplesTyped;
    hide Named;
    hide Ids;
    hide ExpressionType;
    hide SelectSchema;
    hide ProjectionSchema;
    hide AggregateSchema;
    hide JoinKeysOk;
    hide PruningOk;
  }

  lemma RealizeSort(pl: PhysicalPlan, l: Plan, keys: seq<SortKey>)
    requires Realizes(pl, l) && WellFormed(Sort(l, keys))
    ensures Realizes(MaterializedSort(pl, keys), Sort(l, keys))
  {
    SortPlans(pl, l, keys);
    hide AllTuplesTyped;
    hide Named;
    hide Runnable;
    hide WellFormed;
    hide OutputOf;
    hide SchemaOf;
    hide Produce;
    hide Logical;
    hide Carried;
    hide SortTuples;
    hide SortRows;
    var s, ts := SchemaOf(l), Produce(pl);
    SortMeaning(s, keys, ts);
    RealizedBy(MaterializedSort(pl, keys), Sort(l, keys), s, SortTuples(SortShapeOf(s, keys), ts),
               SortRows(keys, Carried(pl)));
  }

  lemma LimitPlans(pl: PhysicalPlan, l: Plan, n: nat)
    requires Realizes(pl, l)
    ensures var q := Limited(pl, n);
      && Runnable(q) && WellFormed(Limit(l, n)) && OutputOf(q) == SchemaOf(Limit(l, n)) == SchemaOf(l)
      && Produce(q) == Take(Produce(pl), n) && Carried(q) == Take(Carried(pl), n) && Logical(q) == Limit(l, n)
  {
    hide Take;
    hide AllTuplesTyped;
    hide Named;
    hide Ids;
    hide ExpressionType;
    hide SelectSchema;
    hide ProjectionSchema;
    hide AggregateSchema;
    hide JoinKeysOk;
    hide PruningOk;
  }

  lemma RealizeLimit(pl: PhysicalPlan, l: Plan, n: nat)
    requires Realizes(pl, l)
    ensures Realizes(Limited(pl, n), Limit(l, n))
  {
    LimitPlans(pl, l, n);
    hide AllTuplesTyped;
    hide Named;
    hide Runnable;
    hide WellFormed;
    hide OutputOf;
    hide SchemaOf;
    hide Produce;
    hide Logical;
    hide Carried;
    hide Take;
    var s, ts := SchemaOf(l), Produce(pl);
    LimitMeaning(s, ts, n);
    RealizedBy(Limited(pl, n), Limit(l, n), s, Take(ts, n), Take(Carried(pl), n));
  }

  /** For every well-formed plan and every estimate, the lowered plan runs and produces the rows it carries. */
  lemma {:induction false} LowerSound(rightSmaller: Smaller, p: Plan)
    requires WellFormed(p)
    ensures Realizes(Lower(rightSmaller, p), p)
  {
    hide Realizes;
    match p
    case Scan(source, columns) => RealizeScan(source, columns);
    case Filter(l, e) =>
      LowerSound(rightSmaller, l);
      RealizeFilter(Lower(rightSmaller, l), l, e);
    case Projection(l, xs) =>
      LowerSound(rightSmaller, l);
      RealizeProjection(Lower(rightSmaller, l), l, xs);
    case Aggregate(l, keys, aggs) =>
      LowerSound(rightSmaller, l);
      RealizeAggregate(Lower(rightSmaller, l), l, keys, aggs);
    case Join(l, r, lk, rk) =>
      LowerSound(rightSmaller, l);
      LowerSound(rightSmaller, r);
      RealizeJoin(Lower(rightSmaller, l), Lower(rightSmaller, r), l, r, lk, rk, rightSmaller(l, r));
    case Sort(l, keys) =>
      LowerSound(rightSmaller, l);
      RealizeSort(Lower(rightSmaller, l), l, keys);
    case Limit(l, n) =>
      LowerSound(rightSmaller, l);
      RealizeLimit(Lower(rightSmaller, l), l, n);
  }
}
