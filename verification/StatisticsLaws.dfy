/** How sharp the pruning test is on gathered statistics: which groups it keeps, and no others. */
module StatisticsLaws {
  import opened Values
  import opened Expressions
  import opened Relations
  import opened Aggregates
  import opened Statistics

  /** Some cell lies at or below the literal and some at or above it. */
  ghost predicate Between(vs: seq<Value>, x: Value) {
    && (exists i :: 0 <= i < |vs| && Ordered(vs[i]) && CompareCell(vs[i], x) <= 0)
    && (exists i :: 0 <= i < |vs| && Ordered(vs[i]) && CompareCell(x, vs[i]) <= 0)
  }

  /** For equality, a group with some ordered cell is kept exactly when the literal lies between its cells. */
  lemma MayEqualExact(vs: seq<Value>, x: Value)
    requires Ordered(x) && OrderedValues(vs) != []
    ensures MayCompare(StatisticsOf(vs), Equal, x) <==> Between(vs, x)
  {
    var lo, hi := BoundsAreCells(vs);
    NullCounts(vs, vs[lo]);
    StatisticsCover(vs);
    CompareAntisymmetric(vs[hi], x);
    if Between(vs, x) {
      var i :| 0 <= i < |vs| && Ordered(vs[i]) && CompareCell(vs[i], x) <= 0;
      var j :| 0 <= j < |vs| && Ordered(vs[j]) && CompareCell(x, vs[j]) <= 0;
      assert CoversCell(StatisticsOf(vs), vs[i]) && CoversCell(StatisticsOf(vs), vs[j]);
      CompareTransitive(vs[lo], vs[i], x);
      CompareTransitive(x, vs[j], vs[hi]);
    }
  }

  lemma {:induction false} AllNulls(vs: seq<Value>)
    ensures CountNulls(vs) <= |vs|
    ensures CountNulls(vs) == |vs| <==> forall v <- vs :: v.Null?
  {
    if vs != [] {
      AllNulls(vs[..|vs| - 1]);
      assert vs == vs[..|vs| - 1] + [vs[|vs| - 1]];
    }
  }

  /** The literals and groups without an order: NULL, NaN, and cells that are all NULL or NaN. */
  lemma MayCompareOdd(vs: seq<Value>, op: CompareOp, x: Value)
    ensures x.Null? || (forall v <- vs :: v.Null?) ==> !MayCompare(StatisticsOf(vs), op, x)
    ensures IsNaN(x) && (exists v :: v in vs && !v.Null?) ==> (MayCompare(StatisticsOf(vs), op, x) <==> op == NotEqual)
    ensures Ordered(x) && OrderedValues(vs) == [] && (exists v :: v in vs && !v.Null?) ==>
      MayCompare(StatisticsOf(vs), op, x)
  {
    AllNulls(vs);
  }

  // ---------------------------------------------------------------------------------------
  // Groups of one row.

  /** Predicates every part of which the test looks at. */
  predicate Testable(e: Expr) {
    || e.Literal?
    || (e.Binary? && (e.op.And? || e.op.Or?) && Testable(e.left) && Testable(e.right))
    || (e.Unary? && e.unary.IsNull? && e.operand.Column?)
    || Simple(e).Some?
  }

  /** The statistics are those of one row. */
  ghost predicate OfOneRow(s: Schema, stats: seq<ColumnStatistics>, row: Row) {
    && |stats| == |s|
    && forall id <- Ids(s) :: stats[IndexOf(s, id)] == StatisticsOf([Cell(row, id)]) && !IsNaN(Cell(row, id))
  }

  lemma OneCell(v: Value)
    requires !IsNaN(v)
    ensures var st := StatisticsOf([v]);
      && st.rows == 1 && st.nullsKnown && !st.hasNan && st.nulls == (if v.Null? then 1 else 0)
      && st.minimum == st.maximum == if v.Null? then None else Some(v)
  {
    var vs := [v];
    assert vs[..|vs| - 1] == [] && vs[|vs| - 1] == v;
    assert CountNulls([]) == 0 && OrderedValues([]) == [];
    assert CountNulls(vs) == if v.Null? then 1 else 0;
    assert OrderedValues(vs) == if v.Null? then [] else [v];
  }

  lemma OneCellExact(op: CompareOp, v: Value, x: Value, t: Type)
    requires !IsNaN(v) && HasType(v, t) && HasType(x, t)
    ensures MayCompare(StatisticsOf([v]), op, x) <==> CompareValues(op, v, x) == TRUE
  {
    OneCell(v);
    if Ordered(x) && Ordered(v) {
      ComparisonFollowsOrder(op, v, x, t);
    }
  }

  /** A group of one row without NaN is kept exactly when the row satisfies the predicate. */
  lemma {:induction false} OneRowExact(e: Expr, s: Schema, stats: seq<ColumnStatistics>, row: Row)
    requires Testable(e) && ExpressionType(e, Types(s)) == Some(BooleanType) && RowHasTypes(row, Types(s))
    requires OfOneRow(s, stats, row)
    ensures Refs(e) <= Ids(s) && (MayMatch(e, s, stats) <==> Holds(e, row))
  {
    RefsTyped(e, Types(s));
    if e.Literal? {
    } else if e.Binary? && (e.op.And? || e.op.Or?) {
      OneRowExact(e.left, s, stats, row);
      OneRowExact(e.right, s, stats, row);
      EvalTyped(e.left, row, Types(s));
      EvalTyped(e.right, row, Types(s));
    } else if e.Unary? {
      OneCell(Cell(row, e.operand.id));
      assert Eval(e.operand, row) == Cell(row, e.operand.id);
    } else {
      SimpleMeaning(e, row, Types(s));
      var c := Simple(e).value;
      OneCellExact(c.op, Cell(row, c.column), c.value, Types(s)[c.column]);
    }
  }
}
