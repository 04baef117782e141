/** Row-group statistics: how they are gathered and merged, and what they let a scan skip. */
module Statistics {
  import opened Values
  import opened Expressions
  import opened Sequences
  import opened Relations
  import opened Aggregates
  import opened RowStore

  /** `sketch` is the set of bits raised in the distinct-count sketch. */
  datatype ColumnStatistics = ColumnStatistics(rows: nat, nulls: nat, nullsKnown: bool, hasNan: bool,
                                               minimum: Option<Value>, maximum: Option<Value>, sketch: set<nat>)

  predicate IsNaN(v: Value) {
    v == Dbl(NaN)
  }

  /** The values that take part in minima and maxima. */
  predicate Ordered(v: Value) {
    !v.Null? && !IsNaN(v)
  }

  function SketchBit(v: Value): nat {
    (HashCell(v) as nat) % 1024
  }

  // ---------------------------------------------------------------------------------------
  // What the statistics of a list of cells are.

  function CountNulls(vs: seq<Value>): nat {
    if vs == [] then 0 else CountNulls(vs[..|vs| - 1]) + if vs[|vs| - 1].Null? then 1 else 0
  }

  function OrderedValues(vs: seq<Value>): seq<Value> {
    if vs == [] then [] else
      var v, init := vs[|vs| - 1], OrderedValues(vs[..|vs| - 1]);
      if Ordered(v) then init + [v] else init
  }

  function Bound(least: bool, vs: seq<Value>): Option<Value> {
    if vs == [] then None else Some(Extreme(least, vs))
  }

  function StatisticsOf(vs: seq<Value>): ColumnStatistics {
    ColumnStatistics(|vs|, CountNulls(vs), true, Dbl(NaN) in vs,
                     Bound(true, OrderedValues(vs)), Bound(false, OrderedValues(vs)),
                     set v <- vs | !v.Null? :: SketchBit(v))
  }

  // ---------------------------------------------------------------------------------------
  // Merging.

  function MergeBound(least: bool, a: Option<Value>, b: Option<Value>): Option<Value> {
    if b.Some? && (a.None? || Oriented(least, b.value, a.value) < 0) then b else a
  }

  function MergeColumn(a: ColumnStatistics, b: ColumnStatistics): ColumnStatistics {
    ColumnStatistics(a.rows + b.rows, a.nulls + b.nulls, a.nullsKnown && b.nullsKnown, a.hasNan || b.hasNan,
                     MergeBound(true, a.minimum, b.minimum), MergeBound(false, a.maximum, b.maximum),
                     a.sketch + b.sketch)
  }

  lemma {:induction false} CountNullsAppend(a: seq<Value>, b: seq<Value>)
    ensures CountNulls(a + b) == CountNulls(a) + CountNulls(b)
  {
    if b == [] {
      assert a + b == a;
    } else {
      CountNullsAppend(a, b[..|b| - 1]);
      assert (a + b)[..|a + b| - 1] == a + b[..|b| - 1];
    }
  }

  lemma {:induction false} OrderedValuesAppend(a: seq<Value>, b: seq<Value>)
    ensures OrderedValues(a + b) == OrderedValues(a) + OrderedValues(b)
  {
    if b == [] {
      assert a + b == a;
    } else {
      OrderedValuesAppend(a, b[..|b| - 1]);
      assert (a + b)[..|a + b| - 1] == a + b[..|b| - 1];
    }
  }

  /** The extreme of a list in two parts is the better of the two, the earlier on a tie. */
  lemma {:induction false} ExtremeAppend(least: bool, a: seq<Value>, b: seq<Value>)
    requires a != [] && b != []
    ensures Extreme(least, a + b)
         == if Oriented(least, Extreme(least, b), Extreme(least, a)) < 0 then Extreme(least, b) else Extreme(least, a)
  {
    var init, last := b[..|b| - 1], b[|b| - 1];
    assert (a + b)[..|a + b| - 1] == a + init && (a + b)[|a + b| - 1] == last;
    if init == [] {
      assert a + init == a;
    } else {
      ExtremeAppend(least, a, init);
      var x, y := Extreme(least, a), Extreme(least, init);
      OrientedLaws(least, last, y, x);
      OrientedLaws(least, y, x, last);
      OrientedLaws(least, x, y, last);
      OrientedLaws(least, last, x, y);
      OrientedLaws(least, y, last, x);
      OrientedLaws(least, x, last, y);
    }
  }

  lemma BoundAppend(least: bool, a: seq<Value>, b: seq<Value>)
    ensures Bound(least, a + b) == MergeBound(least, Bound(least, a), Bound(least, b))
  {
    if b == [] {
      assert a + b == a;
    } else if a == [] {
      assert a + b == b;
    } else {
      ExtremeAppend(least, a, b);
    }
  }

  /** Merging the statistics of two lists gives exactly the statistics of their concatenation. */
  lemma MergeIsConcatenation(a: seq<Value>, b: seq<Value>)
    ensures MergeColumn(StatisticsOf(a), StatisticsOf(b)) == StatisticsOf(a + b)
  {
    CountNullsAppend(a, b);
    OrderedValuesAppend(a, b);
    BoundAppend(true, OrderedValues(a), OrderedValues(b));
    BoundAppend(false, OrderedValues(a), OrderedValues(b));
    var s := set v <- a + b | !v.Null? :: SketchBit(v);
    var sa := set v <- a | !v.Null? :: SketchBit(v);
    var sb := set v <- b | !v.Null? :: SketchBit(v);
    assert s == sa + sb;
  }

  // ---------------------------------------------------------------------------------------
  // Pruning.

  /** What pruning may rely on: every claim of the statistics is true of every cell. */
  ghost predicate Covers(st: ColumnStatistics, vs: seq<Value>) {
    forall v <- vs :: CoversCell(st, v)
  }

  ghost predicate CoversCell(st: ColumnStatistics, v: Value) {
    && (st.nullsKnown && st.nulls == 0 ==> !v.Null?)
    && (st.nullsKnown && st.nulls == st.rows ==> v.Null?)
    && (IsNaN(v) && st.minimum.Some? && st.maximum.Some? ==> st.hasNan)
    && (Ordered(v) && st.minimum.Some? ==> Ordered(st.minimum.value) && CompareCell(st.minimum.value, v) <= 0)
    && (Ordered(v) && st.maximum.Some? ==> Ordered(st.maximum.value) && CompareCell(v, st.maximum.value) <= 0)
  }

  lemma {:induction false} OrderedValuesMembers(vs: seq<Value>, v: Value)
    ensures v in OrderedValues(vs) <==> v in vs && Ordered(v)
  {
    if vs != [] {
      assert vs == vs[..|vs| - 1] + [vs[|vs| - 1]];
      OrderedValuesMembers(vs[..|vs| - 1], v);
    }
  }

  lemma {:induction false} NullCounts(vs: seq<Value>, v: Value)
    requires v in vs
    ensures CountNulls(vs) <= |vs|
    ensures v.Null? ==> CountNulls(vs) > 0
    ensures !v.Null? ==> CountNulls(vs) < |vs|
  {
    var init := vs[..|vs| - 1];
    assert vs == init + [vs[|vs| - 1]];
    if v in init {
      NullCounts(init, v);
    } else {
      AtMostLength(init);
    }
  }

  lemma {:induction false} AtMostLength(vs: seq<Value>)
    ensures CountNulls(vs) <= |vs|
  {
    if vs != [] {
      AtMostLength(vs[..|vs| - 1]);
    }
  }

  /** Gathered statistics cover the cells they were gathered from. */
  lemma StatisticsCover(vs: seq<Value>)
    ensures Covers(StatisticsOf(vs), vs)
  {
    var os := OrderedValues(vs);
    forall v <- vs ensures CoversCell(StatisticsOf(vs), v) {
      NullCounts(vs, v);
      OrderedValuesMembers(vs, v);
      if os != [] {
        var lo := ExtremeIsEarliestBound(true, os);
        var hi := ExtremeIsEarliestBound(false, os);
        OrderedValuesMembers(vs, os[lo]);
        OrderedValuesMembers(vs, os[hi]);
      }
    }
  }

  /** A comparison of a column with a literal, with the column on the left. */
  datatype ColumnComparison = ColumnComparison(column: ColumnId, op: CompareOp, value: Value)

  function Flip(op: CompareOp): CompareOp {
    match op
    case Less => Greater
    case Greater => Less
    case LessEqual => GreaterEqual
    case GreaterEqual => LessEqual
    case _ => op
  }

  function Simple(e: Expr): (c: Option<ColumnComparison>)
    ensures c.Some? ==> c.value.column in Refs(e)
  {
    if !e.Binary? || !e.op.Compare? then None
    else if e.left.Column? && e.right.Literal? then Some(ColumnComparison(e.left.id, e.op.compare, e.right.literal))
    else if e.right.Column? && e.left.Literal?
    then Some(ColumnComparison(e.right.id, Flip(e.op.compare), e.left.literal))
    else None
  }

  function MayCompare(st: ColumnStatistics, op: CompareOp, x: Value): bool {
    if x.Null? || (st.nullsKnown && st.nulls == st.rows) then false
    else if IsNaN(x) then op.NotEqual?
    else if st.minimum.None? || st.maximum.None? then true
    else
      var lo, hi := CompareCell(st.minimum.value, x), CompareCell(st.maximum.value, x);
      match op
      case Equal => lo <= 0 && hi >= 0
      case NotEqual => st.hasNan || lo != 0 || hi != 0
      case Less => lo < 0
      case LessEqual => lo <= 0
      case Greater => hi > 0
      case GreaterEqual => hi >= 0
  }

  /** Whether a row group with these statistics may hold a row that satisfies the predicate. */
  predicate MayMatch(e: Expr, s: Schema, stats: seq<ColumnStatistics>)
    requires |stats| == |s| && Refs(e) <= Ids(s)
  {
    if e.Literal? then e.literal == TRUE
    else if e.Binary? && e.op.And? then MayMatch(e.left, s, stats) && MayMatch(e.right, s, stats)
    else if e.Binary? && e.op.Or? then MayMatch(e.left, s, stats) || MayMatch(e.right, s, stats)
    else if e.Unary? && e.unary.IsNull? && e.operand.Column? then
      assert e.operand.id in Refs(e.operand);
      var st := stats[IndexOf(s, e.operand.id)];
      !st.nullsKnown || st.nulls != 0
    else match Simple(e)
      case None => true
      case Some(c) => MayCompare(stats[IndexOf(s, c.column)], c.op, c.value)
  }

  /** On ordered cells of one type, comparisons follow the cell order. */
  lemma ComparisonFollowsOrder(op: CompareOp, a: Value, b: Value, t: Type)
    requires Ordered(a) && Ordered(b) && HasType(a, t) && HasType(b, t)
    ensures var c := CompareCell(a, b); CompareValues(op, a, b) == Bool(Decide(op, c < 0, c == 0, c > 0))
  {
    if a.Str? {
      TextTotal(a.s, b.s);
    }
  }

  lemma FlipMeaning(op: CompareOp, a: Value, b: Value)
    ensures CompareValues(op, a, b) == CompareValues(Flip(op), b, a)
  {
  }

  /** No false negatives for one comparison, over NULLs, NaNs and missing bounds. */
  lemma MayCompareSound(st: ColumnStatistics, op: CompareOp, v: Value, x: Value, t: Type)
    requires CoversCell(st, v) && HasType(v, t) && HasType(x, t)
    requires CompareValues(op, v, x) == TRUE
    ensures MayCompare(st, op, x)
  {
    if Ordered(x) && Ordered(v) && st.minimum.Some? && st.maximum.Some? {
      ComparisonFollowsOrder(op, v, x, t);
      CompareAntisymmetric(v, x);
      CompareAntisymmetric(st.minimum.value, x);
      CompareAntisymmetric(x, st.maximum.value);
      CompareAntisymmetric(st.minimum.value, v);
      CompareAntisymmetric(v, st.maximum.value);
      if CompareCell(v, x) <= 0 {
        CompareTransitive(st.minimum.value, v, x);
      }
      if CompareCell(x, v) <= 0 {
        CompareTransitive(x, v, st.maximum.value);
      }
      if CompareCell(st.minimum.value, x) == 0 && CompareCell(st.maximum.value, x) == 0 {
        CompareTransitive(x, st.minimum.value, v);
        CompareTransitive(v, st.maximum.value, x);
      }
    }
  }

  /** Some cell satisfies the comparison. */
  ghost predicate SomeMatch(vs: seq<Value>, op: CompareOp, x: Value) {
    exists i :: 0 <= i < |vs| && CompareValues(op, vs[i], x) == TRUE
  }

  ghost predicate CellsTyped(vs: seq<Value>, t: Type) {
    forall i :: 0 <= i < |vs| ==> HasType(vs[i], t)
  }

  /** The bounds gathered from some cells are cells, and bound the ordered ones. */
  lemma BoundsAreCells(vs: seq<Value>) returns (lo: nat, hi: nat)
    requires OrderedValues(vs) != []
    ensures lo < |vs| && hi < |vs| && Ordered(vs[lo]) && Ordered(vs[hi])
    ensures StatisticsOf(vs).minimum == Some(vs[lo]) && StatisticsOf(vs).maximum == Some(vs[hi])
  {
    var os := OrderedValues(vs);
    var l := ExtremeIsEarliestBound(true, os);
    var h := ExtremeIsEarliestBound(false, os);
    OrderedValuesMembers(vs, os[l]);
    OrderedValuesMembers(vs, os[h]);
    lo :| 0 <= lo < |vs| && vs[lo] == os[l];
    hi :| 0 <= hi < |vs| && vs[hi] == os[h];
  }

  /**
   How sharp the test is on gathered statistics, for a literal that is not NaN: but for equality
   it keeps a group with some ordered cell exactly when some cell of it satisfies the comparison.
   */
  lemma MayCompareExact(vs: seq<Value>, op: CompareOp, x: Value, t: Type)
    requires CellsTyped(vs, t) && Ordered(x) && HasType(x, t) && OrderedValues(vs) != [] && op != Equal
    ensures MayCompare(StatisticsOf(vs), op, x) <==> SomeMatch(vs, op, x)
  {
    var st := StatisticsOf(vs);
    var lo, hi := BoundsAreCells(vs);
    NullCounts(vs, vs[lo]);
    ComparisonFollowsOrder(op, vs[lo], x, t);
    ComparisonFollowsOrder(op, vs[hi], x, t);
    if MayCompare(st, op, x) {
      if op == NotEqual && st.hasNan {
        var i :| 0 <= i < |vs| && vs[i] == Dbl(NaN);
        assert CompareValues(op, vs[i], x) == TRUE;
      }
      assert SomeMatch(vs, op, x);
    }
    if SomeMatch(vs, op, x) {
      var i :| 0 <= i < |vs| && CompareValues(op, vs[i], x) == TRUE;
      StatisticsCover(vs);
      assert vs[i] in vs && CoversCell(st, vs[i]);
      MayCompareSound(st, op, vs[i], x, t);
    }
  }

  /** Every column of the row is covered by its statistics. */
  ghost predicate CoversRow(s: Schema, stats: seq<ColumnStatistics>, row: Row) {
    && |stats| == |s|
    && forall id <- Ids(s) :: CoversCell(stats[IndexOf(s, id)], Cell(row, id))
  }

  lemma SimpleMeaning(e: Expr, row: Row, env: TypeEnv)
    requires Simple(e).Some? && ExpressionType(e, env).Some? && RowHasTypes(row, env)
    ensures var c := Simple(e).value;
      && c.column in Refs(e) && c.column in env
      && HasType(c.value, env[c.column])
      && Eval(e, row) == CompareValues(c.op, Cell(row, c.column), c.value)
  {
    FlipMeaning(e.op.compare, Eval(e.left, row), Eval(e.right, row));
  }

  /** If any row makes the predicate TRUE, the group is kept. */
  lemma {:induction false} MayMatchSound(e: Expr, s: Schema, stats: seq<ColumnStatistics>, row: Row)
    requires ExpressionType(e, Types(s)).Some? && RowHasTypes(row, Types(s))
    requires CoversRow(s, stats, row) && Holds(e, row)
    ensures Refs(e) <= Ids(s) && MayMatch(e, s, stats)
  {
    RefsTyped(e, Types(s));
    if e.Binary? && (e.op.And? || e.op.Or?) {
      if Holds(e.left, row) {
        MayMatchSound(e.left, s, stats, row);
      }
      if Holds(e.right, row) {
        MayMatchSound(e.right, s, stats, row);
      }
    } else if e.Unary? && e.unary.IsNull? && e.operand.Column? {
      assert CoversCell(stats[IndexOf(s, e.operand.id)], Cell(row, e.operand.id));
      assert Eval(e.operand, row) == Cell(row, e.operand.id);
    } else if Simple(e).Some? {
      SimpleMeaning(e, row, Types(s));
      var c := Simple(e).value;
      assert CoversCell(stats[IndexOf(s, c.column)], Cell(row, c.column));
      MayCompareSound(stats[IndexOf(s, c.column)], c.op, Cell(row, c.column), c.value, Types(s)[c.column]);
    }
  }
}
