/** The laws of the list semantics that predicate pushdown rests on. */
module RelationLaws {
  import opened Values
  import opened Expressions
  import opened Sequences
  import opened Aggregates
  import opened Relations

  // ---------------------------------------------------------------------------------------
  // Sort.

  lemma SortCellsOpposite(k: SortKey, a: Value, b: Value)
    ensures CompareSortCells(k, a, b) == -CompareSortCells(k, b, a)
  {
    CompareAntisymmetric(a, b);
  }

  lemma SortCellsTransitive(k: SortKey, a: Value, b: Value, c: Value)
    requires CompareSortCells(k, a, b) <= 0 && CompareSortCells(k, b, c) <= 0
    ensures CompareSortCells(k, a, c) <= 0
    ensures CompareSortCells(k, a, b) < 0 || CompareSortCells(k, b, c) < 0 ==> CompareSortCells(k, a, c) < 0
  {
    if a.Null? == b.Null? == c.Null? {
      if k.ascending {
        CompareTransitive(a, b, c);
      } else {
        CompareAntisymmetric(a, b);
        CompareAntisymmetric(b, c);
        CompareAntisymmetric(a, c);
        CompareTransitive(c, b, a);
      }
    }
  }

  lemma {:induction false} RowsOpposite(keys: seq<SortKey>, a: Row, b: Row)
    ensures CompareRows(keys, a, b) == -CompareRows(keys, b, a)
  {
    if keys != [] {
      SortCellsOpposite(keys[0], Cell(a, keys[0].column), Cell(b, keys[0].column));
      RowsOpposite(keys[1..], a, b);
    }
  }

  lemma {:induction false} RowsTransitive(keys: seq<SortKey>, a: Row, b: Row, c: Row)
    requires CompareRows(keys, a, b) <= 0 && CompareRows(keys, b, c) <= 0
    ensures CompareRows(keys, a, c) <= 0
  {
    if keys != [] {
      var k := keys[0];
      var x, y, z := Cell(a, k.column), Cell(b, k.column), Cell(c, k.column);
      SortCellsTransitive(k, x, y, z);
      if CompareSortCells(k, x, z) == 0 {
        RowsTransitive(keys[1..], a, b, c);
      }
    }
  }

  /** The sort comparator is a strict weak order. */
  lemma RowOrderIsTotal(keys: seq<SortKey>)
    ensures TotalPreorder(RowOrder(keys))
  {
    var cmp := RowOrder(keys);
    forall a, b ensures Opposite(cmp, a, b) {
      RowsOpposite(keys, a, b);
    }
    forall a, b, c ensures Transitive(cmp, a, b, c) {
      if CompareRows(keys, a, b) <= 0 && CompareRows(keys, b, c) <= 0 {
        RowsTransitive(keys, a, b, c);
      }
    }
  }

  lemma KeepSort(es: seq<Expr>, keys: seq<SortKey>, rows: seq<Row>)
    ensures Keep(es, SortRows(keys, rows)) == SortRows(keys, Keep(es, rows))
  {
    RowOrderIsTotal(keys);
    SelectSort(Holding(es), RowOrder(keys), rows);
  }

  // ---------------------------------------------------------------------------------------
  // Join.

  lemma KeepJoinOneLeft(es: seq<Expr>, lk: seq<ColumnId>, rk: seq<ColumnId>, l: Row, right: seq<Row>)
    requires forall r <- right :: AllHold(es, l + r) <==> AllHold(es, l)
    ensures Keep(es, JoinOne(lk, rk, l, right)) == if AllHold(es, l) then JoinOne(lk, rk, l, right) else []
  {
    forall x | x in JoinOne(lk, rk, l, right) ensures Holding(es)(x) == AllHold(es, l) {
      var i :| 0 <= i < |JoinOne(lk, rk, l, right)| && x == JoinOne(lk, rk, l, right)[i];
      var r := Select(MatchingWith(lk, rk, l), right)[i];
      assert r in right && x == l + r;
    }
    if AllHold(es, l) {
      SelectAll(Holding(es), JoinOne(lk, rk, l, right));
    } else {
      SelectNone(Holding(es), JoinOne(lk, rk, l, right));
    }
  }

  /** A predicate on left columns may be applied before the join. */
  lemma {:induction false} KeepJoinLeft(es: seq<Expr>, lk: seq<ColumnId>, rk: seq<ColumnId>,
                                        left: seq<Row>, right: seq<Row>)
    requires forall l <- left, r <- right :: AllHold(es, l + r) <==> AllHold(es, l)
    ensures Keep(es, JoinRows(lk, rk, left, right)) == JoinRows(lk, rk, Keep(es, left), right)
  {
    if left != [] {
      var l, init := left[|left| - 1], left[..|left| - 1];
      KeepJoinLeft(es, lk, rk, init, right);
      KeepJoinOneLeft(es, lk, rk, l, right);
      SelectAppend(Holding(es), JoinRows(lk, rk, init, right), JoinOne(lk, rk, l, right));
      if AllHold(es, l) {
        JoinRowsLast(lk, rk, Keep(es, init), l, right);
      }
    }
  }

  lemma JoinRowsLast(lk: seq<ColumnId>, rk: seq<ColumnId>, left: seq<Row>, l: Row, right: seq<Row>)
    ensures JoinRows(lk, rk, left + [l], right) == JoinRows(lk, rk, left, right) + JoinOne(lk, rk, l, right)
  {
    assert (left + [l])[..|left|] == left;
  }

  lemma KeepJoinOneRight(es: seq<Expr>, lk: seq<ColumnId>, rk: seq<ColumnId>, l: Row, right: seq<Row>)
    requires forall r <- right :: AllHold(es, l + r) <==> AllHold(es, r)
    ensures Keep(es, JoinOne(lk, rk, l, right)) == JoinOne(lk, rk, l, Keep(es, right))
  {
    var matches, both := MatchingWith(lk, rk, l), (r: Row) => AllHold(es, r) && Matching(lk, rk, l, r);
    SelectMap(Holding(es), Holding(es), Pairing(l), Select(matches, right));
    SelectSelect(Holding(es), matches, both, right);
    SelectSelect(matches, Holding(es), both, right);
  }

  /** A predicate on right columns may be applied before the join. */
  lemma {:induction false} KeepJoinRight(es: seq<Expr>, lk: seq<ColumnId>, rk: seq<ColumnId>,
                                         left: seq<Row>, right: seq<Row>)
    requires forall l <- left, r <- right :: AllHold(es, l + r) <==> AllHold(es, r)
    ensures Keep(es, JoinRows(lk, rk, left, right)) == JoinRows(lk, rk, left, Keep(es, right))
  {
    if left != [] {
      var l, init := left[|left| - 1], left[..|left| - 1];
      KeepJoinRight(es, lk, rk, init, right);
      KeepJoinOneRight(es, lk, rk, l, right);
      SelectAppend(Holding(es), JoinRows(lk, rk, init, right), JoinOne(lk, rk, l, right));
    }
  }

  // ---------------------------------------------------------------------------------------
  // Aggregation.

  /** The predicates give the same answer on all rows of a group. */
  ghost predicate RespectsKeys(es: seq<Expr>, keys: seq<ColumnId>) {
    forall a: Row, b: Row :: KeyOf(keys, a) == KeyOf(keys, b) ==> AllHold(es, a) == AllHold(es, b)
  }

  lemma RepresentedExactly(keys: seq<ColumnId>, rows: seq<Row>, row: Row)
    requires row in rows
    ensures Represented(keys, Representatives(keys, rows), row)
  {
    var last, init := rows[|rows| - 1], rows[..|rows| - 1];
    var reps := Representatives(keys, init);
    if row in init {
      RepresentedExactly(keys, init, row);
      var i :| 0 <= i < |reps| && KeyOf(keys, reps[i]) == KeyOf(keys, row);
      assert Representatives(keys, rows)[i] == reps[i];
    } else {
      assert row == last;
      if !Represented(keys, reps, last) {
        assert Representatives(keys, rows)[|reps|] == last;
      }
    }
  }

  /** Filtering by a predicate on keys drops whole groups and keeps the order of the others. */
  lemma {:induction false} KeepRepresentatives(es: seq<Expr>, keys: seq<ColumnId>, rows: seq<Row>)
    requires RespectsKeys(es, keys)
    ensures Keep(es, Representatives(keys, rows)) == Representatives(keys, Keep(es, rows))
  {
    if rows != [] {
      var last, init := rows[|rows| - 1], rows[..|rows| - 1];
      var reps := Representatives(keys, init);
      KeepRepresentatives(es, keys, init);
      SelectLast(Holding(es), reps, last);
      if AllHold(es, last) {
        KeptRepresented(es, keys, reps, last);
        assert Keep(es, rows) == Keep(es, init) + [last];
        assert (Keep(es, init) + [last])[..|Keep(es, init)|] == Keep(es, init);
      }
    }
  }

  lemma KeptRepresented(es: seq<Expr>, keys: seq<ColumnId>, reps: seq<Row>, row: Row)
    requires RespectsKeys(es, keys) && AllHold(es, row)
    ensures Represented(keys, Keep(es, reps), row) <==> Represented(keys, reps, row)
  {
    if Represented(keys, reps, row) {
      var i :| 0 <= i < |reps| && KeyOf(keys, reps[i]) == KeyOf(keys, row);
      assert AllHold(es, reps[i]);
      SelectKeepsMembers(Holding(es), reps, reps[i]);
      var j :| 0 <= j < |Keep(es, reps)| && Keep(es, reps)[j] == reps[i];
    }
    if Represented(keys, Keep(es, reps), row) {
      var j :| 0 <= j < |Keep(es, reps)| && KeyOf(keys, Keep(es, reps)[j]) == KeyOf(keys, row);
      assert Keep(es, reps)[j] in reps;
    }
  }

  lemma KeepMembers(es: seq<Expr>, keys: seq<ColumnId>, rep: Row, rows: seq<Row>)
    requires RespectsKeys(es, keys) && AllHold(es, rep)
    ensures Members(keys, KeyOf(keys, rep), Keep(es, rows)) == Members(keys, KeyOf(keys, rep), rows)
  {
    var inGroup := HavingKey(keys, KeyOf(keys, rep));
    SelectSelect(inGroup, Holding(es), inGroup, rows);
  }

  lemma KeepSummaries(es: seq<Expr>, keys: seq<ColumnId>, aggs: seq<AggregateSpec>, rows: seq<Row>, kept: seq<Row>)
    requires RespectsKeys(es, keys) && forall rep <- kept :: AllHold(es, rep)
    ensures Map(Summarizing(keys, aggs, rows), kept) == Map(Summarizing(keys, aggs, Keep(es, rows)), kept)
  {
    forall i | 0 <= i < |kept|
      ensures Summarizing(keys, aggs, rows)(kept[i]) == Summarizing(keys, aggs, Keep(es, rows))(kept[i])
    {
      KeepMembers(es, keys, kept[i], rows);
    }
  }

  /** A predicate on grouping keys may be applied before the aggregation. */
  lemma KeepAggregate(es: seq<Expr>, keys: seq<ColumnId>, aggs: seq<AggregateSpec>, rows: seq<Row>)
    requires keys != [] && RespectsKeys(es, keys)
    requires forall rep, members :: AllHold(es, AggregateRow(keys, aggs, rep, members)) == AllHold(es, rep)
    ensures Keep(es, AggregateRows(keys, aggs, rows)) == AggregateRows(keys, aggs, Keep(es, rows))
  {
    var reps := Representatives(keys, rows);
    SelectMap(Holding(es), Holding(es), Summarizing(keys, aggs, rows), reps);
    KeepRepresentatives(es, keys, rows);
    KeepSummaries(es, keys, aggs, rows, Keep(es, reps));
  }

  // ---------------------------------------------------------------------------------------
  // Projection.

  /** Every row keeps its answer when the predicate is asked before the projection. */
  lemma KeepProject(e: Expr, f: Expr, xs: seq<NamedExpr>, rows: seq<Row>)
    requires forall row <- rows :: Holds(e, ProjectRow(xs, row)) == Holds(f, row)
    ensures Keep([e], Map(Projecting(xs), rows)) == Map(Projecting(xs), Keep([f], rows))
  {
    SelectMap(Holding([e]), Holding([f]), Projecting(xs), rows);
  }
}
