/** Filters and joins on equality, told by the comparison of expressions: a join is a filtered product. */
module EqualityLaws {
  import opened Values
  import opened Expressions
  import opened Sequences
  import opened Relations
  import opened Plans
  import opened RowStore
  import opened OperatorLists
  import Lists = JoinLists
  import opened CellLaws

  // ---------------------------------------------------------------------------------------
  // Filters.

  function HavingCell(s: Schema, id: ColumnId, v: Value): Tuple -> bool {
    (t: Tuple) => JoinableCell(v) && Canon(Cell(ToRow(s, t), id)) == Canon(v)
  }

  /** A filter on `column = literal` keeps exactly the rows with a cell of the literal's key class. */
  lemma EqualityFilter(s: Schema, id: ColumnId, v: Value, t: Type, rows: seq<Tuple>)
    ensures FilterTuples(s, Binary(Compare(Equal), Column(id), Literal(v, t)), rows)
         == Select(HavingCell(s, id, v), rows)
  {
    var e := Binary(Compare(Equal), Column(id), Literal(v, t));
    forall row | row in rows ensures Passing(s, e)(row) == HavingCell(s, id, v)(row) {
      EqualIsKeyClass(Cell(ToRow(s, row), id), v);
      assert Eval(e.left, ToRow(s, row)) == Cell(ToRow(s, row), id) && Eval(e.right, ToRow(s, row)) == v;
    }
    SelectSame(Passing(s, e), HavingCell(s, id, v), rows);
  }

  // ---------------------------------------------------------------------------------------
  // Joins of named rows.

  /** The equations of a join, one for each pair of keys. */
  function KeyEquations(lk: seq<ColumnId>, rk: seq<ColumnId>): (es: seq<Expr>)
    requires |lk| == |rk|
    ensures |es| == |lk|
    ensures forall i :: 0 <= i < |es| ==> es[i] == Binary(Compare(Equal), Column(lk[i]), Column(rk[i]))
  {
    seq(|lk|, i requires 0 <= i < |lk| => Binary(Compare(Equal), Column(lk[i]), Column(rk[i])))
  }

  /** No left key is a column of the right row, nor a right key one of the left row. */
  ghost predicate KeysApart(lk: seq<ColumnId>, rk: seq<ColumnId>, l: Row, r: Row) {
    KeySet(lk) !! r.Keys && KeySet(rk) !! l.Keys
  }

  lemma EquationMeaning(lk: seq<ColumnId>, rk: seq<ColumnId>, l: Row, r: Row, i: nat)
    requires |lk| == |rk| && KeysApart(lk, rk, l, r) && i < |lk|
    ensures Holds(KeyEquations(lk, rk)[i], l + r)
       <==> JoinableCell(Cell(l, lk[i])) && JoinableCell(Cell(r, rk[i])) && KeyOf(lk, l)[i] == KeyOf(rk, r)[i]
  {
    assert lk[i] in KeySet(lk) && rk[i] in KeySet(rk);
    EqualIsKeyClass(Cell(l, lk[i]), Cell(r, rk[i]));
    assert Eval(Column(lk[i]), l + r) == Cell(l, lk[i]) && Eval(Column(rk[i]), l + r) == Cell(r, rk[i]);
  }

  /** Two rows match exactly when every equation is TRUE on the two of them together. */
  lemma MatchingIsEquality(lk: seq<ColumnId>, rk: seq<ColumnId>, l: Row, r: Row)
    requires |lk| == |rk| && KeysApart(lk, rk, l, r)
    ensures Matching(lk, rk, l, r)
       <==> forall i :: 0 <= i < |lk| ==> Eval(Binary(Compare(Equal), Column(lk[i]), Column(rk[i])), l + r) == TRUE
    ensures Matching(lk, rk, l, r) <==> AllHold(KeyEquations(lk, rk), l + r)
  {
    var es := KeyEquations(lk, rk);
    forall i | 0 <= i < |lk|
      ensures Holds(es[i], l + r)
         <==> JoinableCell(Cell(l, lk[i])) && JoinableCell(Cell(r, rk[i])) && KeyOf(lk, l)[i] == KeyOf(rk, r)[i]
    {
      EquationMeaning(lk, rk, l, r, i);
    }
    hide JoinableCell;
    if forall i :: 0 <= i < |lk| ==> Holds(es[i], l + r) {
      assert KeyOf(lk, l) == KeyOf(rk, r);
    }
    assert AllHold(es, l + r) <==> forall i :: 0 <= i < |lk| ==> Holds(es[i], l + r);
  }

  /** Every left row with every right row, left-major. */
  function Product(left: seq<Row>, right: seq<Row>): seq<Row> {
    if left == [] then [] else Product(left[..|left| - 1], right) + Map(Pairing(left[|left| - 1]), right)
  }

  /** A join is the product of its inputs, filtered by its equations. */
  lemma {:induction false} JoinIsFilteredProduct(lk: seq<ColumnId>, rk: seq<ColumnId>, left: seq<Row>, right: seq<Row>)
    requires |lk| == |rk| && forall l <- left, r <- right :: KeysApart(lk, rk, l, r)
    ensures JoinRows(lk, rk, left, right) == Keep(KeyEquations(lk, rk), Product(left, right))
  {
    if left != [] {
      var l, init, es := left[|left| - 1], left[..|left| - 1], KeyEquations(lk, rk);
      JoinIsFilteredProduct(lk, rk, init, right);
      forall r | r in right ensures Holding(es)(Pairing(l)(r)) == MatchingWith(lk, rk, l)(r) {
        assert l in left;
        MatchingIsEquality(lk, rk, l, r);
      }
      SelectMap(Holding(es), MatchingWith(lk, rk, l), Pairing(l), right);
      SelectAppend(Holding(es), Product(init, right), Map(Pairing(l), right));
    }
  }

  lemma ColumnsApart(lk: seq<ColumnId>, rk: seq<ColumnId>, ls: Schema, rs: Schema, l: Row, r: Row)
    requires JoinKeysOk(lk, rk, Types(ls), Types(rs)) && UniqueIds(ls + rs)
    requires RowHasTypes(l, Types(ls)) && RowHasTypes(r, Types(rs))
    ensures KeysApart(lk, rk, l, r)
  {
    IdsAppend(ls, rs);
    forall id | id in KeySet(lk) ensures id !in r {
      var i :| 0 <= i < |lk| && lk[i] == id;
      LookupAppend(ls, rs, id);
    }
    forall id | id in KeySet(rk) ensures id !in l {
      var i :| 0 <= i < |rk| && rk[i] == id;
      LookupAppend(ls, rs, id);
    }
  }

  /** What a well-formed join denotes. */
  lemma JoinPlanMeaning(l: Plan, r: Plan, lk: seq<ColumnId>, rk: seq<ColumnId>)
    requires WellFormed(Join(l, r, lk, rk))
    ensures |lk| == |rk| && Rows(Join(l, r, lk, rk)) == Keep(KeyEquations(lk, rk), Product(Rows(l), Rows(r)))
  {
    RowsTyped(l);
    RowsTyped(r);
    forall a, b | a in Rows(l) && b in Rows(r) ensures KeysApart(lk, rk, a, b) {
      ColumnsApart(lk, rk, SchemaOf(l), SchemaOf(r), a, b);
    }
    JoinIsFilteredProduct(lk, rk, Rows(l), Rows(r));
  }

  // ---------------------------------------------------------------------------------------
  // The hash join of positional rows.

  /** Every key of the probe row is equal to the one of the build row. */
  predicate KeysEqual(shape: Lists.JoinShape, p: Tuple, b: Tuple)
    requires |shape.buildKeys| == |shape.probeKeys|
  {
    forall i :: 0 <= i < |shape.probeKeys| ==>
      CompareValues(Equal, CellOf(p, shape.probeKeys[i]), CellOf(b, shape.buildKeys[i])) == TRUE
  }

  lemma MatchesAreEqual(shape: Lists.JoinShape, p: Tuple, b: Tuple)
    requires |shape.buildKeys| == |shape.probeKeys|
    ensures Lists.Matches(shape, p, b) <==> KeysEqual(shape, p, b)
  {
    var pk, bk := shape.probeKeys, shape.buildKeys;
    forall i | 0 <= i < |pk|
      ensures IsTrue(Equal, CellOf(p, pk[i]), CellOf(b, bk[i]))
         <==> (JoinableCell(CellOf(p, pk[i])) && JoinableCell(CellOf(b, bk[i]))
               && TupleKey(pk, p)[i] == TupleKey(bk, b)[i])
    {
      EqualIsKeyClass(CellOf(p, pk[i]), CellOf(b, bk[i]));
    }
    hide JoinableCell;
    hide CompareValues;
    if KeysEqual(shape, p, b) {
      forall i | 0 <= i < |pk| ensures IsTrue(Equal, CellOf(p, pk[i]), CellOf(b, bk[i])) {
      }
      assert TupleKey(pk, p) == TupleKey(bk, b);
    }
    if Lists.Matches(shape, p, b) {
      forall i | 0 <= i < |pk| ensures IsTrue(Equal, CellOf(p, pk[i]), CellOf(b, bk[i])) {
        assert TupleKey(pk, p)[i] == TupleKey(bk, b)[i];
      }
    }
  }

  function EqualTo(shape: Lists.JoinShape, p: Tuple): Tuple -> bool
    requires |shape.buildKeys| == |shape.probeKeys|
  {
    (b: Tuple) => KeysEqual(shape, p, b)
  }

  /** For every probe row in turn, the build rows with equal keys, paired with it. */
  function EqualPairs(shape: Lists.JoinShape, build: seq<Tuple>, probe: seq<Tuple>): seq<Tuple>
    requires |shape.buildKeys| == |shape.probeKeys|
  {
    if probe == [] then [] else
      var p := probe[|probe| - 1];
      EqualPairs(shape, build, probe[..|probe| - 1]) + Map(Lists.Pairing(shape, p), Select(EqualTo(shape, p), build))
  }

  /** The hash join produces the product of its inputs filtered by the equality of all keys. */
  lemma {:induction false} HashJoinIsFilteredProduct(shape: Lists.JoinShape, build: seq<Tuple>, probe: seq<Tuple>)
    requires |shape.buildKeys| == |shape.probeKeys|
    ensures Lists.JoinTuples(shape, build, probe) == EqualPairs(shape, build, probe)
  {
    if probe != [] {
      var p := probe[|probe| - 1];
      HashJoinIsFilteredProduct(shape, build, probe[..|probe| - 1]);
      Lists.PairsAreSelected(shape, build, p, 0);
      assert build[0..] == build;
      forall b | b in build ensures Lists.Matching(shape, p)(b) == EqualTo(shape, p)(b) {
        MatchesAreEqual(shape, p, b);
      }
      SelectSame(Lists.Matching(shape, p), EqualTo(shape, p), build);
    }
  }
}
