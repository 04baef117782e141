/** What the order of a sorted list is, key by key, and that ties keep their places. */
module SortLaws {
  import opened Values
  import opened Expressions
  import opened Sequences
  import opened Relations
  import opened RelationLaws
  import opened RowStore
  import opened SortLists

  /** NULL comes before a value exactly under nulls-first; values follow the direction of the key. */
  predicate InKeyOrder(k: SortKey, x: Value, y: Value) {
    && (x.Null? && !y.Null? ==> k.nullsFirst)
    && (!x.Null? && y.Null? ==> !k.nullsFirst)
    && (!x.Null? && !y.Null? && k.ascending ==> CompareCell(x, y) <= 0)
    && (!x.Null? && !y.Null? && !k.ascending ==> CompareCell(x, y) >= 0)
  }

  lemma KeyOrder(k: SortKey, x: Value, y: Value)
    ensures CompareSortCells(k, x, y) <= 0 <==> InKeyOrder(k, x, y)
    ensures CompareSortCells(k, x, y) == 0 <==> Canon(x) == Canon(y)
  {
    CompareEqualIsCanon(x, y);
  }

  /** The cells of two rows in one sort column are of one key class. */
  predicate Tied(keys: seq<SortKey>, a: Row, b: Row, m: nat)
    requires m < |keys|
  {
    Canon(Cell(a, keys[m].column)) == Canon(Cell(b, keys[m].column))
  }

  /** The first key that tells two rows apart decides; keys that are tied leave it to the next. */
  lemma {:induction false} NextKeyDecides(keys: seq<SortKey>, a: Row, b: Row, k: nat)
    requires CompareRows(keys, a, b) <= 0 && k < |keys| && forall m :: 0 <= m < k ==> Tied(keys, a, b, m)
    ensures InKeyOrder(keys[k], Cell(a, keys[k].column), Cell(b, keys[k].column))
  {
    var x, y := Cell(a, keys[0].column), Cell(b, keys[0].column);
    KeyOrder(keys[0], x, y);
    if k > 0 {
      assert Tied(keys, a, b, 0);
      forall m | 0 <= m < k - 1 ensures Tied(keys[1..], a, b, m) {
        assert Tied(keys, a, b, m + 1);
      }
      NextKeyDecides(keys[1..], a, b, k - 1);
    }
  }

  /** Any two rows of the sorted list are in the order of the first key they are not tied on. */
  lemma SortedByKeys(keys: seq<SortKey>, rows: seq<Row>, i: nat, j: nat, k: nat)
    requires i < j < |rows| && k < |keys|
    requires forall m :: 0 <= m < k ==> Tied(keys, SortRows(keys, rows)[i], SortRows(keys, rows)[j], m)
    ensures var a, b := SortRows(keys, rows)[i], SortRows(keys, rows)[j];
      InKeyOrder(keys[k], Cell(a, keys[k].column), Cell(b, keys[k].column))
  {
    RowOrderIsTotal(keys);
    StableSortSorted(RowOrder(keys), rows);
    var a, b := SortRows(keys, rows)[i], SortRows(keys, rows)[j];
    assert RowOrder(keys)(a, b) <= 0;
    NextKeyDecides(keys, a, b, k);
  }

  // ---------------------------------------------------------------------------------------
  // The sort operator.

  predicate TuplesTied(shape: SortShape, a: Tuple, b: Tuple, m: nat)
    requires m < |shape.keys| == |shape.indices|
  {
    Canon(CellOf(a, shape.indices[m])) == Canon(CellOf(b, shape.indices[m]))
  }

  lemma {:induction false} NextIndexDecides(shape: SortShape, n: nat, a: Tuple, b: Tuple, k: nat)
    requires |shape.keys| == |shape.indices| && n <= k < |shape.keys| && CompareFrom(shape, n, a, b) <= 0
    requires forall m :: n <= m < k ==> TuplesTied(shape, a, b, m)
    ensures InKeyOrder(shape.keys[k], CellOf(a, shape.indices[k]), CellOf(b, shape.indices[k]))
    decreases k - n
  {
    KeyOrder(shape.keys[n], CellOf(a, shape.indices[n]), CellOf(b, shape.indices[n]));
    if n < k {
      assert TuplesTied(shape, a, b, n);
      NextIndexDecides(shape, n + 1, a, b, k);
    }
  }

  /** The same of the rows the operator emits, by the positions of their sort columns. */
  lemma EmittedByKeys(shape: SortShape, rows: seq<Tuple>, i: nat, j: nat, k: nat)
    requires |shape.keys| == |shape.indices| && i < j < |rows| && k < |shape.keys|
    requires forall m :: 0 <= m < k ==> TuplesTied(shape, SortTuples(shape, rows)[i], SortTuples(shape, rows)[j], m)
    ensures var a, b := SortTuples(shape, rows)[i], SortTuples(shape, rows)[j];
      InKeyOrder(shape.keys[k], CellOf(a, shape.indices[k]), CellOf(b, shape.indices[k]))
  {
    TupleOrderIsTotal(shape);
    StableSortSorted(TupleOrder(shape), rows);
    var a, b := SortTuples(shape, rows)[i], SortTuples(shape, rows)[j];
    assert TupleOrder(shape)(a, b) <= 0;
    NextIndexDecides(shape, 0, a, b, k);
  }

  // ---------------------------------------------------------------------------------------
  // Ties.

  lemma {:induction false} SortOfTies<T(!new)>(cmp: Comparison<T>, s: seq<T>)
    requires forall x <- s, y <- s :: cmp(x, y) == 0
    ensures StableSort(cmp, s) == s
  {
    if s != [] {
      SortOfTies(cmp, s[..|s| - 1]);
      assert s == s[..|s| - 1] + [s[|s| - 1]];
    }
  }

  function TiedWith(shape: SortShape, t: Tuple): Tuple -> bool {
    (u: Tuple) => CompareFrom(shape, 0, t, u) == 0
  }

  lemma TiedTogether(shape: SortShape, t: Tuple, a: Tuple, b: Tuple)
    requires TiedWith(shape, t)(a) && TiedWith(shape, t)(b)
    ensures TupleOrder(shape)(a, b) == 0
  {
    TuplesOpposite(shape, 0, t, a);
    TuplesOpposite(shape, 0, t, b);
    TuplesOpposite(shape, 0, a, b);
    TuplesTransitive(shape, 0, a, t, b);
    TuplesTransitive(shape, 0, b, t, a);
  }

  /** Rows that are tied on every key are emitted in the order they came in. */
  lemma TiesKeepTheirOrder(shape: SortShape, rows: seq<Tuple>, t: Tuple)
    ensures Select(TiedWith(shape, t), SortTuples(shape, rows)) == Select(TiedWith(shape, t), rows)
  {
    var tied := Select(TiedWith(shape, t), rows);
    TupleOrderIsTotal(shape);
    SelectSort(TiedWith(shape, t), TupleOrder(shape), rows);
    forall a, b | a in tied && b in tied ensures TupleOrder(shape)(a, b) == 0 {
      TiedTogether(shape, t, a, b);
    }
    SortOfTies(TupleOrder(shape), tied);
  }
}
