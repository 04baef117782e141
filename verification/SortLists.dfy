/** The sort operator's comparator over positional rows, and the list it produces. */
module SortLists {
  import opened Values
  import opened Sequences
  import opened Relations
  import opened RelationLaws
  import opened Batches
  import opened RowStore

  /** The sort keys, and the positions of their columns. */
  datatype SortShape = SortShape(keys: seq<SortKey>, indices: seq<nat>)

  function CompareFrom(shape: SortShape, k: nat, a: Tuple, b: Tuple): int
    decreases |shape.keys| - k
  {
    if k >= |shape.keys| || k >= |shape.indices| then 0 else
      var c := CompareSortCells(shape.keys[k], CellOf(a, shape.indices[k]), CellOf(b, shape.indices[k]));
      if c != 0 then c else CompareFrom(shape, k + 1, a, b)
  }

  function TupleOrder(shape: SortShape): Comparison<Tuple> {
    (a: Tuple, b: Tuple) => CompareFrom(shape, 0, a, b)
  }

  function SortTuples(shape: SortShape, rows: seq<Tuple>): seq<Tuple> {
    StableSort(TupleOrder(shape), rows)
  }

  lemma {:induction false} TuplesOpposite(shape: SortShape, k: nat, a: Tuple, b: Tuple)
    ensures CompareFrom(shape, k, a, b) == -CompareFrom(shape, k, b, a)
    decreases |shape.keys| - k
  {
    if k < |shape.keys| && k < |shape.indices| {
      SortCellsOpposite(shape.keys[k], CellOf(a, shape.indices[k]), CellOf(b, shape.indices[k]));
      TuplesOpposite(shape, k + 1, a, b);
    }
  }

  lemma {:induction false} TuplesTransitive(shape: SortShape, k: nat, a: Tuple, b: Tuple, c: Tuple)
    requires CompareFrom(shape, k, a, b) <= 0 && CompareFrom(shape, k, b, c) <= 0
    ensures CompareFrom(shape, k, a, c) <= 0
    decreases |shape.keys| - k
  {
    if k < |shape.keys| && k < |shape.indices| {
      var i := shape.indices[k];
      SortCellsTransitive(shape.keys[k], CellOf(a, i), CellOf(b, i), CellOf(c, i));
      if CompareSortCells(shape.keys[k], CellOf(a, i), CellOf(c, i)) == 0 {
        TuplesTransitive(shape, k + 1, a, b, c);
      }
    }
  }

  /** The comparator handed to the stable sort is a strict weak order. */
  lemma TupleOrderIsTotal(shape: SortShape)
    ensures TotalPreorder(TupleOrder(shape))
  {
    var cmp := TupleOrder(shape);
    forall a, b ensures Opposite(cmp, a, b) {
      TuplesOpposite(shape, 0, a, b);
    }
    forall a, b, c ensures Transitive(cmp, a, b, c) {
      if CompareFrom(shape, 0, a, b) <= 0 && CompareFrom(shape, 0, b, c) <= 0 {
        TuplesTransitive(shape, 0, a, b, c);
      }
    }
  }

  // ---------------------------------------------------------------------------------------
  // Emission.

  /** The rows at the positions from a cursor on. */
  function EmitFrom(rows: seq<Tuple>, order: seq<nat>, cursor: nat): seq<Tuple>
    requires Within(order, |rows|)
  {
    if cursor > |order| then [] else Gather(rows, order)[cursor..]
  }

  lemma EmitStep(rows: seq<Tuple>, order: seq<nat>, cursor: nat)
    requires Within(order, |rows|) && cursor < |order|
    ensures order[cursor] < |rows|
    ensures Splits(EmitFrom(rows, order, cursor), [rows[order[cursor]]], EmitFrom(rows, order, cursor + 1))
  {
  }

  lemma EmitOver(rows: seq<Tuple>, order: seq<nat>, cursor: nat)
    requires Within(order, |rows|) && cursor >= |order|
    ensures EmitFrom(rows, order, cursor) == []
  {
  }

  /** Some order of the row ids that is sorted with ties in place: what the library's stable sort promises. */
  method StablySort(shape: SortShape, rows: seq<Tuple>) returns (order: seq<nat>)
    ensures StableOrder(TupleOrder(shape), rows, order)
  {
    order := SortedIds(TupleOrder(shape), rows, |rows|);
    TupleOrderIsTotal(shape);
    StableSortIsUnique(TupleOrder(shape), rows, order);
  }

  /** Emitting the positions of any stable order yields the stable sort of the rows. */
  lemma EmitSorted(shape: SortShape, rows: seq<Tuple>, order: seq<nat>)
    requires StableOrder(TupleOrder(shape), rows, order)
    ensures Within(order, |rows|) && EmitFrom(rows, order, 0) == SortTuples(shape, rows)
  {
    TupleOrderIsTotal(shape);
    StableSortIsUnique(TupleOrder(shape), rows, order);
  }
}
