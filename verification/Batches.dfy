/**
 Column batches as operators see them: vectors of payloads with validity, a selection of active
 rows, and the rows they stand for. A payload under an invalid bit has no meaning.
 */
module Batches {
  import opened Values
  import opened Sequences
  import opened Relations

  datatype Vector = Vector(typ: Type, data: seq<Value>, valid: seq<bool>) {
    predicate Valid() {
      && |data| == |valid|
      && forall i :: 0 <= i < |data| ==> !data[i].Null? && HasType(data[i], typ)
    }

    function CellAt(i: nat): Value {
      if i < |data| && i < |valid| && valid[i] then data[i] else Null
    }

    /** Copies one stored row of another vector, payload and validity. */
    function AppendFrom(source: Vector, row: nat): Vector {
      if row < |source.data| && row < |source.valid|
      then Vector(typ, data + [source.data[row]], valid + [source.valid[row]])
      else this
    }

    /** Copies consecutive stored rows of another vector. */
    function AppendRange(source: Vector, start: nat, count: nat): Vector {
      if start + count <= |source.data| && start + count <= |source.valid|
      then Vector(typ, data + source.data[start..start + count], valid + source.valid[start..start + count])
      else this
    }

    function AppendValue(v: Value): Vector {
      Vector(typ, data + [if v.Null? then DefaultPayload(typ) else v], valid + [!v.Null?])
    }
  }

  /** Copies rows one by one. */
  function AppendRows(v: Vector, source: Vector, start: nat, count: nat): Vector {
    if count == 0 then v else AppendRows(v, source, start, count - 1).AppendFrom(source, start + count - 1)
  }

  /** Copying a range is copying its rows one by one. */
  lemma {:induction false} RangeIsRowByRow(v: Vector, source: Vector, start: nat, count: nat)
    requires |source.data| == |source.valid| && start + count <= |source.data|
    ensures v.AppendRange(source, start, count) == AppendRows(v, source, start, count)
  {
    if count > 0 {
      RangeIsRowByRow(v, source, start, count - 1);
      var last := start + count - 1;
      assert source.data[start..start + count] == source.data[start..last] + [source.data[last]];
      assert source.valid[start..start + count] == source.valid[start..last] + [source.valid[last]];
    }
  }

  /** The payload stored under an invalid bit. */
  function DefaultPayload(typ: Type): Value {
    match typ
    case BooleanType => Bool(false)
    case Int64Type => Int(0)
    case DoubleType => Dbl(Zero(false))
    case StringType => Str([])
  }

  /** Active rows: the identity on a prefix, or explicit physical rows. */
  datatype Selection = Dense(size: nat) | Sparse(indices: seq<nat>) {
    function Size(): nat {
      if Dense? then size else |indices|
    }

    function At(j: nat): nat {
      if Sparse? && j < |indices| then indices[j] else j
    }

    function Truncate(n: nat): Selection
      requires n <= Size()
    {
      if Dense? then Dense(n) else Sparse(indices[..n])
    }
  }

  predicate ColumnOk(columns: seq<Vector>, types: seq<Type>, rows: nat, c: nat)
    requires c < |columns| == |types|
  {
    columns[c].Valid() && columns[c].typ == types[c] && |columns[c].data| == rows
  }

  predicate ColumnsOk(columns: seq<Vector>, types: seq<Type>, rows: nat) {
    && |columns| == |types|
    && forall c :: 0 <= c < |columns| ==> ColumnOk(columns, types, rows, c)
  }

  function TupleAt(columns: seq<Vector>, row: nat): (t: Tuple)
    ensures |t| == |columns| && forall c :: 0 <= c < |t| ==> t[c] == columns[c].CellAt(row)
  {
    seq(|columns|, c requires 0 <= c < |columns| => columns[c].CellAt(row))
  }

  /** The first rows of a set of columns. */
  function Tuples(columns: seq<Vector>, rows: nat): (ts: seq<Tuple>)
    ensures |ts| == rows && forall i :: 0 <= i < rows ==> ts[i] == TupleAt(columns, i)
  {
    seq(rows, i requires 0 <= i < rows => TupleAt(columns, i))
  }

  datatype Batch = Batch(columns: seq<Vector>, selection: Selection, physicalSize: nat) {
    predicate Valid(types: seq<Type>) {
      && ColumnsOk(columns, types, physicalSize)
      && forall j :: 0 <= j < selection.Size() ==> selection.At(j) < physicalSize
    }

    /** The active rows, in selection order. */
    function Active(): (ts: seq<Tuple>)
      ensures |ts| == selection.Size()
      ensures forall j :: 0 <= j < |ts| ==> ts[j] == TupleAt(columns, selection.At(j))
    {
      seq(selection.Size(), j requires 0 <= j < selection.Size() => TupleAt(columns, selection.At(j)))
    }
  }

  function EmptyColumns(types: seq<Type>): (columns: seq<Vector>)
    ensures ColumnsOk(columns, types, 0)
  {
    seq(|types|, c requires 0 <= c < |types| => Vector(types[c], [], []))
  }

  /** A batch whose n rows are all active. */
  function DenseBatch(columns: seq<Vector>, n: nat): Batch {
    Batch(columns, Dense(n), n)
  }

  /** Appends one row of some source columns to the columns from an offset on. */
  method AppendColumns(columns: seq<Vector>, offset: nat, source: seq<Vector>, row: nat)
    returns (r: seq<Vector>)
    requires offset + |source| <= |columns|
    ensures |r| == |columns|
    ensures forall c :: 0 <= c < |r| ==>
      r[c] == if offset <= c < offset + |source| then columns[c].AppendFrom(source[c - offset], row) else columns[c]
  {
    r := columns;
    for k := 0 to |source|
      invariant |r| == |columns|
      invariant forall c :: 0 <= c < |r| ==>
        r[c] == if offset <= c < offset + k then columns[c].AppendFrom(source[c - offset], row) else columns[c]
    {
      r := r[offset + k := r[offset + k].AppendFrom(source[k], row)];
    }
  }

  lemma AppendedCells(v: Vector, n: nat, source: Vector, size: nat, row: nat)
    requires v.Valid() && |v.data| == n && source.Valid() && |source.data| == size && row < size
    requires source.typ == v.typ
    ensures v.AppendFrom(source, row).Valid() && |v.AppendFrom(source, row).data| == n + 1
    ensures v.AppendFrom(source, row).CellAt(n) == source.CellAt(row)
    ensures forall i :: 0 <= i < n ==> v.AppendFrom(source, row).CellAt(i) == v.CellAt(i)
  {
  }

  /** The columns hold exactly these rows. */
  ghost predicate Stores(columns: seq<Vector>, types: seq<Type>, rows: seq<Tuple>) {
    ColumnsOk(columns, types, |rows|) && Tuples(columns, |rows|) == rows
  }

  lemma StoredTuples(columns: seq<Vector>, types: seq<Type>, rows: seq<Tuple>)
    requires Stores(columns, types, rows)
    ensures Tuples(columns, |rows|) == rows
  {
  }

  lemma EmptyStores(types: seq<Type>)
    ensures Stores(EmptyColumns(types), types, [])
  {
  }

  /** Columns to which every column of the source was appended hold one more row. */
  lemma AppendedTuple(columns: seq<Vector>, types: seq<Type>, rows: seq<Tuple>, more: seq<Vector>,
                      source: seq<Vector>, size: nat, row: nat)
    requires Stores(columns, types, rows) && ColumnsOk(source, types, size) && row < size
    requires |more| == |columns|
    requires forall c :: 0 <= c < |more| ==> more[c] == columns[c].AppendFrom(source[c], row)
    ensures Stores(more, types, rows + [TupleAt(source, row)])
  {
    var n := |rows|;
    forall c | 0 <= c < |more|
      ensures ColumnOk(more, types, n + 1, c)
      ensures more[c].CellAt(n) == source[c].CellAt(row)
      ensures forall i :: 0 <= i < n ==> more[c].CellAt(i) == columns[c].CellAt(i)
    {
      assert ColumnOk(columns, types, n, c) && ColumnOk(source, types, size, c);
      AppendedCells(columns[c], n, source[c], size, row);
    }
    forall i | 0 <= i < n ensures TupleAt(more, i) == rows[i] {
      assert TupleAt(more, i) == TupleAt(columns, i);
    }
    assert TupleAt(more, n) == TupleAt(source, row);
    assert Tuples(more, n + 1) == rows + [TupleAt(source, row)];
  }

  /** A row whose values fit the column types. */
  predicate TupleTyped(t: Tuple, types: seq<Type>) {
    |t| == |types| && forall c :: 0 <= c < |t| ==> HasType(t[c], types[c])
  }

  lemma TupleAtTyped(columns: seq<Vector>, types: seq<Type>, rows: nat, r: nat)
    requires ColumnsOk(columns, types, rows)
    ensures TupleTyped(TupleAt(columns, r), types)
  {
    forall c | 0 <= c < |columns| ensures HasType(columns[c].CellAt(r), types[c]) {
      assert ColumnOk(columns, types, rows, c);
    }
  }

  lemma AppendedValue(v: Vector, n: nat, x: Value)
    requires v.Valid() && |v.data| == n && HasType(x, v.typ)
    ensures v.AppendValue(x).Valid() && |v.AppendValue(x).data| == n + 1 && v.AppendValue(x).CellAt(n) == x
    ensures forall i :: 0 <= i < n ==> v.AppendValue(x).CellAt(i) == v.CellAt(i)
  {
  }

  /** A row put together from one row of some columns and a list of values. */
  lemma ValuesAppended(columns: seq<Vector>, rows: seq<Tuple>,
                       first: seq<Vector>, firstTypes: seq<Type>, firstSize: nat, firstRow: nat,
                       values: Tuple, valueTypes: seq<Type>, more: seq<Vector>)
    requires Stores(columns, firstTypes + valueTypes, rows) && |more| == |columns|
    requires ColumnsOk(first, firstTypes, firstSize) && firstRow < firstSize
    requires TupleTyped(values, valueTypes)
    requires forall c :: 0 <= c < |more| ==>
      more[c] == if c < |first| then columns[c].AppendFrom(first[c], firstRow)
                 else columns[c].AppendValue(values[c - |first|])
    ensures Stores(more, firstTypes + valueTypes, rows + [TupleAt(first, firstRow) + values])
  {
    var types, n := firstTypes + valueTypes, |rows|;
    var row := TupleAt(first, firstRow) + values;
    forall c | 0 <= c < |more|
      ensures ColumnOk(more, types, n + 1, c)
      ensures more[c].CellAt(n) == row[c]
      ensures forall i :: 0 <= i < n ==> more[c].CellAt(i) == columns[c].CellAt(i)
    {
      assert ColumnOk(columns, types, n, c);
      if c < |first| {
        assert ColumnOk(first, firstTypes, firstSize, c);
        AppendedCells(columns[c], n, first[c], firstSize, firstRow);
      } else {
        AppendedValue(columns[c], n, values[c - |first|]);
      }
    }
    forall i | 0 <= i < n ensures TupleAt(more, i) == rows[i] {
      assert TupleAt(more, i) == TupleAt(columns, i);
    }
    assert TupleAt(more, n) == row;
    assert Tuples(more, n + 1) == rows + [row];
  }

  /** Appends a list of values to the columns from an offset on. */
  method AppendValues(columns: seq<Vector>, offset: nat, values: Tuple) returns (r: seq<Vector>)
    requires offset + |values| <= |columns|
    ensures |r| == |columns|
    ensures forall c :: 0 <= c < |r| ==>
      r[c] == if offset <= c < offset + |values| then columns[c].AppendValue(values[c - offset]) else columns[c]
  {
    r := columns;
    for k := 0 to |values|
      invariant |r| == |columns|
      invariant forall c :: 0 <= c < |r| ==>
        r[c] == if offset <= c < offset + k then columns[c].AppendValue(values[c - offset]) else columns[c]
    {
      r := r[offset + k := r[offset + k].AppendValue(values[k])];
    }
  }

  lemma ColumnCounts(columns: seq<Vector>, types: seq<Type>, rows: seq<Tuple>,
                     source: seq<Vector>, sourceTypes: seq<Type>, size: nat)
    requires Stores(columns, types, rows) && ColumnsOk(source, sourceTypes, size)
    ensures |columns| == |types| && |source| == |sourceTypes|
  {
  }

  /** Appends one row of some columns followed by a list of values. */
  method AppendRowAndValues(columns: seq<Vector>, ghost rows: seq<Tuple>,
                            first: seq<Vector>, ghost firstTypes: seq<Type>, ghost firstSize: nat, firstRow: nat,
                            values: Tuple, ghost valueTypes: seq<Type>)
    returns (more: seq<Vector>)
    requires Stores(columns, firstTypes + valueTypes, rows)
    requires ColumnsOk(first, firstTypes, firstSize) && firstRow < firstSize
    requires TupleTyped(values, valueTypes)
    ensures Stores(more, firstTypes + valueTypes, rows + [TupleAt(first, firstRow) + values])
  {
    ColumnCounts(columns, firstTypes + valueTypes, rows, first, firstTypes, firstSize);
    hide Stores;
    hide ColumnsOk;
    hide Tuples;
    hide TupleAt;
    var half := AppendColumns(columns, 0, first, firstRow);
    more := AppendValues(half, |first|, values);
    ValuesAppended(columns, rows, first, firstTypes, firstSize, firstRow, values, valueTypes, more);
  }

  /** Rows put together from one row each of two sets of columns. */
  lemma PairAppended(columns: seq<Vector>, rows: seq<Tuple>,
                     first: seq<Vector>, firstTypes: seq<Type>, firstSize: nat, firstRow: nat,
                     second: seq<Vector>, secondTypes: seq<Type>, secondSize: nat, secondRow: nat, more: seq<Vector>)
    requires Stores(columns, firstTypes + secondTypes, rows) && |more| == |columns|
    requires ColumnsOk(first, firstTypes, firstSize) && firstRow < firstSize
    requires ColumnsOk(second, secondTypes, secondSize) && secondRow < secondSize
    requires forall c :: 0 <= c < |more| ==>
      more[c] == if c < |first| then columns[c].AppendFrom(first[c], firstRow)
                 else columns[c].AppendFrom(second[c - |first|], secondRow)
    ensures Stores(more, firstTypes + secondTypes, rows + [TupleAt(first, firstRow) + TupleAt(second, secondRow)])
  {
    var types, n := firstTypes + secondTypes, |rows|;
    var row := TupleAt(first, firstRow) + TupleAt(second, secondRow);
    forall c | 0 <= c < |more|
      ensures ColumnOk(more, types, n + 1, c)
      ensures more[c].CellAt(n) == row[c]
      ensures forall i :: 0 <= i < n ==> more[c].CellAt(i) == columns[c].CellAt(i)
    {
      assert ColumnOk(columns, types, n, c);
      if c < |first| {
        assert ColumnOk(first, firstTypes, firstSize, c);
        AppendedCells(columns[c], n, first[c], firstSize, firstRow);
      } else {
        assert ColumnOk(second, secondTypes, secondSize, c - |first|);
        AppendedCells(columns[c], n, second[c - |first|], secondSize, secondRow);
      }
    }
    forall i | 0 <= i < n ensures TupleAt(more, i) == rows[i] {
      assert TupleAt(more, i) == TupleAt(columns, i);
    }
    assert TupleAt(more, n) == row;
    assert Tuples(more, n + 1) == rows + [row];
  }

  /** Appends a row of one set of columns followed by a row of another. */
  method AppendPair(columns: seq<Vector>, ghost rows: seq<Tuple>,
                    first: seq<Vector>, ghost firstTypes: seq<Type>, ghost firstSize: nat, firstRow: nat,
                    second: seq<Vector>, ghost secondTypes: seq<Type>, ghost secondSize: nat, secondRow: nat)
    returns (more: seq<Vector>)
    requires Stores(columns, firstTypes + secondTypes, rows)
    requires ColumnsOk(first, firstTypes, firstSize) && firstRow < firstSize
    requires ColumnsOk(second, secondTypes, secondSize) && secondRow < secondSize
    ensures Stores(more, firstTypes + secondTypes, rows + [TupleAt(first, firstRow) + TupleAt(second, secondRow)])
  {
    ColumnCounts(columns, firstTypes + secondTypes, rows, first, firstTypes, firstSize);
    ColumnCounts(columns, firstTypes + secondTypes, rows, second, secondTypes, secondSize);
    hide Stores;
    hide ColumnsOk;
    hide Tuples;
    hide TupleAt;
    var half := AppendColumns(columns, 0, first, firstRow);
    more := AppendColumns(half, |first|, second, secondRow);
    PairAppended(columns, rows, first, firstTypes, firstSize, firstRow,
                 second, secondTypes, secondSize, secondRow, more);
  }

  /** A finished output batch shows the rows its columns hold. */
  lemma DenseShows(columns: seq<Vector>, types: seq<Type>, rows: seq<Tuple>)
    requires Stores(columns, types, rows)
    ensures DenseBatch(columns, |rows|).Valid(types) && DenseBatch(columns, |rows|).Active() == rows
  {
  }

  // ---------------------------------------------------------------------------------------
  // Streams.

  function Showing(): Batch -> seq<Tuple> {
    (b: Batch) => b.Active()
  }

  /** The rows of a list of batches, in order. */
  function StreamRows(batches: seq<Batch>): seq<Tuple> {
    Flatten(Map(Showing(), batches))
  }

  predicate ValidStream(batches: seq<Batch>, types: seq<Type>) {
    forall b <- batches :: b.Valid(types) && b.selection.Size() > 0
  }

  /** No batch has more active rows than the batch capacity. */
  predicate Bounded(batches: seq<Batch>, capacity: nat) {
    forall b <- batches :: b.selection.Size() <= capacity
  }

  lemma NoRows()
    ensures StreamRows([]) == []
  {
  }

  lemma StreamRowsFirst(b: Batch, pending: seq<Batch>)
    ensures StreamRows([b] + pending) == b.Active() + StreamRows(pending)
  {
    MapFirst(Showing(), b, pending);
    FlattenHead([b.Active()] + Map(Showing(), pending));
  }

  lemma StreamRowsLast(batches: seq<Batch>, b: Batch)
    ensures StreamRows(batches + [b]) == StreamRows(batches) + b.Active()
  {
    MapAppend(Showing(), batches, [b]);
    FlattenAppend(Map(Showing(), batches), [b.Active()]);
    FlattenOne(b.Active());
    assert Map(Showing(), [b]) == [b.Active()];
  }

  lemma StreamRowsHead(batches: seq<Batch>)
    requires batches != []
    ensures StreamRows(batches) == batches[0].Active() + StreamRows(batches[1..])
  {
    StreamRowsFirst(batches[0], batches[1..]);
    assert batches == [batches[0]] + batches[1..];
  }

  lemma BatchTyped(b: Batch, types: seq<Type>)
    requires b.Valid(types)
    ensures forall t <- b.Active() :: TupleTyped(t, types)
  {
    forall j | 0 <= j < |b.Active()| ensures TupleTyped(b.Active()[j], types) {
      TupleAtTyped(b.columns, types, b.physicalSize, b.selection.At(j));
    }
  }

  lemma {:induction false} StreamTyped(batches: seq<Batch>, types: seq<Type>)
    requires ValidStream(batches, types)
    ensures forall t <- StreamRows(batches) :: TupleTyped(t, types)
  {
    if batches != [] {
      StreamTyped(batches[1..], types);
      BatchTyped(batches[0], types);
      StreamRowsHead(batches);
    }
  }

  /**
   What one call of an operator delivers: true exactly while rows are left, with a non-empty batch
   of the next of them that fits the capacity; so false stays false.
   */
  ghost predicate Delivers(before: seq<Tuple>, ok: bool, out: Batch, after: seq<Tuple>,
                           types: seq<Type>, capacity: nat) {
    && (ok <==> before != [])
    && (ok ==> out.Valid(types) && 0 < out.selection.Size() <= capacity && Splits(before, out.Active(), after))
    && (!ok ==> after == [])
  }

  lemma DeliversRows(before: seq<Tuple>, out: Batch, after: seq<Tuple>, types: seq<Type>, capacity: nat)
    requires Delivers(before, true, out, after, types, capacity)
    ensures out.Valid(types) && 0 < out.selection.Size() <= capacity
    ensures Splits(before, out.Active(), after) && |after| < |before|
  {
  }

  lemma DeliversEnd(before: seq<Tuple>, out: Batch, after: seq<Tuple>, types: seq<Type>, capacity: nat)
    requires Delivers(before, false, out, after, types, capacity)
    ensures before == [] && after == []
  {
  }

  /** A non-empty batch of the next rows is a delivery. */
  lemma Delivered(before: seq<Tuple>, out: Batch, after: seq<Tuple>, types: seq<Type>, capacity: nat)
    requires out.Valid(types) && 0 < out.selection.Size() <= capacity && Splits(before, out.Active(), after)
    ensures Delivers(before, true, out, after, types, capacity)
  {
  }

  lemma NothingDelivered(out: Batch, types: seq<Type>, capacity: nat)
    ensures Delivers([], false, out, [], types, capacity)
  {
  }

  /** Columns filled with the next rows are a delivery, unless there are none. */
  lemma FilledDelivers(before: seq<Tuple>, columns: seq<Vector>, rows: seq<Tuple>, after: seq<Tuple>,
                       types: seq<Type>, capacity: nat)
    requires Stores(columns, types, rows) && Splits(before, rows, after) && |rows| <= capacity
    requires rows == [] ==> after == []
    ensures Delivers(before, rows != [], DenseBatch(columns, |rows|), after, types, capacity)
  {
    DenseShows(columns, types, rows);
  }

  /** Batches pulled so far, and the rows that are left. */
  ghost predicate Pulled(batches: seq<Batch>, types: seq<Type>, capacity: nat, all: seq<Tuple>, rest: seq<Tuple>) {
    ValidStream(batches, types) && Bounded(batches, capacity) && Splits(all, StreamRows(batches), rest)
  }

  lemma NothingPulled(types: seq<Type>, capacity: nat, all: seq<Tuple>)
    ensures Pulled([], types, capacity, all, all)
  {
    NoRows();
  }

  lemma PullStep(batches: seq<Batch>, types: seq<Type>, capacity: nat, all: seq<Tuple>, rest: seq<Tuple>,
                 b: Batch, later: seq<Tuple>)
    requires Pulled(batches, types, capacity, all, rest) && Splits(rest, b.Active(), later)
    requires b.Valid(types) && 0 < b.selection.Size() <= capacity
    ensures Pulled(batches + [b], types, capacity, all, later)
  {
    StreamRowsLast(batches, b);
    SplitMove(all, StreamRows(batches), b.Active(), rest, later);
  }

  lemma PulledAll(batches: seq<Batch>, types: seq<Type>, capacity: nat, all: seq<Tuple>)
    requires Pulled(batches, types, capacity, all, [])
    ensures ValidStream(batches, types) && Bounded(batches, capacity) && StreamRows(batches) == all
  {
  }
}
