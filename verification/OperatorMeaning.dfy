/** The operators on positional rows mean what the list semantics says on named rows. */
module OperatorMeaning {
  import opened Values
  import opened Expressions
  import opened Sequences
  import opened Aggregates
  import opened Relations
  import opened Plans
  import opened Batches
  import opened RowStore
  import opened ScanLists
  import opened OperatorLists
  import opened JoinLists
  import opened GroupLists
  import opened SortLists
  import opened PhysicalPlans

  predicate AllTuplesTyped(s: Schema, ts: seq<Tuple>) {
    forall i :: 0 <= i < |ts| ==> TupleTyped(ts[i], SchemaTypes(s))
  }

  function Named(s: Schema, ts: seq<Tuple>): seq<Row> {
    Map(Naming(s), ts)
  }

  lemma NamedCell(s: Schema, t: Tuple, id: ColumnId)
    requires id in Ids(s)
    ensures Cell(ToRow(s, t), id) == CellOf(t, ColumnIndex(s, id))
  {
  }

  lemma NamedAppend(s: Schema, a: seq<Tuple>, b: seq<Tuple>)
    ensures Named(s, a + b) == Named(s, a) + Named(s, b)
  {
    MapAppend(Naming(s), a, b);
  }

  // ---------------------------------------------------------------------------------------
  // Scan, filter, projection, limit.

  lemma {:induction false} UnprunedScan(source: Source, columns: seq<ColumnId>, g: nat)
    requires g <= |source.groups|
    ensures ScanFrom(ScanShapeOf(source.schema, columns, None), source.groups, g)
         == Picked(Indices(source.schema, columns), StreamRows(source.groups[g..]))
    decreases |source.groups| - g
  {
    hide ValidSource;
    hide Indices;
    hide PickCells;
    hide StreamRows;
    var indices := Indices(source.schema, columns);
    if g == |source.groups| {
      assert source.groups[g..] == [];
      NoRows();
    } else {
      UnprunedScan(source, columns, g + 1);
      assert source.groups[g..] == [source.groups[g]] + source.groups[g + 1..];
      StreamRowsFirst(source.groups[g], source.groups[g + 1..]);
      MapAppend(Picking(indices), source.groups[g].Active(), StreamRows(source.groups[g + 1..]));
    }
  }

  lemma ScannedTyped(s: Schema, columns: seq<ColumnId>, t: Tuple)
    requires SelectSchema(s, columns).Some? && TupleTyped(t, SchemaTypes(s))
    ensures TupleTyped(PickCells(Indices(s, columns), t), SchemaTypes(SelectFields(s, columns)))
  {
    var out, picked := SelectFields(s, columns), PickCells(Indices(s, columns), t);
    forall i | 0 <= i < |columns| ensures HasType(picked[i], out[i].typ) {
      assert columns[i] in KeySet(columns);
    }
  }

  lemma ScannedCell(s: Schema, columns: seq<ColumnId>, t: Tuple, id: ColumnId)
    requires SelectSchema(s, columns).Some? && |t| == |s| && id in KeySet(columns)
    ensures id in ToRow(SelectFields(s, columns), PickCells(Indices(s, columns), t)) && id in ToRow(s, t)
    ensures ToRow(SelectFields(s, columns), PickCells(Indices(s, columns), t))[id] == ToRow(s, t)[id]
  {
    var out := SelectFields(s, columns);
    SelectFieldsIds(s, columns);
    var i := IndexOf(out, id);
    assert columns[i] in KeySet(columns);
    assert out[i].id == columns[i];
  }

  lemma ScannedKeys(s: Schema, columns: seq<ColumnId>, t: Tuple, picked: Tuple)
    requires SelectSchema(s, columns).Some?
    ensures ToRow(SelectFields(s, columns), picked).Keys == KeySet(columns)
    ensures RestrictRow(ToRow(s, t), KeySet(columns)).Keys == KeySet(columns)
  {
    SelectFieldsIds(s, columns);
  }

  lemma ScannedRow(s: Schema, columns: seq<ColumnId>, t: Tuple)
    requires SelectSchema(s, columns).Some?
    requires TupleTyped(t, SchemaTypes(s))
    ensures TupleTyped(PickCells(Indices(s, columns), t), SchemaTypes(SelectFields(s, columns)))
    ensures ToRow(SelectFields(s, columns), PickCells(Indices(s, columns), t))
         == RestrictRow(ToRow(s, t), KeySet(columns))
  {
    assert KeySet(columns) <= Ids(s);
    hide SelectSchema;
    hide SelectFields;
    hide TupleTyped;
    hide Ids;
    hide UniqueIds;
    hide ToRow;
    hide PickCells;
    hide Indices;
    hide KeySet;
    var picked := PickCells(Indices(s, columns), t);
    ScannedTyped(s, columns, t);
    ScannedKeys(s, columns, t, picked);
    var scanned, restricted := ToRow(SelectFields(s, columns), picked), RestrictRow(ToRow(s, t), KeySet(columns));
    forall id | id in KeySet(columns) ensures id in scanned && id in restricted && scanned[id] == restricted[id] {
      ScannedCell(s, columns, t, id);
    }
    hide *;
    RowsEqual(scanned, restricted, KeySet(columns));
  }

  lemma RowsEqual(a: Row, b: Row, ids: set<ColumnId>)
    requires a.Keys == b.Keys == ids && forall id <- ids :: a[id] == b[id]
    ensures a == b
  {
  }

  lemma ScanMeaning(source: Source, columns: seq<ColumnId>)
    requires SelectSchema(source.schema, columns).Some?
    ensures var ts := ScanFrom(ScanShapeOf(source.schema, columns, None), source.groups, 0);
      var out := SelectSchema(source.schema, columns).value;
      AllTuplesTyped(out, ts) && Named(out, ts) == RestrictRows(KeySet(columns), SourceRows(source))
  {
    UnprunedScan(source, columns, 0);
    assert source.groups[0..] == source.groups;
    StreamTyped(source.groups, SchemaTypes(source.schema));
    var all := StreamRows(source.groups);
    forall i | 0 <= i < |all|
      ensures var picked := PickCells(Indices(source.schema, columns), all[i]);
        && TupleTyped(picked, SchemaTypes(SelectFields(source.schema, columns)))
        && ToRow(SelectFields(source.schema, columns), picked)
           == RestrictRow(ToRow(source.schema, all[i]), KeySet(columns))
    {
      ScannedRow(source.schema, columns, all[i]);
    }
  }

  lemma FilterMeaning(s: Schema, e: Expr, ts: seq<Tuple>)
    requires AllTuplesTyped(s, ts)
    ensures AllTuplesTyped(s, FilterTuples(s, e, ts))
    ensures Named(s, FilterTuples(s, e, ts)) == Keep([e], Named(s, ts))
  {
    SelectMap(Relations.Holding([e]), Passing(s, e), Naming(s), ts);
    var kept := FilterTuples(s, e, ts);
    forall i | 0 <= i < |kept| ensures TupleTyped(kept[i], SchemaTypes(s)) {
      assert kept[i] in kept;
    }
  }

  lemma ProjectedRow(s: Schema, xs: seq<NamedExpr>, t: Tuple)
    requires ProjectionSchema(xs, s).Some? && TupleTyped(t, SchemaTypes(s))
    ensures TupleTyped(ProjectTuple(s, xs, t), SchemaTypes(OutputFields(xs)))
    ensures ToRow(OutputFields(xs), ProjectTuple(s, xs, t)) == ProjectRow(xs, ToRow(s, t))
  {
    NamedTyped(s, t);
    forall c | 0 <= c < |xs| ensures HasType(ProjectTuple(s, xs, t)[c], xs[c].field.typ) {
      assert xs[c] in xs;
      EvalTyped(xs[c].expr, ToRow(s, t), Types(s));
    }
  }

  lemma ProjectMeaning(s: Schema, xs: seq<NamedExpr>, ts: seq<Tuple>)
    requires ProjectionSchema(xs, s).Some? && AllTuplesTyped(s, ts)
    ensures AllTuplesTyped(OutputFields(xs), ProjectTuples(s, xs, ts))
    ensures Named(OutputFields(xs), ProjectTuples(s, xs, ts)) == Map(Projecting(xs), Named(s, ts))
  {
    hide ProjectTuple;
    hide ProjectRow;
    hide TupleTyped;
    hide ToRow;
    hide ProjectionSchema;
    forall i | 0 <= i < |ts|
      ensures TupleTyped(ProjectTuple(s, xs, ts[i]), SchemaTypes(OutputFields(xs)))
      ensures ToRow(OutputFields(xs), ProjectTuple(s, xs, ts[i])) == ProjectRow(xs, ToRow(s, ts[i]))
    {
      ProjectedRow(s, xs, ts[i]);
    }
    assert Named(OutputFields(xs), ProjectTuples(s, xs, ts)) == Map(Projecting(xs), Named(s, ts));
  }

  lemma LimitMeaning(s: Schema, ts: seq<Tuple>, n: nat)
    requires AllTuplesTyped(s, ts)
    ensures AllTuplesTyped(s, Take(ts, n)) && Named(s, Take(ts, n)) == Take(Named(s, ts), n)
  {
  }

  // ---------------------------------------------------------------------------------------
  // Sort.

  lemma {:induction false} ComparedAlike(s: Schema, keys: seq<SortKey>, k: nat, a: Tuple, b: Tuple)
    requires k <= |keys| && forall key <- keys :: key.column in Ids(s)
    ensures CompareFrom(SortShapeOf(s, keys), k, a, b) == CompareRows(keys[k..], ToRow(s, a), ToRow(s, b))
    decreases |keys| - k
  {
    if k < |keys| {
      assert keys[k] in keys && keys[k..][1..] == keys[k + 1..];
      ComparedAlike(s, keys, k + 1, a, b);
    }
  }

  lemma SortMeaning(s: Schema, keys: seq<SortKey>, ts: seq<Tuple>)
    requires AllTuplesTyped(s, ts) && forall key <- keys :: key.column in Ids(s)
    ensures AllTuplesTyped(s, SortTuples(SortShapeOf(s, keys), ts))
    ensures Named(s, SortTuples(SortShapeOf(s, keys), ts)) == SortRows(keys, Named(s, ts))
  {
    var shape := SortShapeOf(s, keys);
    forall a: Tuple, b: Tuple | a in ts && b in ts
      ensures RowOrder(keys)(Naming(s)(a), Naming(s)(b)) == TupleOrder(shape)(a, b)
    {
      ComparedAlike(s, keys, 0, a, b);
      assert keys[0..] == keys;
    }
    MapSort(Naming(s), TupleOrder(shape), RowOrder(keys), ts);
    SortedTyped(s, keys, ts);
  }

  lemma SortedTyped(s: Schema, keys: seq<SortKey>, ts: seq<Tuple>)
    requires AllTuplesTyped(s, ts)
    ensures AllTuplesTyped(s, SortTuples(SortShapeOf(s, keys), ts))
  {
    var sorted := SortTuples(SortShapeOf(s, keys), ts);
    StableSortMembers(TupleOrder(SortShapeOf(s, keys)), ts);
    forall i | 0 <= i < |sorted| ensures TupleTyped(sorted[i], SchemaTypes(s)) {
      assert sorted[i] in multiset(sorted);
      assert sorted[i] in ts;
    }
  }
}
