/** Tables in memory: appended row groups, and the statistics gathered from them. */
module Tables {
  import opened Values
  import opened Sequences
  import opened Relations
  import opened Batches
  import opened Aggregates
  import opened RowStore
  import opened Statistics

  /** The cells of one column on the active rows. */
  function Cells(v: Vector, sel: Selection): (vs: seq<Value>)
    ensures |vs| == sel.Size() && forall j :: 0 <= j < |vs| ==> vs[j] == v.CellAt(sel.At(j))
  {
    seq(sel.Size(), j requires 0 <= j < sel.Size() => v.CellAt(sel.At(j)))
  }

  /** Column c of a list of rows. */
  function ColumnCells(rows: seq<Tuple>, c: nat): (vs: seq<Value>)
    ensures |vs| == |rows| && forall j :: 0 <= j < |vs| ==> vs[j] == CellOf(rows[j], c)
  {
    seq(|rows|, j requires 0 <= j < |rows| => CellOf(rows[j], c))
  }

  /** The statistics of a list of rows, column by column. */
  function RowsStatistics(width: nat, rows: seq<Tuple>): (st: seq<ColumnStatistics>)
    ensures |st| == width && forall c :: 0 <= c < width ==> st[c] == StatisticsOf(ColumnCells(rows, c))
  {
    seq(width, c requires 0 <= c < width => StatisticsOf(ColumnCells(rows, c)))
  }

  // ---------------------------------------------------------------------------------------
  // Gathering.

  /** The position of the best ordered cell so far, if any. */
  ghost predicate BestSoFar(least: bool, v: Vector, vs: seq<Value>, best: Option<nat>) {
    var os := OrderedValues(vs);
    if best.None? then os == [] else os != [] && v.CellAt(best.value) == Extreme(least, os)
  }

  predicate Better(least: bool, v: Vector, r: nat, best: Option<nat>) {
    best.None? || Oriented(least, v.CellAt(r), v.CellAt(best.value)) < 0
  }

  lemma OrderedStep(vs: seq<Value>, x: Value)
    ensures OrderedValues(vs + [x]) == if Ordered(x) then OrderedValues(vs) + [x] else OrderedValues(vs)
    ensures CountNulls(vs + [x]) == CountNulls(vs) + if x.Null? then 1 else 0
  {
    assert (vs + [x])[..|vs|] == vs;
  }

  lemma BestStep(least: bool, v: Vector, vs: seq<Value>, best: Option<nat>, r: nat)
    requires BestSoFar(least, v, vs, best)
    ensures BestSoFar(least, v, vs + [v.CellAt(r)],
                      if Ordered(v.CellAt(r)) && Better(least, v, r, best) then Some(r) else best)
  {
    var x, os := v.CellAt(r), OrderedValues(vs);
    OrderedStep(vs, x);
    if Ordered(x) {
      assert (os + [x])[..|os|] == os;
    }
  }

  lemma SketchStep(vs: seq<Value>, x: Value)
    ensures (set v <- vs + [x] | !v.Null? :: SketchBit(v))
         == (set v <- vs | !v.Null? :: SketchBit(v)) + if x.Null? then {} else {SketchBit(x)}
  {
    var s := set v <- vs + [x] | !v.Null? :: SketchBit(v);
    var t := set v <- vs | !v.Null? :: SketchBit(v);
    forall b | b in t ensures b in s {
      var v :| v in vs && !v.Null? && SketchBit(v) == b;
      assert v in vs + [x];
    }
    if !x.Null? {
      assert x in vs + [x] && SketchBit(x) in s;
    }
  }

  /** The statistics gathered after some cells. */
  ghost predicate Gathered(v: Vector, vs: seq<Value>, nulls: nat, hasNan: bool, sketch: set<nat>,
                           min: Option<nat>, max: Option<nat>) {
    && nulls == CountNulls(vs) && (hasNan <==> Dbl(NaN) in vs)
    && sketch == (set x <- vs | !x.Null? :: SketchBit(x))
    && BestSoFar(true, v, vs, min) && BestSoFar(false, v, vs, max)
  }

  lemma GatherStep(v: Vector, vs: seq<Value>, nulls: nat, hasNan: bool, sketch: set<nat>,
                   min: Option<nat>, max: Option<nat>, r: nat)
    requires Gathered(v, vs, nulls, hasNan, sketch, min, max)
    ensures var x := v.CellAt(r);
      Gathered(v, vs + [x], if x.Null? then nulls + 1 else nulls, hasNan || IsNaN(x),
               if x.Null? then sketch else sketch + {SketchBit(x)},
               if Ordered(x) && Better(true, v, r, min) then Some(r) else min,
               if Ordered(x) && Better(false, v, r, max) then Some(r) else max)
  {
    var x := v.CellAt(r);
    OrderedStep(vs, x);
    SketchStep(vs, x);
    BestStep(true, v, vs, min, r);
    BestStep(false, v, vs, max, r);
  }

  method AnalyzeColumn(v: Vector, sel: Selection) returns (st: ColumnStatistics)
    ensures st == StatisticsOf(Cells(v, sel))
  {
    hide Gathered;
    var nulls, hasNan, sketch, min, max := 0, false, {}, None, None;
    ghost var vs := Cells(v, sel);
    TakeAll([], vs);
    NothingGathered(v);
    for j := 0 to sel.Size()
      invariant Gathered(v, [] + vs[..j], nulls, hasNan, sketch, min, max)
    {
      var r := sel.At(j);
      GatherStep(v, [] + vs[..j], nulls, hasNan, sketch, min, max, r);
      TakeNext([], vs, j);
      var x := v.CellAt(r);
      if x.Null? {
        nulls := nulls + 1;
      } else {
        sketch := sketch + {SketchBit(x)};
        if IsNaN(x) {
          hasNan := true;
        } else {
          min := if Better(true, v, r, min) then Some(r) else min;
          max := if Better(false, v, r, max) then Some(r) else max;
        }
      }
    }
    assert [] + vs == vs;
    AllGathered(v, vs, nulls, hasNan, sketch, min, max);
    st := ColumnStatistics(sel.Size(), nulls, true, hasNan,
                           if min.None? then None else Some(v.CellAt(min.value)),
                           if max.None? then None else Some(v.CellAt(max.value)), sketch);
  }

  lemma NothingGathered(v: Vector)
    ensures Gathered(v, [], 0, false, {}, None, None)
  {
  }

  lemma AllGathered(v: Vector, vs: seq<Value>, nulls: nat, hasNan: bool, sketch: set<nat>,
                    min: Option<nat>, max: Option<nat>)
    requires Gathered(v, vs, nulls, hasNan, sketch, min, max)
    ensures StatisticsOf(vs)
         == ColumnStatistics(|vs|, nulls, true, hasNan,
                             if min.None? then None else Some(v.CellAt(min.value)),
                             if max.None? then None else Some(v.CellAt(max.value)), sketch)
  {
  }

  lemma CellsOfRows(b: Batch, c: nat)
    requires c < |b.columns|
    ensures Cells(b.columns[c], b.selection) == ColumnCells(b.Active(), c)
  {
  }

  method Analyze(b: Batch) returns (stats: seq<ColumnStatistics>)
    ensures stats == RowsStatistics(|b.columns|, b.Active())
  {
    stats := [];
    for c := 0 to |b.columns|
      invariant stats == RowsStatistics(|b.columns|, b.Active())[..c]
    {
      CellsOfRows(b, c);
      var st := AnalyzeColumn(b.columns[c], b.selection);
      stats := stats + [st];
    }
  }

  method MergeStatistics(into: seq<ColumnStatistics>, other: seq<ColumnStatistics>,
                         ghost rows: seq<Tuple>, ghost more: seq<Tuple>) returns (r: seq<ColumnStatistics>)
    requires |into| == |other|
    requires into == RowsStatistics(|into|, rows) && other == RowsStatistics(|into|, more)
    ensures r == RowsStatistics(|into|, rows + more)
  {
    hide StatisticsOf;
    hide MergeColumn;
    r := [];
    for c := 0 to |into|
      invariant r == RowsStatistics(|into|, rows + more)[..c]
    {
      assert ColumnCells(rows + more, c) == ColumnCells(rows, c) + ColumnCells(more, c);
      MergeIsConcatenation(ColumnCells(rows, c), ColumnCells(more, c));
      r := r + [MergeColumn(into[c], other[c])];
    }
  }

  // ---------------------------------------------------------------------------------------

  ghost predicate GroupsAnalyzed(width: nat, groups: seq<Batch>, stats: seq<seq<ColumnStatistics>>) {
    && |stats| == |groups|
    && forall g :: 0 <= g < |groups| ==> stats[g] == RowsStatistics(width, groups[g].Active())
  }

  class Table {
    const schema: Schema
    var groups: seq<Batch>
    var rows: nat
    var statistics: seq<ColumnStatistics>
    var groupStatistics: seq<seq<ColumnStatistics>>

    /** Statistics are those of exactly the stored rows: group by group, and table-wide. */
    ghost predicate Valid()
      reads this
    {
      && UniqueIds(schema) && ValidStream(groups, SchemaTypes(schema))
      && (forall g <- groups :: g.selection == Dense(g.physicalSize))
      && rows == |StreamRows(groups)|
      && statistics == RowsStatistics(|schema|, StreamRows(groups))
      && GroupsAnalyzed(|schema|, groups, groupStatistics)
    }

    constructor (schema: Schema)
      requires UniqueIds(schema)
      ensures Valid() && this.schema == schema && groups == []
    {
      this.schema := schema;
      groups, rows, groupStatistics := [], 0, [];
      statistics := RowsStatistics(|schema|, []);
      new;
      assert StreamRows(groups) == [];
    }

    /** Adds the active rows of a batch as one group; a batch of another shape is refused. */
    method Append(b: Batch, batchSchema: Schema) returns (ok: bool)
      requires Valid()
      modifies this
      ensures Valid()
      ensures ok <==> b.Valid(SchemaTypes(batchSchema)) && |batchSchema| == |schema|
                      && forall i :: 0 <= i < |schema| ==>
                           batchSchema[i].id == schema[i].id && batchSchema[i].typ == schema[i].typ
      ensures ok ==> StreamRows(groups) == old(StreamRows(groups)) + b.Active()
      ensures ok && b.selection.Size() > 0 ==> AddedGroup(old(groups), groups, b.Active())
      ensures !ok || b.selection.Size() == 0 ==> groups == old(groups)
    {
      ok := b.Valid(SchemaTypes(batchSchema)) && SameColumns(batchSchema, schema);
      if !ok {
        return;
      }
      SameColumnsSameTypes(batchSchema, schema);
      if b.selection.Size() == 0 {
        assert b.Active() == [];
        return;
      }
      var dense := Compact(b, SchemaTypes(schema));
      var stats := Analyze(dense);
      statistics := MergeStatistics(statistics, stats, StreamRows(groups), dense.Active());
      groupStatistics := groupStatistics + [stats];
      rows := rows + b.selection.Size();
      StreamRowsLast(groups, dense);
      groups := groups + [dense];
    }
  }

  /** One more group, of these rows. */
  ghost predicate AddedGroup(groups: seq<Batch>, more: seq<Batch>, rows: seq<Tuple>) {
    |more| == |groups| + 1 && more[..|groups|] == groups && more[|groups|].Active() == rows
  }

  predicate SameColumns(a: Schema, b: Schema) {
    |a| == |b| && forall i :: 0 <= i < |a| ==> a[i].id == b[i].id && a[i].typ == b[i].typ
  }

  lemma SameColumnsSameTypes(a: Schema, b: Schema)
    requires SameColumns(a, b)
    ensures SchemaTypes(a) == SchemaTypes(b)
  {
  }

  /** A dense copy of the active rows. */
  method Compact(b: Batch, types: seq<Type>) returns (dense: Batch)
    requires b.Valid(types)
    ensures dense.Valid(types) && dense.Active() == b.Active()
    ensures dense.selection == Dense(dense.physicalSize) && |dense.columns| == |types|
  {
    var store := new RowStore(types);
    ghost var rows := b.Active();
    TakeAll([], rows);
    for j := 0 to b.selection.Size()
      invariant store.Valid() && store.contents == [] + rows[..j]
    {
      hide Stores;
      TakeNext([], rows, j);
      store.Append(b, b.selection.At(j));
    }
    assert [] + rows == rows;
    DenseShows(store.columns, types, rows);
    dense := DenseBatch(store.columns, store.rows);
  }
}
