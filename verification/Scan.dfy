/** The table scan: it skips row groups by their statistics and copies column ranges. */
module Scan {
  import opened Values
  import opened Expressions
  import opened Sequences
  import opened Relations
  import opened Batches
  import opened RowStore
  import opened Statistics
  import opened Tables
  import opened ScanLists

  class Scan {
    const shape: ScanShape
    const types: seq<Type>
    const batchSize: nat
    const groups: seq<Batch>
    const statistics: seq<seq<ColumnStatistics>>
    var group: nat
    var row: nat
    var groupsRead: nat
    var groupsSkipped: nat

    ghost predicate Wired() {
      && batchSize > 0 && PruningOk(shape.schema, shape.pruning)
      && KeyTypes(shape.indices, SchemaTypes(shape.schema), types)
      && ValidStream(groups, SchemaTypes(shape.schema))
      && (forall g <- groups :: g.selection == Dense(g.physicalSize))
      && GroupsFilled(groups) && GroupsAnalyzed(|shape.schema|, groups, statistics)
    }

    ghost predicate Valid()
      reads this
    {
      Wired() && Progress(shape, groups, group, row, groupsRead, groupsSkipped)
    }

    /** The rows the operator has still to produce. */
    ghost function Todo(): seq<Tuple>
      requires Valid()
      reads this
    {
      ScanRest(shape, groups, group, row)
    }

    constructor (shape: ScanShape, types: seq<Type>, table: Table, batchSize: nat)
      requires table.Valid() && table.schema == shape.schema && batchSize > 0
      requires PruningOk(shape.schema, shape.pruning)
      requires KeyTypes(shape.indices, SchemaTypes(shape.schema), types)
      ensures Valid() && this.shape == shape && this.types == types && this.batchSize == batchSize
      ensures groups == table.groups && Todo() == ScanFrom(shape, table.groups, 0)
    {
      this.shape, this.types, this.batchSize := shape, types, batchSize;
      groups, statistics := table.groups, table.groupStatistics;
      group, row, groupsRead, groupsSkipped := 0, 0, 0, 0;
      new;
      forall g | 0 <= g < |groups| ensures |groups[g].Active()| > 0 {
        assert groups[g] in groups;
      }
    }

    /** Appends a range of one group's rows to the output columns. */
    method CopyRange(columns: seq<Vector>, ghost rows: seq<Tuple>, b: Batch, start: nat, count: nat)
      returns (more: seq<Vector>)
      requires Wired() && b in groups && start + count <= b.physicalSize && Stores(columns, types, rows)
      ensures Stores(more, types, rows + Picked(shape.indices, b.Active()[start..start + count]))
    {
      more := columns;
      for c := 0 to |shape.indices|
        invariant |more| == |columns|
        invariant forall d :: 0 <= d < |more| ==>
          more[d] == if d < c then columns[d].AppendRange(b.columns[shape.indices[d]], start, count) else columns[d]
      {
        more := more[c := more[c].AppendRange(b.columns[shape.indices[c]], start, count)];
      }
      RangeAppended(columns, types, rows, more, b.columns, SchemaTypes(shape.schema), b.physicalSize,
                    shape.indices, start, count);
      assert b.Active() == Tuples(b.columns, b.physicalSize);
    }

    /** Skips the current group, if it was not entered yet and cannot match. */
    method TrySkip() returns (skipped: bool)
      requires Valid() && group < |groups|
      modifies this`group, this`groupsSkipped
      ensures Valid() && Todo() == old(Todo())
      ensures if skipped then group == old(group) + 1
              else group == old(group) && (row == 0 ==> Survives(shape, GroupStatistics(shape.schema, groups[group])))
    {
      hide Survives;
      hide ScanFrom;
      hide ScanRest;
      hide PruningOk;
      hide Progress;
      hide GroupsFilled;
      hide GroupsAnalyzed;
      hide ValidStream;
      AnalyzedGroup(shape, groups, statistics, group);
      SurvivalTest(shape, statistics[group]);
      hide MayMatch;
      skipped := row == 0 && shape.pruning.Some? && !MayMatch(shape.pruning.value, shape.schema, statistics[group]);
      if skipped {
        SkipGroup(shape, groups, group, groupsRead, groupsSkipped);
        group, groupsSkipped := group + 1, groupsSkipped + 1;
      }
    }

    /** Copies as many rows of the current group as there is room for. */
    method CopySome(columns: seq<Vector>, ghost rows: seq<Tuple>, room: nat)
      returns (more: seq<Vector>, count: nat, ghost copied: seq<Tuple>)
      requires Valid() && group < |groups| && room > 0 && Stores(columns, types, rows)
      requires row == 0 ==> Survives(shape, GroupStatistics(shape.schema, groups[group]))
      modifies this
      ensures Valid()
      ensures Stores(more, types, rows + copied) && count == |copied| <= room
      ensures Splits(old(Todo()), copied, Todo())
      ensures group > old(group) || (group == old(group) && row > old(row))
    {
      hide ColumnsOk;
      hide Tuples;
      hide TupleAt;
      hide SchemaTypes;
      hide Survives;
      hide Stores;
      hide ScanFrom;
      hide ScanRest;
      hide PruningOk;
      hide KeyTypes;
      hide Progress;
      hide GroupsFilled;
      hide GroupsAnalyzed;
      hide ValidStream;
      hide Splits;
      hide Picked;
      hide GroupStatistics;
      var b := groups[group];
      assert b in groups && |b.Active()| == b.physicalSize;
      Bounds(shape, groups, group, row, groupsRead, groupsSkipped);
      var left := b.physicalSize - row;
      count := if left < room then left else room;
      ScanStep(shape, groups, group, row, count);
      ReadOn(shape, groups, group, row, count, groupsRead, groupsSkipped);
      copied := Picked(shape.indices, b.Active()[row..row + count]);
      more := CopyRange(columns, rows, b, row, count);
      groupsRead := if row == 0 then groupsRead + 1 else groupsRead;
      row := row + count;
      if row == b.physicalSize {
        row, group := 0, group + 1;
      }
    }

    /** Skips the current group, or copies some of its rows. */
    method Step(columns: seq<Vector>, ghost rows: seq<Tuple>, room: nat)
      returns (more: seq<Vector>, count: nat, ghost copied: seq<Tuple>)
      requires Valid() && group < |groups| && room > 0 && Stores(columns, types, rows)
      modifies this
      ensures Valid()
      ensures Stores(more, types, rows + copied) && count == |copied| <= room
      ensures Splits(old(Todo()), copied, Todo())
      ensures group > old(group) || (group == old(group) && row > old(row))
    {
      hide Survives;
      hide Stores;
      hide ScanFrom;
      hide ScanRest;
      hide PruningOk;
      hide KeyTypes;
      hide Progress;
      hide GroupsFilled;
      hide GroupsAnalyzed;
      hide ValidStream;
      hide Splits;
      hide Picked;
      hide GroupStatistics;
      var skipped := TrySkip();
      if skipped {
        SplitStart(Todo());
        assert rows + [] == rows;
        return columns, 0, [];
      }
      more, count, copied := CopySome(columns, rows, room);
    }

    /**
     Produces the next batch: the rows of the groups that may match, in order, cut into batches
     that run across group boundaries.
     */
    method Next() returns (ok: bool, out: Batch)
      requires Valid()
      modifies this
      ensures Valid()
      ensures Delivers(old(Todo()), ok, out, Todo(), types, batchSize)
    {
      hide Stores;
      hide Splits;
      hide ScanRest;
      hide PruningOk;
      hide KeyTypes;
      hide Progress;
      hide GroupsFilled;
      hide GroupsAnalyzed;
      hide ValidStream;
      ghost var all, rows: seq<Tuple> := Todo(), [];
      var columns, n := EmptyColumns(types), 0;
      EmptyStores(types);
      SplitStart(all);
      Bounds(shape, groups, group, row, groupsRead, groupsSkipped);
      while n < batchSize && group < |groups|
        invariant Valid() && group <= |groups| && (group < |groups| ==> row < groups[group].selection.Size())
        invariant group == |groups| ==> row == 0
        invariant Stores(columns, types, rows) && n == |rows| <= batchSize
        invariant Splits(all, rows, Todo())
        decreases |groups| - group, if group < |groups| then groups[group].selection.Size() - row else 0
      {
        ghost var before, copied := Todo(), [];
        var count;
        columns, count, copied := Step(columns, rows, batchSize - n);
        SplitMove(all, rows, copied, before, Todo());
        n, rows := n + count, rows + copied;
        Bounds(shape, groups, group, row, groupsRead, groupsSkipped);
      }
      if n == 0 {
        ScanOver(shape, groups);
      }
      FilledDelivers(all, columns, rows, Todo(), types, batchSize);
      return n != 0, DenseBatch(columns, n);
    }
  }
}
