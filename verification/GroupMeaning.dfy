/** What the hash aggregation produces on named rows. */
module GroupMeaning {
  import opened Values
  import opened Expressions
  import opened Sequences
  import opened Aggregates
  import opened Relations
  import opened Plans
  import opened Batches
  import opened RowStore
  import opened GroupLists
  import opened PhysicalPlans
  import opened OperatorMeaning
  import opened JoinMeaning

  lemma {:induction false} NamedMembers(s: Schema, keys: seq<ColumnId>, aggs: seq<AggregateSpec>, key: seq<Value>,
                                        ts: seq<Tuple>)
    requires KeySet(keys) <= Ids(s)
    ensures Named(s, MembersOf(GroupShapeOf(s, keys, aggs), key, ts)) == Members(keys, key, Named(s, ts))
  {
    if ts != [] {
      var t, init := ts[|ts| - 1], ts[..|ts| - 1];
      hide Ids;
      hide KeySet;
      hide ToRow;
      hide TupleKey;
      hide KeyOf;
      NamedMembers(s, keys, aggs, key, init);
      NamedKey(s, keys, t);
      assert Named(s, ts)[..|ts| - 1] == Named(s, init);
      NamedAppend(s, MembersOf(GroupShapeOf(s, keys, aggs), key, init), [t]);
    }
  }

  lemma NamedLeader(s: Schema, keys: seq<ColumnId>, aggs: seq<AggregateSpec>, leaders: seq<Tuple>, t: Tuple)
    requires KeySet(keys) <= Ids(s)
    ensures HasLeader(GroupShapeOf(s, keys, aggs), leaders, t) <==> Represented(keys, Named(s, leaders), ToRow(s, t))
  {
    var shape := GroupShapeOf(s, keys, aggs);
    forall g | 0 <= g < |leaders|
      ensures KeyAt(shape, leaders[g]) == KeyAt(shape, t)
         <==> KeyOf(keys, Named(s, leaders)[g]) == KeyOf(keys, ToRow(s, t))
    {
      NamedKey(s, keys, leaders[g]);
      NamedKey(s, keys, t);
    }
  }

  lemma {:induction false} NamedLeaders(s: Schema, keys: seq<ColumnId>, aggs: seq<AggregateSpec>, ts: seq<Tuple>)
    requires KeySet(keys) <= Ids(s)
    ensures Named(s, Leaders(GroupShapeOf(s, keys, aggs), ts)) == Representatives(keys, Named(s, ts))
  {
    if ts != [] {
      var t, init := ts[|ts| - 1], ts[..|ts| - 1];
      var leaders := Leaders(GroupShapeOf(s, keys, aggs), init);
      NamedLeaders(s, keys, aggs, init);
      NamedLeader(s, keys, aggs, leaders, t);
      assert Named(s, ts)[..|ts| - 1] == Named(s, init);
      NamedAppend(s, leaders, [t]);
    }
  }

  lemma {:induction false} CountedInputs(slot: Slot, members: seq<Tuple>)
    requires slot.input.None?
    ensures SlotInputs(slot, members) == seq(|members|, _ => TRUE)
  {
    if members != [] {
      CountedInputs(slot, members[..|members| - 1]);
    }
  }

  lemma {:induction false} ReadInputs(s: Schema, a: AggregateSpec, members: seq<Tuple>)
    requires a.input.Some? && a.input.value in Ids(s)
    ensures SlotInputs(SlotOf(s, a), members) == NonNull(Map(Relations.Reading(a.input.value), Named(s, members)))
  {
    if members != [] {
      var t, init := members[|members| - 1], members[..|members| - 1];
      ReadInputs(s, a, init);
      NamedCell(s, t, a.input.value);
      var cells := Map(Relations.Reading(a.input.value), Named(s, members));
      assert cells[..|members| - 1] == Map(Relations.Reading(a.input.value), Named(s, init));
    }
  }

  lemma NamedInputs(s: Schema, a: AggregateSpec, members: seq<Tuple>)
    requires a.input.Some? ==> a.input.value in Ids(s)
    ensures SlotInputs(SlotOf(s, a), members) == AggregateInputs(a.input, Named(s, members))
  {
    if a.input.None? {
      CountedInputs(SlotOf(s, a), members);
      assert AggregateInputs(a.input, Named(s, members)) == seq(|members|, _ => TRUE);
    } else {
      ReadInputs(s, a, members);
    }
  }

  lemma {:induction false} GroupAt(shape: GroupShape, rows: seq<Tuple>, leaders: seq<Tuple>, g: nat, i: nat)
    requires g <= i < |leaders|
    ensures |GroupsFrom(shape, rows, leaders, g)| == |leaders| - g
    ensures GroupsFrom(shape, rows, leaders, g)[i - g]
         == GroupTuple(shape, leaders[i], MembersOf(shape, KeyAt(shape, leaders[i]), rows))
    decreases i - g
  {
    GroupCount(shape, rows, leaders, g);
    if g < i {
      GroupAt(shape, rows, leaders, g + 1, i);
    }
  }

  lemma {:induction false} GroupCount(shape: GroupShape, rows: seq<Tuple>, leaders: seq<Tuple>, g: nat)
    requires g <= |leaders|
    ensures |GroupsFrom(shape, rows, leaders, g)| == |leaders| - g
    decreases |leaders| - g
  {
    if g < |leaders| {
      GroupCount(shape, rows, leaders, g + 1);
    }
  }

  // ---------------------------------------------------------------------------------------
  // One output row.

  lemma NamedValue(s: Schema, a: AggregateSpec, members: seq<Tuple>)
    requires AggregateOk(a, Types(s)) && AllTuplesTyped(s, members)
    ensures SlotValue(SlotOf(s, a), members) == AggregateCell(a, Named(s, members))
    ensures HasType(SlotValue(SlotOf(s, a), members), a.output.typ)
  {
    NamedInputs(s, a, members);
    forall i | 0 <= i < |members| ensures RowHasTypes(Named(s, members)[i], Types(s)) {
      NamedTyped(s, members[i]);
    }
    AggregateCellTyped(a, Named(s, members), s);
  }

  lemma KeyCell(s: Schema, keys: seq<ColumnId>, leader: Tuple, id: ColumnId)
    requires KeySet(keys) <= Ids(s) && id in Ids(SelectFields(s, keys))
    ensures keys != [] && id in KeySet(keys)
    ensures PickCells(Indices(s, keys), leader)[IndexOf(SelectFields(s, keys), id)] == Cell(ToRow(s, leader), id)
  {
    var i := IndexOf(SelectFields(s, keys), id);
    assert keys[i] in KeySet(keys);
    assert SelectFields(s, keys)[i].id == keys[i];
    NamedCell(s, leader, id);
  }

  /** A cell of an output row is a key cell or a slot value, by where its column stands. */
  lemma GroupedCellAt(ks: Schema, outs: Schema, key: Tuple, values: Tuple, id: ColumnId)
    requires UniqueIds(ks + outs) && |key| == |ks| && |values| == |outs| && id in Ids(ks + outs)
    ensures id in ToRow(ks + outs, key + values)
    ensures id in Ids(ks) ==> id !in Ids(outs) && ToRow(ks + outs, key + values)[id] == key[IndexOf(ks, id)]
    ensures id !in Ids(ks) ==> id in Ids(outs) && ToRow(ks + outs, key + values)[id] == values[IndexOf(outs, id)]
  {
    PairedIndex(ks, outs, id);
  }

  lemma SlotCell(s: Schema, keys: seq<ColumnId>, aggs: seq<AggregateSpec>, members: seq<Tuple>, id: ColumnId)
    requires AggregateSchema(s, keys, aggs).Some? && AllTuplesTyped(s, members) && id in Ids(AggregateFields(aggs))
    ensures SlotValues(SlotsOf(s, aggs), members)[IndexOf(AggregateFields(aggs), id)]
         == AggregateCell(aggs[IndexOf(AggregateFields(aggs), id)], Named(s, members))
  {
    hide AggregateCell;
    hide SlotValue;
    var i := IndexOf(AggregateFields(aggs), id);
    assert aggs[i] in aggs;
    NamedValue(s, aggs[i], members);
  }

  lemma GroupedCell(s: Schema, keys: seq<ColumnId>, aggs: seq<AggregateSpec>, leader: Tuple, members: seq<Tuple>,
                    rep: Row, id: ColumnId)
    requires UniqueIds(s) && AggregateSchema(s, keys, aggs).Some? && AllTuplesTyped(s, members)
    requires keys != [] ==> rep == ToRow(s, leader)
    requires id in Ids(AggregateSchema(s, keys, aggs).value)
    ensures id in KeySet(keys) + Ids(AggregateFields(aggs))
    ensures ToRow(AggregateSchema(s, keys, aggs).value, GroupTuple(GroupShapeOf(s, keys, aggs), leader, members))[id]
         == AggregateRow(keys, aggs, rep, Named(s, members))[id]
  {
    hide AggregateCell;
    hide SlotValues;
    hide PickCells;
    hide ToRow;
    hide SelectFields;
    hide KeySet;
    hide Ids;
    var ks, outs := SelectFields(s, keys), AggregateFields(aggs);
    GroupedCellAt(ks, outs, PickCells(Indices(s, keys), leader), SlotValues(SlotsOf(s, aggs), members), id);
    if id in Ids(ks) {
      KeyCell(s, keys, leader, id);
    } else {
      SlotCell(s, keys, aggs, members, id);
    }
  }

  lemma GroupedKeys(s: Schema, keys: seq<ColumnId>, aggs: seq<AggregateSpec>, t: Tuple, members: seq<Row>, rep: Row)
    requires AggregateSchema(s, keys, aggs).Some?
    ensures ToRow(AggregateSchema(s, keys, aggs).value, t).Keys == AggregateRow(keys, aggs, rep, members).Keys
    ensures ToRow(AggregateSchema(s, keys, aggs).value, t).Keys == Ids(AggregateSchema(s, keys, aggs).value)
  {
    SelectFieldsIds(s, keys);
    IdsAppend(SelectFields(s, keys), AggregateFields(aggs));
  }

  lemma GroupedRow(s: Schema, keys: seq<ColumnId>, aggs: seq<AggregateSpec>, leader: Tuple, members: seq<Tuple>,
                   rep: Row)
    requires UniqueIds(s) && AggregateSchema(s, keys, aggs).Some? && AllTuplesTyped(s, members)
    requires keys != [] ==> rep == ToRow(s, leader)
    ensures ToRow(AggregateSchema(s, keys, aggs).value, GroupTuple(GroupShapeOf(s, keys, aggs), leader, members))
         == AggregateRow(keys, aggs, rep, Named(s, members))
  {
    hide *;
    var t := GroupTuple(GroupShapeOf(s, keys, aggs), leader, members);
    var out, rows := AggregateSchema(s, keys, aggs).value, Named(s, members);
    GroupedKeys(s, keys, aggs, t, rows, rep);
    forall id | id in Ids(out)
      ensures id in AggregateRow(keys, aggs, rep, rows)
      ensures ToRow(out, t)[id] == AggregateRow(keys, aggs, rep, rows)[id]
    {
      GroupedCell(s, keys, aggs, leader, members, rep, id);
    }
    assert ToRow(out, t) == AggregateRow(keys, aggs, rep, rows);
  }

  lemma GroupedTyped(s: Schema, keys: seq<ColumnId>, aggs: seq<AggregateSpec>, leader: Tuple, members: seq<Tuple>)
    requires UniqueIds(s) && AggregateSchema(s, keys, aggs).Some? && AllTuplesTyped(s, members)
    requires keys != [] ==> TupleTyped(leader, SchemaTypes(s))
    ensures TupleTyped(GroupTuple(GroupShapeOf(s, keys, aggs), leader, members),
                       SchemaTypes(AggregateSchema(s, keys, aggs).value))
  {
    var t := GroupTuple(GroupShapeOf(s, keys, aggs), leader, members);
    var out := SelectFields(s, keys) + AggregateFields(aggs);
    forall c | 0 <= c < |out| ensures HasType(t[c], out[c].typ) {
      if c < |keys| {
        assert keys[c] in KeySet(keys);
      } else {
        assert aggs[c - |keys|] in aggs;
        NamedValue(s, aggs[c - |keys|], members);
      }
    }
  }

  // ---------------------------------------------------------------------------------------

  lemma {:induction false} MembersTyped(s: Schema, shape: GroupShape, key: seq<Value>, ts: seq<Tuple>)
    requires AllTuplesTyped(s, ts)
    ensures AllTuplesTyped(s, MembersOf(shape, key, ts))
  {
    if ts != [] {
      MembersTyped(s, shape, key, ts[..|ts| - 1]);
    }
  }

  lemma {:induction false} LeadersTyped(s: Schema, shape: GroupShape, ts: seq<Tuple>)
    requires AllTuplesTyped(s, ts)
    ensures AllTuplesTyped(s, Leaders(shape, ts))
  {
    if ts != [] {
      LeadersTyped(s, shape, ts[..|ts| - 1]);
    }
  }

  lemma {:induction false} AllAreMembers(shape: GroupShape, ts: seq<Tuple>)
    requires shape.keys == []
    ensures MembersOf(shape, [], ts) == ts
  {
    if ts != [] {
      AllAreMembers(shape, ts[..|ts| - 1]);
    }
  }

  lemma GlobalMeaning(s: Schema, aggs: seq<AggregateSpec>, ts: seq<Tuple>)
    requires UniqueIds(s) && AggregateSchema(s, [], aggs).Some? && AllTuplesTyped(s, ts)
    ensures var out, groups := AggregateSchema(s, [], aggs).value, GroupTuples(GroupShapeOf(s, [], aggs), ts);
      AllTuplesTyped(out, groups) && Named(out, groups) == AggregateRows([], aggs, Named(s, ts))
  {
    var shape, out := GroupShapeOf(s, [], aggs), AggregateSchema(s, [], aggs).value;
    AllAreMembers(shape, ts);
    GroupedRow(s, [], aggs, [], ts, map[]);
    GroupedTyped(s, [], aggs, [], ts);
    assert GroupTuples(shape, ts) == [GroupTuple(shape, [], ts)] by {
      GroupAt(shape, ts, [[]], 0, 0);
      assert KeyAt(shape, []) == [];
    }
  }

  lemma GroupMeaning(s: Schema, keys: seq<ColumnId>, aggs: seq<AggregateSpec>, ts: seq<Tuple>, i: nat)
    requires UniqueIds(s) && AggregateSchema(s, keys, aggs).Some? && AllTuplesTyped(s, ts) && keys != []
    requires i < |Leaders(GroupShapeOf(s, keys, aggs), ts)|
    ensures var shape, out := GroupShapeOf(s, keys, aggs), AggregateSchema(s, keys, aggs).value;
      var leader := Leaders(shape, ts)[i];
      var t := GroupTuple(shape, leader, MembersOf(shape, KeyAt(shape, leader), ts));
      TupleTyped(t, SchemaTypes(out)) && ToRow(out, t) == Summarizing(keys, aggs, Named(s, ts))(ToRow(s, leader))
  {
    var shape := GroupShapeOf(s, keys, aggs);
    var leader := Leaders(shape, ts)[i];
    var members := MembersOf(shape, KeyAt(shape, leader), ts);
    LeadersTyped(s, shape, ts);
    MembersTyped(s, shape, KeyAt(shape, leader), ts);
    GroupedRow(s, keys, aggs, leader, members, ToRow(s, leader));
    GroupedTyped(s, keys, aggs, leader, members);
    NamedMembers(s, keys, aggs, KeyAt(shape, leader), ts);
    NamedKey(s, keys, leader);
  }

  lemma NamedPointwise(s: Schema, ts: seq<Tuple>, rows: seq<Row>)
    requires |ts| == |rows|
    requires forall i :: 0 <= i < |ts| ==> TupleTyped(ts[i], SchemaTypes(s)) && ToRow(s, ts[i]) == rows[i]
    ensures AllTuplesTyped(s, ts) && Named(s, ts) == rows
  {
  }

  /** Group i of the operator is row i of the list semantics. */
  lemma GroupNamed(s: Schema, keys: seq<ColumnId>, aggs: seq<AggregateSpec>, ts: seq<Tuple>, i: nat)
    requires UniqueIds(s) && AggregateSchema(s, keys, aggs).Some? && AllTuplesTyped(s, ts) && keys != []
    requires i < |Leaders(GroupShapeOf(s, keys, aggs), ts)|
    ensures var out, groups := AggregateSchema(s, keys, aggs).value, GroupTuples(GroupShapeOf(s, keys, aggs), ts);
      && i < |groups| && i < |AggregateRows(keys, aggs, Named(s, ts))|
      && TupleTyped(groups[i], SchemaTypes(out))
      && ToRow(out, groups[i]) == AggregateRows(keys, aggs, Named(s, ts))[i]
  {
    hide Leaders;
    hide GroupsFrom;
    hide TupleTyped;
    hide ToRow;
    hide Summarizing;
    hide GroupTuple;
    hide MembersOf;
    hide Representatives;
    hide AllTuplesTyped;
    hide UniqueIds;
    hide Ids;
    hide SelectFields;
    hide Validated;
    var leaders := Leaders(GroupShapeOf(s, keys, aggs), ts);
    NamedLeaders(s, keys, aggs, ts);
    GroupAt(GroupShapeOf(s, keys, aggs), ts, leaders, 0, i);
    GroupMeaning(s, keys, aggs, ts, i);
    assert Representatives(keys, Named(s, ts))[i] == ToRow(s, leaders[i]);
  }

  /** The hash aggregation's rows are those of the list semantics, group by group. */
  lemma AggregateMeaning(s: Schema, keys: seq<ColumnId>, aggs: seq<AggregateSpec>, ts: seq<Tuple>)
    requires UniqueIds(s) && AggregateSchema(s, keys, aggs).Some? && AllTuplesTyped(s, ts)
    ensures var out, groups := AggregateSchema(s, keys, aggs).value, GroupTuples(GroupShapeOf(s, keys, aggs), ts);
      AllTuplesTyped(out, groups) && Named(out, groups) == AggregateRows(keys, aggs, Named(s, ts))
  {
    if keys == [] {
      GlobalMeaning(s, aggs, ts);
    } else {
      var shape, out := GroupShapeOf(s, keys, aggs), AggregateSchema(s, keys, aggs).value;
      var groups, rows := GroupTuples(shape, ts), AggregateRows(keys, aggs, Named(s, ts));
      GroupCount(shape, ts, Leaders(shape, ts), 0);
      NamedLeaders(s, keys, aggs, ts);
      assert |groups| == |rows|;
      hide *;
      forall i | 0 <= i < |groups| ensures TupleTyped(groups[i], SchemaTypes(out)) && ToRow(out, groups[i]) == rows[i] {
        GroupNamed(s, keys, aggs, ts, i);
      }
      NamedPointwise(out, groups, rows);
    }
  }
}
