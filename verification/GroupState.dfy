/** The invariants of the hash aggregation's state, and the steps that keep them. */
module GroupState {
  import opened Values
  import opened Sequences
  import opened Relations
  import opened Aggregates
  import opened AggregateStates
  import opened Batches
  import opened RowStore
  import opened HashIndex
  import opened GroupLists

  ghost predicate StoresLeaders(shape: GroupShape, leaders: seq<Tuple>, stored: seq<Tuple>) {
    |stored| == |leaders| && forall g :: 0 <= g < |leaders| ==> stored[g] == PickCells(shape.keys, leaders[g])
  }

  ghost predicate IndexesGroups(shape: GroupShape, leaders: seq<Tuple>, entries: Entries) {
    && (forall g :: g in entries <==> 0 <= g < |leaders|)
    && (forall g <- entries :: entries[g] == HashRow(shape.keys, leaders[g]))
  }

  /** Key store, states and index agree with the groups of the rows consumed so far. */
  ghost predicate GroupsOk(shape: GroupShape, rows: seq<Tuple>, stored: seq<Tuple>, states: seq<State>,
                           entries: Entries) {
    var leaders := GroupLeaders(shape, rows);
    && StoresLeaders(shape, leaders, stored)
    && AllFolded(shape, rows, leaders, states)
    && DistinctKeys(shape, leaders)
    && (shape.keys != [] ==> IndexesGroups(shape, leaders, entries))
  }

  /** In the middle of one row: its group exists, and the first k slots of the group include it. */
  ghost predicate RowPending(shape: GroupShape, rows: seq<Tuple>, t: Tuple, stored: seq<Tuple>, states: seq<State>,
                             entries: Entries, group: nat, k: nat) {
    var leaders := GroupLeaders(shape, rows + [t]);
    && StoresLeaders(shape, leaders, stored)
    && PartlyFolded(shape, rows, leaders, states, group, t, k)
    && DistinctKeys(shape, leaders)
    && (shape.keys != [] ==> IndexesGroups(shape, leaders, entries))
    && group < |leaders| && KeyAt(shape, leaders[group]) == KeyAt(shape, t)
  }

  lemma NoRowsYet(shape: GroupShape)
    ensures shape.keys != [] ==> GroupsOk(shape, [], [], [], map[])
    ensures shape.keys == [] ==> GroupsOk(shape, [], [[]], InitialStates(|shape.slots|), map[])
  {
    if shape.keys == [] {
      var states := InitialStates(|shape.slots|);
      assert PickCells(shape.keys, []) == [];
      forall g: nat, a: nat ensures SlotFolded(shape, [], [[]], states, g, a) {
      }
    }
  }

  lemma GroupsIds(shape: GroupShape, rows: seq<Tuple>, stored: seq<Tuple>, states: seq<State>, entries: Entries)
    requires GroupsOk(shape, rows, stored, states, entries)
    ensures shape.keys != [] ==> |stored| !in entries
    ensures shape.keys == [] ==> |stored| == 1
    ensures |stored| == |GroupLeaders(shape, rows)|
  {
  }

  // ---------------------------------------------------------------------------------------
  // Lookup.

  /** The key comparison the index calls back, on the stored key columns. */
  function SameGroup(columns: seq<Vector>, storedKeys: seq<nat>, t: Tuple, keys: seq<nat>): nat -> bool
    requires |storedKeys| == |keys|
  {
    (g: nat) => EqualKey(TupleAt(columns, g), storedKeys, t, keys)
  }

  ghost predicate GroupNotFound(entries: Entries, hash: nat, equal: nat -> bool) {
    forall g <- entries :: entries[g] == hash ==> !equal(g)
  }

  lemma StoredKeyIsKey(keys: seq<nat>, t: Tuple)
    ensures TupleKey(Iota(|keys|), PickCells(keys, t)) == TupleKey(keys, t)
  {
  }

  lemma GroupFound(shape: GroupShape, columns: seq<Vector>, types: seq<Type>, rows: seq<Tuple>, stored: seq<Tuple>,
                   states: seq<State>, entries: Entries, t: Tuple, g: nat)
    requires GroupsOk(shape, rows, stored, states, entries) && Stores(columns, types, stored)
    requires shape.keys != [] && g in entries
    requires SameGroup(columns, Iota(|shape.keys|), t, shape.keys)(g)
    ensures RowPending(shape, rows, t, stored, states, entries, g, 0)
  {
    hide AllFolded;
    hide DistinctKeys;
    hide PartlyFolded;
    hide HashRow;
    var leaders := Leaders(shape, rows);
    assert TupleAt(columns, g) == stored[g];
    EqualKeyIsTupleKey(stored[g], Iota(|shape.keys|), t, shape.keys);
    StoredKeyIsKey(shape.keys, leaders[g]);
    hide PickCells;
    hide TupleKey;
    hide Leaders;
    assert HasLeader(shape, leaders, t);
    LeadersStep(shape, rows, t);
    RowStarts(shape, rows, leaders, states, g, t);
  }

  lemma GroupMissed(shape: GroupShape, columns: seq<Vector>, types: seq<Type>, rows: seq<Tuple>, stored: seq<Tuple>,
                    states: seq<State>, entries: Entries, t: Tuple)
    requires GroupsOk(shape, rows, stored, states, entries) && Stores(columns, types, stored)
    requires shape.keys != []
    requires GroupNotFound(entries, HashRow(shape.keys, t), SameGroup(columns, Iota(|shape.keys|), t, shape.keys))
    ensures !HasLeader(shape, Leaders(shape, rows), t)
  {
    var leaders := Leaders(shape, rows);
    if HasLeader(shape, leaders, t) {
      var g :| 0 <= g < |leaders| && KeyAt(shape, leaders[g]) == KeyAt(shape, t);
      assert g in entries;
      assert TupleAt(columns, g) == stored[g];
      EqualKeyIsTupleKey(stored[g], Iota(|shape.keys|), t, shape.keys);
      StoredKeyIsKey(shape.keys, leaders[g]);
      HashRespectsKeys(shape.keys, leaders[g], shape.keys, t);
      assert false;
    }
  }

  lemma OneMoreLeader(shape: GroupShape, leaders: seq<Tuple>, stored: seq<Tuple>, entries: Entries, t: Tuple)
    requires StoresLeaders(shape, leaders, stored) && IndexesGroups(shape, leaders, entries)
    ensures StoresLeaders(shape, leaders + [t], stored + [PickCells(shape.keys, t)])
    ensures IndexesGroups(shape, leaders + [t], entries[|stored| := HashRow(shape.keys, t)])
  {
  }

  /** A first row of its key opens a group. */
  lemma GroupOpened(shape: GroupShape, rows: seq<Tuple>, stored: seq<Tuple>, states: seq<State>, entries: Entries,
                    t: Tuple)
    requires GroupsOk(shape, rows, stored, states, entries) && shape.keys != []
    requires !HasLeader(shape, Leaders(shape, rows), t)
    ensures RowPending(shape, rows, t, stored + [PickCells(shape.keys, t)],
                       states + InitialStates(|shape.slots|),
                       entries[|stored| := HashRow(shape.keys, t)], |stored|, 0)
  {
    hide AllFolded;
    hide PartlyFolded;
    hide StoresLeaders;
    hide IndexesGroups;
    hide DistinctKeys;
    var leaders, more := Leaders(shape, rows), states + InitialStates(|shape.slots|);
    LeadersStep(shape, rows, t);
    NoMembersWithoutLeader(shape, rows, t);
    GroupAdded(shape, rows, leaders, states, t, more);
    RowStarts(shape, rows, leaders + [t], more, |stored|, t);
    LeadersDistinct(shape, rows + [t]);
    OneMoreLeader(shape, leaders, stored, entries, t);
  }

  /** Without keys every row belongs to the one group. */
  lemma GlobalGroup(shape: GroupShape, rows: seq<Tuple>, stored: seq<Tuple>, states: seq<State>, entries: Entries,
                    t: Tuple)
    requires GroupsOk(shape, rows, stored, states, entries) && shape.keys == []
    ensures RowPending(shape, rows, t, stored, states, entries, 0, 0)
  {
    assert KeyAt(shape, []) == KeyAt(shape, t);
  }

  lemma SlotStepped(shape: GroupShape, rows: seq<Tuple>, t: Tuple, stored: seq<Tuple>, states: seq<State>,
                    entries: Entries, group: nat, k: nat)
    requires RowPending(shape, rows, t, stored, states, entries, group, k) && k < |shape.slots|
    ensures Position(group, k, |shape.slots|) < |states|
    ensures var p := Position(group, k, |shape.slots|);
      RowPending(shape, rows, t, stored, states[p := StepRow(shape.slots[k], states[p], t)], entries, group, k + 1)
  {
    FoldOneSlot(shape, rows, GroupLeaders(shape, rows + [t]), states, group, t, k);
  }

  lemma RowFinished(shape: GroupShape, rows: seq<Tuple>, t: Tuple, stored: seq<Tuple>, states: seq<State>,
                    entries: Entries, group: nat)
    requires RowPending(shape, rows, t, stored, states, entries, group, |shape.slots|)
    ensures GroupsOk(shape, rows + [t], stored, states, entries)
  {
    RowFolded(shape, rows, GroupLeaders(shape, rows + [t]), states, group, t);
  }

  // ---------------------------------------------------------------------------------------
  // Emission.

  /** Slots bound to columns of the input. */
  ghost predicate SlotsBound(shape: GroupShape, types: seq<Type>) {
    forall a :: 0 <= a < |shape.slots| ==> SlotBound(shape.slots[a], types)
  }

  predicate SlotBound(slot: Slot, types: seq<Type>) {
    && (slot.input.Some? ==> slot.input.value < |types|)
    && AggregateTypeOk(slot.kind, if slot.input.Some? then Some(types[slot.input.value]) else None, slot.typ)
  }

  ghost predicate AllTypedRows(rows: seq<Tuple>, types: seq<Type>) {
    forall i :: 0 <= i < |rows| ==> TupleTyped(rows[i], types)
  }

  lemma NothingTyped(types: seq<Type>)
    ensures AllTypedRows([], types)
  {
  }

  lemma {:induction false} MembersTyped(shape: GroupShape, key: seq<Value>, rows: seq<Tuple>, types: seq<Type>)
    requires AllTypedRows(rows, types)
    ensures AllTypedRows(MembersOf(shape, key, rows), types)
  {
    if rows != [] {
      MembersTyped(shape, key, rows[..|rows| - 1], types);
    }
  }

  lemma {:induction false} InputsTyped(slot: Slot, members: seq<Tuple>, types: seq<Type>)
    requires AllTypedRows(members, types) && slot.input.Some? && slot.input.value < |types|
    ensures AllOfType(SlotInputs(slot, members), types[slot.input.value])
  {
    if members != [] {
      InputsTyped(slot, members[..|members| - 1], types);
    }
  }

  lemma SlotShown(shape: GroupShape, rows: seq<Tuple>, leaders: seq<Tuple>, states: seq<State>, types: seq<Type>,
                  g: nat, a: nat)
    requires AllFolded(shape, rows, leaders, states) && AllTypedRows(rows, types) && SlotsBound(shape, types)
    requires g < |leaders| && a < |shape.slots|
    ensures Position(g, a, |shape.slots|) < |states|
    ensures Shown(shape.slots[a].kind, shape.slots[a].typ, states[Position(g, a, |shape.slots|)])
         == SlotValue(shape.slots[a], MembersOf(shape, KeyAt(shape, leaders[g]), rows))
    ensures HasType(SlotValue(shape.slots[a], MembersOf(shape, KeyAt(shape, leaders[g]), rows)), shape.slots[a].typ)
  {
    var slot, members := shape.slots[a], MembersOf(shape, KeyAt(shape, leaders[g]), rows);
    assert SlotFolded(shape, rows, leaders, states, g, a);
    assert SlotBound(slot, types);
    MembersTyped(shape, KeyAt(shape, leaders[g]), rows, types);
    if slot.input.Some? {
      InputsTyped(slot, members, types);
    }
    StateShowsAggregate(slot.kind, slot.typ, SlotInputs(slot, members));
    var input := if slot.input.Some? then Some(types[slot.input.value]) else None;
    AggregateTyped(slot.kind, input, slot.typ, SlotInputs(slot, members));
  }

  function SlotTypes(slots: seq<Slot>): (types: seq<Type>)
    ensures |types| == |slots| && forall a :: 0 <= a < |slots| ==> types[a] == slots[a].typ
  {
    seq(|slots|, a requires 0 <= a < |slots| => slots[a].typ)
  }

  /** The output row of group g is its stored key followed by the shown states. */
  lemma GroupShown(shape: GroupShape, rows: seq<Tuple>, stored: seq<Tuple>, states: seq<State>, entries: Entries,
                   types: seq<Type>, g: nat)
    requires GroupsOk(shape, rows, stored, states, entries) && g < |stored|
    requires AllTypedRows(rows, types) && SlotsBound(shape, types)
    ensures |states| == |stored| * |shape.slots| && |stored| == |GroupLeaders(shape, rows)|
    ensures var leader := GroupLeaders(shape, rows)[g];
      var members := MembersOf(shape, KeyAt(shape, leader), rows);
      && GroupTuple(shape, leader, members) == stored[g] + SlotValues(shape.slots, members)
      && TupleTyped(SlotValues(shape.slots, members), SlotTypes(shape.slots))
      && forall a :: 0 <= a < |shape.slots| ==>
           && Position(g, a, |shape.slots|) < |states|
           && Shown(shape.slots[a].kind, shape.slots[a].typ, states[Position(g, a, |shape.slots|)])
              == SlotValues(shape.slots, members)[a]
  {
    var leaders := GroupLeaders(shape, rows);
    forall a | 0 <= a < |shape.slots|
      ensures Position(g, a, |shape.slots|) < |states|
      ensures Shown(shape.slots[a].kind, shape.slots[a].typ, states[Position(g, a, |shape.slots|)])
        == SlotValue(shape.slots[a], MembersOf(shape, KeyAt(shape, leaders[g]), rows))
      ensures HasType(SlotValue(shape.slots[a], MembersOf(shape, KeyAt(shape, leaders[g]), rows)), shape.slots[a].typ)
    {
      SlotShown(shape, rows, leaders, states, types, g, a);
    }
  }
}
