/** Grouping as a list of positional rows: groups in order of first appearance. */
module GroupLists {
  import opened Values
  import opened Sequences
  import opened Relations
  import opened Aggregates
  import opened AggregateStates
  import opened RowStore

  /** One aggregate of the operator: its kind, its bound input column, its output type. */
  datatype Slot = Slot(kind: AggregateKind, input: Option<nat>, typ: Type)

  datatype GroupShape = GroupShape(keys: seq<nat>, slots: seq<Slot>)

  function KeyAt(shape: GroupShape, t: Tuple): seq<Value> {
    TupleKey(shape.keys, t)
  }

  predicate HasLeader(shape: GroupShape, leaders: seq<Tuple>, t: Tuple) {
    exists g :: 0 <= g < |leaders| && KeyAt(shape, leaders[g]) == KeyAt(shape, t)
  }

  /** The first row of each group. */
  function Leaders(shape: GroupShape, rows: seq<Tuple>): seq<Tuple> {
    if rows == [] then [] else
      var t, leaders := rows[|rows| - 1], Leaders(shape, rows[..|rows| - 1]);
      if HasLeader(shape, leaders, t) then leaders else leaders + [t]
  }

  /** The rows of one group, in input order. */
  function MembersOf(shape: GroupShape, key: seq<Value>, rows: seq<Tuple>): seq<Tuple> {
    if rows == [] then [] else
      var t, members := rows[|rows| - 1], MembersOf(shape, key, rows[..|rows| - 1]);
      if KeyAt(shape, t) == key then members + [t] else members
  }

  /** COUNT(*) counts rows; the other aggregates skip NULL. */
  function SlotInput(slot: Slot, t: Tuple): Value {
    if slot.input.None? then Bool(true) else CellOf(t, slot.input.value)
  }

  function SlotInputs(slot: Slot, members: seq<Tuple>): seq<Value> {
    if members == [] then [] else
      var v, vs := SlotInput(slot, members[|members| - 1]), SlotInputs(slot, members[..|members| - 1]);
      if v.Null? then vs else vs + [v]
  }

  function SlotValue(slot: Slot, members: seq<Tuple>): Value {
    AggregateValue(slot.kind, slot.typ, SlotInputs(slot, members))
  }

  function SlotValues(slots: seq<Slot>, members: seq<Tuple>): (t: Tuple)
    ensures |t| == |slots| && forall a :: 0 <= a < |t| ==> t[a] == SlotValue(slots[a], members)
  {
    seq(|slots|, a requires 0 <= a < |slots| => SlotValue(slots[a], members))
  }

  /** The output row of one group. */
  function GroupTuple(shape: GroupShape, leader: Tuple, members: seq<Tuple>): Tuple {
    PickCells(shape.keys, leader) + SlotValues(shape.slots, members)
  }

  /** The groups of the input: without keys there is one group, even for no rows. */
  function GroupLeaders(shape: GroupShape, rows: seq<Tuple>): seq<Tuple> {
    if shape.keys == [] then [[]] else Leaders(shape, rows)
  }

  /** The output rows of the groups from g on. */
  function GroupsFrom(shape: GroupShape, rows: seq<Tuple>, leaders: seq<Tuple>, g: nat): seq<Tuple>
    decreases |leaders| - g
  {
    if g >= |leaders| then []
    else [GroupTuple(shape, leaders[g], MembersOf(shape, KeyAt(shape, leaders[g]), rows))]
         + GroupsFrom(shape, rows, leaders, g + 1)
  }

  function GroupTuples(shape: GroupShape, rows: seq<Tuple>): seq<Tuple> {
    GroupsFrom(shape, rows, GroupLeaders(shape, rows), 0)
  }

  lemma NextGroup(shape: GroupShape, rows: seq<Tuple>, leaders: seq<Tuple>, g: nat)
    requires g < |leaders|
    ensures Splits(GroupsFrom(shape, rows, leaders, g),
                   [GroupTuple(shape, leaders[g], MembersOf(shape, KeyAt(shape, leaders[g]), rows))],
                   GroupsFrom(shape, rows, leaders, g + 1))
  {
  }

  lemma NoMoreGroups(shape: GroupShape, rows: seq<Tuple>, leaders: seq<Tuple>, g: nat)
    requires g >= |leaders|
    ensures GroupsFrom(shape, rows, leaders, g) == []
  {
  }

  // ---------------------------------------------------------------------------------------
  // One more row.

  lemma LeadersStep(shape: GroupShape, rows: seq<Tuple>, t: Tuple)
    ensures Leaders(shape, rows + [t])
         == if HasLeader(shape, Leaders(shape, rows), t) then Leaders(shape, rows) else Leaders(shape, rows) + [t]
  {
    assert (rows + [t])[..|rows|] == rows;
  }

  lemma MembersStep(shape: GroupShape, key: seq<Value>, rows: seq<Tuple>, t: Tuple)
    ensures MembersOf(shape, key, rows + [t])
         == if KeyAt(shape, t) == key then MembersOf(shape, key, rows) + [t] else MembersOf(shape, key, rows)
  {
    assert (rows + [t])[..|rows|] == rows;
  }

  lemma InputsStep(slot: Slot, members: seq<Tuple>, t: Tuple)
    ensures SlotInputs(slot, members + [t])
         == if SlotInput(slot, t).Null? then SlotInputs(slot, members)
            else SlotInputs(slot, members) + [SlotInput(slot, t)]
  {
    assert (members + [t])[..|members|] == members;
  }

  /** The state of a slot after one more row: NULL inputs change nothing. */
  function StepRow(slot: Slot, s: State, t: Tuple): State {
    if SlotInput(slot, t).Null? then s else StepState(slot.kind, s, SlotInput(slot, t))
  }

  lemma FoldStep(slot: Slot, members: seq<Tuple>, t: Tuple)
    ensures FoldState(slot.kind, SlotInputs(slot, members + [t]))
         == StepRow(slot, FoldState(slot.kind, SlotInputs(slot, members)), t)
  {
    InputsStep(slot, members, t);
    var vs, v := SlotInputs(slot, members), SlotInput(slot, t);
    if !v.Null? {
      assert (vs + [v])[..|vs|] == vs;
    }
  }

  ghost predicate DistinctKeys(shape: GroupShape, leaders: seq<Tuple>) {
    forall g, h :: 0 <= g < h < |leaders| ==> KeyAt(shape, leaders[g]) != KeyAt(shape, leaders[h])
  }

  lemma {:induction false} LeadersDistinct(shape: GroupShape, rows: seq<Tuple>)
    ensures DistinctKeys(shape, Leaders(shape, rows))
  {
    if rows != [] {
      var t, leaders := rows[|rows| - 1], Leaders(shape, rows[..|rows| - 1]);
      LeadersDistinct(shape, rows[..|rows| - 1]);
      assert DistinctKeys(shape, leaders);
    }
  }

  lemma LeaderStays(shape: GroupShape, rows: seq<Tuple>, t: Tuple)
    requires rows != [] && HasLeader(shape, Leaders(shape, rows[..|rows| - 1]), t)
    ensures HasLeader(shape, Leaders(shape, rows), t)
  {
    var leaders := Leaders(shape, rows[..|rows| - 1]);
    var g :| 0 <= g < |leaders| && KeyAt(shape, leaders[g]) == KeyAt(shape, t);
    assert Leaders(shape, rows)[g] == leaders[g];
  }

  lemma LastHasLeader(shape: GroupShape, rows: seq<Tuple>)
    requires rows != []
    ensures HasLeader(shape, Leaders(shape, rows), rows[|rows| - 1])
  {
    var t, leaders := rows[|rows| - 1], Leaders(shape, rows[..|rows| - 1]);
    if !HasLeader(shape, leaders, t) {
      assert Leaders(shape, rows)[|leaders|] == t;
    }
  }

  lemma SameKeySameLeader(shape: GroupShape, leaders: seq<Tuple>, t: Tuple, u: Tuple)
    requires HasLeader(shape, leaders, t) && KeyAt(shape, t) == KeyAt(shape, u)
    ensures HasLeader(shape, leaders, u)
  {
  }

  lemma {:induction false} NoMembersWithoutLeader(shape: GroupShape, rows: seq<Tuple>, t: Tuple)
    requires !HasLeader(shape, Leaders(shape, rows), t)
    ensures MembersOf(shape, KeyAt(shape, t), rows) == []
  {
    if rows != [] {
      var last, init := rows[|rows| - 1], rows[..|rows| - 1];
      if HasLeader(shape, Leaders(shape, init), t) {
        LeaderStays(shape, rows, t);
        assert false;
      }
      NoMembersWithoutLeader(shape, init, t);
      if KeyAt(shape, last) == KeyAt(shape, t) {
        LastHasLeader(shape, rows);
        SameKeySameLeader(shape, Leaders(shape, rows), last, t);
        assert false;
      }
    }
  }

  // ---------------------------------------------------------------------------------------
  // The flat, group-major state vector.

  /** The position of slot a of group g. */
  function Position(g: nat, a: nat, width: nat): nat {
    g * width + a
  }

  lemma {:induction false} BlocksInOrder(g: nat, h: nat, width: nat)
    requires g < h
    ensures g * width + width <= h * width
  {
    if g + 1 < h {
      BlocksInOrder(g, h - 1, width);
    }
    assert h * width == (h - 1) * width + width;
  }

  lemma PositionsApart(g: nat, a: nat, h: nat, b: nat, width: nat)
    requires a < width && b < width
    ensures Position(g, a, width) == Position(h, b, width) <==> g == h && a == b
  {
    if g < h {
      BlocksInOrder(g, h, width);
    } else if h < g {
      BlocksInOrder(h, g, width);
    }
  }

  /** The state of one slot of one group is the fold over the group's rows. */
  ghost predicate SlotFolded(shape: GroupShape, rows: seq<Tuple>, leaders: seq<Tuple>, states: seq<State>,
                             g: nat, a: nat) {
    g < |leaders| && a < |shape.slots| ==>
      && Position(g, a, |shape.slots|) < |states|
      && states[Position(g, a, |shape.slots|)]
         == FoldState(shape.slots[a].kind,
                      SlotInputs(shape.slots[a], MembersOf(shape, KeyAt(shape, leaders[g]), rows)))
  }

  ghost predicate AllFolded(shape: GroupShape, rows: seq<Tuple>, leaders: seq<Tuple>, states: seq<State>) {
    && |states| == |leaders| * |shape.slots|
    && forall g: nat, a: nat :: SlotFolded(shape, rows, leaders, states, g, a)
  }

  /** During the update for one row: the first k slots of its group include it, nothing else does. */
  ghost predicate PartlyFolded(shape: GroupShape, rows: seq<Tuple>, leaders: seq<Tuple>, states: seq<State>,
                               group: nat, t: Tuple, k: nat) {
    && |states| == |leaders| * |shape.slots|
    && (forall g: nat, a: nat :: g != group || a >= k ==> SlotFolded(shape, rows, leaders, states, g, a))
    && (forall a: nat :: a < k ==> SlotFolded(shape, rows + [t], leaders, states, group, a))
  }

  lemma RowStarts(shape: GroupShape, rows: seq<Tuple>, leaders: seq<Tuple>, states: seq<State>, group: nat, t: Tuple)
    requires AllFolded(shape, rows, leaders, states)
    ensures PartlyFolded(shape, rows, leaders, states, group, t, 0)
  {
  }

  lemma FoldOneSlot(shape: GroupShape, rows: seq<Tuple>, leaders: seq<Tuple>, states: seq<State>,
                    group: nat, t: Tuple, k: nat)
    requires PartlyFolded(shape, rows, leaders, states, group, t, k)
    requires group < |leaders| && k < |shape.slots| && KeyAt(shape, leaders[group]) == KeyAt(shape, t)
    ensures Position(group, k, |shape.slots|) < |states|
    ensures var p := Position(group, k, |shape.slots|);
      PartlyFolded(shape, rows, leaders, states[p := StepRow(shape.slots[k], states[p], t)], group, t, k + 1)
  {
    var width := |shape.slots|;
    var p := Position(group, k, width);
    assert SlotFolded(shape, rows, leaders, states, group, k);
    var next := states[p := StepRow(shape.slots[k], states[p], t)];
    forall g: nat, a: nat | g != group || a >= k + 1 ensures SlotFolded(shape, rows, leaders, next, g, a) {
      assert SlotFolded(shape, rows, leaders, states, g, a);
      if a < width {
        PositionsApart(group, k, g, a, width);
      }
    }
    forall a: nat | a < k + 1 ensures SlotFolded(shape, rows + [t], leaders, next, group, a) {
      PositionsApart(group, k, group, a, width);
      if a < k {
        assert SlotFolded(shape, rows + [t], leaders, states, group, a);
      } else {
        MembersStep(shape, KeyAt(shape, t), rows, t);
        FoldStep(shape.slots[k], MembersOf(shape, KeyAt(shape, t), rows), t);
      }
    }
  }

  /** Once its group has taken the row, every state has. */
  lemma RowFolded(shape: GroupShape, rows: seq<Tuple>, leaders: seq<Tuple>, states: seq<State>, group: nat, t: Tuple)
    requires PartlyFolded(shape, rows, leaders, states, group, t, |shape.slots|)
    requires group < |leaders| && KeyAt(shape, leaders[group]) == KeyAt(shape, t)
    requires DistinctKeys(shape, leaders)
    ensures AllFolded(shape, rows + [t], leaders, states)
  {
    forall g: nat, a: nat ensures SlotFolded(shape, rows + [t], leaders, states, g, a) {
      if g < |leaders| && a < |shape.slots| {
        if g == group {
          assert SlotFolded(shape, rows + [t], leaders, states, group, a);
        } else {
          assert SlotFolded(shape, rows, leaders, states, g, a);
          MembersStep(shape, KeyAt(shape, leaders[g]), rows, t);
        }
      }
    }
  }

  function InitialStates(n: nat): (s: seq<State>)
    ensures |s| == n && forall i :: 0 <= i < n ==> s[i] == INITIAL
  {
    seq(n, _ => INITIAL)
  }

  /** A new group starts with initial states. */
  lemma GroupAdded(shape: GroupShape, rows: seq<Tuple>, leaders: seq<Tuple>, states: seq<State>, t: Tuple,
                   more: seq<State>)
    requires AllFolded(shape, rows, leaders, states) && MembersOf(shape, KeyAt(shape, t), rows) == []
    requires more == states + InitialStates(|shape.slots|)
    ensures AllFolded(shape, rows, leaders + [t], more)
  {
    var width := |shape.slots|;
    forall g: nat, a: nat ensures SlotFolded(shape, rows, leaders + [t], more, g, a) {
      if g < |leaders| {
        assert SlotFolded(shape, rows, leaders, states, g, a);
      } else if g == |leaders| && a < width {
        assert Position(g, a, width) == |states| + a;
      }
    }
    assert (|leaders| + 1) * width == |leaders| * width + width;
  }
}
