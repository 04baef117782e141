/** What the aggregates of a group are, told by the rows of the group. */
module GroupLaws {
  import opened Values
  import opened Sequences
  import opened Relations
  import opened Aggregates
  import opened AggregateStates
  import opened RowStore
  import opened GroupLists
  import opened CellLaws

  /** A cell is an input of the group when some row of the group has it, and it is not NULL. */
  lemma {:induction false} InputsAreCells(slot: Slot, members: seq<Tuple>, v: Value)
    ensures v in SlotInputs(slot, members) <==> !v.Null? && exists t :: t in members && SlotInput(slot, t) == v
  {
    if members != [] {
      var last, init := members[|members| - 1], members[..|members| - 1];
      InputsAreCells(slot, init, v);
      assert members == init + [last];
      if t :| t in members && SlotInput(slot, t) == v {
        assert t in init || t == last;
      }
    }
  }

  lemma EmptyInputs(slot: Slot, members: seq<Tuple>)
    ensures SlotInputs(slot, members) == [] <==> forall t <- members :: SlotInput(slot, t).Null?
  {
    forall t <- members ensures SlotInput(slot, t).Null? || SlotInput(slot, t) in SlotInputs(slot, members) {
      InputsAreCells(slot, members, SlotInput(slot, t));
    }
    if SlotInputs(slot, members) != [] {
      InputsAreCells(slot, members, SlotInputs(slot, members)[0]);
    }
  }

  lemma ExtremeBounds(least: bool, vs: seq<Value>, v: Value)
    requires v in vs
    ensures Extreme(least, vs) in vs
    ensures if least then CompareCell(Extreme(least, vs), v) <= 0 else CompareCell(v, Extreme(least, vs)) <= 0
  {
    var k := ExtremeIsEarliestBound(least, vs);
    var i :| 0 <= i < |vs| && vs[i] == v;
    assert Oriented(least, vs[k], vs[i]) <= 0;
  }

  // ---------------------------------------------------------------------------------------
  // MIN and MAX.

  ghost predicate Doubles(slot: Slot, members: seq<Tuple>) {
    forall t <- members :: SlotInput(slot, t).Null? || SlotInput(slot, t).Dbl?
  }

  ghost predicate Integers(slot: Slot, members: seq<Tuple>) {
    forall t <- members :: SlotInput(slot, t).Null? || SlotInput(slot, t).Int?
  }

  /** The group's value of MIN or MAX is a cell of the group, and bounds its cells in the cell order. */
  lemma ExtremeOfGroup(slot: Slot, members: seq<Tuple>, t: Tuple)
    requires (slot.kind.Min? || slot.kind.Max?) && t in members && !SlotInput(slot, t).Null?
    ensures exists u :: u in members && SlotInput(slot, u) == SlotValue(slot, members)
    ensures !SlotValue(slot, members).Null?
    ensures if slot.kind.Min? then CompareCell(SlotValue(slot, members), SlotInput(slot, t)) <= 0
            else CompareCell(SlotInput(slot, t), SlotValue(slot, members)) <= 0
  {
    var vs := SlotInputs(slot, members);
    InputsAreCells(slot, members, SlotInput(slot, t));
    ExtremeBounds(slot.kind.Min?, vs, SlotInput(slot, t));
    InputsAreCells(slot, members, Extreme(slot.kind.Min?, vs));
  }

  /** MIN and MAX of doubles are bounds in the reals; of no cells at all they are NULL. */
  lemma ExtremeDoubles(slot: Slot, members: seq<Tuple>)
    requires (slot.kind.Min? || slot.kind.Max?) && Doubles(slot, members)
    ensures SlotValue(slot, members).Null? <==> forall t <- members :: SlotInput(slot, t).Null?
    ensures forall t <- members :: !SlotInput(slot, t).Null? ==>
      && SlotValue(slot, members).Dbl?
      && if slot.kind.Min? then NotAbove(SlotValue(slot, members).d, SlotInput(slot, t).d)
         else NotAbove(SlotInput(slot, t).d, SlotValue(slot, members).d)
  {
    EmptyInputs(slot, members);
    forall t | t in members && !SlotInput(slot, t).Null?
      ensures SlotValue(slot, members).Dbl?
      ensures if slot.kind.Min? then NotAbove(SlotValue(slot, members).d, SlotInput(slot, t).d)
              else NotAbove(SlotInput(slot, t).d, SlotValue(slot, members).d)
    {
      ExtremeOfGroup(slot, members, t);
      var u :| u in members && SlotInput(slot, u) == SlotValue(slot, members);
      DoubleNotAbove(SlotValue(slot, members).d, SlotInput(slot, t).d);
      DoubleNotAbove(SlotInput(slot, t).d, SlotValue(slot, members).d);
    }
  }

  /** MIN and MAX of integers are bounds in the integers. */
  lemma ExtremeIntegers(slot: Slot, members: seq<Tuple>)
    requires (slot.kind.Min? || slot.kind.Max?) && Integers(slot, members)
    ensures SlotValue(slot, members).Null? <==> forall t <- members :: SlotInput(slot, t).Null?
    ensures forall t <- members :: !SlotInput(slot, t).Null? ==>
      && SlotValue(slot, members).Int?
      && if slot.kind.Min? then SlotValue(slot, members).i <= SlotInput(slot, t).i
         else SlotInput(slot, t).i <= SlotValue(slot, members).i
  {
    EmptyInputs(slot, members);
    forall t | t in members && !SlotInput(slot, t).Null?
      ensures SlotValue(slot, members).Int?
      ensures if slot.kind.Min? then SlotValue(slot, members).i <= SlotInput(slot, t).i
              else SlotInput(slot, t).i <= SlotValue(slot, members).i
    {
      ExtremeOfGroup(slot, members, t);
      var u :| u in members && SlotInput(slot, u) == SlotValue(slot, members);
    }
  }

  // ---------------------------------------------------------------------------------------
  // COUNT and SUM.

  /** The rows of the group, by position, whose cell is not NULL. */
  function Counted(slot: Slot, members: seq<Tuple>): set<nat> {
    set i: nat | i < |members| && !SlotInput(slot, members[i]).Null?
  }

  lemma {:induction false} CountInputs(slot: Slot, members: seq<Tuple>)
    ensures |SlotInputs(slot, members)| == |Counted(slot, members)|
  {
    if members != [] {
      var last, init := |members| - 1, members[..|members| - 1];
      CountInputs(slot, init);
      if SlotInput(slot, members[last]).Null? {
        assert Counted(slot, members) == Counted(slot, init);
      } else {
        assert Counted(slot, members) == Counted(slot, init) + {last};
      }
    }
  }

  /** COUNT is the number of rows with a cell that is not NULL; COUNT(*) that of all rows. */
  lemma CountOfGroup(slot: Slot, members: seq<Tuple>)
    requires slot.kind.Count? && InInt64(|members|)
    ensures |Counted(slot, members)| <= |members| && SlotValue(slot, members) == Int(|Counted(slot, members)|)
    ensures slot.input.None? ==> SlotValue(slot, members) == Int(|members|)
  {
    CountInputs(slot, members);
    CountAtMost(slot, members);
  }

  lemma {:induction false} CountAtMost(slot: Slot, members: seq<Tuple>)
    ensures |SlotInputs(slot, members)| <= |members|
    ensures slot.input.None? ==> |SlotInputs(slot, members)| == |members|
  {
    if members != [] {
      CountAtMost(slot, members[..|members| - 1]);
    }
  }

  /** The sum of the integer cells of the rows from one on. */
  function Total(slot: Slot, members: seq<Tuple>, i: nat): int
    decreases |members| - i
  {
    if i >= |members| then 0
    else (if SlotInput(slot, members[i]).Int? then SlotInput(slot, members[i]).i else 0) + Total(slot, members, i + 1)
  }

  lemma {:induction false} TotalLast(slot: Slot, init: seq<Tuple>, t: Tuple, i: nat)
    requires i <= |init|
    ensures Total(slot, init + [t], i)
         == Total(slot, init, i) + if SlotInput(slot, t).Int? then SlotInput(slot, t).i else 0
    decreases |init| - i
  {
    if i < |init| {
      TotalLast(slot, init, t, i + 1);
    }
  }

  lemma {:induction false} SumIsTotal(slot: Slot, members: seq<Tuple>)
    requires Integers(slot, members)
    ensures ExactSum(SlotInputs(slot, members)) == Total(slot, members, 0)
  {
    if members != [] {
      var t, init := members[|members| - 1], members[..|members| - 1];
      SumIsTotal(slot, init);
      assert members == init + [t];
      TotalLast(slot, init, t, 0);
      var vs := SlotInputs(slot, init);
      assert (vs + [SlotInput(slot, t)])[..|vs|] == vs;
    }
  }

  /** An integer SUM that is not NULL is the exact sum of the group's cells. */
  lemma SumOfGroup(slot: Slot, members: seq<Tuple>)
    requires slot.kind.Sum? && slot.typ == Int64Type && Integers(slot, members)
    ensures !SlotValue(slot, members).Null? ==>
      SlotValue(slot, members).Int? && SlotValue(slot, members).i == Total(slot, members, 0)
    ensures SlotValue(slot, members).Null? <==>
      (forall t <- members :: SlotInput(slot, t).Null?) || SomePrefixOverflows(SlotInputs(slot, members))
  {
    EmptyInputs(slot, members);
    SumIsTotal(slot, members);
    var vs := SlotInputs(slot, members);
    assert vs[..|vs|] == vs;
  }
}
