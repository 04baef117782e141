/**
 The accumulator of one aggregate of one group, as the engine updates it row by row, and the
 proof that it ends at the value the list definitions give.
 */
module AggregateStates {
  import opened Values
  import opened Aggregates

  datatype State = State(integer: int, floating: Double, seen: bool, overflow: bool)

  const INITIAL: State := State(0, Zero(false), false, false)

  /** The two's-complement value an overflowing 64-bit addition leaves behind. */
  function Wrap(x: int): int {
    (x - MIN_INT64) % 0x1_0000_0000_0000_0000 + MIN_INT64
  }

  function StepInt(kind: AggregateKind, s: State, x: Int64): State {
    match kind
    case Count => s.(integer := s.integer + 1, seen := true)
    case Sum => s.(integer := Wrap(s.integer + x), overflow := s.overflow || !InInt64(s.integer + x), seen := true)
    case Min => if !s.seen || x < s.integer then s.(integer := x, seen := true) else s
    case Max => if !s.seen || x > s.integer then s.(integer := x, seen := true) else s
  }

  function StepDouble(kind: AggregateKind, s: State, x: Double): State {
    var smaller := if s.floating.NaN? then !x.NaN? else DoubleLess(x, s.floating);
    var larger := if x.NaN? then !s.floating.NaN? else DoubleLess(s.floating, x);
    match kind
    case Count => s.(integer := s.integer + 1, seen := true)
    case Sum => s.(floating := DoubleAdd(s.floating, x), seen := true)
    case Min => if !s.seen || smaller then s.(floating := x, seen := true) else s
    case Max => if !s.seen || larger then s.(floating := x, seen := true) else s
  }

  /** One non-NULL input. */
  function StepState(kind: AggregateKind, s: State, v: Value): State {
    if kind.Count? then s.(integer := s.integer + 1, seen := true)
    else if v.Int? then StepInt(kind, s, v.i)
    else if v.Dbl? then StepDouble(kind, s, v.d)
    else s
  }

  function FoldState(kind: AggregateKind, vs: seq<Value>): State {
    if vs == [] then INITIAL else StepState(kind, FoldState(kind, vs[..|vs| - 1]), vs[|vs| - 1])
  }

  /** The value a finished state is shown as. */
  function Shown(kind: AggregateKind, typ: Type, s: State): Value {
    if !kind.Count? && (!s.seen || s.overflow) then Null
    else if typ.Int64Type? then Checked(s.integer)
    else Dbl(s.floating)
  }

  ghost predicate AllOfType(vs: seq<Value>, typ: Type) {
    forall i :: 0 <= i < |vs| ==> !vs[i].Null? && HasType(vs[i], typ)
  }

  lemma {:induction false} CountState(vs: seq<Value>)
    ensures FoldState(Count, vs).integer == |vs|
  {
    if vs != [] {
      CountState(vs[..|vs| - 1]);
    }
  }

  lemma PrefixOverflowStep(vs: seq<Value>)
    requires vs != []
    ensures SomePrefixOverflows(vs) <==> SomePrefixOverflows(vs[..|vs| - 1]) || !InInt64(ExactSum(vs))
  {
    var init := vs[..|vs| - 1];
    if SomePrefixOverflows(vs) {
      var k :| 0 <= k <= |vs| && !InInt64(ExactSum(vs[..k]));
      if k == |vs| {
        assert vs[..k] == vs;
      } else {
        assert init[..k] == vs[..k];
      }
    }
    if SomePrefixOverflows(init) {
      var k :| 0 <= k <= |init| && !InInt64(ExactSum(init[..k]));
      assert vs[..k] == init[..k];
    }
    if !InInt64(ExactSum(vs)) {
      assert vs[..|vs|] == vs;
    }
  }

  lemma WrapInRange(x: int)
    ensures InInt64(Wrap(x)) && (InInt64(x) ==> Wrap(x) == x)
  {
  }

  /** The overflow flag is set exactly when some running total leaves 64 bits; until then the total is exact. */
  lemma {:induction false} SumState(vs: seq<Value>)
    requires AllOfType(vs, Int64Type)
    ensures var s := FoldState(Sum, vs);
      && InInt64(s.integer)
      && (s.overflow <==> SomePrefixOverflows(vs))
      && (!s.overflow ==> s.integer == ExactSum(vs))
      && (s.seen <==> vs != [])
  {
    if vs == [] {
      assert vs[..0] == [];
    } else {
      var init := vs[..|vs| - 1];
      SumState(init);
      PrefixOverflowStep(vs);
      WrapInRange(FoldState(Sum, init).integer + vs[|vs| - 1].i);
    }
  }

  lemma {:induction false} DoubleSumState(vs: seq<Value>)
    requires AllOfType(vs, DoubleType)
    ensures var s := FoldState(Sum, vs);
      s.floating == DoubleSum(vs) && !s.overflow && (s.seen <==> vs != [])
  {
    if vs != [] {
      DoubleSumState(vs[..|vs| - 1]);
    }
  }

  lemma {:induction false} ExtremeOfInts(least: bool, vs: seq<Value>)
    requires AllOfType(vs, Int64Type)
    ensures var s := FoldState(if least then Min else Max, vs);
      && (s.seen <==> vs != []) && !s.overflow
      && (vs != [] ==> InInt64(s.integer) && Extreme(least, vs) == Int(s.integer))
  {
    if vs != [] {
      ExtremeOfInts(least, vs[..|vs| - 1]);
    }
  }

  lemma {:induction false} ExtremeOfDoubles(least: bool, vs: seq<Value>)
    requires AllOfType(vs, DoubleType)
    ensures var s := FoldState(if least then Min else Max, vs);
      && (s.seen <==> vs != []) && !s.overflow
      && (vs != [] ==> Extreme(least, vs) == Dbl(s.floating))
  {
    if vs != [] {
      ExtremeOfDoubles(least, vs[..|vs| - 1]);
    }
  }

  /** Folding the states shows the aggregate of the inputs. */
  lemma StateShowsAggregate(kind: AggregateKind, typ: Type, vs: seq<Value>)
    requires if kind.Count? then typ.Int64Type? else (typ.Int64Type? || typ.DoubleType?) && AllOfType(vs, typ)
    ensures Shown(kind, typ, FoldState(kind, vs)) == AggregateValue(kind, typ, vs)
  {
    match kind
    case Count => CountState(vs);
    case Sum =>
      if typ.Int64Type? {
        SumState(vs);
      } else {
        DoubleSumState(vs);
      }
    case Min =>
      if typ.Int64Type? {
        ExtremeOfInts(true, vs);
      } else {
        ExtremeOfDoubles(true, vs);
      }
    case Max =>
      if typ.Int64Type? {
        ExtremeOfInts(false, vs);
      } else {
        ExtremeOfDoubles(false, vs);
      }
  }
}
