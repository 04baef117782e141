/**
 What COUNT, SUM, MIN and MAX of a list of cells are. The hash aggregation of the engine is
 proved against these definitions; the optimizer only needs that they depend on the list.
 */
module Aggregates {
  import opened Values
  import opened Sequences

  datatype AggregateKind = Count | Sum | Min | Max

  function Present(): Value -> bool {
    (v: Value) => !v.Null?
  }

  function NonNull(vs: seq<Value>): seq<Value> {
    Select(Present(), vs)
  }

  function AsInt(v: Value): int {
    if v.Int? then v.i else 0
  }

  function AsDouble(v: Value): Double {
    if v.Dbl? then v.d else Zero(false)
  }

  function ExactSum(vs: seq<Value>): int {
    if vs == [] then 0 else ExactSum(vs[..|vs| - 1]) + AsInt(vs[|vs| - 1])
  }

  /** Some running total leaves the 64-bit range. */
  predicate SomePrefixOverflows(vs: seq<Value>) {
    exists k :: 0 <= k <= |vs| && !InInt64(ExactSum(vs[..k]))
  }

  function DoubleSum(vs: seq<Value>): Double {
    if vs == [] then Zero(false) else DoubleAdd(DoubleSum(vs[..|vs| - 1]), AsDouble(vs[|vs| - 1]))
  }

  /** The cell order, or its reverse. */
  function Oriented(least: bool, a: Value, b: Value): int {
    if least then CompareCell(a, b) else CompareCell(b, a)
  }

  /** The earliest least or greatest cell. */
  function Extreme(least: bool, vs: seq<Value>): (r: Value)
    requires vs != []
  {
    var last := vs[|vs| - 1];
    if |vs| == 1 then last
    else
      var best := Extreme(least, vs[..|vs| - 1]);
      if Oriented(least, last, best) < 0 then last else best
  }

  function CountValue(n: nat): Value {
    Checked(n)
  }

  /**
   The aggregate of the non-NULL inputs of one group. `typ` is the type of the output column,
   which for SUM, MIN and MAX is the type of the input column.
   */
  function AggregateValue(kind: AggregateKind, typ: Type, vs: seq<Value>): Value {
    match kind
    case Count => CountValue(|vs|)
    case Sum =>
      if vs == [] then Null
      else if !typ.Int64Type? then Dbl(DoubleSum(vs))
      else if SomePrefixOverflows(vs) then Null
      else ExactSumValue(vs)
    case Min => if vs == [] then Null else Extreme(true, vs)
    case Max => if vs == [] then Null else Extreme(false, vs)
  }

  function ExactSumValue(vs: seq<Value>): Value
    requires !SomePrefixOverflows(vs)
  {
    assert vs[..|vs|] == vs;
    Int(ExactSum(vs))
  }

  lemma OrientedLaws(least: bool, x: Value, best: Value, y: Value)
    ensures Oriented(least, x, best) == -Oriented(least, best, x)
    ensures Oriented(least, x, best) < 0 && Oriented(least, best, y) <= 0 ==> Oriented(least, x, y) < 0
  {
    CompareAntisymmetric(x, best);
    if Oriented(least, x, best) < 0 && Oriented(least, best, y) <= 0 {
      if least {
        CompareTransitive(x, best, y);
      } else {
        CompareTransitive(y, best, x);
      }
    }
  }

  /** Position k holds the earliest of the cells that bound all others. */
  ghost predicate EarliestBound(least: bool, vs: seq<Value>, k: nat) {
    && k < |vs|
    && (forall i :: 0 <= i < |vs| ==> Oriented(least, vs[k], vs[i]) <= 0)
    && (forall i :: 0 <= i < k ==> Oriented(least, vs[k], vs[i]) < 0)
  }

  /** The extreme is a member, bounds every cell, and precedes its ties. */
  lemma {:induction false} ExtremeIsEarliestBound(least: bool, vs: seq<Value>) returns (k: nat)
    requires vs != []
    ensures EarliestBound(least, vs, k) && Extreme(least, vs) == vs[k]
  {
    var n := |vs| - 1;
    OrientedLaws(least, vs[n], vs[n], vs[n]);
    if n == 0 {
      k := 0;
    } else {
      var init := vs[..n];
      k := ExtremeIsEarliestBound(least, init);
      OrientedLaws(least, vs[n], vs[k], vs[k]);
      if Oriented(least, vs[n], vs[k]) < 0 {
        forall i | 0 <= i < n ensures Oriented(least, vs[n], vs[i]) < 0 {
          assert Oriented(least, init[k], init[i]) <= 0;
          OrientedLaws(least, vs[n], vs[k], vs[i]);
        }
        k := n;
      }
    }
  }

  lemma {:induction false} ExtremeTyped(least: bool, vs: seq<Value>, t: Type)
    requires vs != [] && forall v <- vs :: HasType(v, t)
    ensures HasType(Extreme(least, vs), t)
  {
    if |vs| > 1 {
      ExtremeTyped(least, vs[..|vs| - 1], t);
    }
  }

  /** Which input types an aggregate accepts, and the type it yields. */
  predicate AggregateTypeOk(kind: AggregateKind, input: Option<Type>, output: Type) {
    if kind.Count? then output.Int64Type?
    else input.Some? && (input.value.Int64Type? || input.value.DoubleType?) && output == input.value
  }

  lemma AggregateTyped(kind: AggregateKind, input: Option<Type>, typ: Type, vs: seq<Value>)
    requires AggregateTypeOk(kind, input, typ)
    requires !kind.Count? ==> forall v <- vs :: HasType(v, input.value)
    ensures HasType(AggregateValue(kind, typ, vs), typ)
  {
    if vs != [] && kind.Min? {
      ExtremeTyped(true, vs, typ);
    }
    if vs != [] && kind.Max? {
      ExtremeTyped(false, vs, typ);
    }
  }
}
