/** The row loops of the vector evaluator: each fills one output vector over a selection. */
module Kernels {
  import opened Values
  import opened Expressions
  import opened AggregateStates
  import opened Batches

  predicate AllValid(v: Vector) {
    forall i :: 0 <= i < |v.valid| ==> v.valid[i]
  }

  /** A freshly reset vector: default payloads, all valid. */
  function ResetVector(typ: Type, n: nat): (v: Vector)
    ensures v.Valid() && v.typ == typ && |v.data| == n
  {
    Vector(typ, seq(n, _ => DefaultPayload(typ)), seq(n, _ => true))
  }

  /** Writes payload and validity of one row. */
  function Put(v: Vector, i: nat, payload: Value, valid: bool): (r: Vector)
    requires v.Valid() && i < |v.data| && !payload.Null? && HasType(payload, v.typ)
    ensures r.Valid() && r.typ == v.typ && |r.data| == |v.data|
    ensures r.CellAt(i) == if valid then payload else Null
    ensures forall k :: 0 <= k < |v.data| && k != i ==> r.CellAt(k) == v.CellAt(k)
  {
    Vector(v.typ, v.data[i := payload], v.valid[i := valid])
  }

  predicate Selects(sel: Selection, n: nat) {
    forall j :: 0 <= j < sel.Size() ==> sel.At(j) < n
  }

  /** The vector holds, on the first m selected rows, the operation applied to the operands. */
  ghost predicate Computes(op: BinaryOp, a: Vector, b: Vector, out: Vector, sel: Selection, m: nat) {
    forall j :: 0 <= j < m && j < sel.Size() ==>
      out.CellAt(sel.At(j)) == EvalBinary(op, a.CellAt(sel.At(j)), b.CellAt(sel.At(j)))
  }

  method FillLiteral(v: Value, typ: Type, n: nat) returns (out: Vector)
    requires HasType(v, typ)
    ensures out.Valid() && out.typ == typ && |out.data| == n
    ensures forall i :: 0 <= i < n ==> out.CellAt(i) == v
    ensures n > 0 && AllValid(out) ==> !v.Null?
  {
    out := Vector(typ, [], []);
    for i := 0 to n
      invariant out.Valid() && out.typ == typ && |out.data| == i
      invariant forall k :: 0 <= k < i ==> out.CellAt(k) == v && out.valid[k] == !v.Null?
    {
      out := out.AppendValue(v);
    }
    assert n > 0 ==> out.valid[0] == !v.Null?;
  }

  /** The dense comparison kernel: a column of valid integers against a constant. */
  method LessConstant(a: Vector, c: Int64, out: Vector, n: nat) returns (r: Vector)
    requires a.Valid() && a.typ == Int64Type && AllValid(a) && n <= |a.data|
    requires out.Valid() && out.typ == BooleanType && |out.data| == |a.data| && AllValid(out)
    ensures r.Valid() && r.typ == out.typ && |r.data| == |out.data|
    ensures forall i :: 0 <= i < n ==> r.CellAt(i) == EvalBinary(Compare(Less), a.CellAt(i), Int(c))
  {
    r := out;
    for i := 0 to n
      invariant r.Valid() && r.typ == BooleanType && |r.data| == |a.data| && AllValid(r)
      invariant forall k :: 0 <= k < i ==> r.CellAt(k) == EvalBinary(Compare(Less), a.CellAt(k), Int(c))
    {
      assert HasType(a.data[i], Int64Type) && a.valid[i];
      r := Put(r, i, Bool(a.data[i].i < c), true);
    }
  }

  /** The dense addition kernel on two columns of valid doubles. */
  method AddDoubles(a: Vector, b: Vector, out: Vector, n: nat) returns (r: Vector)
    requires a.Valid() && b.Valid() && a.typ == b.typ == DoubleType && AllValid(a) && AllValid(b)
    requires n <= |a.data| == |b.data|
    requires out.Valid() && out.typ == DoubleType && |out.data| == |a.data| && AllValid(out)
    ensures r.Valid() && r.typ == out.typ && |r.data| == |out.data|
    ensures forall i :: 0 <= i < n ==> r.CellAt(i) == EvalBinary(Arith(Add), a.CellAt(i), b.CellAt(i))
  {
    r := out;
    for i := 0 to n
      invariant r.Valid() && r.typ == DoubleType && |r.data| == |a.data| && AllValid(r)
      invariant forall k :: 0 <= k < i ==> r.CellAt(k) == EvalBinary(Arith(Add), a.CellAt(k), b.CellAt(k))
    {
      assert HasType(a.data[i], DoubleType) && a.valid[i];
      assert HasType(b.data[i], DoubleType) && b.valid[i];
      r := Put(r, i, Dbl(DoubleAdd(a.data[i].d, b.data[i].d)), true);
    }
  }

  /** One integer operation as the checked builtins do it: the wrapped result and whether it is exact. */
  method CheckedInt(op: ArithOp, x: Int64, y: Int64, was: Int64) returns (r: Int64, valid: bool)
    ensures IntArith(op, x, y) == if valid then Int(r) else Null
  {
    match op
    case Add =>
      WrapInRange(x + y);
      r, valid := Wrap(x + y), InInt64(x + y);
    case Subtract =>
      WrapInRange(x - y);
      r, valid := Wrap(x - y), InInt64(x - y);
    case Multiply =>
      WrapInRange(x * y);
      r, valid := Wrap(x * y), InInt64(x * y);
    case Divide =>
      valid := y != 0 && !(x == MIN_INT64 && y == -1);
      if valid {
        TruncatedDivideInRange(x, y);
        r := TruncatedDivide(x, y);
      } else {
        r := was;
      }
  }

  method CheckedDouble(op: ArithOp, x: Double, y: Double, was: Double) returns (r: Double, valid: bool)
    ensures DoubleArith(op, x, y) == if valid then Dbl(r) else Null
  {
    r, valid := was, true;
    match op
    case Add => r := DoubleAdd(x, y);
    case Subtract => r := DoubleAdd(x, Negate(y));
    case Multiply => r := DoubleMultiply(x, y);
    case Divide =>
      valid := !y.Zero?;
      if valid {
        r := DoubleDivide(x, y);
      }
  }

  /** One arithmetic row; the payloads of invalid operands are never used. */
  method ArithRow(op: ArithOp, a: Vector, b: Vector, out: Vector, i: nat) returns (r: Vector)
    requires a.Valid() && b.Valid() && out.Valid() && a.typ == b.typ == out.typ
    requires a.typ.Int64Type? || a.typ.DoubleType?
    requires i < |a.data| == |b.data| == |out.data|
    ensures r.Valid() && r.typ == out.typ && |r.data| == |out.data|
    ensures r.CellAt(i) == EvalBinary(Arith(op), a.CellAt(i), b.CellAt(i))
    ensures forall k :: 0 <= k < |out.data| && k != i ==> r.CellAt(k) == out.CellAt(k)
  {
    var valid := a.valid[i] && b.valid[i];
    assert HasType(a.data[i], a.typ) && HasType(b.data[i], a.typ) && HasType(out.data[i], a.typ);
    if !valid {
      r := Put(out, i, out.data[i], false);
    } else if a.typ.Int64Type? {
      var x;
      x, valid := CheckedInt(op, a.data[i].i, b.data[i].i, out.data[i].i);
      r := Put(out, i, Int(x), valid);
    } else {
      var x;
      x, valid := CheckedDouble(op, a.data[i].d, b.data[i].d, out.data[i].d);
      r := Put(out, i, Dbl(x), valid);
    }
  }

  method EvalArithmetic(op: ArithOp, a: Vector, b: Vector, out: Vector, sel: Selection) returns (r: Vector)
    requires a.Valid() && b.Valid() && out.Valid() && a.typ == b.typ == out.typ
    requires a.typ.Int64Type? || a.typ.DoubleType?
    requires |a.data| == |b.data| == |out.data| && Selects(sel, |a.data|)
    ensures r.Valid() && r.typ == out.typ && |r.data| == |out.data|
    ensures Computes(Arith(op), a, b, r, sel, sel.Size())
  {
    r := out;
    for j := 0 to sel.Size()
      invariant r.Valid() && r.typ == out.typ && |r.data| == |out.data|
      invariant Computes(Arith(op), a, b, r, sel, j)
    {
      r := ArithRow(op, a, b, r, sel.At(j));
    }
  }

  /** The comparison of two payloads of one type. */
  function ComparePayloads(op: CompareOp, typ: Type, x: Value, y: Value): bool
    requires !x.Null? && !y.Null? && HasType(x, typ) && HasType(y, typ)
  {
    match typ
    case BooleanType => Decide(op, !x.b && y.b, x.b == y.b, x.b && !y.b)
    case Int64Type => Decide(op, x.i < y.i, x.i == y.i, x.i > y.i)
    case DoubleType => Decide(op, DoubleLess(x.d, y.d), DoubleEqual(x.d, y.d), DoubleLess(y.d, x.d))
    case StringType => Decide(op, TextLess(x.s, y.s), x.s == y.s, TextLess(y.s, x.s))
  }

  /** One boolean row of AND, OR or a comparison. */
  method LogicRow(op: BinaryOp, a: Vector, b: Vector, out: Vector, i: nat) returns (r: Vector)
    requires a.Valid() && b.Valid() && out.Valid() && a.typ == b.typ && out.typ == BooleanType
    requires !op.Arith? && BinaryType(op, a.typ, b.typ).Some?
    requires i < |a.data| == |b.data| == |out.data|
    ensures r.Valid() && r.typ == out.typ && |r.data| == |out.data|
    ensures r.CellAt(i) == EvalBinary(op, a.CellAt(i), b.CellAt(i))
    ensures forall k :: 0 <= k < |out.data| && k != i ==> r.CellAt(k) == out.CellAt(k)
  {
    var av, bv := a.valid[i], b.valid[i];
    assert HasType(a.data[i], a.typ) && HasType(b.data[i], a.typ) && HasType(out.data[i], BooleanType);
    if op.Compare? {
      if av && bv {
        r := Put(out, i, Bool(ComparePayloads(op.compare, a.typ, a.data[i], b.data[i])), true);
      } else {
        r := Put(out, i, out.data[i], false);
      }
    } else {
      var x, y, isAnd := a.data[i].b, b.data[i].b, op.And?;
      var payload := if isAnd then x && y else x || y;
      r := Put(out, i, Bool(payload), (av && bv) || (av && x != isAnd) || (bv && y != isAnd));
    }
  }

  method EvalLogic(op: BinaryOp, a: Vector, b: Vector, out: Vector, sel: Selection) returns (r: Vector)
    requires a.Valid() && b.Valid() && out.Valid() && a.typ == b.typ && out.typ == BooleanType
    requires !op.Arith? && BinaryType(op, a.typ, b.typ).Some?
    requires |a.data| == |b.data| == |out.data| && Selects(sel, |a.data|)
    ensures r.Valid() && r.typ == out.typ && |r.data| == |out.data|
    ensures Computes(op, a, b, r, sel, sel.Size())
  {
    r := out;
    for j := 0 to sel.Size()
      invariant r.Valid() && r.typ == BooleanType && |r.data| == |out.data|
      invariant Computes(op, a, b, r, sel, j)
    {
      r := LogicRow(op, a, b, r, sel.At(j));
    }
  }

  method EvalUnaryRows(op: UnaryOp, a: Vector, out: Vector, sel: Selection) returns (r: Vector)
    requires a.Valid() && out.Valid() && out.typ == BooleanType && AllValid(out)
    requires op.Not? ==> a.typ == BooleanType
    requires |a.data| == |out.data| && Selects(sel, |a.data|)
    ensures r.Valid() && r.typ == BooleanType && |r.data| == |out.data|
    ensures forall j :: 0 <= j < sel.Size() ==> r.CellAt(sel.At(j)) == EvalUnary(op, a.CellAt(sel.At(j)))
  {
    r := out;
    for j := 0 to sel.Size()
      invariant r.Valid() && r.typ == BooleanType && |r.data| == |out.data|
      invariant op.IsNull? ==> AllValid(r)
      invariant forall k :: 0 <= k < j ==> r.CellAt(sel.At(k)) == EvalUnary(op, a.CellAt(sel.At(k)))
    {
      var i := sel.At(j);
      assert HasType(a.data[i], a.typ);
      if op.IsNull? {
        r := Put(r, i, Bool(!a.valid[i]), r.valid[i]);
      } else {
        r := Put(r, i, Bool(!a.data[i].b), a.valid[i]);
      }
    }
  }
}
