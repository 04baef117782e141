/**
 Cell values of the engine: their types, the total cell order used by sorting, grouping and
 statistics, the IEEE comparisons used by expressions, and checked arithmetic.
 */
module Values {

  datatype Option<+T> = None | Some(value: T)

  const MIN_INT64: int := -0x8000_0000_0000_0000
  const MAX_INT64: int := 0x7fff_ffff_ffff_ffff

  predicate InInt64(x: int) {
    MIN_INT64 <= x <= MAX_INT64
  }

  type Int64 = x: int | InInt64(x)
  type Byte = x: int | 0 <= x < 256
  type Text = seq<Byte>
  type NonZero = r: real | r != 0.0 witness 1.0

  /** A double: one NaN (payloads are never observed), two infinities, two zeros, and the rest. */
  datatype Double = NaN | Infinity(negative: bool) | Zero(negative: bool) | Finite(r: NonZero)

  datatype Type = BooleanType | Int64Type | DoubleType | StringType

  datatype Value = Null | Bool(b: bool) | Int(i: Int64) | Dbl(d: Double) | Str(s: Text)

  predicate HasType(v: Value, t: Type) {
    match v
    case Null => true
    case Bool(_) => t.BooleanType?
    case Int(_) => t.Int64Type?
    case Dbl(_) => t.DoubleType?
    case Str(_) => t.StringType?
  }

  /** The type a non-NULL value carries with it; `value_type` throws on NULL. */
  function TypeOf(v: Value): Type
    requires !v.Null?
  {
    match v
    case Bool(_) => BooleanType
    case Int(_) => Int64Type
    case Dbl(_) => DoubleType
    case Str(_) => StringType
  }

  // ---------------------------------------------------------------------------------------
  // IEEE comparisons (IEEE 754-2008 section 5.11): NaN is unordered, the two zeros are equal.

  function Rank(d: Double): int {
    match d
    case Infinity(neg) => if neg then 0 else 2
    case Zero(_) => 1
    case Finite(_) => 1
    case NaN => 3
  }

  function Magnitude(d: Double): real {
    if d.Finite? then d.r else 0.0
  }

  predicate DoubleLess(x: Double, y: Double) {
    && !x.NaN? && !y.NaN?
    && (Rank(x) < Rank(y) || (Rank(x) == Rank(y) && Magnitude(x) < Magnitude(y)))
  }

  predicate DoubleEqual(x: Double, y: Double) {
    && !x.NaN? && !y.NaN?
    && Rank(x) == Rank(y) && Magnitude(x) == Magnitude(y)
  }

  /** Bytewise lexicographic order of strings. */
  predicate TextLess(x: Text, y: Text) {
    if x == [] || y == [] then x == [] && y != []
    else if x[0] != y[0] then x[0] < y[0]
    else TextLess(x[1..], y[1..])
  }

  // ---------------------------------------------------------------------------------------
  // The total cell order: NULL last, NaN after every other double.

  function Sign(less: bool, greater: bool): int {
    if less then -1 else if greater then 1 else 0
  }

  function CompareDouble(x: Double, y: Double): int {
    if x.NaN? || y.NaN? then (if x.NaN? then (if y.NaN? then 0 else 1) else -1)
    else Sign(DoubleLess(x, y), DoubleLess(y, x))
  }

  function Tag(v: Value): int {
    match v
    case Bool(_) => 0
    case Int(_) => 1
    case Dbl(_) => 2
    case Str(_) => 3
    case Null => 4
  }

  /** Cells of different types never meet in a typed plan; they are ordered by tag to stay total. */
  function CompareCell(a: Value, b: Value): int {
    if a.Null? || b.Null? then (if !a.Null? then -1 else if !b.Null? then 1 else 0)
    else match (a, b)
      case (Bool(x), Bool(y)) => Sign(!x && y, x && !y)
      case (Int(x), Int(y)) => Sign(x < y, x > y)
      case (Dbl(x), Dbl(y)) => CompareDouble(x, y)
      case (Str(x), Str(y)) => Sign(TextLess(x, y), TextLess(y, x))
      case _ => Sign(Tag(a) < Tag(b), Tag(a) > Tag(b))
  }

  /** The representative of a cell's key class: the two zeros share one. */
  function Canon(v: Value): Value {
    if v.Dbl? && v.d.Zero? then Dbl(Zero(false)) else v
  }

  lemma {:induction false} TextTotal(x: Text, y: Text)
    ensures TextLess(x, y) || TextLess(y, x) || x == y
    ensures !(TextLess(x, y) && TextLess(y, x))
    ensures x == y ==> !TextLess(x, y)
  {
    if x != [] && y != [] && x[0] == y[0] {
      TextTotal(x[1..], y[1..]);
      assert x == [x[0]] + x[1..] && y == [y[0]] + y[1..];
    }
  }

  lemma {:induction false} TextTransitive(x: Text, y: Text, z: Text)
    requires TextLess(x, y) && TextLess(y, z)
    ensures TextLess(x, z)
  {
    if x != [] && y != [] && z != [] && x[0] == y[0] == z[0] {
      TextTransitive(x[1..], y[1..], z[1..]);
    }
  }

  lemma CompareAntisymmetric(a: Value, b: Value)
    ensures CompareCell(a, b) == -CompareCell(b, a)
    ensures -1 <= CompareCell(a, b) <= 1
  {
    if a.Str? && b.Str? {
      TextTotal(a.s, b.s);
    }
  }

  /** Two cells compare equal exactly when they fall in one key class. */
  lemma CompareEqualIsCanon(a: Value, b: Value)
    ensures CompareCell(a, b) == 0 <==> Canon(a) == Canon(b)
  {
    if a.Str? && b.Str? {
      TextTotal(a.s, b.s);
    }
  }

  lemma CompareCongruent(a: Value, b: Value)
    ensures CompareCell(a, b) == CompareCell(Canon(a), Canon(b))
  {
  }

  /** Transitivity of the cell order, with a strict step anywhere making the whole strict. */
  lemma CompareTransitive(a: Value, b: Value, c: Value)
    requires CompareCell(a, b) <= 0 && CompareCell(b, c) <= 0
    ensures CompareCell(a, c) <= 0
    ensures CompareCell(a, b) < 0 || CompareCell(b, c) < 0 ==> CompareCell(a, c) < 0
  {
    if a.Str? && b.Str? && c.Str? {
      TextTotal(a.s, b.s);
      TextTotal(b.s, c.s);
      TextTotal(a.s, c.s);
      if TextLess(a.s, b.s) && TextLess(b.s, c.s) {
        TextTransitive(a.s, b.s, c.s);
      }
    }
  }

  // ---------------------------------------------------------------------------------------
  // Arithmetic. Integer results outside 64 bits and divisions by zero are NULL.

  /** Rounding of a non-zero exact result; left uninterpreted. */
  const Round: real -> Double

  function Negate(x: Double): Double {
    match x
    case NaN => NaN
    case Infinity(neg) => Infinity(!neg)
    case Zero(neg) => Zero(!neg)
    case Finite(r) => Finite(0.0 - r)
  }

  predicate IsNegative(x: Double) {
    match x
    case NaN => false
    case Infinity(neg) => neg
    case Zero(neg) => neg
    case Finite(r) => r < 0.0
  }

  function DoubleAdd(x: Double, y: Double): Double {
    if x.NaN? || y.NaN? then NaN
    else if x.Infinity? then (if y.Infinity? && x.negative != y.negative then NaN else x)
    else if y.Infinity? then y
    else if x.Zero? && y.Zero? then Zero(x.negative && y.negative)
    else if Magnitude(x) + Magnitude(y) == 0.0 then Zero(false)
    else Round(Magnitude(x) + Magnitude(y))
  }

  function DoubleMultiply(x: Double, y: Double): Double {
    var neg := IsNegative(x) != IsNegative(y);
    if x.NaN? || y.NaN? then NaN
    else if x.Infinity? || y.Infinity? then (if x.Zero? || y.Zero? then NaN else Infinity(neg))
    else if x.Zero? || y.Zero? then Zero(neg)
    else Round(x.r * y.r)
  }

  /** Division by a non-zero divisor; the evaluator turns a zero divisor into NULL. */
  function DoubleDivide(x: Double, y: Double): Double
    requires !y.Zero?
  {
    var neg := IsNegative(x) != IsNegative(y);
    if x.NaN? || y.NaN? then NaN
    else if x.Infinity? then (if y.Infinity? then NaN else Infinity(neg))
    else if x.Zero? || y.Infinity? then Zero(neg)
    else Round(x.r / y.r)
  }

  function Abs(x: int): nat {
    if x < 0 then -x else x
  }

  /** C++ integer division truncates toward zero. */
  function TruncatedDivide(x: int, y: int): int
    requires y != 0
  {
    var q := Abs(x) / Abs(y);
    if (x < 0) == (y < 0) then q else -q
  }

  function Checked(x: int): Value {
    if InInt64(x) then Int(x) else Null
  }

  datatype ArithOp = Add | Subtract | Multiply | Divide

  function IntArith(op: ArithOp, x: Int64, y: Int64): Value {
    match op
    case Add => Checked(x + y)
    case Subtract => Checked(x - y)
    case Multiply => Checked(x * y)
    case Divide => if y == 0 || (x == MIN_INT64 && y == -1) then Null else Checked(TruncatedDivide(x, y))
  }

  function DoubleArith(op: ArithOp, x: Double, y: Double): Value {
    match op
    case Add => Dbl(DoubleAdd(x, y))
    case Subtract => Dbl(DoubleAdd(x, Negate(y)))
    case Multiply => Dbl(DoubleMultiply(x, y))
    case Divide => if y.Zero? then Null else Dbl(DoubleDivide(x, y))
  }

  lemma QuotientHalves(a: nat, d: nat)
    requires d >= 2
    ensures 0 <= a / d && 2 * (a / d) <= a
  {
    assert (a / d) * 2 <= (a / d) * d;
  }

  /** A divisor in range gives a quotient in range except for the one excluded pair. */
  lemma TruncatedDivideInRange(x: Int64, y: Int64)
    requires y != 0
    ensures InInt64(TruncatedDivide(x, y)) <==> !(x == MIN_INT64 && y == -1)
  {
    assert InInt64(x);
    if y == 1 || y == -1 {
      assert Abs(x) / Abs(y) == Abs(x);
    } else {
      QuotientHalves(Abs(x), Abs(y));
    }
  }

  // ---------------------------------------------------------------------------------------
  // Comparisons.

  datatype CompareOp = Equal | NotEqual | Less | LessEqual | Greater | GreaterEqual

  function Decide(op: CompareOp, less: bool, equal: bool, greater: bool): bool {
    match op
    case Equal => equal
    case NotEqual => !equal
    case Less => less
    case LessEqual => less || equal
    case Greater => greater
    case GreaterEqual => greater || equal
  }

  /** The value of a comparison of two cells: NULL when either is NULL. */
  function CompareValues(op: CompareOp, a: Value, b: Value): Value {
    match (a, b)
    case (Bool(x), Bool(y)) => Bool(Decide(op, !x && y, x == y, x && !y))
    case (Int(x), Int(y)) => Bool(Decide(op, x < y, x == y, x > y))
    case (Dbl(x), Dbl(y)) => Bool(Decide(op, DoubleLess(x, y), DoubleEqual(x, y), DoubleLess(y, x)))
    case (Str(x), Str(y)) => Bool(Decide(op, TextLess(x, y), x == y, TextLess(y, x)))
    case _ => Null
  }
}
