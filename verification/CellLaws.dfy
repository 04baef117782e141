/**
 What cells mean outside this model: doubles are ordered as the reals they stand for, strings byte
 by byte; comparisons are those of that order, logic has three truth values, and arithmetic is that
 of the integers and the reals, checked or rounded.
 */
module CellLaws {
  import opened Values
  import opened Expressions
  import opened Relations

  // ---------------------------------------------------------------------------------------
  // Order.

  predicate Numeric(d: Double) {
    d.Zero? || d.Finite?
  }

  /** The real number a zero or a finite double stands for. */
  function RealOf(d: Double): real
    requires Numeric(d)
  {
    if d.Zero? then 0.0 else d.r
  }

  /** Doubles are ordered as their reals, between the infinities, with NaN after everything. */
  lemma DoubleOrder(x: Double, y: Double)
    ensures Numeric(x) && Numeric(y) ==>
      && (CompareCell(Dbl(x), Dbl(y)) < 0 <==> RealOf(x) < RealOf(y))
      && (CompareCell(Dbl(x), Dbl(y)) == 0 <==> RealOf(x) == RealOf(y))
    ensures Numeric(x) ==>
      && CompareCell(Dbl(Infinity(true)), Dbl(x)) < 0 && CompareCell(Dbl(x), Dbl(Infinity(false))) < 0
    ensures CompareCell(Dbl(Infinity(true)), Dbl(Infinity(false))) < 0
    ensures x == y ==> CompareCell(Dbl(x), Dbl(y)) == 0
    ensures !x.NaN? ==> CompareCell(Dbl(x), Dbl(NaN)) < 0
  {
  }

  /** At most, in the reals with both infinities and NaN on top. */
  predicate NotAbove(x: Double, y: Double) {
    || y.NaN?
    || (!x.NaN? && (x == Infinity(true) || y == Infinity(false)))
    || (Numeric(x) && Numeric(y) && RealOf(x) <= RealOf(y))
  }

  lemma DoubleNotAbove(x: Double, y: Double)
    ensures CompareCell(Dbl(x), Dbl(y)) <= 0 <==> NotAbove(x, y)
  {
    DoubleOrder(x, y);
    DoubleOrder(y, x);
    CompareAntisymmetric(Dbl(x), Dbl(y));
  }

  /** At the first place where the strings differ, one has a smaller byte, or has ended. */
  ghost predicate DiffersBelow(x: Text, y: Text, k: nat) {
    && k <= |x| && k < |y| && x[..k] == y[..k]
    && (k == |x| || x[k] < y[k])
  }

  lemma {:induction false} TextLessDiffers(x: Text, y: Text) returns (k: nat)
    requires TextLess(x, y)
    ensures DiffersBelow(x, y, k)
  {
    if x == [] || x[0] != y[0] {
      k := 0;
    } else {
      var n := TextLessDiffers(x[1..], y[1..]);
      k := n + 1;
      assert x[..k] == [x[0]] + x[1..][..n] && y[..k] == [y[0]] + y[1..][..n];
    }
  }

  lemma {:induction false} DiffersTextLess(x: Text, y: Text, k: nat)
    requires DiffersBelow(x, y, k)
    ensures TextLess(x, y)
  {
    if k > 0 {
      assert x[0] == x[..k][0] == y[..k][0] == y[0];
      assert x[1..][..k - 1] == x[..k][1..] && y[1..][..k - 1] == y[..k][1..];
      DiffersTextLess(x[1..], y[1..], k - 1);
    }
  }

  /** Strings are ordered bytewise: a proper prefix first, or the smaller byte at the first difference. */
  lemma TextOrder(x: Text, y: Text)
    ensures CompareCell(Str(x), Str(y)) < 0 <==> exists k: nat :: DiffersBelow(x, y, k)
    ensures CompareCell(Str(x), Str(y)) == 0 <==> x == y
  {
    TextTotal(x, y);
    if TextLess(x, y) {
      var k := TextLessDiffers(x, y);
    }
    if k: nat :| DiffersBelow(x, y, k) {
      DiffersTextLess(x, y, k);
    }
  }

  /** Integers by value, FALSE before TRUE, NULL after everything. */
  lemma PlainOrder(i: Int64, j: Int64, b: bool, c: bool, v: Value)
    ensures CompareCell(Int(i), Int(j)) < 0 <==> i < j
    ensures CompareCell(Bool(b), Bool(c)) < 0 <==> !b && c
    ensures !v.Null? ==> CompareCell(v, Null) < 0
    ensures CompareCell(Null, Null) == 0
  {
  }

  // ---------------------------------------------------------------------------------------
  // Comparisons.

  predicate IsNaN(v: Value) {
    v.Dbl? && v.d.NaN?
  }

  predicate IsTrue(op: CompareOp, a: Value, b: Value) {
    CompareValues(op, a, b) == TRUE
  }

  /** Of two values of one type that are not NaN, exactly one is less, or they are equal: by the cell order. */
  lemma OneOfThree(a: Value, b: Value, t: Type)
    requires !a.Null? && !b.Null? && HasType(a, t) && HasType(b, t) && !IsNaN(a) && !IsNaN(b)
    ensures IsTrue(Less, a, b) <==> CompareCell(a, b) < 0
    ensures IsTrue(Equal, a, b) <==> CompareCell(a, b) == 0
    ensures IsTrue(Greater, a, b) <==> CompareCell(a, b) > 0
    ensures IsTrue(Less, a, b) || IsTrue(Equal, a, b) || IsTrue(Greater, a, b)
    ensures !(IsTrue(Less, a, b) && IsTrue(Equal, a, b)) && !(IsTrue(Less, a, b) && IsTrue(Greater, a, b))
    ensures !(IsTrue(Equal, a, b) && IsTrue(Greater, a, b))
  {
    if a.Str? {
      TextTotal(a.s, b.s);
    }
  }

  /** The other three comparisons are the negation and the disjunctions they are named after. */
  lemma DerivedComparisons(a: Value, b: Value, t: Type)
    requires HasType(a, t) && HasType(b, t)
    ensures CompareValues(NotEqual, a, b) == Not3(CompareValues(Equal, a, b))
    ensures CompareValues(LessEqual, a, b) == Or3(CompareValues(Less, a, b), CompareValues(Equal, a, b))
    ensures CompareValues(GreaterEqual, a, b) == Or3(CompareValues(Greater, a, b), CompareValues(Equal, a, b))
    ensures CompareValues(Greater, a, b) == CompareValues(Less, b, a)
  {
  }

  /** A NULL operand makes every comparison NULL, a NaN makes all but inequality FALSE. */
  lemma OddOperands(op: CompareOp, a: Value, b: Value, t: Type)
    requires HasType(a, t) && HasType(b, t)
    ensures CompareValues(op, a, b) == Null <==> a.Null? || b.Null?
    ensures !a.Null? && !b.Null? && (IsNaN(a) || IsNaN(b)) ==> CompareValues(op, a, b) == Bool(op.NotEqual?)
  {
  }

  /** Equality is TRUE exactly within one key class, and never for NULL or NaN. */
  lemma EqualIsKeyClass(a: Value, b: Value)
    ensures IsTrue(Equal, a, b) <==> JoinableCell(a) && JoinableCell(b) && Canon(a) == Canon(b)
    ensures IsTrue(Equal, a, b) ==> !a.Null? && !b.Null? && !IsNaN(a) && !IsNaN(b)
  {
  }

  /** Cells are equal keys when they are NULL together, NaN together, or equal. */
  lemma KeyClasses(a: Value, b: Value)
    ensures Canon(a) == Canon(b) <==> (a.Null? && b.Null?) || (IsNaN(a) && IsNaN(b)) || IsTrue(Equal, a, b)
  {
  }

  // ---------------------------------------------------------------------------------------
  // The same for expressions.

  /** Comparing the values of two expressions of one type. */
  function Comparing(op: CompareOp, x: Expr, y: Expr): Expr {
    Binary(Compare(op), x, y)
  }

  /** On a typed row, a comparison is TRUE exactly when the cell order says so and no NaN is compared. */
  lemma ComparisonMeaning(op: CompareOp, x: Expr, y: Expr, row: Row, env: TypeEnv)
    requires RowHasTypes(row, env) && ExpressionType(x, env).Some? && ExpressionType(x, env) == ExpressionType(y, env)
    ensures var a, b, r := Eval(x, row), Eval(y, row), Eval(Comparing(op, x, y), row);
      var c := CompareCell(a, b);
      && (r == Null <==> a.Null? || b.Null?)
      && (r != Null && (IsNaN(a) || IsNaN(b)) ==> (r == TRUE <==> op == NotEqual))
      && (r != Null && !IsNaN(a) && !IsNaN(b) ==>
            && (op == Equal ==> (r == TRUE <==> c == 0)) && (op == NotEqual ==> (r == TRUE <==> c != 0))
            && (op == Less ==> (r == TRUE <==> c < 0)) && (op == LessEqual ==> (r == TRUE <==> c <= 0))
            && (op == Greater ==> (r == TRUE <==> c > 0)) && (op == GreaterEqual ==> (r == TRUE <==> c >= 0)))
  {
    EvalTyped(x, row, env);
    EvalTyped(y, row, env);
    CellComparison(op, Eval(x, row), Eval(y, row), ExpressionType(x, env).value);
  }

  lemma CellComparison(op: CompareOp, a: Value, b: Value, t: Type)
    requires HasType(a, t) && HasType(b, t)
    ensures var c, r := CompareCell(a, b), CompareValues(op, a, b);
      && (r == Null <==> a.Null? || b.Null?)
      && (r != Null && (IsNaN(a) || IsNaN(b)) ==> (r == TRUE <==> op == NotEqual))
      && (r != Null && !IsNaN(a) && !IsNaN(b) ==>
            && (op == Equal ==> (r == TRUE <==> c == 0)) && (op == NotEqual ==> (r == TRUE <==> c != 0))
            && (op == Less ==> (r == TRUE <==> c < 0)) && (op == LessEqual ==> (r == TRUE <==> c <= 0))
            && (op == Greater ==> (r == TRUE <==> c > 0)) && (op == GreaterEqual ==> (r == TRUE <==> c >= 0)))
  {
    OddOperands(op, a, b, t);
    DerivedComparisons(a, b, t);
    if !a.Null? && !b.Null? && !IsNaN(a) && !IsNaN(b) {
      OneOfThree(a, b, t);
      OneOfThree(b, a, t);
    }
    hide CompareCell;
    hide TextLess;
    hide DoubleLess;
  }

  // ---------------------------------------------------------------------------------------
  // Logic.

  predicate IsTruth(v: Value) {
    v.Null? || v.Bool?
  }

  /** FALSE below NULL below TRUE. */
  function Truth(v: Value): int
    requires IsTruth(v)
  {
    if v.Null? then 1 else if v.b then 2 else 0
  }

  /** AND is the lesser truth, OR the greater, and NOT turns the scale around. */
  lemma LogicMeaning(a: Value, b: Value)
    requires IsTruth(a) && IsTruth(b)
    ensures IsTruth(And3(a, b)) && Truth(And3(a, b)) == if Truth(a) <= Truth(b) then Truth(a) else Truth(b)
    ensures IsTruth(Or3(a, b)) && Truth(Or3(a, b)) == if Truth(a) <= Truth(b) then Truth(b) else Truth(a)
    ensures IsTruth(Not3(a)) && Truth(Not3(a)) == 2 - Truth(a)
    ensures Not3(And3(a, b)) == Or3(Not3(a), Not3(b)) && Not3(Or3(a, b)) == And3(Not3(a), Not3(b))
  {
  }

  // ---------------------------------------------------------------------------------------
  // Arithmetic.

  /** Quotient and remainder of a division that truncates toward zero. */
  ghost predicate Divides(x: int, y: int, q: int, r: int) {
    x == q * y + r && Remains(x, y, r)
  }

  /** A remainder is smaller than the divisor and has the sign of the dividend. */
  predicate Remains(x: int, y: int, r: int) {
    Abs(r) < Abs(y) && (r > 0 ==> x > 0) && (r < 0 ==> x < 0)
  }

  lemma NatQuotient(a: nat, b: nat)
    requires b > 0
    ensures 0 <= a - (a / b) * b < b && 0 <= (a / b) * b
  {
    assert a == (a / b) * b + a % b;
  }

  lemma SignedProducts(q: int, b: int)
    ensures (-q) * (-b) == q * b && (-q) * b == -(q * b) && q * (-b) == -(q * b)
  {
  }

  lemma TruncatedQuotient(x: int, y: int)
    requires y != 0
    ensures Divides(x, y, TruncatedDivide(x, y), x - TruncatedDivide(x, y) * y)
  {
    var q: int := Abs(x) / Abs(y);
    NatQuotient(Abs(x), Abs(y));
    SignedMultiple(x, y, q, TruncatedDivide(x, y));
    RemainderSign(x, y, TruncatedDivide(x, y) * y, q * Abs(y));
  }

  lemma RemainderSign(x: int, y: int, p: int, m: int)
    requires 0 <= m && p == (if x < 0 then -m else m) && 0 <= Abs(x) - m < Abs(y)
    ensures Remains(x, y, x - p)
  {
  }

  lemma SignedMultiple(x: int, y: int, q: int, t: int)
    requires t == if (x < 0) == (y < 0) then q else -q
    ensures t * y == if x < 0 then -(q * Abs(y)) else q * Abs(y)
  {
    SignedProducts(q, y);
  }

  /** There is only one quotient. */
  lemma OneQuotient(x: int, y: int, q: int, r: int, q': int, r': int)
    requires y != 0 && Divides(x, y, q, r) && Divides(x, y, q', r')
    ensures q == q' && r == r'
  {
    assert (q - q') * y == r' - r;
    if q != q' {
      ProductAtLeast(q - q', y);
    }
  }

  lemma {:induction false} NatProduct(k: nat, n: nat)
    requires k > 0
    ensures k * n >= n
  {
    if k > 1 {
      NatProduct(k - 1, n);
      assert k * n == (k - 1) * n + n;
    }
  }

  lemma ProductAtLeast(k: int, y: int)
    requires k != 0
    ensures Abs(k * y) >= Abs(y)
  {
    NatProduct(Abs(k), Abs(y));
    SignedProducts(Abs(k), Abs(y));
    var m := Abs(k) * Abs(y);
    assert k * y == m || k * y == -m;
  }

  /** Integer arithmetic is exact, or NULL where no 64-bit integer is the exact result. */
  lemma IntegerArithmetic(x: Int64, y: Int64)
    ensures IntArith(Add, x, y) == if InInt64(x + y) then Int(x + y) else Null
    ensures IntArith(Subtract, x, y) == if InInt64(x - y) then Int(x - y) else Null
    ensures IntArith(Multiply, x, y) == if InInt64(x * y) then Int(x * y) else Null
    ensures y == 0 ==> IntArith(Divide, x, y) == Null
    ensures y != 0 && IntArith(Divide, x, y).Int? ==>
      Divides(x, y, IntArith(Divide, x, y).i, x - IntArith(Divide, x, y).i * y)
    ensures y != 0 && !IntArith(Divide, x, y).Int? ==>
      IntArith(Divide, x, y) == Null && forall q, r :: Divides(x, y, q, r) ==> !InInt64(q)
  {
    if y != 0 {
      var q := TruncatedDivide(x, y);
      TruncatedQuotient(x, y);
      TruncatedDivideInRange(x, y);
      forall p, r | Divides(x, y, p, r) ensures p == q {
        OneQuotient(x, y, p, r, q, x - q * y);
      }
    }
  }

  /** The exact result of an operation on two reals. */
  function Exact(op: ArithOp, x: real, y: real): real
    requires op == Divide ==> y != 0.0
  {
    match op
    case Add => x + y
    case Subtract => x - y
    case Multiply => x * y
    case Divide => x / y
  }

  /** A non-zero exact result is rounded; a zero is negative as the operands' signs demand. */
  lemma RoundedArithmetic(op: ArithOp, x: Double, y: Double)
    requires Numeric(x) && Numeric(y) && (op == Divide ==> RealOf(y) != 0.0)
    ensures var e := Exact(op, RealOf(x), RealOf(y));
      && (e != 0.0 ==> DoubleArith(op, x, y) == Dbl(Round(e)))
      && (e == 0.0 ==> DoubleArith(op, x, y) == Dbl(Zero(
            match op
            case Add => x.Zero? && x.negative && y.Zero? && y.negative
            case Subtract => x.Zero? && x.negative && y.Zero? && !y.negative
            case _ => Minus(x) != Minus(y))))
  {
    if op == Multiply || op == Divide {
      NonZeroProducts(x, y);
    }
  }

  /** The sign bit. */
  predicate Minus(d: Double) {
    (d.Finite? && d.r < 0.0) || (d.Zero? && d.negative) || (d.Infinity? && d.negative)
  }

  lemma NonZeroProducts(x: Double, y: Double)
    ensures x.Finite? && y.Finite? ==> x.r * y.r != 0.0 && x.r / y.r != 0.0
  {
    if x.Finite? && y.Finite? {
      assert (x.r / y.r) * y.r == x.r;
    }
  }

  /** Arithmetic with an infinity, a zero divisor or a NaN. */
  lemma OddArithmetic(op: ArithOp, x: Double, y: Double)
    ensures op == Divide && y.Zero? ==> DoubleArith(op, x, y) == Null
    ensures (x.NaN? || y.NaN?) && !(op == Divide && y.Zero?) ==> DoubleArith(op, x, y) == Dbl(NaN)
    ensures (op == Add || op == Subtract) && x.Infinity? && Numeric(y) ==> DoubleArith(op, x, y) == Dbl(x)
    ensures op == Add && Numeric(x) && y.Infinity? ==> DoubleArith(op, x, y) == Dbl(y)
    ensures op == Subtract && Numeric(x) && y.Infinity? ==> DoubleArith(op, x, y) == Dbl(Infinity(!y.negative))
    ensures op == Add && x.Infinity? && y.Infinity? ==>
      DoubleArith(op, x, y) == if x.negative == y.negative then Dbl(x) else Dbl(NaN)
    ensures op == Subtract && x.Infinity? && y.Infinity? ==>
      DoubleArith(op, x, y) == if x.negative != y.negative then Dbl(x) else Dbl(NaN)
    ensures op == Multiply && x.Infinity? && !y.NaN? ==>
      DoubleArith(op, x, y) == DoubleArith(op, y, x)
        == if y.Zero? then Dbl(NaN) else Dbl(Infinity(x.negative != Minus(y)))
    ensures op == Divide && x.Infinity? && (y.Infinity? || y.Finite?) ==>
      DoubleArith(op, x, y) == if y.Infinity? then Dbl(NaN) else Dbl(Infinity(x.negative != Minus(y)))
    ensures op == Divide && Numeric(x) && y.Infinity? ==> DoubleArith(op, x, y) == Dbl(Zero(Minus(x) != y.negative))
  {
  }
}
