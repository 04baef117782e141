/**
 Expressions over typed columns: their types, the columns they read, structural equality, and a
 recursive row semantics in SQL's three-valued logic (ISO/IEC 9075:1992 section 8.12).
 */
module Expressions {
  import opened Values

  type ColumnId = nat
  type Row = map<ColumnId, Value>
  type TypeEnv = map<ColumnId, Type>

  datatype UnaryOp = Not | IsNull
  datatype BinaryOp = Arith(arith: ArithOp) | Compare(compare: CompareOp) | And | Or

  datatype Expr =
    | Column(id: ColumnId)
    | Literal(literal: Value, literalType: Type)
    | Unary(unary: UnaryOp, operand: Expr)
    | Binary(op: BinaryOp, left: Expr, right: Expr)

  const TRUE: Value := Bool(true)
  const FALSE: Value := Bool(false)

  function And3(a: Value, b: Value): Value {
    if a == FALSE || b == FALSE then FALSE else if a == TRUE && b == TRUE then TRUE else Null
  }

  function Or3(a: Value, b: Value): Value {
    if a == TRUE || b == TRUE then TRUE else if a == FALSE && b == FALSE then FALSE else Null
  }

  function Not3(a: Value): Value {
    if a.Bool? then Bool(!a.b) else Null
  }

  function ArithValues(op: ArithOp, a: Value, b: Value): Value {
    if a.Int? && b.Int? then IntArith(op, a.i, b.i)
    else if a.Dbl? && b.Dbl? then DoubleArith(op, a.d, b.d)
    else Null
  }

  function EvalUnary(op: UnaryOp, a: Value): Value {
    if op.Not? then Not3(a) else Bool(a.Null?)
  }

  function EvalBinary(op: BinaryOp, a: Value, b: Value): Value {
    match op
    case Arith(arith) => ArithValues(arith, a, b)
    case Compare(compare) => CompareValues(compare, a, b)
    case And => And3(a, b)
    case Or => Or3(a, b)
  }

  /** The meaning of an expression on one row. */
  function Eval(e: Expr, row: Row): Value {
    match e
    case Column(id) => if id in row then row[id] else Null
    case Literal(v, _) => v
    case Unary(op, a) => EvalUnary(op, Eval(a, row))
    case Binary(op, a, b) => EvalBinary(op, Eval(a, row), Eval(b, row))
  }

  function Refs(e: Expr): set<ColumnId> {
    match e
    case Column(id) => {id}
    case Literal(_, _) => {}
    case Unary(_, a) => Refs(a)
    case Binary(_, a, b) => Refs(a) + Refs(b)
  }

  function UnaryType(op: UnaryOp, a: Type): Option<Type> {
    if op.Not? && !a.BooleanType? then None else Some(BooleanType)
  }

  function BinaryType(op: BinaryOp, a: Type, b: Type): Option<Type> {
    if a != b then None
    else match op
      case Arith(_) => if a.Int64Type? || a.DoubleType? then Some(a) else None
      case Compare(_) => Some(BooleanType)
      case _ => if a.BooleanType? then Some(BooleanType) else None
  }

  /** The type of an expression, or None where `expression_type` throws. */
  function ExpressionType(e: Expr, env: TypeEnv): Option<Type> {
    match e
    case Column(id) => if id in env then Some(env[id]) else None
    case Literal(v, t) => if HasType(v, t) then Some(t) else None
    case Unary(op, a) =>
      var ta := ExpressionType(a, env);
      if ta.None? then None else UnaryType(op, ta.value)
    case Binary(op, a, b) =>
      var ta, tb := ExpressionType(a, env), ExpressionType(b, env);
      if ta.None? || tb.None? then None else BinaryType(op, ta.value, tb.value)
  }

  /** Every column of the environment is present in the row with a value of its type. */
  predicate RowHasTypes(row: Row, env: TypeEnv) {
    && row.Keys == env.Keys
    && forall id <- env.Keys :: HasType(row[id], env[id])
  }

  lemma EvalBinaryTyped(op: BinaryOp, a: Value, b: Value, ta: Type, tb: Type)
    requires HasType(a, ta) && HasType(b, tb) && BinaryType(op, ta, tb).Some?
    ensures HasType(EvalBinary(op, a, b), BinaryType(op, ta, tb).value)
  {
  }

  /** A well-typed expression yields NULL or a value of its type. */
  lemma {:induction false} EvalTyped(e: Expr, row: Row, env: TypeEnv)
    requires ExpressionType(e, env).Some? && RowHasTypes(row, env)
    ensures HasType(Eval(e, row), ExpressionType(e, env).value)
  {
    match e
    case Column(_) =>
    case Literal(_, _) =>
    case Unary(_, a) =>
      EvalTyped(a, row, env);
    case Binary(op, a, b) =>
      EvalTyped(a, row, env);
      EvalTyped(b, row, env);
      EvalBinaryTyped(op, Eval(a, row), Eval(b, row),
                      ExpressionType(a, env).value, ExpressionType(b, env).value);
  }

  lemma {:induction false} RefsTyped(e: Expr, env: TypeEnv)
    requires ExpressionType(e, env).Some?
    ensures Refs(e) <= env.Keys
  {
    match e
    case Column(_) =>
    case Literal(_, _) =>
    case Unary(_, a) => RefsTyped(a, env);
    case Binary(_, a, b) => RefsTyped(a, env); RefsTyped(b, env);
  }

  /** Type environments that agree on the referenced columns give the same type. */
  lemma {:induction false} TypeDependsOnRefs(e: Expr, env: TypeEnv, env': TypeEnv)
    requires forall id <- Refs(e) :: (id in env <==> id in env') && (id in env ==> env[id] == env'[id])
    ensures ExpressionType(e, env) == ExpressionType(e, env')
  {
    match e
    case Column(_) =>
      assert e.id in Refs(e);
    case Literal(_, _) =>
    case Unary(_, a) => TypeDependsOnRefs(a, env, env');
    case Binary(_, a, b) => TypeDependsOnRefs(a, env, env'); TypeDependsOnRefs(b, env, env');
  }

  function Cell(row: Row, id: ColumnId): Value {
    if id in row then row[id] else Null
  }

  /** Rows that agree on the referenced columns give the same value. */
  lemma {:induction false} EvalDependsOnRefs(e: Expr, row: Row, row': Row)
    requires forall id <- Refs(e) :: Cell(row, id) == Cell(row', id)
    ensures Eval(e, row) == Eval(e, row')
  {
    match e
    case Column(_) =>
      assert e.id in Refs(e);
      assert Cell(row, e.id) == Cell(row', e.id);
    case Literal(_, _) =>
    case Unary(_, a) => EvalDependsOnRefs(a, row, row');
    case Binary(_, a, b) => EvalDependsOnRefs(a, row, row'); EvalDependsOnRefs(b, row, row');
  }

  // ---------------------------------------------------------------------------------------
  // Key classes are a congruence: an expression cannot tell the two zeros apart, except by
  // returning a zero of the other sign.

  lemma ArithCongruent(op: ArithOp, a: Double, b: Double, a': Double, b': Double)
    requires Canon(Dbl(a)) == Canon(Dbl(a')) && Canon(Dbl(b)) == Canon(Dbl(b'))
    ensures Canon(DoubleArith(op, a, b)) == Canon(DoubleArith(op, a', b'))
  {
  }

  lemma BinaryCongruent(op: BinaryOp, a: Value, b: Value, a': Value, b': Value)
    requires Canon(a) == Canon(a') && Canon(b) == Canon(b')
    ensures Canon(EvalBinary(op, a, b)) == Canon(EvalBinary(op, a', b'))
  {
    if op.Arith? && a.Dbl? && b.Dbl? {
      ArithCongruent(op.arith, a.d, b.d, a'.d, b'.d);
    }
  }

  /** Predicates cannot tell equal keys apart. */
  lemma {:induction false} EvalCongruent(e: Expr, row: Row, row': Row)
    requires forall id <- Refs(e) :: Canon(Cell(row, id)) == Canon(Cell(row', id))
    ensures Canon(Eval(e, row)) == Canon(Eval(e, row'))
  {
    match e
    case Column(_) =>
      assert e.id in Refs(e);
      assert Canon(Cell(row, e.id)) == Canon(Cell(row', e.id));
    case Literal(_, _) =>
    case Unary(_, a) => EvalCongruent(a, row, row');
    case Binary(op, a, b) =>
      EvalCongruent(a, row, row');
      EvalCongruent(b, row, row');
      BinaryCongruent(op, Eval(a, row), Eval(b, row), Eval(a, row'), Eval(b, row'));
  }

  // ---------------------------------------------------------------------------------------
  // Structural equality. Literals compare as C++ variants do, so a NaN literal differs from
  // itself unless both sides share one node; `shared` stands for that pointer comparison.

  type Sharing = (Expr, Expr) -> bool

  predicate LiteralEqual(v: Value, w: Value) {
    if v.Dbl? && w.Dbl? then DoubleEqual(v.d, w.d) else v == w
  }

  predicate ExpressionEqual(shared: Sharing, a: Expr, b: Expr) {
    || (a == b && shared(a, b))
    || match (a, b)
       case (Column(x), Column(y)) => x == y
       case (Literal(v, t), Literal(w, u)) => t == u && LiteralEqual(v, w)
       case (Unary(op, x), Unary(op', y)) => op == op' && ExpressionEqual(shared, x, y)
       case (Binary(op, x, y), Binary(op', x', y')) =>
         op == op' && ExpressionEqual(shared, x, x') && ExpressionEqual(shared, y, y')
       case _ => false
  }

  /** Equal expressions have the same meaning up to the sign of a zero, and the same type. */
  lemma {:induction false} EqualSameMeaning(shared: Sharing, a: Expr, b: Expr, row: Row)
    requires ExpressionEqual(shared, a, b)
    ensures Canon(Eval(a, row)) == Canon(Eval(b, row)) && Refs(a) == Refs(b)
  {
    if a != b {
      match (a, b)
      case (Literal(v, _), Literal(w, _)) =>
      case (Unary(_, x), Unary(_, y)) => EqualSameMeaning(shared, x, y, row);
      case (Binary(op, x, y), Binary(_, x', y')) =>
        EqualSameMeaning(shared, x, x', row);
        EqualSameMeaning(shared, y, y', row);
        BinaryCongruent(op, Eval(x, row), Eval(y, row), Eval(x', row), Eval(y', row));
    }
  }

  /** The expression with the zeros of its literals shown alike. */
  function CanonExpr(e: Expr): Expr {
    match e
    case Column(_) => e
    case Literal(v, t) => Literal(Canon(v), t)
    case Unary(op, x) => Unary(op, CanonExpr(x))
    case Binary(op, x, y) => Binary(op, CanonExpr(x), CanonExpr(y))
  }

  predicate WithoutNaN(e: Expr) {
    match e
    case Column(_) => true
    case Literal(v, _) => v != Dbl(NaN)
    case Unary(_, x) => WithoutNaN(x)
    case Binary(_, x, y) => WithoutNaN(x) && WithoutNaN(y)
  }

  /** Expressions alike but for the signs of zeros are called equal, and no others; a NaN only by sharing. */
  lemma {:induction false} EqualExactly(shared: Sharing, a: Expr, b: Expr)
    ensures ExpressionEqual(shared, a, b) ==> CanonExpr(a) == CanonExpr(b)
    ensures a == b && shared(a, b) ==> ExpressionEqual(shared, a, b)
    ensures WithoutNaN(a) && CanonExpr(a) == CanonExpr(b) ==> ExpressionEqual(shared, a, b)
    ensures !WithoutNaN(a) && ExpressionEqual(shared, a, b) ==> exists x: Expr, y: Expr :: shared(x, y)
  {
    match (a, b)
    case (Unary(_, x), Unary(_, y)) => EqualExactly(shared, x, y);
    case (Binary(_, x, y), Binary(_, x', y')) =>
      EqualExactly(shared, x, x');
      EqualExactly(shared, y, y');
    case _ =>
  }

  // ---------------------------------------------------------------------------------------

  function Size(e: Expr): nat {
    match e
    case Column(_) => 1
    case Literal(_, _) => 1
    case Unary(_, a) => 1 + Size(a)
    case Binary(_, a, b) => 1 + Size(a) + Size(b)
  }

  predicate Holds(e: Expr, row: Row) {
    Eval(e, row) == TRUE
  }
}
