/**
 Expression simplification: constant folding, boolean identities and double negation, valid
 under NULL-aware logic.
 */
module Simplify {
  import opened Values
  import opened Expressions

  /** Replaces an expression without columns by its value; an ill-typed one is left alone. */
  function Fold(e: Expr): Expr {
    match ExpressionType(e, map[])
    case None => e
    case Some(t) =>
      var v := Eval(e, map[]);
      if v.Null? then Literal(Null, t) else Literal(v, TypeOf(v))
  }

  predicate IsBooleanConstant(e: Expr) {
    e.Literal? && e.literalType.BooleanType? && e.literal.Bool?
  }

  function Absorb(op: BinaryOp, constant: Expr, other: Expr): Expr
    requires IsBooleanConstant(constant) && (op.And? || op.Or?)
  {
    if op.And? then (if constant.literal.b then other else Literal(FALSE, BooleanType))
    else (if constant.literal.b then Literal(TRUE, BooleanType) else other)
  }

  function SimplifyUnary(op: UnaryOp, a: Expr): Expr {
    var result := Unary(op, a);
    if Refs(result) == {} then Fold(result)
    else if op.Not? && a.Unary? && a.unary.Not? then a.operand
    else result
  }

  function SimplifyBinary(shared: Sharing, op: BinaryOp, a: Expr, b: Expr): Expr {
    var result := Binary(op, a, b);
    if Refs(result) == {} then Fold(result)
    else if !op.And? && !op.Or? then result
    else if ExpressionEqual(shared, a, b) then a
    else if IsBooleanConstant(a) then Absorb(op, a, b)
    else if IsBooleanConstant(b) then Absorb(op, b, a)
    else result
  }

  function SimplifyExpression(shared: Sharing, e: Expr): Expr {
    match e
    case Column(_) => e
    case Literal(_, _) => e
    case Unary(op, a) => SimplifyUnary(op, SimplifyExpression(shared, a))
    case Binary(op, a, b) =>
      SimplifyBinary(shared, op, SimplifyExpression(shared, a), SimplifyExpression(shared, b))
  }

  // ---------------------------------------------------------------------------------------
  // Meaning and type.

  /** Folding keeps the value and the type of any expression without columns, or that it has none. */
  lemma FoldMeaning(e: Expr, row: Row, env: TypeEnv)
    requires Refs(e) == {}
    ensures Eval(Fold(e), row) == Eval(e, row)
    ensures ExpressionType(Fold(e), env) == ExpressionType(e, env)
  {
    TypeDependsOnRefs(e, env, map[]);
    EvalDependsOnRefs(e, row, map[]);
    if ExpressionType(e, map[]).Some? {
      EvalTyped(e, map[], map[]);
    }
  }

  lemma SimplifyUnaryMeaning(op: UnaryOp, a: Expr, row: Row, env: TypeEnv)
    requires ExpressionType(Unary(op, a), env).Some? && RowHasTypes(row, env)
    ensures Eval(SimplifyUnary(op, a), row) == Eval(Unary(op, a), row)
    ensures ExpressionType(SimplifyUnary(op, a), env) == ExpressionType(Unary(op, a), env)
  {
    EvalTyped(a, row, env);
    if Refs(a) == {} {
      FoldMeaning(Unary(op, a), row, env);
    } else if a.Unary? {
      EvalTyped(a.operand, row, env);
    }
  }

  lemma SimplifyBinaryMeaning(shared: Sharing, op: BinaryOp, a: Expr, b: Expr, row: Row, env: TypeEnv)
    requires ExpressionType(Binary(op, a, b), env).Some? && RowHasTypes(row, env)
    ensures Eval(SimplifyBinary(shared, op, a, b), row) == Eval(Binary(op, a, b), row)
    ensures ExpressionType(SimplifyBinary(shared, op, a, b), env) == ExpressionType(Binary(op, a, b), env)
  {
    EvalTyped(a, row, env);
    EvalTyped(b, row, env);
    if Refs(Binary(op, a, b)) == {} {
      FoldMeaning(Binary(op, a, b), row, env);
    } else if ExpressionEqual(shared, a, b) {
      EqualSameMeaning(shared, a, b, row);
    }
  }

  /** Simplifying keeps the value on every typed row, and keeps the type. */
  lemma {:induction false} SimplifyMeaning(shared: Sharing, e: Expr, row: Row, env: TypeEnv)
    requires ExpressionType(e, env).Some? && RowHasTypes(row, env)
    ensures Eval(SimplifyExpression(shared, e), row) == Eval(e, row)
    ensures ExpressionType(SimplifyExpression(shared, e), env) == ExpressionType(e, env)
  {
    match e
    case Column(_) =>
    case Literal(_, _) =>
    case Unary(op, x) =>
      SimplifyMeaning(shared, x, row, env);
      SimplifyUnaryMeaning(op, SimplifyExpression(shared, x), row, env);
    case Binary(op, x, y) =>
      SimplifyMeaning(shared, x, row, env);
      SimplifyMeaning(shared, y, row, env);
      hide SimplifyUnary;
      hide SimplifyBinary;
      SimplifyBinaryMeaning(shared, op, SimplifyExpression(shared, x), SimplifyExpression(shared, y), row, env);
  }

  /** Simplifying never adds a referenced column. */
  lemma {:induction false} SimplifyRefs(shared: Sharing, e: Expr)
    ensures Refs(SimplifyExpression(shared, e)) <= Refs(e)
  {
    match e
    case Column(_) =>
    case Literal(_, _) =>
    case Unary(_, a) => SimplifyRefs(shared, a);
    case Binary(_, a, b) => SimplifyRefs(shared, a); SimplifyRefs(shared, b);
  }

  // ---------------------------------------------------------------------------------------
  // Normal forms.

  predicate IsLiteral(e: Expr, b: bool) {
    e == Literal(Bool(b), BooleanType)
  }

  /** No rule applies anywhere in the expression. */
  predicate Normal(shared: Sharing, e: Expr) {
    match e
    case Column(_) => true
    case Literal(_, _) => true
    case Unary(op, a) =>
      && Normal(shared, a)
      && if Refs(e) == {} then Fold(e) == e else !(op.Not? && a.Unary? && a.unary.Not?)
    case Binary(op, a, b) =>
      && Normal(shared, a) && Normal(shared, b)
      && if Refs(e) == {} then Fold(e) == e
         else op.And? || op.Or? ==>
           !ExpressionEqual(shared, a, b) && !IsLiteral(a, true) && !IsLiteral(a, false)
             && !IsLiteral(b, true) && !IsLiteral(b, false)
  }

  lemma {:induction false} SimplifyGivesNormal(shared: Sharing, e: Expr)
    ensures Normal(shared, SimplifyExpression(shared, e))
  {
    match e
    case Column(_) =>
    case Literal(_, _) =>
    case Unary(_, a) => SimplifyGivesNormal(shared, a);
    case Binary(_, a, b) => SimplifyGivesNormal(shared, a); SimplifyGivesNormal(shared, b);
  }

  lemma {:induction false} NormalIsFixed(shared: Sharing, e: Expr)
    requires Normal(shared, e)
    ensures SimplifyExpression(shared, e) == e
  {
    match e
    case Column(_) =>
    case Literal(_, _) =>
    case Unary(_, a) => NormalIsFixed(shared, a);
    case Binary(_, a, b) => NormalIsFixed(shared, a); NormalIsFixed(shared, b);
  }

  /** Simplifying twice changes nothing more. */
  lemma SimplifyIdempotent(shared: Sharing, e: Expr)
    ensures SimplifyExpression(shared, SimplifyExpression(shared, e)) == SimplifyExpression(shared, e)
  {
    SimplifyGivesNormal(shared, e);
    NormalIsFixed(shared, SimplifyExpression(shared, e));
  }
}
