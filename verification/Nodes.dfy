/** Postorder expression nodes, and what it means for a vector to hold an expression's values. */
module Nodes {
  import opened Values
  import opened Expressions
  import opened Relations
  import opened Plans
  import opened Batches
  import opened Kernels

  /** One compiled node: its expression, its operands' positions, its bound column and its type. */
  datatype Node = Node(expr: Expr, left: nat, right: nat, columnIndex: nat, typ: Type)

  /** The row a batch shows at a physical position. */
  function RowOf(s: Schema, b: Batch, i: nat): Row {
    ToRow(s, TupleAt(b.columns, i))
  }

  /** Node i is typed, and its operands are compiled before it. */
  ghost predicate Compiled(nodes: seq<Node>, s: Schema, i: nat)
    requires i < |nodes|
  {
    var n := nodes[i];
    && ExpressionType(n.expr, Types(s)) == Some(n.typ)
    && match n.expr
       case Column(id) => id in Ids(s) && n.columnIndex == IndexOf(s, id)
       case Literal(_, _) => true
       case Unary(_, x) => n.left < i && nodes[n.left].expr == x
       case Binary(_, x, y) => n.left < i && n.right < i && nodes[n.left].expr == x && nodes[n.right].expr == y
  }

  ghost predicate AllCompiled(nodes: seq<Node>, s: Schema) {
    forall i :: 0 <= i < |nodes| ==> Compiled(nodes, s, i)
  }

  lemma CompiledPrefix(nodes: seq<Node>, s: Schema, n: Node)
    requires AllCompiled(nodes, s) && Compiled(nodes + [n], s, |nodes|)
    ensures AllCompiled(nodes + [n], s)
  {
    forall i | 0 <= i < |nodes| ensures Compiled(nodes + [n], s, i) {
      assert Compiled(nodes, s, i);
    }
  }

  /** On every active row of the batch, the vector shows the value of the expression. */
  ghost predicate Agrees(s: Schema, b: Batch, e: Expr, v: Vector) {
    && v.Valid() && |v.data| == b.physicalSize
    && ExpressionType(e, Types(s)) == Some(v.typ)
    && forall j :: 0 <= j < b.selection.Size() ==>
         v.CellAt(b.selection.At(j)) == Eval(e, RowOf(s, b, b.selection.At(j)))
  }

  lemma ColumnAgrees(s: Schema, b: Batch, id: ColumnId)
    requires b.Valid(SchemaTypes(s)) && id in Ids(s)
    ensures Agrees(s, b, Column(id), b.columns[IndexOf(s, id)])
  {
    assert ColumnOk(b.columns, SchemaTypes(s), b.physicalSize, IndexOf(s, id));
  }

  lemma LiteralAgrees(s: Schema, b: Batch, v: Value, typ: Type, out: Vector)
    requires b.Valid(SchemaTypes(s)) && HasType(v, typ)
    requires out.Valid() && out.typ == typ && |out.data| == b.physicalSize
    requires forall i :: 0 <= i < b.physicalSize ==> out.CellAt(i) == v
    ensures Agrees(s, b, Literal(v, typ), out)
  {
  }

  lemma UnaryAgrees(s: Schema, b: Batch, op: UnaryOp, x: Expr, a: Vector, out: Vector)
    requires Agrees(s, b, x, a) && ExpressionType(Unary(op, x), Types(s)).Some?
    requires out.Valid() && out.typ == BooleanType && |out.data| == b.physicalSize
    requires forall j :: 0 <= j < b.selection.Size() ==>
      out.CellAt(b.selection.At(j)) == EvalUnary(op, a.CellAt(b.selection.At(j)))
    ensures Agrees(s, b, Unary(op, x), out)
  {
  }

  lemma BinaryAgrees(s: Schema, b: Batch, op: BinaryOp, x: Expr, y: Expr, a: Vector, c: Vector, out: Vector)
    requires Agrees(s, b, x, a) && Agrees(s, b, y, c)
    requires ExpressionType(Binary(op, x, y), Types(s)) == Some(out.typ)
    requires out.Valid() && |out.data| == b.physicalSize
    requires Computes(op, a, c, out, b.selection, b.selection.Size())
    ensures Agrees(s, b, Binary(op, x, y), out)
  {
  }

  lemma OperandTypes(s: Schema, op: BinaryOp, x: Expr, y: Expr, a: Vector, c: Vector, b: Batch, typ: Type)
    requires Agrees(s, b, x, a) && Agrees(s, b, y, c)
    requires ExpressionType(Binary(op, x, y), Types(s)) == Some(typ)
    ensures a.typ == c.typ && BinaryType(op, a.typ, c.typ) == Some(typ)
    ensures |a.data| == |c.data| == b.physicalSize && a.Valid() && c.Valid()
  {
  }

  /** Every physical row of the vector, active or not, holds the value. */
  ghost predicate HoldsEverywhere(c: Vector, v: Value) {
    forall i :: 0 <= i < |c.data| ==> c.CellAt(i) == v
  }

  /** The comparison with a constant is taken over by a kernel that reads the literal as an integer. */
  predicate ConstantKernel(b: Batch, op: BinaryOp, y: Expr, a: Vector, c: Vector) {
    && b.selection.Dense? && AllValid(a) && AllValid(c)
    && op == Compare(Less) && a.typ == Int64Type && y.Literal?
  }

  /** The kernel meets a NULL literal exactly on a batch without physical rows, where no NULL cell gives it away. */
  lemma ConstantKernelReadsNull(s: Schema, b: Batch, op: BinaryOp, x: Expr, y: Expr, a: Vector, c: Vector)
    requires Agrees(s, b, x, a) && Agrees(s, b, y, c) && ExpressionType(Binary(op, x, y), Types(s)).Some?
    requires y.Literal? ==> HoldsEverywhere(c, y.literal)
    ensures ConstantKernel(b, op, y, a, c) && y.literal.Null?
       <==> b.selection.Dense? && b.physicalSize == 0 && op == Compare(Less) && y == Literal(Null, Int64Type)
  {
    if y.Literal? && AllValid(c) && b.physicalSize > 0 {
      assert c.CellAt(0) == y.literal && c.valid[0] && c.CellAt(0) == c.data[0] && !c.data[0].Null?;
    }
  }

  /** Somewhere the expression asks whether an integer is less than the NULL literal. */
  predicate LessThanNull(e: Expr) {
    match e
    case Unary(_, x) => LessThanNull(x)
    case Binary(op, x, y) =>
      LessThanNull(x) || LessThanNull(y) || (op == Compare(Less) && y == Literal(Null, Int64Type))
    case _ => false
  }

  /** Where the engine reads the integer of a NULL literal, which throws. */
  predicate ReadsNullLiteral(b: Batch, e: Expr) {
    b.selection.Dense? && b.physicalSize == 0 && LessThanNull(e)
  }

  /** The least input on which evaluation fails: a typed comparison over a column of no rows. */
  lemma EvaluationCanFail()
    ensures var b, e := Batch([Vector(Int64Type, [], [])], Dense(0), 0),
                        Binary(Compare(Less), Column(0), Literal(Null, Int64Type));
      var s := [Field(0, Int64Type, "x")];
      && b.Valid(SchemaTypes(s)) && ExpressionType(e, Types(s)) == Some(BooleanType) && ReadsNullLiteral(b, e)
      && forall c: Vector :: Agrees(s, b, e.right, c) ==> ConstantKernel(b, e.op, e.right, b.columns[0], c)
  {
    var b, s := Batch([Vector(Int64Type, [], [])], Dense(0), 0), [Field(0, Int64Type, "x")];
    FieldAt(s, 0);
    assert ColumnOk(b.columns, SchemaTypes(s), 0, 0);
  }

  /** A batch with an active row never fails. */
  lemma ActiveRowsEvaluate(b: Batch, types: seq<Type>, e: Expr)
    requires b.Valid(types) && b.selection.Size() > 0
    ensures !ReadsNullLiteral(b, e)
  {
    assert b.selection.At(0) < b.physicalSize;
  }

  lemma LiteralIsInt(s: Schema, b: Batch, v: Value, typ: Type, c: Vector)
    requires Agrees(s, b, Literal(v, typ), c) && c.typ == Int64Type && !v.Null?
    ensures v.Int?
  {
  }

  lemma NoColumns()
    ensures Types([]) == map[]
  {
  }
}
