/** The vector evaluator: compile an expression to postorder nodes once, evaluate batch by batch. */
module Evaluator {
  import opened Values
  import opened Expressions
  import opened Simplify
  import opened Relations
  import opened Batches
  import opened Kernels
  import opened Nodes

  class Evaluator {
    const schema: Schema
    ghost const root: Expr
    var nodes: seq<Node>
    var buffers: seq<Vector>

    ghost predicate Valid()
      reads this
    {
      && nodes != [] && AllCompiled(nodes, schema)
      && |buffers| == |nodes| && nodes[|nodes| - 1].expr == root
      && forall k :: 0 <= k < |nodes| && LessThanNull(nodes[k].expr) ==> LessThanNull(root)
    }

    constructor (e: Expr, schema: Schema)
      requires ExpressionType(e, Types(schema)).Some?
      ensures Valid() && root == e && this.schema == schema
    {
      this.schema, root, nodes, buffers := schema, e, [], [];
      new;
      var last := Compile(e);
      buffers := seq(|nodes|, _ => ResetVector(BooleanType, 0));
    }

    /** Appends the nodes of an expression, operands first; yields the position of its own node. */
    method Compile(e: Expr) returns (k: nat)
      requires AllCompiled(nodes, schema) && ExpressionType(e, Types(schema)).Some?
      modifies this`nodes
      ensures AllCompiled(nodes, schema) && |old(nodes)| <= |nodes|
      ensures nodes[..|old(nodes)|] == old(nodes)
      ensures k + 1 == |nodes| && nodes[k].expr == e
      ensures forall i :: |old(nodes)| <= i < |nodes| && LessThanNull(nodes[i].expr) ==> LessThanNull(e)
      decreases e
    {
      var typ := ExpressionType(e, Types(schema)).value;
      var left, right, column := 0, 0, 0;
      match e {
        case Column(id) => column := IndexOf(schema, id);
        case Literal(_, _) =>
        case Unary(_, x) => left := Compile(x);
        case Binary(_, x, y) =>
          left := Compile(x);
          ghost var before := nodes;
          right := Compile(y);
          assert forall i :: 0 <= i < |before| ==> nodes[i] == nodes[..|before|][i] == before[i];
      }
      var node := Node(e, left, right, column, typ);
      assert Compiled(nodes + [node], schema, |nodes|);
      CompiledPrefix(nodes, schema, node);
      nodes := nodes + [node];
      k := |nodes| - 1;
    }

    /**
     Evaluates over the active rows of a batch: dense kernels and general loops, whatever the
     payloads of invalid cells and the buffers of earlier calls, all give the row semantics. It
     fails exactly where the constant kernel meets a NULL literal.
     */
    method Evaluate(b: Batch) returns (r: Option<Vector>)
      requires Valid() && b.Valid(SchemaTypes(schema))
      modifies this`buffers
      ensures Valid()
      ensures r.None? <==> ReadsNullLiteral(b, root)
      ensures r.Some? ==> Agrees(schema, b, root, r.value)
    {
      hide Agrees;
      hide HoldsEverywhere;
      hide LessThanNull;
      var values: seq<Vector> := [];
      for ni := 0 to |nodes|
        invariant |values| == ni && |buffers| == |nodes|
        invariant forall k :: 0 <= k < ni ==> NodeOk(b, k, values[k])
      {
        var out := EvaluateNode(b, ni, values);
        if out.None? {
          return None;
        }
        if !nodes[ni].expr.Column? {
          buffers := buffers[ni := out.value];
        }
        values := values + [out.value];
      }
      assert NodeOk(b, |nodes| - 1, values[|nodes| - 1]);
      r := Some(values[|nodes| - 1]);
    }

    /** The vector holds the values of a node, which the batch did not make fail. */
    ghost predicate NodeOk(b: Batch, k: nat, v: Vector)
      requires k < |nodes|
      reads this`nodes
    {
      && Agrees(schema, b, nodes[k].expr, v) && !ReadsNullLiteral(b, nodes[k].expr)
      && (nodes[k].expr.Literal? ==> HoldsEverywhere(v, nodes[k].expr.literal))
    }

    method EvaluateNode(b: Batch, ni: nat, values: seq<Vector>) returns (r: Option<Vector>)
      requires Valid() && b.Valid(SchemaTypes(schema))
      requires ni < |nodes| && |values| == ni
      requires forall k :: 0 <= k < ni ==> NodeOk(b, k, values[k])
      ensures r.None? <==> ReadsNullLiteral(b, nodes[ni].expr)
      ensures r.Some? ==> NodeOk(b, ni, r.value)
    {
      var node := nodes[ni];
      assert Compiled(nodes, schema, ni);
      match node.expr
      case Column(id) =>
        ColumnAgrees(schema, b, id);
        r := Some(b.columns[node.columnIndex]);
      case Literal(v, typ) =>
        var out := FillLiteral(v, typ, b.physicalSize);
        LiteralAgrees(schema, b, v, typ, out);
        r := Some(out);
      case Unary(op, x) =>
        assert NodeOk(b, node.left, values[node.left]);
        var a := values[node.left];
        var out := EvalUnaryRows(op, a, ResetVector(node.typ, b.physicalSize), b.selection);
        UnaryAgrees(schema, b, op, x, a, out);
        r := Some(out);
      case Binary(op, x, y) =>
        assert NodeOk(b, node.left, values[node.left]) && NodeOk(b, node.right, values[node.right]);
        r := EvaluateBinary(b, op, x, y, values[node.left], values[node.right], node.typ);
    }

    method EvaluateBinary(b: Batch, op: BinaryOp, x: Expr, y: Expr, a: Vector, c: Vector, typ: Type)
      returns (r: Option<Vector>)
      requires b.Valid(SchemaTypes(schema)) && Agrees(schema, b, x, a) && Agrees(schema, b, y, c)
      requires y.Literal? ==> HoldsEverywhere(c, y.literal)
      requires ExpressionType(Binary(op, x, y), Types(schema)) == Some(typ)
      ensures r.None? <==>
        b.selection.Dense? && b.physicalSize == 0 && op == Compare(Less) && y == Literal(Null, Int64Type)
      ensures r.Some? ==> Agrees(schema, b, Binary(op, x, y), r.value)
    {
      ConstantKernelReadsNull(schema, b, op, x, y, a, c);
      hide Agrees;
      hide ExpressionType;
      hide HoldsEverywhere;
      OperandTypes(schema, op, x, y, a, c, b, typ);
      if ConstantKernel(b, op, y, a, c) && y.literal.Null? {
        return None;
      }
      if ConstantKernel(b, op, y, a, c) {
        LiteralIsInt(schema, b, y.literal, y.literalType, c);
      }
      var out := RunKernel(b, op, a, c, y, typ);
      BinaryAgrees(schema, b, op, x, y, a, c, out);
      r := Some(out);
    }

    /** The loop for an operation: a kernel over dense valid operands, or the general one. */
    method RunKernel(b: Batch, op: BinaryOp, a: Vector, c: Vector, y: Expr, typ: Type) returns (r: Vector)
      requires a.Valid() && c.Valid() && a.typ == c.typ && BinaryType(op, a.typ, c.typ) == Some(typ)
      requires |a.data| == |c.data| == b.physicalSize && Selects(b.selection, b.physicalSize)
      requires ConstantKernel(b, op, y, a, c) ==> y.literal.Int? && HoldsEverywhere(c, y.literal)
      ensures r.Valid() && r.typ == typ && |r.data| == b.physicalSize
      ensures Computes(op, a, c, r, b.selection, b.selection.Size())
    {
      hide HoldsEverywhere;
      var out := ResetVector(typ, b.physicalSize);
      assert b.selection.Size() > 0 ==> b.selection.At(b.selection.Size() - 1) < b.physicalSize;
      if ConstantKernel(b, op, y, a, c) {
        r := CompareConstant(b, a, c, y, out);
      } else if b.selection.Dense? && AllValid(a) && AllValid(c) && op == Arith(Add) && a.typ == DoubleType {
        r := AddDoubles(a, c, out, b.selection.Size());
      } else if op.Arith? {
        r := EvalArithmetic(op.arith, a, c, out, b.selection);
      } else {
        r := EvalLogic(op, a, c, out, b.selection);
      }
    }

    method CompareConstant(b: Batch, a: Vector, c: Vector, y: Expr, out: Vector) returns (r: Vector)
      requires ConstantKernel(b, Compare(Less), y, a, c) && y.literal.Int? && HoldsEverywhere(c, y.literal)
      requires a.Valid() && b.selection.Size() <= |a.data| == |c.data|
      requires out.Valid() && out.typ == BooleanType && |out.data| == |a.data| && AllValid(out)
      ensures r.Valid() && r.typ == out.typ && |r.data| == |out.data|
      ensures Computes(Compare(Less), a, c, r, b.selection, b.selection.Size())
    {
      r := LessConstant(a, y.literal.i, out, b.selection.Size());
    }
  }

  /** Constant folding runs the evaluator on one row of no columns, and gives the folded literal. */
  method FoldConstant(e: Expr) returns (r: Expr)
    requires ExpressionType(e, map[]).Some?
    ensures r == Fold(e)
  {
    NoColumns();
    var evaluator := new Evaluator(e, []);
    var single := Batch([], Dense(1), 1);
    var result := evaluator.Evaluate(single);
    var c := result.value;
    assert single.selection.At(0) == 0 && RowOf([], single, 0) == map[];
    var v := c.CellAt(0);
    assert v == Eval(e, map[]);
    r := if v.Null? then Literal(Null, c.typ) else Literal(v, TypeOf(v));
  }
}
