/**
 The rewriting pass of the optimizer: it simplifies expressions, removes identity projections,
 splits, deduplicates and reorders filters, and pushes them toward the scans.
 */
module Rewrite {
  import opened Values
  import opened Expressions
  import opened Simplify
  import opened Sequences
  import opened Relations
  import opened Plans

  /** What rewriting is free in: the selectivity estimate, and which nodes are physically shared. */
  datatype Hints = Hints(estimate: (Expr, Plan) -> real, shared: Sharing)

  // ---------------------------------------------------------------------------------------
  // The measure of the recursion.

  function NonFilters(p: Plan): nat {
    match p
    case Scan(_, _) => 1
    case Filter(child, _) => NonFilters(child)
    case Join(l, r, _, _) => 1 + NonFilters(l) + NonFilters(r)
    case _ => 1 + NonFilters(p.left)
  }

  function PlanSize(p: Plan): nat {
    match p
    case Scan(_, _) => 1
    case Join(l, r, _, _) => 1 + PlanSize(l) + PlanSize(r)
    case _ => 1 + PlanSize(p.left)
  }

  // ---------------------------------------------------------------------------------------
  // Collecting predicates.

  function Conjuncts(e: Expr): seq<Expr> {
    if e.Binary? && e.op.And? then Conjuncts(e.left) + Conjuncts(e.right) else [e]
  }

  /** The first plan below a chain of filters. */
  function Bottom(p: Plan): (q: Plan)
    ensures !q.Filter? && NonFilters(q) == NonFilters(p)
  {
    if p.Filter? then Bottom(p.left) else p
  }

  /** The simplified conjuncts of a chain of filters, outermost filter first. */
  function ChainPredicates(shared: Sharing, p: Plan): seq<Expr> {
    if p.Filter? then Conjuncts(SimplifyExpression(shared, p.condition)) + ChainPredicates(shared, p.left)
    else []
  }

  predicate IsTrueLiteral(e: Expr) {
    e.Literal? && e.literal == TRUE
  }

  predicate Contains(shared: Sharing, es: seq<Expr>, e: Expr) {
    exists i :: 0 <= i < |es| && ExpressionEqual(shared, es[i], e)
  }

  /** Drops literal TRUE and repeated predicates. */
  function Deduplicate(shared: Sharing, es: seq<Expr>): seq<Expr> {
    if es == [] then [] else
      var e, unique := es[|es| - 1], Deduplicate(shared, es[..|es| - 1]);
      if IsTrueLiteral(e) || Contains(shared, unique, e) then unique else unique + [e]
  }

  // ---------------------------------------------------------------------------------------
  // Pushing one predicate below a plan.

  /** The output columns of a projection that only rename an input column. */
  function Aliases(xs: seq<NamedExpr>): map<ColumnId, Expr> {
    if xs == [] then map[] else
      var x, m := xs[|xs| - 1], Aliases(xs[..|xs| - 1]);
      if x.expr.Column? && x.field.id !in m then m[x.field.id := x.expr] else m
  }

  function Substitute(e: Expr, m: map<ColumnId, Expr>): Expr {
    match e
    case Column(id) => if id in m then m[id] else e
    case Literal(_, _) => e
    case Unary(op, a) => Unary(op, Substitute(a, m))
    case Binary(op, a, b) => Binary(op, Substitute(a, m), Substitute(b, m))
  }

  predicate IsIdentity(child: Plan, xs: seq<NamedExpr>) {
    && WellFormed(child)
    && |xs| == |SchemaOf(child)|
    && forall i :: 0 <= i < |xs| ==>
         && xs[i].expr == Column(SchemaOf(child)[i].id)
         && xs[i].field.id == SchemaOf(child)[i].id
         && xs[i].field.name == SchemaOf(child)[i].name
  }

  function SimplifyAll(shared: Sharing, xs: seq<NamedExpr>): (ys: seq<NamedExpr>)
    ensures |ys| == |xs|
    ensures forall i :: 0 <= i < |xs| ==> ys[i] == xs[i].(expr := SimplifyExpression(shared, xs[i].expr))
  {
    seq(|xs|, i requires 0 <= i < |xs| => xs[i].(expr := SimplifyExpression(shared, xs[i].expr)))
  }

  function ByEstimate(h: Hints, child: Plan): Comparison<Expr> {
    (a, b) => Sign(h.estimate(a, child) < h.estimate(b, child), h.estimate(a, child) > h.estimate(b, child))
  }

  /** Stacks filters, the first predicate innermost. */
  function Wrap(child: Plan, es: seq<Expr>): (q: Plan)
    ensures NonFilters(q) == NonFilters(child)
  {
    if es == [] then child else Filter(Wrap(child, es[..|es| - 1]), es[|es| - 1])
  }

  /** The plan with the predicate pushed below its root, or None where it has to stay above. */
  function PushDown(h: Hints, child: Plan, e: Expr): (r: Option<Plan>)
    ensures r.Some? && !child.Filter? ==> !r.value.Filter? && NonFilters(r.value) <= NonFilters(child)
    decreases NonFilters(child), 0, 0
  {
    match child
    case Join(l, r, keys, rightKeys) =>
      if Refs(e) == {} then None
      else if Refs(e) <= OutputIds(l) then Some(Join(Rewrite(h, Filter(l, e)), r, keys, rightKeys))
      else if Refs(e) <= OutputIds(r) then Some(Join(l, Rewrite(h, Filter(r, e)), keys, rightKeys))
      else None
    case Sort(l, sortKeys) => Some(Sort(Rewrite(h, Filter(l, e)), sortKeys))
    case Aggregate(l, keys, aggs) =>
      if Refs(e) != {} && Refs(e) <= KeySet(keys) then Some(Aggregate(Rewrite(h, Filter(l, e)), keys, aggs))
      else None
    case Projection(l, xs) =>
      if Refs(e) <= Aliases(xs).Keys
      then Some(Projection(Rewrite(h, Filter(l, Substitute(e, Aliases(xs)))), xs))
      else None
    case _ => None
  }

  /** Offers the predicates in turn; yields the changed plan and those that stay above it. */
  function PushAll(h: Hints, child: Plan, es: seq<Expr>): (r: (Plan, seq<Expr>))
    requires !child.Filter?
    ensures !r.0.Filter? && NonFilters(r.0) <= NonFilters(child)
    decreases NonFilters(child), 0, |es|
  {
    if es == [] then (child, []) else
      var e, (c, remaining) := es[|es| - 1], PushAll(h, child, es[..|es| - 1]);
      match PushDown(h, c, e)
      case Some(c') => (c', remaining)
      case None => (c, remaining + [e])
  }

  /** Splits the filters of a chain, pushes what can be pushed, and stacks the rest by selectivity. */
  function Settle(h: Hints, chain: Plan): (q: Plan)
    requires chain.Filter?
    ensures NonFilters(q) <= NonFilters(chain)
    decreases NonFilters(chain), 1, 0
  {
    var unique := Deduplicate(h.shared, ChainPredicates(h.shared, chain));
    var (child, remaining) := PushAll(h, Bottom(chain), unique);
    Wrap(child, StableSort(ByEstimate(h, child), remaining))
  }

  /**
   Terminates although filters multiply and rewritten subtrees are rewritten again: the number
   of non-filter nodes never grows, and it or the plan size shrinks at every recursive call.
   */
  function Rewrite(h: Hints, p: Plan): (q: Plan)
    ensures NonFilters(q) <= NonFilters(p)
    decreases NonFilters(p), PlanSize(p), 0
  {
    match p
    case Scan(_, _) => p
    case Projection(l, xs) =>
      var l', ys := Rewrite(h, l), SimplifyAll(h.shared, xs);
      if IsIdentity(l', ys) then l' else Projection(l', ys)
    case Join(l, r, keys, rightKeys) => Join(Rewrite(h, l), Rewrite(h, r), keys, rightKeys)
    case Filter(l, e) => Settle(h, Filter(Rewrite(h, l), e))
    case Aggregate(l, keys, aggs) => Aggregate(Rewrite(h, l), keys, aggs)
    case Sort(l, sortKeys) => Sort(Rewrite(h, l), sortKeys)
    case Limit(l, n) => Limit(Rewrite(h, l), n)
  }
}
