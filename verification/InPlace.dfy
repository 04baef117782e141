/** The optimizer on mutable plan nodes: it rewrites and prunes a private copy in place. */
module InPlace {
  import opened Values
  import opened Expressions
  import opened Simplify
  import opened Sequences
  import opened Relations
  import opened PlanNodes
  import Plans
  import R = Rewrite
  import P = Prune
  import opened RewriteProof
  import opened RewriteEffect
  import opened Optimizer
  import TypeLaws

  /** The rewritten plan of a child, or a stand-in where there is none. */
  ghost function Rewritten(h: R.Hints, p: LogicalPlan?): Plans.Plan
    reads p
  {
    if p == null then NO_PLAN else R.Rewrite(h, p.value)
  }

  /** Rewrites the children of a node in place. */
  method RewriteChildren(h: R.Hints, p: LogicalPlan)
    requires p.Valid()
    modifies p.Repr
    ensures p.Valid() && fresh(p.Repr - old(p.Repr)) && p.fields == old(p.fields)
    ensures p.value == Compose(p.kind, p.fields, old(Rewritten(h, p.left)), old(Rewritten(h, p.right)))
    decreases R.NonFilters(p.value), R.PlanSize(p.value), 1
  {
    hide LogicalPlan.Acyclic;
    hide R.Rewrite;
    var l, r := p.left, p.right;
    if l != null {
      l := RewriteTree(h, l);
    }
    if r != null {
      r := RewriteTree(h, r);
    }
    p.Update(p.fields, l, r);
  }

  /** Rewrites a plan in place; the nodes of the result are nodes of the plan, or new. */
  method RewriteTree(h: R.Hints, p: LogicalPlan) returns (q: LogicalPlan)
    requires p.Valid()
    modifies p.Repr
    ensures q.Valid() && fresh(q.Repr - old(p.Repr))
    ensures q.value == R.Rewrite(h, old(p.value))
    decreases R.NonFilters(p.value), R.PlanSize(p.value), 2
  {
    hide LogicalPlan.Acyclic;
    RewriteChildren(h, p);
    match p.kind {
      case ProjectionKind =>
        q := SimplifyProjection(h, p);
      case FilterKind =>
        q := SettleTree(h, p);
      case _ =>
        q := p;
    }
  }

  /** Simplifies the expressions of a projection in place, and drops the node if it is an identity. */
  method SimplifyProjection(h: R.Hints, p: LogicalPlan) returns (q: LogicalPlan)
    requires p.Valid() && p.kind.ProjectionKind?
    modifies p
    ensures q.Valid() && q.Repr <= old(p.Repr)
    ensures q.value == (var l, ys := old(p.left.value), R.SimplifyAll(h.shared, old(p.fields.expressions));
                        if R.IsIdentity(l, ys) then l else Plans.Projection(l, ys))
  {
    hide LogicalPlan.Acyclic;
    var xs, ys := p.fields.expressions, [];
    for i := 0 to |xs|
      invariant ys == R.SimplifyAll(h.shared, xs)[..i]
    {
      ys := ys + [xs[i].(expr := SimplifyExpression(h.shared, xs[i].expr))];
    }
    if R.IsIdentity(p.left.Value(), ys) {
      return p.left;
    }
    p.Update(p.fields.(expressions := ys), p.left, null);
    q := p;
  }

  /** The predicates of a chain of filters, and the node the chain stands on. */
  method CollectChain(h: R.Hints, p: LogicalPlan) returns (predicates: seq<Expr>, child: LogicalPlan)
    requires p.Valid()
    ensures child.Valid() && child.Repr <= p.Repr && child.value == R.Bottom(p.value)
    ensures predicates == R.ChainPredicates(h.shared, p.value)
  {
    predicates, child := [], p;
    while child.kind.FilterKind?
      invariant child.Valid() && child.Repr <= p.Repr && R.Bottom(child.value) == R.Bottom(p.value)
      invariant predicates + R.ChainPredicates(h.shared, child.value) == R.ChainPredicates(h.shared, p.value)
      decreases child.Repr
    {
      var added := R.Conjuncts(SimplifyExpression(h.shared, child.fields.condition));
      assert predicates + (added + R.ChainPredicates(h.shared, child.left.value))
          == (predicates + added) + R.ChainPredicates(h.shared, child.left.value);
      predicates, child := predicates + added, child.left;
    }
  }

  method DropRepeated(h: R.Hints, predicates: seq<Expr>) returns (unique: seq<Expr>)
    ensures unique == R.Deduplicate(h.shared, predicates)
  {
    unique := [];
    for i := 0 to |predicates|
      invariant unique == R.Deduplicate(h.shared, predicates[..i])
    {
      var e := predicates[i];
      assert predicates[..i + 1][..i] == predicates[..i];
      if !R.IsTrueLiteral(e) && !R.Contains(h.shared, unique, e) {
        unique := unique + [e];
      }
    }
    assert predicates[..|predicates|] == predicates;
  }

  /** Puts a filter on a subtree and rewrites the result. */
  method FilterBelow(h: R.Hints, l: LogicalPlan, e: Expr) returns (q: LogicalPlan)
    requires l.Valid()
    modifies l.Repr
    ensures q.Valid() && fresh(q.Repr - old(l.Repr))
    ensures q.value == R.Rewrite(h, Plans.Filter(old(l.value), e))
    decreases R.NonFilters(l.value), R.PlanSize(l.value) + 1, 3
  {
    var filter := new LogicalPlan(FilterKind, NO_PAYLOAD.(condition := e), l, null);
    q := RewriteTree(h, filter);
  }

  /** Moves a predicate below a node where it may go; otherwise the node is left alone. */
  method PushInto(h: R.Hints, child: LogicalPlan, e: Expr) returns (pushed: bool)
    requires child.Valid() && !child.kind.FilterKind?
    modifies child.Repr
    ensures child.Valid() && fresh(child.Repr - old(child.Repr))
    ensures pushed <==> R.PushDown(h, old(child.value), e).Some?
    ensures child.value == if pushed then R.PushDown(h, old(child.value), e).value else old(child.value)
    decreases R.NonFilters(child.value), 0, 2
  {
    hide R.Rewrite;
    hide R.Aliases;
    hide R.Substitute;
    pushed := false;
    match child.kind {
      case JoinKind =>
        pushed := PushIntoJoin(h, child, e);
      case SortKind =>
        PushLeft(h, child, e);
        pushed := true;
      case AggregateKind =>
        if Refs(e) != {} && Refs(e) <= KeySet(child.fields.keys) {
          PushLeft(h, child, e);
          pushed := true;
        }
      case ProjectionKind =>
        var aliases := R.Aliases(child.fields.expressions);
        if Refs(e) <= aliases.Keys {
          PushLeft(h, child, R.Substitute(e, aliases));
          pushed := true;
        }
      case _ =>
    }
  }

  /** Puts a predicate on the only child of a node. */
  method PushLeft(h: R.Hints, child: LogicalPlan, e: Expr)
    requires child.Valid() && child.left != null && child.right == null
    requires R.NonFilters(child.left.value) < R.NonFilters(child.value)
    modifies child.Repr
    ensures child.Valid() && fresh(child.Repr - old(child.Repr))
    ensures child.value
         == Compose(child.kind, old(child.fields), R.Rewrite(h, Plans.Filter(old(child.left.value), e)), NO_PLAN)
    decreases R.NonFilters(child.value), 0, 0
  {
    hide R.Rewrite;
    var q := FilterBelow(h, child.left, e);
    child.Update(child.fields, q, null);
  }

  method PushIntoJoin(h: R.Hints, child: LogicalPlan, e: Expr) returns (pushed: bool)
    requires child.Valid() && child.kind.JoinKind?
    modifies child.Repr
    ensures child.Valid() && fresh(child.Repr - old(child.Repr))
    ensures pushed <==> R.PushDown(h, old(child.value), e).Some?
    ensures child.value == if pushed then R.PushDown(h, old(child.value), e).value else old(child.value)
    decreases R.NonFilters(child.value), 0, 1
  {
    hide R.Rewrite;
    hide Plans.OutputIds;
    pushed := false;
    if Refs(e) == {} {
      return;
    }
    var onLeft := Refs(e) <= Plans.OutputIds(child.left.Value());
    if onLeft || Refs(e) <= Plans.OutputIds(child.right.Value()) {
      PushSide(h, child, onLeft, e);
      pushed := true;
    }
  }

  /** Puts a predicate on one side of a join. */
  method PushSide(h: R.Hints, child: LogicalPlan, onLeft: bool, e: Expr)
    requires child.Valid() && child.kind.JoinKind?
    modifies child.Repr
    ensures child.Valid() && fresh(child.Repr - old(child.Repr))
    ensures var l, r := old(child.left.value), old(child.right.value);
      child.value == Compose(child.kind, old(child.fields),
                             if onLeft then R.Rewrite(h, Plans.Filter(l, e)) else l,
                             if onLeft then r else R.Rewrite(h, Plans.Filter(r, e)))
    decreases R.NonFilters(child.value), 0, 0
  {
    hide LogicalPlan.Acyclic;
    hide R.Rewrite;
    if onLeft {
      var q := FilterBelow(h, child.left, e);
      child.Update(child.fields, q, child.right);
    } else {
      var q := FilterBelow(h, child.right, e);
      child.Update(child.fields, child.left, q);
    }
  }

  /** Settles the filters above a rewritten subtree: pushed, or stacked again by selectivity. */
  method SettleTree(h: R.Hints, p: LogicalPlan) returns (q: LogicalPlan)
    requires p.Valid() && p.kind.FilterKind?
    modifies p.Repr
    ensures q.Valid() && fresh(q.Repr - old(p.Repr))
    ensures q.value == R.Settle(h, old(p.value))
    decreases R.NonFilters(p.value), 1, 0
  {
    hide R.ChainPredicates;
    hide R.Deduplicate;
    hide R.PushAll;
    var predicates, child := CollectChain(h, p);
    var unique := DropRepeated(h, predicates);
    var remaining := PushEach(h, child, unique);
    q := Stack(child, StableSort(R.ByEstimate(h, child.Value()), remaining));
  }

  /** Offers the predicates in turn to the node the filters stood on. */
  method PushEach(h: R.Hints, child: LogicalPlan, es: seq<Expr>) returns (remaining: seq<Expr>)
    requires child.Valid() && !child.kind.FilterKind?
    modifies child.Repr
    ensures child.Valid() && fresh(child.Repr - old(child.Repr))
    ensures (child.value, remaining) == R.PushAll(h, old(child.value), es)
    decreases R.NonFilters(child.value), 0, 3
  {
    hide R.PushDown;
    hide R.Rewrite;
    ghost var start := child.value;
    remaining := [];
    for i := 0 to |es|
      invariant child.Valid() && fresh(child.Repr - old(child.Repr))
      invariant (child.value, remaining) == R.PushAll(h, start, es[..i])
    {
      assert es[..i + 1][..i] == es[..i];
      var pushed := PushInto(h, child, es[i]);
      if !pushed {
        remaining := remaining + [es[i]];
      }
    }
    assert es[..|es|] == es;
  }

  method Stack(child: LogicalPlan, es: seq<Expr>) returns (q: LogicalPlan)
    requires child.Valid()
    ensures q.Valid() && fresh(q.Repr - child.Repr) && q.value == R.Wrap(child.value, es)
  {
    q := child;
    for i := 0 to |es|
      invariant q.Valid() && fresh(q.Repr - child.Repr) && q.value == R.Wrap(child.value, es[..i])
    {
      assert es[..i + 1][..i] == es[..i];
      q := new LogicalPlan(FilterKind, NO_PAYLOAD.(condition := es[i]), q, null);
    }
    assert es[..|es|] == es;
  }

  // ---------------------------------------------------------------------------------------
  // Pruning.

  /** Prunes a plan in place: columns, expressions and aggregates nobody above reads are erased. */
  method PruneTree(p: LogicalPlan, required: set<ColumnId>)
    requires p.Valid()
    modifies p.Repr
    ensures p.Valid() && p.Repr <= old(p.Repr)
    ensures p.value == P.Prune(old(p.value), required)
    decreases p.Repr, 1
  {
    hide P.ExpressionRefs;
    hide P.AggregateRefs;
    hide P.SortColumns;
    hide Select;
    hide KeySet;
    hide Refs;
    hide P.WantedExpression;
    hide P.WantedAggregate;
    hide P.Wanted;
    var f := p.fields;
    match p.kind {
      case ScanKind =>
        p.Update(f.(columns := Select(P.Wanted(required), f.columns)), null, null);
      case ProjectionKind =>
        var kept := Select(P.WantedExpression(required), f.expressions);
        PruneLeft(p, f.(expressions := kept), P.ExpressionRefs(kept));
      case FilterKind =>
        PruneLeft(p, f, required + Refs(f.condition));
      case SortKind =>
        PruneLeft(p, f, required + P.SortColumns(f.sortKeys));
      case AggregateKind =>
        var kept := Select(P.WantedAggregate(required), f.aggregates);
        PruneLeft(p, f.(aggregates := kept), KeySet(f.keys) + P.AggregateRefs(kept));
      case JoinKind =>
        PruneJoinTree(p, required);
      case LimitKind =>
        PruneLeft(p, f, required);
    }
  }

  /** Prunes the only child of a node and sets the node's fields. */
  method PruneLeft(p: LogicalPlan, fields: Payload, needed: set<ColumnId>)
    requires p.Valid() && p.left != null && p.right == null
    modifies p.Repr
    ensures p.Valid() && p.Repr <= old(p.Repr)
    ensures p.value == Compose(p.kind, fields, P.Prune(old(p.left.value), needed), NO_PLAN)
    decreases p.Repr, 0
  {
    hide P.Prune;
    PruneTree(p.left, needed);
    p.Update(fields, p.left, null);
  }

  method PruneJoinTree(p: LogicalPlan, required: set<ColumnId>)
    requires p.Valid() && p.kind.JoinKind?
    modifies p.Repr
    ensures p.Valid() && p.Repr <= old(p.Repr)
    ensures p.value == P.Prune(old(p.value), required)
    decreases p.Repr, 0
  {
    hide LogicalPlan.Acyclic;
    hide Plans.OutputIds;
    hide KeySet;
    var f := p.fields;
    var needed := required + KeySet(f.keys) + KeySet(f.rightKeys);
    var leftIds, rightIds := Plans.OutputIds(p.left.Value()), Plans.OutputIds(p.right.Value());
    PruneTree(p.left, needed * leftIds);
    PruneTree(p.right, needed * rightIds);
    p.Update(f, p.left, p.right);
  }

  method OptimizeCopy(h: R.Hints, p: LogicalPlan, required: set<ColumnId>) returns (q: LogicalPlan)
    requires p.Acyclic()
    ensures q.Valid() && fresh(q.Repr)
    ensures q.value == R.Rewrite(h, P.Prune(R.Rewrite(h, p.value), required))
  {
    hide R.Rewrite;
    hide P.Prune;
    hide LogicalPlan.Valid;
    hide LogicalPlan.Acyclic;
    ghost var start := p.value;
    var copy := p.Clone();
    var rewritten := RewriteTree(h, copy);
    PruneTree(rewritten, required);
    q := RewriteTree(h, rewritten);
  }

  /**
   Optimizes a plan, whose nodes may be shared. A plan on which the engine throws is refused;
   otherwise the result is a new tree that shares nothing with the plan, has its output columns and
   denotes its rows, and the plan is untouched.
   */
  method OptimizeTree(h: R.Hints, p: LogicalPlan) returns (q: LogicalPlan?)
    requires p.Acyclic()
    ensures q == null <==> TypeLaws.Refused(p.value)
    ensures q != null <==> Plans.WellFormed(p.value)
    ensures q != null ==> q.Valid() && fresh(q.Repr) && q.value == Optimize(h, p.value)
    ensures q != null ==> Equivalent(p.value, q.value) && Settled(q.value)
  {
    hide R.Rewrite;
    hide P.Prune;
    hide Plans.OutputIds;
    hide Plans.OutputSchema;
    hide Equivalent;
    hide Settled;
    hide TypeLaws.Refused;
    var original := p.Value();
    TypeLaws.RefusedExactly(original);
    if !Plans.WellFormed(original) {
      return null;
    }
    OptimizeSound(h, original);
    OptimizeSettles(h, original);
    q := OptimizeCopy(h, p, Plans.OutputIds(original));
  }
}
