/** What rewriting achieves: afterwards every filter stands as low as the rules can bring it. */
module RewriteEffect {
  import opened Values
  import opened Expressions
  import opened Simplify
  import opened Sequences
  import opened Relations
  import opened Plans
  import opened Rewrite
  import opened PushdownRules
  import opened RewriteProof

  /** No rule moves the predicate below the root of the plan. */
  predicate Stuck(c: Plan, e: Expr) {
    match c
    case Join(l, r, _, _) => Refs(e) == {} || (!(Refs(e) <= OutputIds(l)) && !(Refs(e) <= OutputIds(r)))
    case Sort(_, _) => false
    case Aggregate(_, keys, _) => Refs(e) == {} || !(Refs(e) <= KeySet(keys))
    case Projection(_, xs) => exists id <- Refs(e) :: !Renamed(xs, id)
    case _ => true
  }

  /** An output column of a projection that only renames an input column. */
  predicate Renamed(xs: seq<NamedExpr>, id: ColumnId) {
    exists x <- xs :: x.field.id == id && x.expr.Column?
  }

  lemma {:induction false} AliasesAreRenamed(xs: seq<NamedExpr>, id: ColumnId)
    ensures id in Aliases(xs) <==> Renamed(xs, id)
  {
    if xs != [] {
      var init, x := xs[..|xs| - 1], xs[|xs| - 1];
      AliasesAreRenamed(init, id);
      assert xs == init + [x];
    }
  }

  /** A projection to the very columns it reads: same ids, names and types in the same order. */
  predicate Redundant(l: Plan, xs: seq<NamedExpr>) {
    && WellFormed(l) && OutputFields(xs) == SchemaOf(l)
    && forall x <- xs :: x.expr == Column(x.field.id)
  }

  lemma RedundantIsIdentity(l: Plan, xs: seq<NamedExpr>)
    requires Redundant(l, xs)
    ensures IsIdentity(l, xs)
  {
    forall i | 0 <= i < |xs| ensures xs[i].expr == Column(SchemaOf(l)[i].id) && xs[i].field == SchemaOf(l)[i] {
      assert xs[i] in xs;
    }
  }

  /** A predicate that is neither a conjunction nor literal TRUE. */
  predicate Plain(e: Expr) {
    !(e.Binary? && e.op.And?) && !(e.Literal? && e.literal == Bool(true))
  }

  /** Every filter is plain and stuck above what its chain stands on, and no projection is redundant. */
  predicate Settled(q: Plan) {
    match q
    case Scan(_, _) => true
    case Filter(l, e) => Settled(l) && Plain(e) && Stuck(Bottom(l), e)
    case Projection(l, xs) => Settled(l) && !Redundant(l, xs)
    case Join(l, r, _, _) => Settled(l) && Settled(r)
    case _ => Settled(q.left)
  }

  lemma {:induction false} BottomSettled(q: Plan)
    requires Settled(q)
    ensures Settled(Bottom(q))
  {
    if q.Filter? {
      BottomSettled(q.left);
    }
  }

  lemma {:induction false} ConjunctsPlain(e: Expr)
    ensures forall c <- Conjuncts(e) :: !(c.Binary? && c.op.And?)
  {
    if e.Binary? && e.op.And? {
      ConjunctsPlain(e.left);
      ConjunctsPlain(e.right);
    }
  }

  lemma {:induction false} ChainPlain(shared: Sharing, p: Plan)
    ensures forall c <- ChainPredicates(shared, p) :: !(c.Binary? && c.op.And?)
  {
    if p.Filter? {
      ConjunctsPlain(SimplifyExpression(shared, p.condition));
      ChainPlain(shared, p.left);
    }
  }

  /** What deduplication leaves: members of the list, none literal TRUE, no two equal. */
  lemma {:induction false} DeduplicateDistinct(shared: Sharing, es: seq<Expr>)
    ensures var unique := Deduplicate(shared, es);
      && (forall e <- unique :: e in es && !(e.Literal? && e.literal == Bool(true)))
      && (forall i, j :: 0 <= i < j < |unique| ==> !ExpressionEqual(shared, unique[i], unique[j]))
  {
    hide ExpressionEqual;
    if es != [] {
      var e, init := es[|es| - 1], Deduplicate(shared, es[..|es| - 1]);
      DeduplicateDistinct(shared, es[..|es| - 1]);
      if !IsTrueLiteral(e) && !Contains(shared, init, e) {
        forall i | 0 <= i < |init| ensures !ExpressionEqual(shared, init[i], e) {
        }
      }
    }
  }

  lemma {:induction false} WrapSettled(child: Plan, es: seq<Expr>)
    requires Settled(child) && !child.Filter? && forall e <- es :: Plain(e) && Stuck(child, e)
    ensures Settled(Wrap(child, es)) && Bottom(Wrap(child, es)) == child
  {
    if es != [] {
      WrapSettled(child, es[..|es| - 1]);
      assert es[|es| - 1] in es;
    }
  }

  /** The changed child has the same columns, so what was stuck above it stays stuck. */
  ghost predicate SameGuards(c: Plan, d: Plan) {
    forall e :: Stuck(c, e) == Stuck(d, e)
  }

  lemma FilterBelowSettles(h: Hints, l: Plan, e: Expr)
    requires WellFormed(Filter(l, e))
    ensures Settled(Rewrite.Rewrite(h, Filter(l, e)))
    ensures OutputSchema(Rewrite.Rewrite(h, Filter(l, e))) == OutputSchema(l)
    decreases NonFilters(l), PlanSize(l) + 1, 1
  {
    RewriteSettles(h, Filter(l, e));
    RewriteSound(h, Filter(l, e));
  }

  lemma {:induction false} PushDownSettles(h: Hints, c: Plan, e: Expr)
    requires Settled(c) && PredicateOver(e, c) && PushDown(h, c, e).Some?
    ensures Settled(PushDown(h, c, e).value) && SameGuards(c, PushDown(h, c, e).value)
    decreases NonFilters(c), 0, 0
  {
    hide Types;
    hide ExpressionType;
    hide Aliases;
    hide Substitute;
    match c
    case Join(l, r, lk, rk) =>
      JoinTypes(SchemaOf(l), SchemaOf(r), e);
      if Refs(e) <= OutputIds(l) {
        FilterBelowSettles(h, l, e);
      } else {
        FilterBelowSettles(h, r, e);
      }
    case Sort(l, keys) =>
      FilterBelowSettles(h, l, e);
    case Aggregate(l, keys, aggs) =>
      OutputUnique(l);
      AggregateKeyTypes(SchemaOf(l), keys, aggs, e);
      FilterBelowSettles(h, l, e);
    case Projection(l, xs) =>
      AliasTypes(l, xs, e);
      FilterBelowSettles(h, l, Substitute(e, Aliases(xs)));
  }

  lemma AliasTypes(l: Plan, xs: seq<NamedExpr>, e: Expr)
    requires PredicateOver(e, Projection(l, xs)) && Refs(e) <= Aliases(xs).Keys
    ensures WellFormed(Filter(l, Substitute(e, Aliases(xs))))
  {
    var m, s := Aliases(xs), SchemaOf(l);
    forall id | id in Refs(e)
      ensures id in Types(OutputFields(xs)) && ExpressionType(m[id], Types(s)) == Some(Types(OutputFields(xs))[id])
    {
      AliasMeaning(xs, id, s, map[]);
    }
    SubstituteType(e, m, Types(s), Types(OutputFields(xs)));
  }

  lemma StuckExactly(h: Hints, c: Plan, e: Expr)
    ensures !c.Filter? ==> (PushDown(h, c, e).None? <==> Stuck(c, e))
  {
    if c.Projection? {
      forall id <- Refs(e) ensures id in Aliases(c.expressions) <==> Renamed(c.expressions, id) {
        AliasesAreRenamed(c.expressions, id);
      }
    }
  }

  lemma {:induction false} PushAllSettles(h: Hints, child: Plan, es: seq<Expr>)
    requires !child.Filter? && WellFormed(child) && AllBoolean(es, SchemaOf(child)) && Settled(child)
    ensures var (c, remaining) := PushAll(h, child, es);
      Settled(c) && forall e <- remaining :: e in es && Stuck(c, e)
    decreases NonFilters(child), 0, |es|
  {
    if es != [] {
      hide Stuck;
      hide Settled;
      hide Types;
      hide Rows;
      var e, init := es[|es| - 1], es[..|es| - 1];
      var (c, remaining) := PushAll(h, child, init);
      PushAllSound(h, child, init);
      PushAllSettles(h, child, init);
      StuckExactly(h, c, e);
      if PushDown(h, c, e).Some? {
        PushDownSettles(h, c, e);
      }
    }
  }

  lemma {:induction false} SettleSettles(h: Hints, chain: Plan)
    requires chain.Filter? && WellFormed(chain) && Settled(chain.left)
    ensures Settled(Settle(h, chain))
    decreases NonFilters(chain), 1, 0
  {
    hide Stuck;
    hide Types;
    var preds := ChainPredicates(h.shared, chain);
    var unique := Deduplicate(h.shared, preds);
    ChainMeaning(h.shared, chain);
    DeduplicateBoolean(h.shared, preds, SchemaOf(chain));
    BottomSettled(chain.left);
    PushAllSettles(h, Bottom(chain), unique);
    ChainPlain(h.shared, chain);
    DeduplicateDistinct(h.shared, preds);
    var (child, remaining) := PushAll(h, Bottom(chain), unique);
    var ordered := StableSort(ByEstimate(h, child), remaining);
    StableSortMembers(ByEstimate(h, child), remaining);
    forall e <- ordered ensures Plain(e) && Stuck(child, e) {
      assert e in multiset(ordered);
      assert e in remaining;
    }
    WrapSettled(child, ordered);
  }

  /**
   Rewriting a well-formed plan leaves no conjunction and no literal TRUE in a filter, no filter
   that could be pushed below what its chain stands on, and no identity projection.
   */
  lemma {:induction false} RewriteSettles(h: Hints, p: Plan)
    requires WellFormed(p)
    ensures Settled(Rewrite.Rewrite(h, p))
    decreases NonFilters(p), PlanSize(p), 0
  {
    hide Stuck;
    hide Plain;
    match p
    case Scan(_, _) =>
    case Projection(l, xs) =>
      RewriteSettles(h, l);
      var l', ys := Rewrite.Rewrite(h, l), SimplifyAll(h.shared, xs);
      if Redundant(l', ys) {
        RedundantIsIdentity(l', ys);
      }
    case Join(l, r, _, _) =>
      RewriteSettles(h, l);
      RewriteSettles(h, r);
    case Filter(l, e) =>
      RewriteSettles(h, l);
      RewriteSound(h, l);
      SettleSettles(h, Filter(Rewrite.Rewrite(h, l), e));
    case _ => RewriteSettles(h, p.left);
  }

  // ---------------------------------------------------------------------------------------
  // The order of the filters that stay.

  /** Of two filters of one chain, the lower one is estimated to keep no more rows. */
  predicate MoreSelectiveBelow(h: Hints, q: Plan) {
    match q
    case Scan(_, _) => true
    case Filter(l, e) =>
      MoreSelectiveBelow(h, l) && (l.Filter? ==> h.estimate(l.condition, Bottom(l)) <= h.estimate(e, Bottom(l)))
    case Join(l, r, _, _) => MoreSelectiveBelow(h, l) && MoreSelectiveBelow(h, r)
    case _ => MoreSelectiveBelow(h, q.left)
  }

  lemma EstimateSign(h: Hints, child: Plan, a: Expr, b: Expr)
    ensures ByEstimate(h, child)(a, b) < 0 <==> h.estimate(a, child) < h.estimate(b, child)
    ensures ByEstimate(h, child)(a, b) > 0 <==> h.estimate(a, child) > h.estimate(b, child)
  {
  }

  lemma EstimatesOrder(h: Hints, child: Plan)
    ensures TotalPreorder(ByEstimate(h, child))
  {
    forall a, b ensures Opposite(ByEstimate(h, child), a, b) {
      EstimateSign(h, child, a, b);
      EstimateSign(h, child, b, a);
    }
    forall a, b, c ensures Transitive(ByEstimate(h, child), a, b, c) {
      EstimateSign(h, child, a, b);
      EstimateSign(h, child, b, c);
      EstimateSign(h, child, a, c);
    }
  }

  lemma {:induction false} WrapAscends(h: Hints, child: Plan, es: seq<Expr>)
    requires !child.Filter? && MoreSelectiveBelow(h, child)
    requires forall i, j :: 0 <= i < j < |es| ==> h.estimate(es[i], child) <= h.estimate(es[j], child)
    ensures MoreSelectiveBelow(h, Wrap(child, es)) && Bottom(Wrap(child, es)) == child
  {
    if es != [] {
      WrapAscends(h, child, es[..|es| - 1]);
    }
  }

  lemma {:induction false} BottomAscends(h: Hints, q: Plan)
    requires MoreSelectiveBelow(h, q)
    ensures MoreSelectiveBelow(h, Bottom(q))
  {
    if q.Filter? {
      BottomAscends(h, q.left);
    }
  }

  lemma PushDownAscends(h: Hints, c: Plan, e: Expr)
    requires MoreSelectiveBelow(h, c) && PushDown(h, c, e).Some?
    ensures MoreSelectiveBelow(h, PushDown(h, c, e).value)
    decreases NonFilters(c), 0, 0
  {
    hide Aliases;
    hide Substitute;
    match c
    case Join(l, r, lk, rk) =>
      if Refs(e) <= OutputIds(l) {
        RewriteAscends(h, Filter(l, e));
      } else {
        RewriteAscends(h, Filter(r, e));
      }
    case Sort(l, _) => RewriteAscends(h, Filter(l, e));
    case Aggregate(l, _, _) => RewriteAscends(h, Filter(l, e));
    case Projection(l, xs) => RewriteAscends(h, Filter(l, Substitute(e, Aliases(xs))));
  }

  lemma {:induction false} PushAllAscends(h: Hints, child: Plan, es: seq<Expr>)
    requires !child.Filter? && MoreSelectiveBelow(h, child)
    ensures MoreSelectiveBelow(h, PushAll(h, child, es).0)
    decreases NonFilters(child), 0, |es|
  {
    if es != [] {
      var e, init := es[|es| - 1], es[..|es| - 1];
      PushAllAscends(h, child, init);
      var (c, remaining) := PushAll(h, child, init);
      if PushDown(h, c, e).Some? {
        PushDownAscends(h, c, e);
      }
    }
  }

  lemma SettleAscends(h: Hints, chain: Plan)
    requires chain.Filter? && MoreSelectiveBelow(h, chain.left)
    ensures MoreSelectiveBelow(h, Settle(h, chain))
    decreases NonFilters(chain), 1, 0
  {
    var unique := Deduplicate(h.shared, ChainPredicates(h.shared, chain));
    BottomAscends(h, chain.left);
    PushAllAscends(h, Bottom(chain), unique);
    var (child, remaining) := PushAll(h, Bottom(chain), unique);
    EstimatesOrder(h, child);
    StableSortSorted(ByEstimate(h, child), remaining);
    var ordered := StableSort(ByEstimate(h, child), remaining);
    forall i, j | 0 <= i < j < |ordered| ensures h.estimate(ordered[i], child) <= h.estimate(ordered[j], child) {
      assert ByEstimate(h, child)(ordered[i], ordered[j]) <= 0;
    }
    WrapAscends(h, child, ordered);
  }

  /** In a rewritten plan the filters of every chain stand by their estimates, the most selective lowest. */
  lemma {:induction false} RewriteAscends(h: Hints, p: Plan)
    ensures MoreSelectiveBelow(h, Rewrite.Rewrite(h, p))
    decreases NonFilters(p), PlanSize(p), 0
  {
    match p
    case Scan(_, _) =>
    case Join(l, r, _, _) =>
      RewriteAscends(h, l);
      RewriteAscends(h, r);
    case Filter(l, e) =>
      RewriteAscends(h, l);
      SettleAscends(h, Filter(Rewrite.Rewrite(h, l), e));
    case _ => RewriteAscends(h, p.left);
  }
}
