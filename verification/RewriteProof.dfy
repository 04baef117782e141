/** Rewriting keeps the schema and the list of rows of every well-formed plan. */
module RewriteProof {
  import opened Values
  import opened Expressions
  import opened Simplify
  import opened Sequences
  import opened Relations
  import opened RelationLaws
  import opened Plans
  import opened Rewrite
  import opened PushdownRules

  /** Same columns (ids, types, names, order) and the same list of rows. */
  ghost predicate Equivalent(p: Plan, q: Plan) {
    OutputSchema(p) == OutputSchema(q) && Rows(p) == Rows(q)
  }

  ghost predicate AllBoolean(es: seq<Expr>, s: Schema) {
    forall e <- es :: ExpressionType(e, Types(s)) == Some(BooleanType)
  }

  // ---------------------------------------------------------------------------------------
  // Simplified expressions.

  lemma SimplifyType(shared: Sharing, e: Expr, env: TypeEnv)
    requires ExpressionType(e, env).Some?
    ensures ExpressionType(SimplifyExpression(shared, e), env) == ExpressionType(e, env)
  {
    SimplifyMeaning(shared, e, map id <- env.Keys :: Null, env);
  }

  lemma SimplifiedProjection(shared: Sharing, l: Plan, xs: seq<NamedExpr>)
    requires WellFormed(Projection(l, xs))
    ensures Equivalent(Projection(l, xs), Projection(l, SimplifyAll(shared, xs)))
  {
    var ys, env := SimplifyAll(shared, xs), Types(SchemaOf(l));
    RowsTyped(l);
    assert OutputFields(ys) == OutputFields(xs);
    forall i | 0 <= i < |xs| ensures ExpressionType(ys[i].expr, env) == Some(ys[i].field.typ) {
      assert xs[i] in xs;
      SimplifyType(shared, xs[i].expr, env);
    }
    forall k | 0 <= k < |Rows(l)| ensures ProjectRow(xs, Rows(l)[k]) == ProjectRow(ys, Rows(l)[k]) {
      forall i | 0 <= i < |xs| ensures Eval(xs[i].expr, Rows(l)[k]) == Eval(ys[i].expr, Rows(l)[k]) {
        assert xs[i] in xs;
        SimplifyMeaning(shared, xs[i].expr, Rows(l)[k], env);
      }
    }
  }

  lemma IdentityKeepsRow(s: Schema, xs: seq<NamedExpr>, row: Row)
    requires UniqueIds(s) && |xs| == |s| && row.Keys == Ids(s)
    requires forall i :: 0 <= i < |xs| ==> xs[i].expr == Column(s[i].id) && xs[i].field.id == s[i].id
    ensures ProjectRow(xs, row) == row
  {
    var out := OutputFields(xs);
    forall id ensures id in Ids(out) <==> id in Ids(s) {
      if id in Ids(s) {
        assert out[IndexOf(s, id)] in out;
      }
      if id in Ids(out) {
        assert s[IndexOf(out, id)] in s;
      }
    }
  }

  lemma IdentityFields(s: Schema, xs: seq<NamedExpr>, i: nat)
    requires UniqueIds(s) && ExpressionsTyped(xs, Types(s)) && i < |xs| == |s|
    requires xs[i].expr == Column(s[i].id) && xs[i].field.id == s[i].id && xs[i].field.name == s[i].name
    ensures xs[i].field == s[i]
  {
    assert xs[i] in xs;
    FieldAt(s, i);
  }

  ghost predicate Renames(s: Schema, xs: seq<NamedExpr>) {
    && |xs| == |s|
    && forall i :: 0 <= i < |xs| ==>
         && xs[i].expr == Column(s[i].id)
         && xs[i].field.id == s[i].id
         && xs[i].field.name == s[i].name
  }

  lemma IdentitySchema(s: Schema, xs: seq<NamedExpr>)
    requires UniqueIds(s) && ExpressionsTyped(xs, Types(s)) && Renames(s, xs)
    ensures OutputFields(xs) == s
  {
    forall i | 0 <= i < |xs| ensures OutputFields(xs)[i] == s[i] {
      IdentityFields(s, xs, i);
    }
  }

  lemma IdentityRows(s: Schema, xs: seq<NamedExpr>, rows: seq<Row>)
    requires UniqueIds(s) && Renames(s, xs)
    requires AllTyped(rows, s)
    ensures Map(Projecting(xs), rows) == rows
  {
    forall k | 0 <= k < |rows| ensures Projecting(xs)(rows[k]) == rows[k] {
      assert RowHasTypes(rows[k], Types(s));
      IdentityKeepsRow(s, xs, rows[k]);
    }
  }

  /** A projection recognised as the identity may be dropped. */
  lemma IdentityDropped(l: Plan, xs: seq<NamedExpr>)
    requires WellFormed(Projection(l, xs)) && IsIdentity(l, xs)
    ensures Equivalent(Projection(l, xs), l)
  {
    OutputUnique(l);
    RowsTyped(l);
    IdentitySchema(SchemaOf(l), xs);
    IdentityRows(SchemaOf(l), xs, Rows(l));
  }

  // ---------------------------------------------------------------------------------------
  // Conjuncts, chains and duplicates.

  lemma AllHoldAppend(es: seq<Expr>, fs: seq<Expr>, row: Row)
    ensures AllHold(es + fs, row) <==> AllHold(es, row) && AllHold(fs, row)
  {
    if AllHold(es + fs, row) {
      assert forall e <- es :: e in es + fs;
      assert forall f <- fs :: f in es + fs;
    }
  }

  /** A conjunction holds exactly when all its conjuncts do. */
  lemma {:induction false} ConjunctsMeaning(e: Expr, row: Row)
    ensures AllHold(Conjuncts(e), row) <==> Holds(e, row)
  {
    if e.Binary? && e.op.And? {
      ConjunctsMeaning(e.left, row);
      ConjunctsMeaning(e.right, row);
      AllHoldAppend(Conjuncts(e.left), Conjuncts(e.right), row);
    }
  }

  lemma {:induction false} ConjunctsBoolean(e: Expr, s: Schema)
    requires ExpressionType(e, Types(s)) == Some(BooleanType)
    ensures AllBoolean(Conjuncts(e), s)
  {
    if e.Binary? && e.op.And? {
      ConjunctsBoolean(e.left, s);
      ConjunctsBoolean(e.right, s);
    }
  }

  /** A chain of filters keeps what its collected predicates keep. */
  lemma {:induction false} ChainMeaning(shared: Sharing, p: Plan)
    requires WellFormed(p)
    ensures OutputSchema(Bottom(p)) == OutputSchema(p)
    ensures AllBoolean(ChainPredicates(shared, p), SchemaOf(p))
    ensures Rows(p) == Keep(ChainPredicates(shared, p), Rows(Bottom(p)))
  {
    if p.Filter? {
      var e, env := p.condition, Types(SchemaOf(p));
      var f := SimplifyExpression(shared, e);
      ChainMeaning(shared, p.left);
      SimplifyType(shared, e, env);
      ConjunctsBoolean(f, SchemaOf(p));
      RowsTyped(p.left);
      forall row | row in Rows(p.left) ensures AllHold([e], row) <==> AllHold(Conjuncts(f), row) {
        SimplifyMeaning(shared, e, row, env);
        ConjunctsMeaning(f, row);
        assert AllHold([e], row) <==> Holds(e, row);
      }
      KeepSame([e], Conjuncts(f), Rows(p.left));
      KeepKeep(Conjuncts(f), ChainPredicates(shared, p.left), Rows(Bottom(p)));
    } else {
      KeepNothing(Rows(p));
    }
  }

  /** On a typed row, dropping TRUE and repetitions does not change what holds. */
  lemma {:induction false} DeduplicateMeaning(shared: Sharing, es: seq<Expr>, row: Row, s: Schema)
    requires AllBoolean(es, s) && RowHasTypes(row, Types(s))
    ensures AllHold(Deduplicate(shared, es), row) <==> AllHold(es, row)
  {
    if es != [] {
      var e, init := es[|es| - 1], es[..|es| - 1];
      var unique := Deduplicate(shared, init);
      DeduplicateMeaning(shared, init, row, s);
      assert es == init + [e];
      AllHoldAppend(init, [e], row);
      AllHoldAppend(unique, [e], row);
      if Contains(shared, unique, e) {
        var i :| 0 <= i < |unique| && ExpressionEqual(shared, unique[i], e);
        EqualSameMeaning(shared, unique[i], e, row);
        EvalTyped(e, row, Types(s));
        assert unique[i] in unique;
      }
    }
  }

  lemma {:induction false} DeduplicateBoolean(shared: Sharing, es: seq<Expr>, s: Schema)
    requires AllBoolean(es, s)
    ensures AllBoolean(Deduplicate(shared, es), s)
  {
    if es != [] {
      DeduplicateBoolean(shared, es[..|es| - 1], s);
    }
  }

  /** Stacked filters keep the rows on which all of them hold. */
  lemma {:induction false} WrapMeaning(child: Plan, es: seq<Expr>)
    requires WellFormed(child) && AllBoolean(es, SchemaOf(child))
    ensures OutputSchema(Wrap(child, es)) == OutputSchema(child)
    ensures Rows(Wrap(child, es)) == Keep(es, Rows(child))
  {
    if es == [] {
      KeepNothing(Rows(child));
    } else {
      var e, init := es[|es| - 1], es[..|es| - 1];
      WrapMeaning(child, init);
      KeepKeep([e], init, Rows(child));
      forall row | row in Rows(child) ensures AllHold([e] + init, row) <==> AllHold(es, row) {
        assert es == init + [e];
        AllHoldAppend(init, [e], row);
        AllHoldAppend([e], init, row);
      }
      KeepSame([e] + init, es, Rows(child));
    }
  }

  /** Any reordering of filters keeps the same rows. */
  lemma ReorderMeaning(cmp: Comparison<Expr>, es: seq<Expr>, rows: seq<Row>, s: Schema)
    requires AllBoolean(es, s)
    ensures AllBoolean(StableSort(cmp, es), s)
    ensures Keep(StableSort(cmp, es), rows) == Keep(es, rows)
  {
    StableSortMembers(cmp, es);
    forall e ensures e in StableSort(cmp, es) <==> e in es {
      assert e in multiset(es) <==> e in multiset(StableSort(cmp, es));
    }
    KeepSame(StableSort(cmp, es), es, rows);
  }

  // ---------------------------------------------------------------------------------------
  // The recursion.

  lemma {:induction false} PushDownSound(h: Hints, child: Plan, e: Expr)
    requires PredicateOver(e, child) && PushDown(h, child, e).Some?
    ensures Filtered(e, child, PushDown(h, child, e).value)
    decreases NonFilters(child), 0, 0
  {
    match child
    case Join(l, r, lk, rk) =>
      if Refs(e) <= OutputIds(l) {
        FilterRewriteSound(h, l, e);
        PushJoinLeft(l, r, lk, rk, e, Rewrite.Rewrite(h, Filter(l, e)));
      } else {
        FilterRewriteSound(h, r, e);
        PushJoinRight(l, r, lk, rk, e, Rewrite.Rewrite(h, Filter(r, e)));
      }
    case Sort(l, keys) =>
      FilterRewriteSound(h, l, e);
      PushSort(l, keys, e, Rewrite.Rewrite(h, Filter(l, e)));
    case Aggregate(l, keys, aggs) =>
      FilterRewriteSound(h, l, e);
      PushAggregate(l, keys, aggs, e, Rewrite.Rewrite(h, Filter(l, e)));
    case Projection(l, xs) =>
      var f := Substitute(e, Aliases(xs));
      FilterRewriteSound(h, l, f);
      PushProjection(l, xs, e, Rewrite.Rewrite(h, Filter(l, f)));
  }

  lemma {:induction false} FilterRewriteSound(h: Hints, l: Plan, e: Expr)
    ensures PredicateOver(e, l) ==> Filtered(e, l, Rewrite.Rewrite(h, Filter(l, e)))
    decreases NonFilters(l), PlanSize(l) + 1, 1
  {
    if PredicateOver(e, l) {
      RewriteSound(h, Filter(l, e));
    }
  }

  /** What the loop over the predicates keeps: those left above filter the changed plan as all did the first. */
  ghost predicate PushedSoFar(child: Plan, es: seq<Expr>, c: Plan, remaining: seq<Expr>) {
    && WellFormed(child)
    && OutputSchema(c) == OutputSchema(child)
    && AllBoolean(remaining, SchemaOf(child))
    && Keep(remaining, Rows(c)) == Keep(es, Rows(child))
  }

  lemma PushStep(child: Plan, es: seq<Expr>, c: Plan, remaining: seq<Expr>, e: Expr, c': Plan)
    requires PushedSoFar(child, es, c, remaining) && Filtered(e, c, c')
    ensures PushedSoFar(child, es + [e], c', remaining)
  {
    KeepBoth(es, e, Rows(child));
    KeepBoth(remaining, e, Rows(c));
  }

  lemma PushKept(child: Plan, es: seq<Expr>, c: Plan, remaining: seq<Expr>, e: Expr)
    requires PushedSoFar(child, es, c, remaining)
    requires ExpressionType(e, Types(SchemaOf(child))) == Some(BooleanType)
    ensures PushedSoFar(child, es + [e], c, remaining + [e])
  {
    KeepBoth(es, e, Rows(child));
    KeepBoth(remaining, e, Rows(c));
  }

  lemma PushedNothing(child: Plan)
    requires WellFormed(child)
    ensures PushedSoFar(child, [], child, [])
  {
  }

  lemma PushedPredicate(child: Plan, es: seq<Expr>, c: Plan, remaining: seq<Expr>, e: Expr)
    requires PushedSoFar(child, es, c, remaining)
    requires ExpressionType(e, Types(SchemaOf(child))) == Some(BooleanType)
    ensures PredicateOver(e, c)
  {
  }

  lemma {:induction false} PushAllSound(h: Hints, child: Plan, es: seq<Expr>)
    requires !child.Filter? && WellFormed(child) && AllBoolean(es, SchemaOf(child))
    ensures var (c, remaining) := PushAll(h, child, es); PushedSoFar(child, es, c, remaining)
    decreases NonFilters(child), 0, |es|
  {
    hide PushedSoFar;
    hide Filtered;
    hide PredicateOver;
    hide Types;
    if es == [] {
      PushedNothing(child);
    } else {
      var e, init := es[|es| - 1], es[..|es| - 1];
      var (c, remaining) := PushAll(h, child, init);
      PushAllSound(h, child, init);
      assert es == init + [e];
      match PushDown(h, c, e)
      case Some(c') =>
        PushedPredicate(child, init, c, remaining, e);
        PushDownSound(h, c, e);
        PushStep(child, init, c, remaining, e, c');
      case None =>
        PushKept(child, init, c, remaining, e);
    }
  }

  /** One more predicate filters what the others kept, and may come first or last. */
  lemma KeepBoth(es: seq<Expr>, e: Expr, rows: seq<Row>)
    ensures Keep(es + [e], rows) == Keep([e], Keep(es, rows))
    ensures Keep(es + [e], rows) == Keep(es, Keep([e], rows))
  {
    KeepKeep(es, [e], rows);
    KeepKeep([e], es, rows);
    forall row | row in rows ensures AllHold([e] + es, row) <==> AllHold(es + [e], row) {
      AllHoldAppend([e], es, row);
      AllHoldAppend(es, [e], row);
    }
    KeepSame([e] + es, es + [e], rows);
  }

  lemma FilterStepSound(h: Hints, chain: Plan, q: Plan)
    requires chain.Filter? && WellFormed(chain)
    requires var unique := Deduplicate(h.shared, ChainPredicates(h.shared, chain));
      && AllBoolean(unique, SchemaOf(chain))
      && var (child, remaining) := PushAll(h, Bottom(chain), unique);
      && PushedSoFar(Bottom(chain), unique, child, remaining)
      && q == Wrap(child, StableSort(ByEstimate(h, child), remaining))
    ensures Equivalent(chain, q)
  {
    var preds := ChainPredicates(h.shared, chain);
    var unique := Deduplicate(h.shared, preds);
    var (child, remaining) := PushAll(h, Bottom(chain), unique);
    ChainMeaning(h.shared, chain);
    RowsTyped(Bottom(chain));
    forall row | row in Rows(Bottom(chain)) ensures AllHold(unique, row) <==> AllHold(preds, row) {
      DeduplicateMeaning(h.shared, preds, row, SchemaOf(chain));
    }
    KeepSame(unique, preds, Rows(Bottom(chain)));
    ReorderMeaning(ByEstimate(h, child), remaining, Rows(child), SchemaOf(chain));
    WrapMeaning(child, StableSort(ByEstimate(h, child), remaining));
  }

  /** Settling the filters of a chain keeps the schema and the list of rows. */
  lemma {:induction false} SettleSound(h: Hints, chain: Plan)
    requires chain.Filter? && WellFormed(chain)
    ensures Equivalent(chain, Settle(h, chain))
    decreases NonFilters(chain), 1, 0
  {
    ChainMeaning(h.shared, chain);
    var preds := ChainPredicates(h.shared, chain);
    DeduplicateBoolean(h.shared, preds, SchemaOf(chain));
    PushAllSound(h, Bottom(chain), Deduplicate(h.shared, preds));
    FilterStepSound(h, chain, Settle(h, chain));
  }

  /** Rewriting a well-formed plan keeps its schema and its list of rows, for every estimate. */
  lemma {:induction false} RewriteSound(h: Hints, p: Plan)
    requires WellFormed(p)
    ensures Equivalent(p, Rewrite.Rewrite(h, p))
    decreases NonFilters(p), PlanSize(p), 0
  {
    match p
    case Scan(_, _) =>
    case Projection(l, xs) =>
      RewriteSound(h, l);
      var l', ys := Rewrite.Rewrite(h, l), SimplifyAll(h.shared, xs);
      SimplifiedProjection(h.shared, l, xs);
      if IsIdentity(l', ys) {
        IdentityDropped(l', ys);
      }
    case Join(l, r, _, _) =>
      RewriteSound(h, l);
      RewriteSound(h, r);
    case Filter(l, e) =>
      RewriteSound(h, l);
      var chain := Filter(Rewrite.Rewrite(h, l), e);
      assert Equivalent(p, chain);
      SettleSound(h, chain);
    case Aggregate(l, _, _) => RewriteSound(h, l);
    case Sort(l, _) => RewriteSound(h, l);
    case Limit(l, _) => RewriteSound(h, l);
  }
}
