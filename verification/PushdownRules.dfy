/**
 Each pushdown rule on its own: a filter above a plan may be replaced by the plan over any
 equivalent of the filtered input.
 */
module PushdownRules {
  import opened Values
  import opened Expressions
  import opened Sequences
  import opened Relations
  import opened RelationLaws
  import opened Plans
  import opened Rewrite

  /** The expression is a predicate over the plan's columns. */
  predicate PredicateOver(e: Expr, p: Plan) {
    WellFormed(p) && ExpressionType(e, Types(SchemaOf(p))) == Some(BooleanType)
  }

  /** q has the columns (ids, types, names, order) of p, and those rows of p that satisfy e, in order. */
  ghost predicate Filtered(e: Expr, p: Plan, q: Plan) {
    OutputSchema(q) == OutputSchema(p) && Rows(q) == Keep([e], Rows(p))
  }

  lemma PushSort(l: Plan, keys: seq<SortKey>, e: Expr, l': Plan)
    requires PredicateOver(e, Sort(l, keys)) && (PredicateOver(e, l) ==> Filtered(e, l, l'))
    ensures Filtered(e, Sort(l, keys), Sort(l', keys))
  {
    hide Keep;
    hide SortRows;
    hide ExpressionType;
    hide Types;
    KeepSort([e], keys, Rows(l));
  }

  lemma JoinTypes(ls: Schema, rs: Schema, e: Expr)
    requires UniqueIds(ls + rs)
    ensures Refs(e) <= Ids(ls) ==> ExpressionType(e, Types(ls + rs)) == ExpressionType(e, Types(ls))
    ensures Refs(e) <= Ids(rs) ==> ExpressionType(e, Types(ls + rs)) == ExpressionType(e, Types(rs))
  {
    IdsAppend(ls, rs);
    forall id | id in Ids(ls + rs)
      ensures id in Ids(ls) ==> Types(ls + rs)[id] == Types(ls)[id]
      ensures id in Ids(rs) ==> Types(ls + rs)[id] == Types(rs)[id]
    {
      LookupAppend(ls, rs, id);
    }
    if Refs(e) <= Ids(ls) {
      TypeDependsOnRefs(e, Types(ls + rs), Types(ls));
    }
    if Refs(e) <= Ids(rs) {
      TypeDependsOnRefs(e, Types(ls + rs), Types(rs));
    }
  }

  lemma DisjointIds(ls: Schema, rs: Schema)
    requires UniqueIds(ls + rs)
    ensures Ids(ls) !! Ids(rs)
  {
    IdsAppend(ls, rs);
    forall id | id in Ids(ls) ensures id !in Ids(rs) {
      LookupAppend(ls, rs, id);
    }
  }

  lemma HoldsOnSide(e: Expr, l: Row, r: Row)
    requires l.Keys !! r.Keys
    ensures Refs(e) <= l.Keys ==> AllHold([e], l + r) == AllHold([e], l)
    ensures Refs(e) <= r.Keys ==> AllHold([e], l + r) == AllHold([e], r)
  {
    if Refs(e) <= l.Keys {
      EvalDependsOnRefs(e, l + r, l);
    }
    if Refs(e) <= r.Keys {
      EvalDependsOnRefs(e, l + r, r);
    }
  }

  lemma RowsHaveIds(p: Plan)
    requires WellFormed(p)
    ensures forall row <- Rows(p) :: row.Keys == Ids(SchemaOf(p))
  {
    RowsTyped(p);
    forall row <- Rows(p) ensures row.Keys == Ids(SchemaOf(p)) {
      assert RowHasTypes(row, Types(SchemaOf(p)));
    }
  }

  lemma JoinSchema(l: Plan, r: Plan, lk: seq<ColumnId>, rk: seq<ColumnId>)
    requires WellFormed(Join(l, r, lk, rk))
    ensures WellFormed(l) && WellFormed(r) && UniqueIds(SchemaOf(l) + SchemaOf(r))
    ensures SchemaOf(Join(l, r, lk, rk)) == SchemaOf(l) + SchemaOf(r)
  {
  }

  lemma PushJoinLeft(l: Plan, r: Plan, lk: seq<ColumnId>, rk: seq<ColumnId>, e: Expr, l': Plan)
    requires PredicateOver(e, Join(l, r, lk, rk)) && Refs(e) <= OutputIds(l)
    requires PredicateOver(e, l) ==> Filtered(e, l, l')
    ensures Filtered(e, Join(l, r, lk, rk), Join(l', r, lk, rk))
  {
    hide Keep;
    hide JoinRows;
    hide Types;
    hide JoinKeysOk;
    hide ExpressionType;
    hide UniqueIds;
    hide Ids;
    hide Eval;
    JoinSchema(l, r, lk, rk);
    JoinTypes(SchemaOf(l), SchemaOf(r), e);
    DisjointIds(SchemaOf(l), SchemaOf(r));
    RowsHaveIds(l);
    RowsHaveIds(r);
    forall x <- Rows(l), y <- Rows(r) ensures AllHold([e], x + y) <==> AllHold([e], x) {
      HoldsOnSide(e, x, y);
    }
    KeepJoinLeft([e], lk, rk, Rows(l), Rows(r));
  }

  lemma PushJoinRight(l: Plan, r: Plan, lk: seq<ColumnId>, rk: seq<ColumnId>, e: Expr, r': Plan)
    requires PredicateOver(e, Join(l, r, lk, rk)) && Refs(e) <= OutputIds(r)
    requires PredicateOver(e, r) ==> Filtered(e, r, r')
    ensures Filtered(e, Join(l, r, lk, rk), Join(l, r', lk, rk))
  {
    hide Keep;
    hide JoinRows;
    hide Types;
    hide JoinKeysOk;
    hide ExpressionType;
    hide UniqueIds;
    hide Ids;
    hide Eval;
    JoinSchema(l, r, lk, rk);
    JoinTypes(SchemaOf(l), SchemaOf(r), e);
    DisjointIds(SchemaOf(l), SchemaOf(r));
    RowsHaveIds(l);
    RowsHaveIds(r);
    forall x <- Rows(l), y <- Rows(r) ensures AllHold([e], x + y) <==> AllHold([e], y) {
      HoldsOnSide(e, x, y);
    }
    KeepJoinRight([e], lk, rk, Rows(l), Rows(r));
  }

  /** A predicate over the grouping keys cannot tell two rows of a group apart. */
  lemma KeyPredicateRespectsKeys(e: Expr, keys: seq<ColumnId>)
    requires Refs(e) <= KeySet(keys)
    ensures RespectsKeys([e], keys)
  {
    forall a: Row, b: Row | KeyOf(keys, a) == KeyOf(keys, b) ensures AllHold([e], a) == AllHold([e], b) {
      forall id | id in Refs(e) ensures Canon(Cell(a, id)) == Canon(Cell(b, id)) {
        var i :| 0 <= i < |keys| && keys[i] == id;
        assert KeyOf(keys, a)[i] == KeyOf(keys, b)[i];
      }
      EvalCongruent(e, a, b);
    }
  }

  lemma AggregateKeyTypes(s: Schema, keys: seq<ColumnId>, aggs: seq<AggregateSpec>, e: Expr)
    requires UniqueIds(s) && AggregateSchema(s, keys, aggs).Some? && Refs(e) <= KeySet(keys)
    ensures ExpressionType(e, Types(AggregateSchema(s, keys, aggs).value)) == ExpressionType(e, Types(s))
    ensures KeySet(keys) !! Ids(AggregateFields(aggs))
  {
    var ks, outs := SelectFields(s, keys), AggregateFields(aggs);
    SelectFieldsIds(s, keys);
    DisjointIds(ks, outs);
    JoinTypes(ks, outs, e);
    TypeDependsOnRefs(e, Types(ks), Types(s));
  }

  /** A predicate on keys has the same answer on an output row as on the row that leads the group. */
  lemma KeysDecide(s: Schema, keys: seq<ColumnId>, aggs: seq<AggregateSpec>, e: Expr)
    requires UniqueIds(s) && AggregateSchema(s, keys, aggs).Some? && Refs(e) <= KeySet(keys)
    ensures forall rep: Row, members :: AllHold([e], AggregateRow(keys, aggs, rep, members)) == AllHold([e], rep)
  {
    AggregateKeyTypes(s, keys, aggs, e);
    forall rep: Row, members
      ensures AllHold([e], AggregateRow(keys, aggs, rep, members)) == AllHold([e], rep)
    {
      EvalDependsOnRefs(e, AggregateRow(keys, aggs, rep, members), rep);
    }
  }

  lemma PushAggregate(l: Plan, keys: seq<ColumnId>, aggs: seq<AggregateSpec>, e: Expr, l': Plan)
    requires PredicateOver(e, Aggregate(l, keys, aggs))
    requires Refs(e) != {} && Refs(e) <= KeySet(keys)
    requires PredicateOver(e, l) ==> Filtered(e, l, l')
    ensures Filtered(e, Aggregate(l, keys, aggs), Aggregate(l', keys, aggs))
  {
    hide AggregateRow;
    hide AllHold;
    hide ExpressionType;
    hide Types;
    hide Keep;
    hide AggregateRows;
    hide UniqueIds;
    hide SelectSchema;
    OutputUnique(l);
    AggregateKeyTypes(SchemaOf(l), keys, aggs, e);
    KeyPredicateRespectsKeys(e, keys);
    KeysDecide(SchemaOf(l), keys, aggs, e);
    KeepAggregate([e], keys, aggs, Rows(l));
  }

  // ---------------------------------------------------------------------------------------
  // Renaming projections.

  lemma {:induction false} AliasesAreColumns(xs: seq<NamedExpr>, id: ColumnId) returns (i: nat)
    requires id in Aliases(xs)
    ensures i < |xs| && xs[i].field.id == id && xs[i].expr == Aliases(xs)[id] && xs[i].expr.Column?
  {
    var x, init := xs[|xs| - 1], xs[..|xs| - 1];
    if id in Aliases(init) {
      i := AliasesAreColumns(init, id);
    } else {
      i := |xs| - 1;
    }
  }

  /** Substituting asks of the input row what the original asks of the projected row. */
  lemma {:induction false} SubstituteMeaning(e: Expr, m: map<ColumnId, Expr>, row: Row, out: Row)
    requires forall id <- Refs(e) :: id in m && Eval(m[id], row) == Cell(out, id)
    ensures Eval(Substitute(e, m), row) == Eval(e, out)
  {
    match e
    case Column(id) =>
      assert id in Refs(e);
      assert Cell(out, id) == Eval(e, out);
    case Literal(_, _) =>
    case Unary(_, a) => SubstituteMeaning(a, m, row, out);
    case Binary(_, a, b) => SubstituteMeaning(a, m, row, out); SubstituteMeaning(b, m, row, out);
  }

  lemma {:induction false} SubstituteType(e: Expr, m: map<ColumnId, Expr>, env: TypeEnv, out: TypeEnv)
    requires forall id <- Refs(e) :: id in m && id in out && ExpressionType(m[id], env) == Some(out[id])
    ensures ExpressionType(Substitute(e, m), env) == ExpressionType(e, out)
  {
    match e
    case Column(id) => assert id in Refs(e);
    case Literal(_, _) =>
    case Unary(_, a) => SubstituteType(a, m, env, out);
    case Binary(_, a, b) => SubstituteType(a, m, env, out); SubstituteType(b, m, env, out);
  }

  lemma AliasMeaning(xs: seq<NamedExpr>, id: ColumnId, s: Schema, row: Row)
    requires ProjectionSchema(xs, s).Some? && id in Aliases(xs)
    ensures id in Types(OutputFields(xs))
    ensures ExpressionType(Aliases(xs)[id], Types(s)) == Some(Types(OutputFields(xs))[id])
    ensures Eval(Aliases(xs)[id], row) == Cell(ProjectRow(xs, row), id)
  {
    var i := AliasesAreColumns(xs, id);
    FieldAt(OutputFields(xs), i);
    assert xs[i] in xs;
  }

  lemma PushProjection(l: Plan, xs: seq<NamedExpr>, e: Expr, l': Plan)
    requires PredicateOver(e, Projection(l, xs)) && Refs(e) <= Aliases(xs).Keys
    requires var f := Substitute(e, Aliases(xs));
      PredicateOver(f, l) ==> Filtered(f, l, l')
    ensures Filtered(e, Projection(l, xs), Projection(l', xs))
  {
    var m, s := Aliases(xs), SchemaOf(l);
    var f := Substitute(e, m);
    forall id | id in Refs(e)
      ensures id in Types(OutputFields(xs)) && ExpressionType(m[id], Types(s)) == Some(Types(OutputFields(xs))[id])
    {
      AliasMeaning(xs, id, s, map[]);
    }
    SubstituteType(e, m, Types(s), Types(OutputFields(xs)));
    forall row | row in Rows(l) ensures Holds(e, ProjectRow(xs, row)) == Holds(f, row) {
      forall id | id in Refs(e) ensures Eval(m[id], row) == Cell(ProjectRow(xs, row), id) {
        AliasMeaning(xs, id, s, row);
      }
      SubstituteMeaning(e, m, row, ProjectRow(xs, row));
    }
    KeepProject(e, f, xs, Rows(l));
  }
}
