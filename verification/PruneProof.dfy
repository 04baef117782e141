/** Pruning keeps the row count, and every row restricted to the columns that remain. */
module PruneProof {
  import opened Values
  import opened Expressions
  import opened Sequences
  import opened Aggregates
  import opened Relations
  import opened Plans
  import opened PushdownRules
  import opened Prune

  /** The fields with the given ids, in schema order. */
  function KeepFields(ids: set<ColumnId>, s: Schema): Schema {
    Select(WantedField(ids), s)
  }

  /**
   q is p with fewer columns: its schema is the subsequence of p's with the remaining ids, every
   required id of p remains, and its rows are those of p cut down to the remaining ids.
   */
  ghost predicate Narrowed(p: Plan, q: Plan, required: set<ColumnId>) {
    && WellFormed(p) && WellFormed(q)
    && required * OutputIds(p) <= OutputIds(q) <= OutputIds(p)
    && SchemaOf(q) == KeepFields(OutputIds(q), SchemaOf(p))
    && Rows(q) == RestrictRows(OutputIds(q), Rows(p))
  }

  // ---------------------------------------------------------------------------------------
  // Fewer fields.

  lemma {:induction false} KeepFieldsUnique(ids: set<ColumnId>, s: Schema)
    requires UniqueIds(s)
    ensures UniqueIds(KeepFields(ids, s))
  {
    if s != [] {
      var f, init := s[|s| - 1], s[..|s| - 1];
      KeepFieldsUnique(ids, init);
      forall i | 0 <= i < |KeepFields(ids, init)| ensures KeepFields(ids, init)[i].id != f.id {
        assert KeepFields(ids, init)[i] in init;
      }
    }
  }

  lemma KeepFieldsIds(ids: set<ColumnId>, s: Schema)
    ensures Ids(KeepFields(ids, s)) == ids * Ids(s)
  {
    forall id ensures id in Ids(KeepFields(ids, s)) <==> id in ids && id in Ids(s) {
      if id in ids && id in Ids(s) {
        var f :| f in s && f.id == id;
        SelectKeepsMembers(WantedField(ids), s, f);
      }
    }
  }

  lemma KeepFieldsLookup(ids: set<ColumnId>, s: Schema, id: ColumnId)
    requires UniqueIds(s) && id in ids && id in Ids(s)
    ensures id in Ids(KeepFields(ids, s)) && Lookup(KeepFields(ids, s), id) == Lookup(s, id)
  {
    KeepFieldsIds(ids, s);
    var f := Lookup(KeepFields(ids, s), id);
    assert f in s;
    var k :| 0 <= k < |s| && s[k] == f;
    FieldAt(s, k);
  }

  lemma KeepFieldsType(ids: set<ColumnId>, s: Schema, e: Expr)
    requires UniqueIds(s) && ExpressionType(e, Types(s)).Some? && Refs(e) * Ids(s) <= ids
    ensures ExpressionType(e, Types(KeepFields(ids, s))) == ExpressionType(e, Types(s))
    ensures Refs(e) <= ids
  {
    RefsTyped(e, Types(s));
    forall id | id in Refs(e)
      ensures id in Ids(KeepFields(ids, s)) && Lookup(KeepFields(ids, s), id) == Lookup(s, id)
    {
      KeepFieldsLookup(ids, s, id);
    }
    TypeDependsOnRefs(e, Types(s), Types(KeepFields(ids, s)));
  }

  lemma KeepAllFields(ids: set<ColumnId>, s: Schema)
    requires Ids(s) <= ids
    ensures KeepFields(ids, s) == s
  {
    forall f <- s ensures f.id in ids {
      assert f.id in Ids(s);
    }
    SelectAll(WantedField(ids), s);
  }

  lemma EvalRestricted(e: Expr, row: Row, ids: set<ColumnId>)
    requires Refs(e) <= ids
    ensures Eval(e, RestrictRow(row, ids)) == Eval(e, row)
  {
    EvalDependsOnRefs(e, RestrictRow(row, ids), row);
  }

  // ---------------------------------------------------------------------------------------
  // Scan.

  lemma {:induction false} SelectWanted(s: Schema, ids: seq<ColumnId>, required: set<ColumnId>)
    requires KeySet(ids) <= Ids(s)
    ensures KeySet(Select(Wanted(required), ids)) <= Ids(s)
    ensures SelectFields(s, Select(Wanted(required), ids)) == KeepFields(required, SelectFields(s, ids))
  {
    if ids != [] {
      var id, init := ids[|ids| - 1], ids[..|ids| - 1];
      SelectWanted(s, init, required);
      assert id in KeySet(ids);
      assert SelectFields(s, ids)[..|ids| - 1] == SelectFields(s, init);
      if id in required {
        assert SelectFields(s, Select(Wanted(required), ids))
            == SelectFields(s, Select(Wanted(required), init)) + [Lookup(s, id)];
      }
    }
  }

  lemma RestrictTwice(ids: set<ColumnId>, more: set<ColumnId>, rows: seq<Row>)
    requires ids <= more
    ensures RestrictRows(ids, RestrictRows(more, rows)) == RestrictRows(ids, rows)
  {
    forall k | 0 <= k < |rows|
      ensures RestrictRow(RestrictRow(rows[k], more), ids) == RestrictRow(rows[k], ids)
    {
    }
  }

  lemma PruneScan(source: Source, columns: seq<ColumnId>, required: set<ColumnId>)
    requires WellFormed(Scan(source, columns))
    ensures Narrowed(Scan(source, columns), Scan(source, Select(Wanted(required), columns)), required)
  {
    var s, kept := source.schema, Select(Wanted(required), columns);
    var all := SelectFields(s, columns);
    SelectWanted(s, columns, required);
    KeepFieldsUnique(required, all);
    KeepFieldsIds(required, all);
    SelectFieldsIds(s, columns);
    SelectFieldsIds(s, kept);
    SelectSame(WantedField(required), WantedField(KeySet(kept)), all) by {
      forall f <- all ensures f.id in required <==> f.id in KeySet(kept) {
        assert f.id in Ids(all);
      }
    }
    RestrictTwice(KeySet(kept), KeySet(columns), SourceRows(source));
  }

  // ---------------------------------------------------------------------------------------
  // Filter, Sort, Limit.

  lemma KeepRestricted(e: Expr, rows: seq<Row>, ids: set<ColumnId>)
    requires Refs(e) <= ids
    ensures Keep([e], RestrictRows(ids, rows)) == RestrictRows(ids, Keep([e], rows))
  {
    forall row <- rows ensures Holding([e])(RestrictRow(row, ids)) == Holding([e])(row) {
      EvalRestricted(e, row, ids);
    }
    SelectMap(Holding([e]), Holding([e]), Restricting(ids), rows);
  }

  lemma PruneFilter(l: Plan, e: Expr, required: set<ColumnId>, l': Plan)
    requires PredicateOver(e, l) && Narrowed(l, l', required + Refs(e))
    ensures Narrowed(Filter(l, e), Filter(l', e), required)
  {
    hide Keep;
    hide RestrictRows;
    hide KeepFields;
    OutputUnique(l);
    assert required * OutputIds(l) <= (required + Refs(e)) * OutputIds(l);
    assert Refs(e) * OutputIds(l) <= (required + Refs(e)) * OutputIds(l);
    KeepFieldsType(OutputIds(l'), SchemaOf(l), e);
    KeepRestricted(e, Rows(l), OutputIds(l'));
    assert OutputSchema(Filter(l, e)) == OutputSchema(l);
    assert OutputSchema(Filter(l', e)) == OutputSchema(l');
  }

  lemma {:induction false} CompareRestricted(keys: seq<SortKey>, a: Row, b: Row, ids: set<ColumnId>)
    requires SortColumns(keys) <= ids
    ensures CompareRows(keys, RestrictRow(a, ids), RestrictRow(b, ids)) == CompareRows(keys, a, b)
  {
    if keys != [] {
      assert keys[0].column in SortColumns(keys);
      CompareRestricted(keys[1..], a, b, ids);
    }
  }

  lemma SortRestricted(keys: seq<SortKey>, rows: seq<Row>, ids: set<ColumnId>)
    requires SortColumns(keys) <= ids
    ensures SortRows(keys, RestrictRows(ids, rows)) == RestrictRows(ids, SortRows(keys, rows))
  {
    forall a, b | a in rows && b in rows
      ensures RowOrder(keys)(Restricting(ids)(a), Restricting(ids)(b)) == RowOrder(keys)(a, b)
    {
      CompareRestricted(keys, a, b, ids);
    }
    MapSort(Restricting(ids), RowOrder(keys), RowOrder(keys), rows);
  }

  lemma SubsetsKept(required: set<ColumnId>, extra: set<ColumnId>, all: set<ColumnId>, kept: set<ColumnId>)
    requires (required + extra) * all <= kept && extra <= all
    ensures extra <= kept && required * all <= kept
  {
    assert extra <= (required + extra) * all;
    assert required * all <= (required + extra) * all;
  }

  lemma SortSchema(l: Plan, keys: seq<SortKey>)
    requires WellFormed(l)
    ensures WellFormed(Sort(l, keys)) <==> SortColumns(keys) <= OutputIds(l)
    ensures WellFormed(Sort(l, keys)) ==> OutputSchema(Sort(l, keys)) == OutputSchema(l)
  {
    assert forall k <- keys :: k.column in SortColumns(keys);
  }

  lemma PruneSort(l: Plan, keys: seq<SortKey>, required: set<ColumnId>, l': Plan)
    requires WellFormed(Sort(l, keys)) && Narrowed(l, l', required + SortColumns(keys))
    ensures Narrowed(Sort(l, keys), Sort(l', keys), required)
  {
    hide SortRows;
    hide RestrictRows;
    hide KeepFields;
    hide SortColumns;
    hide Ids;
    var ids := OutputIds(l');
    SortSchema(l, keys);
    SubsetsKept(required, SortColumns(keys), OutputIds(l), ids);
    SortSchema(l', keys);
    SortRestricted(keys, Rows(l), ids);
  }

  // ---------------------------------------------------------------------------------------
  // Projection.

  lemma {:induction false} OutputWanted(xs: seq<NamedExpr>, required: set<ColumnId>)
    ensures OutputFields(Select(WantedExpression(required), xs)) == KeepFields(required, OutputFields(xs))
  {
    if xs != [] {
      var init := xs[..|xs| - 1];
      OutputWanted(init, required);
      assert OutputFields(xs)[..|xs| - 1] == OutputFields(init);
    }
  }

  lemma KeptExpression(xs: seq<NamedExpr>, required: set<ColumnId>, id: ColumnId)
    requires UniqueIds(OutputFields(xs))
    requires id in Ids(OutputFields(Select(WantedExpression(required), xs)))
    ensures var kept := Select(WantedExpression(required), xs);
      && id in Ids(OutputFields(xs))
      && kept[IndexOf(OutputFields(kept), id)] == xs[IndexOf(OutputFields(xs), id)]
  {
    var kept := Select(WantedExpression(required), xs);
    var x := kept[IndexOf(OutputFields(kept), id)];
    assert x in xs;
    var k :| 0 <= k < |xs| && xs[k] == x;
    FieldAt(OutputFields(xs), k);
  }

  lemma ProjectRestricted(xs: seq<NamedExpr>, kept: seq<NamedExpr>, required: set<ColumnId>,
                          ids: set<ColumnId>, row: Row)
    requires kept == Select(WantedExpression(required), xs) && UniqueIds(OutputFields(xs))
    requires forall x <- kept :: Refs(x.expr) <= ids
    ensures ProjectRow(kept, RestrictRow(row, ids)) == RestrictRow(ProjectRow(xs, row), Ids(OutputFields(kept)))
  {
    hide UniqueIds;
    hide Eval;
    hide Select;
    var all, out := OutputFields(xs), OutputFields(kept);
    forall id | id in Ids(out)
      ensures id in Ids(all) && ProjectRow(kept, RestrictRow(row, ids))[id] == ProjectRow(xs, row)[id]
    {
      KeptExpression(xs, required, id);
      var x := kept[IndexOf(out, id)];
      assert x in kept;
      EvalRestricted(x.expr, row, ids);
    }
  }

  lemma PruneProjection(l: Plan, xs: seq<NamedExpr>, required: set<ColumnId>, l': Plan)
    requires WellFormed(Projection(l, xs))
    requires Narrowed(l, l', ExpressionRefs(Select(WantedExpression(required), xs)))
    ensures Narrowed(Projection(l, xs), Projection(l', Select(WantedExpression(required), xs)), required)
  {
    hide KeepFields;
    hide ProjectRow;
    hide RestrictRow;
    hide Select;
    hide UniqueIds;
    hide Types;
    var kept, ids, s := Select(WantedExpression(required), xs), OutputIds(l'), SchemaOf(l);
    OutputUnique(l);
    forall x <- kept
      ensures Refs(x.expr) <= ids && ExpressionType(x.expr, Types(SchemaOf(l'))) == Some(x.field.typ)
    {
      assert x in xs;
      assert Refs(x.expr) <= ExpressionRefs(kept);
      KeepFieldsType(ids, s, x.expr);
    }
    OutputWanted(xs, required);
    KeepFieldsUnique(required, OutputFields(xs));
    KeepFieldsIds(required, OutputFields(xs));
    KeepFieldsAgain(required, OutputFields(xs));
    forall k | 0 <= k < |Rows(l)|
      ensures Rows(Projection(l', kept))[k]
           == RestrictRow(Rows(Projection(l, xs))[k], Ids(OutputFields(kept)))
    {
      ProjectRestricted(xs, kept, required, ids, Rows(l)[k]);
    }
  }

  /** Naming the remaining ids instead of the required ones keeps the same fields. */
  lemma KeepFieldsAgain(required: set<ColumnId>, s: Schema)
    ensures KeepFields(Ids(KeepFields(required, s)), s) == KeepFields(required, s)
  {
    KeepFieldsIds(required, s);
    forall f <- s ensures f.id in Ids(KeepFields(required, s)) <==> f.id in required {
      assert f.id in Ids(s);
    }
    SelectSame(WantedField(Ids(KeepFields(required, s))), WantedField(required), s);
  }

  // ---------------------------------------------------------------------------------------
  // Join.

  lemma KeyRestricted(keys: seq<ColumnId>, row: Row, ids: set<ColumnId>)
    requires KeySet(keys) <= ids
    ensures KeyOf(keys, RestrictRow(row, ids)) == KeyOf(keys, row)
    ensures Joinable(keys, RestrictRow(row, ids)) == Joinable(keys, row)
  {
    forall i | 0 <= i < |keys| ensures Cell(RestrictRow(row, ids), keys[i]) == Cell(row, keys[i]) {
      assert keys[i] in KeySet(keys);
    }
  }

  lemma MatchesRestricted(lk: seq<ColumnId>, rk: seq<ColumnId>, l: Row, right: seq<Row>,
                          lids: set<ColumnId>, rids: set<ColumnId>)
    requires KeySet(lk) <= lids && KeySet(rk) <= rids
    ensures Select(MatchingWith(lk, rk, RestrictRow(l, lids)), RestrictRows(rids, right))
         == RestrictRows(rids, Select(MatchingWith(lk, rk, l), right))
  {
    var p, q := MatchingWith(lk, rk, RestrictRow(l, lids)), MatchingWith(lk, rk, l);
    KeyRestricted(lk, l, lids);
    forall r <- right ensures p(Restricting(rids)(r)) == q(r) {
      KeyRestricted(rk, r, rids);
    }
    SelectMap(p, q, Restricting(rids), right);
  }

  lemma PairRestricted(l: Row, r: Row, lids: set<ColumnId>, rids: set<ColumnId>)
    requires l.Keys !! rids && r.Keys !! lids
    ensures RestrictRow(l, lids) + RestrictRow(r, rids) == RestrictRow(l + r, lids + rids)
  {
  }

  lemma JoinOneRestricted(lk: seq<ColumnId>, rk: seq<ColumnId>, l: Row, right: seq<Row>,
                          lids: set<ColumnId>, rids: set<ColumnId>)
    requires KeySet(lk) <= lids && KeySet(rk) <= rids
    requires l.Keys !! rids && forall r <- right :: r.Keys !! lids
    ensures JoinOne(lk, rk, RestrictRow(l, lids), RestrictRows(rids, right))
         == RestrictRows(lids + rids, JoinOne(lk, rk, l, right))
  {
    MatchesRestricted(lk, rk, l, right, lids, rids);
    var matches := Select(MatchingWith(lk, rk, l), right);
    forall k | 0 <= k < |matches|
      ensures RestrictRow(l, lids) + RestrictRow(matches[k], rids) == RestrictRow(l + matches[k], lids + rids)
    {
      assert matches[k] in right;
      PairRestricted(l, matches[k], lids, rids);
    }
  }

  lemma {:induction false} JoinRestricted(lk: seq<ColumnId>, rk: seq<ColumnId>, left: seq<Row>, right: seq<Row>,
                                          lids: set<ColumnId>, rids: set<ColumnId>)
    requires KeySet(lk) <= lids && KeySet(rk) <= rids
    requires (forall l <- left :: l.Keys !! rids) && (forall r <- right :: r.Keys !! lids)
    ensures JoinRows(lk, rk, RestrictRows(lids, left), RestrictRows(rids, right))
         == RestrictRows(lids + rids, JoinRows(lk, rk, left, right))
  {
    if left != [] {
      var l, init := left[|left| - 1], left[..|left| - 1];
      JoinRestricted(lk, rk, init, right, lids, rids);
      JoinOneRestricted(lk, rk, l, right, lids, rids);
      assert RestrictRows(lids, left)[..|left| - 1] == RestrictRows(lids, init);
      MapAppend(Restricting(lids + rids), JoinRows(lk, rk, init, right), JoinOne(lk, rk, l, right));
    }
  }

  lemma JoinFields(lids: set<ColumnId>, rids: set<ColumnId>, ls: Schema, rs: Schema)
    requires UniqueIds(ls + rs) && lids <= Ids(ls) && rids <= Ids(rs)
    ensures KeepFields(lids, ls) + KeepFields(rids, rs) == KeepFields(lids + rids, ls + rs)
  {
    DisjointIds(ls, rs);
    SelectAppend(WantedField(lids + rids), ls, rs);
    forall f <- ls ensures f.id in lids + rids <==> f.id in lids {
      assert f.id in Ids(ls);
    }
    forall f <- rs ensures f.id in lids + rids <==> f.id in rids {
      assert f.id in Ids(rs);
    }
    SelectSame(WantedField(lids + rids), WantedField(lids), ls);
    SelectSame(WantedField(lids + rids), WantedField(rids), rs);
  }

  lemma JoinKeysNarrowed(lk: seq<ColumnId>, rk: seq<ColumnId>, ls: Schema, rs: Schema,
                         lids: set<ColumnId>, rids: set<ColumnId>)
    requires JoinKeysOk(lk, rk, Types(ls), Types(rs)) && UniqueIds(ls) && UniqueIds(rs)
    requires KeySet(lk) <= lids && KeySet(rk) <= rids
    ensures JoinKeysOk(lk, rk, Types(KeepFields(lids, ls)), Types(KeepFields(rids, rs)))
  {
    forall i | 0 <= i < |lk|
      ensures lk[i] in Types(KeepFields(lids, ls)) && rk[i] in Types(KeepFields(rids, rs))
      ensures Types(KeepFields(lids, ls))[lk[i]] == Types(KeepFields(rids, rs))[rk[i]]
    {
      assert lk[i] in KeySet(lk) && rk[i] in KeySet(rk);
      KeepFieldsLookup(lids, ls, lk[i]);
      KeepFieldsLookup(rids, rs, rk[i]);
    }
  }

  lemma JoinKeysInside(lk: seq<ColumnId>, rk: seq<ColumnId>, ls: Schema, rs: Schema)
    requires JoinKeysOk(lk, rk, Types(ls), Types(rs))
    ensures KeySet(lk) <= Ids(ls) && KeySet(rk) <= Ids(rs)
  {
  }

  lemma TypedRowsApart(rows: seq<Row>, s: Schema, others: set<ColumnId>)
    requires AllTyped(rows, s) && Ids(s) !! others
    ensures forall row <- rows :: row.Keys !! others
  {
    forall row <- rows ensures row.Keys !! others {
      assert RowHasTypes(row, Types(s));
    }
  }

  lemma PruneJoin(l: Plan, r: Plan, lk: seq<ColumnId>, rk: seq<ColumnId>, required: set<ColumnId>,
                  l': Plan, r': Plan)
    requires WellFormed(Join(l, r, lk, rk))
    requires var needed := required + KeySet(lk) + KeySet(rk);
      Narrowed(l, l', needed * OutputIds(l)) && Narrowed(r, r', needed * OutputIds(r))
    ensures Narrowed(Join(l, r, lk, rk), Join(l', r', lk, rk), required)
  {
    hide JoinRows;
    hide JoinKeysOk;
    hide AllTyped;
    hide Types;
    hide RestrictRows;
    hide KeepFields;
    var ls, rs, lids, rids := SchemaOf(l), SchemaOf(r), OutputIds(l'), OutputIds(r');
    OutputUnique(l);
    OutputUnique(r);
    JoinKeysInside(lk, rk, ls, rs);
    assert KeySet(lk) <= lids && KeySet(rk) <= rids;
    JoinKeysNarrowed(lk, rk, ls, rs, lids, rids);
    JoinFields(lids, rids, ls, rs);
    KeepFieldsUnique(lids + rids, ls + rs);
    IdsAppend(ls, rs);
    IdsAppend(KeepFields(lids, ls), KeepFields(rids, rs));
    DisjointIds(ls, rs);
    RowsTyped(l);
    RowsTyped(r);
    TypedRowsApart(Rows(l), ls, rids);
    TypedRowsApart(Rows(r), rs, lids);
    JoinRestricted(lk, rk, Rows(l), Rows(r), lids, rids);
  }

  // ---------------------------------------------------------------------------------------
  // Aggregation.

  lemma {:induction false} AggregatesWanted(aggs: seq<AggregateSpec>, required: set<ColumnId>)
    ensures AggregateFields(Select(WantedAggregate(required), aggs))
         == KeepFields(required, AggregateFields(aggs))
  {
    if aggs != [] {
      var init := aggs[..|aggs| - 1];
      AggregatesWanted(init, required);
      assert AggregateFields(aggs)[..|aggs| - 1] == AggregateFields(init);
    }
  }

  lemma {:induction false} RepresentativesRestricted(keys: seq<ColumnId>, rows: seq<Row>, ids: set<ColumnId>)
    requires KeySet(keys) <= ids
    ensures Representatives(keys, RestrictRows(ids, rows)) == RestrictRows(ids, Representatives(keys, rows))
  {
    if rows != [] {
      var last, init := rows[|rows| - 1], rows[..|rows| - 1];
      var reps := Representatives(keys, init);
      RepresentativesRestricted(keys, init, ids);
      assert RestrictRows(ids, rows)[..|rows| - 1] == RestrictRows(ids, init);
      KeyRestricted(keys, last, ids);
      forall i | 0 <= i < |reps|
        ensures KeyOf(keys, RestrictRows(ids, reps)[i]) == KeyOf(keys, reps[i])
      {
        KeyRestricted(keys, reps[i], ids);
      }
      assert Represented(keys, RestrictRows(ids, reps), RestrictRow(last, ids)) == Represented(keys, reps, last);
    }
  }

  lemma MembersRestricted(keys: seq<ColumnId>, key: seq<Value>, rows: seq<Row>, ids: set<ColumnId>)
    requires KeySet(keys) <= ids
    ensures Members(keys, key, RestrictRows(ids, rows)) == RestrictRows(ids, Members(keys, key, rows))
  {
    forall row <- rows
      ensures HavingKey(keys, key)(Restricting(ids)(row)) == HavingKey(keys, key)(row)
    {
      KeyRestricted(keys, row, ids);
    }
    SelectMap(HavingKey(keys, key), HavingKey(keys, key), Restricting(ids), rows);
  }

  lemma InputsRestricted(input: Option<ColumnId>, rows: seq<Row>, ids: set<ColumnId>)
    requires input.Some? ==> input.value in ids
    ensures AggregateInputs(input, RestrictRows(ids, rows)) == AggregateInputs(input, rows)
  {
    if input.Some? {
      assert Map(Reading(input.value), RestrictRows(ids, rows)) == Map(Reading(input.value), rows);
    }
  }

  lemma KeptAggregate(aggs: seq<AggregateSpec>, required: set<ColumnId>, id: ColumnId)
    requires UniqueIds(AggregateFields(aggs))
    requires id in Ids(AggregateFields(Select(WantedAggregate(required), aggs)))
    ensures var kept := Select(WantedAggregate(required), aggs);
      && id in Ids(AggregateFields(aggs))
      && kept[IndexOf(AggregateFields(kept), id)] == aggs[IndexOf(AggregateFields(aggs), id)]
  {
    var kept := Select(WantedAggregate(required), aggs);
    var a := kept[IndexOf(AggregateFields(kept), id)];
    assert a in aggs;
    var k :| 0 <= k < |aggs| && aggs[k] == a;
    FieldAt(AggregateFields(aggs), k);
  }

  lemma AggregateRowRestricted(keys: seq<ColumnId>, aggs: seq<AggregateSpec>, required: set<ColumnId>,
                               rep: Row, members: seq<Row>, ids: set<ColumnId>)
    requires UniqueIds(AggregateFields(aggs)) && KeySet(keys) !! Ids(AggregateFields(aggs))
    requires KeySet(keys) + AggregateRefs(Select(WantedAggregate(required), aggs)) <= ids
    ensures var kept := Select(WantedAggregate(required), aggs);
      AggregateRow(keys, kept, RestrictRow(rep, ids), RestrictRows(ids, members))
      == RestrictRow(AggregateRow(keys, aggs, rep, members), KeySet(keys) + Ids(AggregateFields(kept)))
  {
    hide UniqueIds;
    hide AggregateCell;
    hide Select;
    hide RestrictRows;
    var kept := Select(WantedAggregate(required), aggs);
    var all, out := AggregateFields(aggs), AggregateFields(kept);
    forall id | id in Ids(out)
      ensures id in Ids(all)
      ensures AggregateCell(kept[IndexOf(out, id)], RestrictRows(ids, members))
           == AggregateCell(aggs[IndexOf(all, id)], members)
    {
      KeptAggregate(aggs, required, id);
      CellRestricted(kept[IndexOf(out, id)], kept, members, ids);
    }
    forall id | id in KeySet(keys) ensures Cell(RestrictRow(rep, ids), id) == Cell(rep, id) {
    }
  }

  lemma CellRestricted(a: AggregateSpec, kept: seq<AggregateSpec>, members: seq<Row>, ids: set<ColumnId>)
    requires a in kept && AggregateRefs(kept) <= ids
    ensures AggregateCell(a, RestrictRows(ids, members)) == AggregateCell(a, members)
  {
    assert a.input.Some? ==> a.input.value in AggregateRefs(kept);
    InputsRestricted(a.input, members, ids);
  }

  lemma AggregateRowsRestricted(keys: seq<ColumnId>, aggs: seq<AggregateSpec>, required: set<ColumnId>,
                                rows: seq<Row>, ids: set<ColumnId>)
    requires UniqueIds(AggregateFields(aggs)) && KeySet(keys) !! Ids(AggregateFields(aggs))
    requires KeySet(keys) + AggregateRefs(Select(WantedAggregate(required), aggs)) <= ids
    ensures var kept := Select(WantedAggregate(required), aggs);
      AggregateRows(keys, kept, RestrictRows(ids, rows))
      == RestrictRows(KeySet(keys) + Ids(AggregateFields(kept)), AggregateRows(keys, aggs, rows))
  {
    var kept := Select(WantedAggregate(required), aggs);
    var out := KeySet(keys) + Ids(AggregateFields(kept));
    if keys == [] {
      AggregateRowRestricted(keys, aggs, required, map[], rows, ids);
      assert RestrictRow(map[], ids) == map[];
    } else {
      var reps := Representatives(keys, rows);
      RepresentativesRestricted(keys, rows, ids);
      forall k | 0 <= k < |reps|
        ensures Summarizing(keys, kept, RestrictRows(ids, rows))(RestrictRow(reps[k], ids))
             == RestrictRow(Summarizing(keys, aggs, rows)(reps[k]), out)
      {
        var key := KeyOf(keys, reps[k]);
        KeyRestricted(keys, reps[k], ids);
        MembersRestricted(keys, key, rows, ids);
        AggregateRowRestricted(keys, aggs, required, reps[k], Members(keys, key, rows), ids);
      }
      assert AggregateRows(keys, kept, RestrictRows(ids, rows))
          == RestrictRows(out, AggregateRows(keys, aggs, rows));
    }
  }

  lemma AggregateOkNarrowed(a: AggregateSpec, s: Schema, ids: set<ColumnId>)
    requires UniqueIds(s) && AggregateOk(a, Types(s)) && (a.input.Some? ==> a.input.value in ids)
    ensures AggregateOk(a, Types(KeepFields(ids, s)))
  {
    if a.input.Some? {
      KeepFieldsLookup(ids, s, a.input.value);
    }
  }

  lemma SelectNarrowed(s: Schema, keys: seq<ColumnId>, ids: set<ColumnId>)
    requires UniqueIds(s) && KeySet(keys) <= Ids(s) && KeySet(keys) <= ids
    ensures SelectSchema(KeepFields(ids, s), keys) == SelectSchema(s, keys)
  {
    KeepFieldsIds(ids, s);
    forall i | 0 <= i < |keys|
      ensures SelectFields(KeepFields(ids, s), keys)[i] == SelectFields(s, keys)[i]
    {
      assert keys[i] in KeySet(keys);
      KeepFieldsLookup(ids, s, keys[i]);
    }
    assert SelectFields(KeepFields(ids, s), keys) == SelectFields(s, keys);
  }

  /** The schema of a pruned aggregation: all keys, and the aggregates still wanted. */
  lemma AggregateSchemaNarrowed(s: Schema, keys: seq<ColumnId>, aggs: seq<AggregateSpec>,
                                required: set<ColumnId>, ids: set<ColumnId>)
    requires UniqueIds(s) && AggregateSchema(s, keys, aggs).Some?
    requires KeySet(keys) <= ids
    requires AggregateRefs(Select(WantedAggregate(required), aggs)) <= ids
    ensures var kept := Select(WantedAggregate(required), aggs);
      && AggregateSchema(KeepFields(ids, s), keys, kept)
         == Some(KeepFields(KeySet(keys) + Ids(AggregateFields(kept)), AggregateSchema(s, keys, aggs).value))
      && Ids(AggregateSchema(s, keys, aggs).value) == KeySet(keys) + Ids(AggregateFields(aggs))
      && Ids(AggregateSchema(KeepFields(ids, s), keys, kept).value) == KeySet(keys) + Ids(AggregateFields(kept))
  {
    var kept := Select(WantedAggregate(required), aggs);
    var ks, all, out := SelectFields(s, keys), AggregateFields(aggs), AggregateFields(kept);
    SelectNarrowed(s, keys, ids);
    SelectFieldsIds(s, keys);
    forall a <- kept ensures AggregateOk(a, Types(KeepFields(ids, s))) {
      assert a in aggs;
      assert a.input.Some? ==> a.input.value in AggregateRefs(kept);
      AggregateOkNarrowed(a, s, ids);
    }
    AggregatesWanted(aggs, required);
    KeepFieldsIds(required, all);
    JoinFields(KeySet(keys), Ids(out), ks, all);
    KeepAllFields(KeySet(keys), ks);
    KeepFieldsAgain(required, all);
    KeepFieldsUnique(KeySet(keys) + Ids(out), ks + all);
    IdsAppend(ks, all);
    IdsAppend(ks, out);
  }

  lemma PruneAggregate(l: Plan, keys: seq<ColumnId>, aggs: seq<AggregateSpec>, required: set<ColumnId>, l': Plan)
    requires WellFormed(Aggregate(l, keys, aggs))
    requires Narrowed(l, l', KeySet(keys) + AggregateRefs(Select(WantedAggregate(required), aggs)))
    ensures Narrowed(Aggregate(l, keys, aggs),
                     Aggregate(l', keys, Select(WantedAggregate(required), aggs)), required)
  {
    hide AggregateRows;
    hide AggregateSchema;
    hide RestrictRows;
    hide KeepFields;
    hide AggregateFields;
    hide AggregateRefs;
    var kept, s, ids := Select(WantedAggregate(required), aggs), SchemaOf(l), OutputIds(l');
    OutputUnique(l);
    AggregateRefsInside(s, keys, aggs, required);
    AggregateSchemaNarrowed(s, keys, aggs, required, ids);
    AggregateKeysApart(s, keys, aggs);
    AggregateRowsRestricted(keys, aggs, required, Rows(l), ids);
    AggregatesWanted(aggs, required);
    KeepFieldsIds(required, AggregateFields(aggs));
  }

  lemma AggregateRefsInside(s: Schema, keys: seq<ColumnId>, aggs: seq<AggregateSpec>, required: set<ColumnId>)
    requires AggregateSchema(s, keys, aggs).Some?
    ensures KeySet(keys) + AggregateRefs(Select(WantedAggregate(required), aggs)) <= Ids(s)
  {
    var kept := Select(WantedAggregate(required), aggs);
    forall id | id in AggregateRefs(kept) ensures id in Ids(s) {
      var a :| a in kept && a.input == Some(id);
      assert AggregateOk(a, Types(s));
    }
  }

  lemma AggregateKeysApart(s: Schema, keys: seq<ColumnId>, aggs: seq<AggregateSpec>)
    requires AggregateSchema(s, keys, aggs).Some?
    ensures KeySet(keys) !! Ids(AggregateFields(aggs)) && UniqueIds(AggregateFields(aggs))
  {
    var ks, all := SelectFields(s, keys), AggregateFields(aggs);
    SelectFieldsIds(s, keys);
    DisjointIds(ks, all);
    forall i, j | 0 <= i < j < |all| ensures all[i].id != all[j].id {
      assert (ks + all)[|ks| + i] == all[i] && (ks + all)[|ks| + j] == all[j];
    }
  }

  // ---------------------------------------------------------------------------------------

  /** Pruning narrows every well-formed plan, whatever columns are required of it. */
  lemma {:induction false} PruneSound(p: Plan, required: set<ColumnId>)
    requires WellFormed(p)
    ensures Narrowed(p, Prune.Prune(p, required), required)
  {
    match p
    case Scan(source, columns) => PruneScan(source, columns, required);
    case Projection(l, xs) =>
      var needed := ExpressionRefs(Select(WantedExpression(required), xs));
      PruneSound(l, needed);
      PruneProjection(l, xs, required, Prune.Prune(l, needed));
    case Filter(l, e) =>
      PruneSound(l, required + Refs(e));
      PruneFilter(l, e, required, Prune.Prune(l, required + Refs(e)));
    case Sort(l, keys) =>
      PruneSound(l, required + SortColumns(keys));
      PruneSort(l, keys, required, Prune.Prune(l, required + SortColumns(keys)));
    case Aggregate(l, keys, aggs) =>
      var needed := KeySet(keys) + AggregateRefs(Select(WantedAggregate(required), aggs));
      PruneSound(l, needed);
      PruneAggregate(l, keys, aggs, required, Prune.Prune(l, needed));
    case Join(l, r, lk, rk) =>
      var needed := required + KeySet(lk) + KeySet(rk);
      PruneSound(l, needed * OutputIds(l));
      PruneSound(r, needed * OutputIds(r));
      PruneJoin(l, r, lk, rk, required,
                Prune.Prune(l, needed * OutputIds(l)), Prune.Prune(r, needed * OutputIds(r)));
    case Limit(l, n) => PruneSound(l, required);
  }

  lemma RestrictToKeys(row: Row, ids: set<ColumnId>)
    requires row.Keys == ids
    ensures RestrictRow(row, ids) == row
  {
  }

  lemma RestrictTypedRows(rows: seq<Row>, s: Schema)
    requires AllTyped(rows, s)
    ensures RestrictRows(Ids(s), rows) == rows
  {
    forall k | 0 <= k < |rows| ensures RestrictRow(rows[k], Ids(s)) == rows[k] {
      assert RowHasTypes(rows[k], Types(s));
      RestrictToKeys(rows[k], Ids(s));
    }
  }

  /** Requiring every output column, pruning changes neither the schema nor the rows. */
  lemma PruneAllRequired(p: Plan)
    requires WellFormed(p)
    ensures var q := Prune.Prune(p, OutputIds(p));
      OutputSchema(q) == OutputSchema(p) && Rows(q) == Rows(p)
  {
    hide KeepFields;
    hide RestrictRows;
    hide AllTyped;
    var q := Prune.Prune(p, OutputIds(p));
    PruneSound(p, OutputIds(p));
    assert OutputIds(p) * OutputIds(p) == OutputIds(p);
    assert OutputIds(q) == OutputIds(p);
    KeepAllFields(OutputIds(p), SchemaOf(p));
    RowsTyped(p);
    RestrictTypedRows(Rows(p), SchemaOf(p));
  }
}
