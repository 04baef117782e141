/**
 Rows seen through some of their columns, up to the sign of a zero, and what the relational
 operators make of two lists that show the same bag of such outlines.
 */
module Outlines {
  import opened Values
  import opened Expressions
  import opened Sequences
  import opened Bags
  import opened Aggregates
  import opened Relations
  import opened Plans
  import opened JoinMeaning

  /** A row restricted to some columns, both zeros shown alike. */
  function OutlineRow(ids: set<ColumnId>, row: Row): Row {
    map id <- row.Keys * ids :: Canon(row[id])
  }

  function Outline(ids: set<ColumnId>): Row -> Row {
    row => OutlineRow(ids, row)
  }

  /** Two lists of rows are one bag, as far as these columns show. */
  ghost predicate SameOutlines(ids: set<ColumnId>, a: seq<Row>, b: seq<Row>) {
    multiset(Map(Outline(ids), a)) == multiset(Map(Outline(ids), b))
  }

  /** Two lists of rows are one list, as far as these columns show. */
  ghost predicate Alike(ids: set<ColumnId>, a: seq<Row>, b: seq<Row>) {
    Map(Outline(ids), a) == Map(Outline(ids), b)
  }

  lemma OutlineCell(ids: set<ColumnId>, a: Row, b: Row, id: ColumnId)
    requires OutlineRow(ids, a) == OutlineRow(ids, b) && id in ids
    ensures Canon(Cell(a, id)) == Canon(Cell(b, id)) && (id in a <==> id in b)
  {
    assert id in OutlineRow(ids, a) <==> id in a;
    assert id in OutlineRow(ids, b) <==> id in b;
  }

  /** Lists alike, taken as bags, and bags of the same rows. */
  lemma ThroughAlike(ids: set<ColumnId>, a: seq<Row>, b': seq<Row>, b: seq<Row>)
    requires Alike(ids, a, b') && multiset(b') == multiset(b)
    ensures SameOutlines(ids, a, b)
  {
    MapOfBag(Outline(ids), b', b);
  }

  lemma SameRowsSameOutlines(ids: set<ColumnId>, a: seq<Row>, b: seq<Row>)
    requires multiset(a) == multiset(b)
    ensures SameOutlines(ids, a, b)
  {
    MapOfBag(Outline(ids), a, b);
  }

  lemma OutlineCount(ids: set<ColumnId>, a: seq<Row>, b: seq<Row>)
    requires SameOutlines(ids, a, b)
    ensures |a| == |b|
  {
    SameSize(Map(Outline(ids), a), Map(Outline(ids), b));
  }

  lemma AlikeAt(ids: set<ColumnId>, a: seq<Row>, b: seq<Row>, i: nat)
    requires Alike(ids, a, b) && i < |a|
    ensures |a| == |b| && OutlineRow(ids, a[i]) == OutlineRow(ids, b[i])
  {
    assert |Map(Outline(ids), a)| == |Map(Outline(ids), b)|;
    assert Map(Outline(ids), a)[i] == Map(Outline(ids), b)[i];
  }

  lemma AlikeInit(ids: set<ColumnId>, a: seq<Row>, b: seq<Row>)
    requires Alike(ids, a, b)
    ensures |a| == |b|
    ensures a != [] ==>
      && Alike(ids, a[..|a| - 1], b[..|b| - 1])
      && OutlineRow(ids, a[|a| - 1]) == OutlineRow(ids, b[|b| - 1])
  {
    assert |Map(Outline(ids), a)| == |Map(Outline(ids), b)|;
    if a != [] {
      AlikeAt(ids, a, b, |a| - 1);
      assert Map(Outline(ids), a[..|a| - 1]) == Map(Outline(ids), a)[..|a| - 1];
      assert Map(Outline(ids), b[..|b| - 1]) == Map(Outline(ids), b)[..|b| - 1];
    }
  }

  lemma AlikeAppend(ids: set<ColumnId>, a: seq<Row>, b: seq<Row>, a': seq<Row>, b': seq<Row>)
    requires Alike(ids, a, b) && Alike(ids, a', b')
    ensures Alike(ids, a + a', b + b')
  {
    MapAppend(Outline(ids), a, a');
    MapAppend(Outline(ids), b, b');
  }

  lemma AlikePointwise(ids: set<ColumnId>, a: seq<Row>, b: seq<Row>)
    requires |a| == |b| && forall i :: 0 <= i < |a| ==> OutlineRow(ids, a[i]) == OutlineRow(ids, b[i])
    ensures Alike(ids, a, b)
  {
  }

  // ---------------------------------------------------------------------------------------
  // Filters.

  /** The tests give the same answer on rows of one outline. */
  ghost predicate Agree(ids: set<ColumnId>, p: Row -> bool, q: Row -> bool) {
    forall a: Row, b: Row :: OutlineRow(ids, a) == OutlineRow(ids, b) ==> p(a) == q(b)
  }

  lemma {:induction false} SelectAlike(ids: set<ColumnId>, p: Row -> bool, q: Row -> bool, a: seq<Row>, b: seq<Row>)
    requires Agree(ids, p, q) && Alike(ids, a, b)
    ensures Alike(ids, Select(p, a), Select(q, b))
  {
    AlikeInit(ids, a, b);
    if a != [] {
      var x, y := a[|a| - 1], b[|b| - 1];
      SelectAlike(ids, p, q, a[..|a| - 1], b[..|b| - 1]);
      assert p(x) == q(y);
      AlikePointwise(ids, [x], [y]);
      AlikeAppend(ids, Select(p, a[..|a| - 1]), Select(q, b[..|b| - 1]), [x], [y]);
    }
  }

  lemma SelectOutlines(ids: set<ColumnId>, p: Row -> bool, a: seq<Row>, b: seq<Row>)
    requires Agree(ids, p, p) && SameOutlines(ids, a, b)
    ensures SameOutlines(ids, Select(p, a), Select(p, b))
  {
    var b' := Align(Outline(ids), a, b);
    SelectAlike(ids, p, p, a, b');
    SelectOfBag(p, b', b);
    ThroughAlike(ids, Select(p, a), Select(p, b'), Select(p, b));
  }

  lemma PredicateAgrees(ids: set<ColumnId>, e: Expr)
    requires Refs(e) <= ids
    ensures Agree(ids, Holding([e]), Holding([e]))
  {
    forall a: Row, b: Row | OutlineRow(ids, a) == OutlineRow(ids, b) ensures AllHold([e], a) == AllHold([e], b) {
      forall id <- Refs(e) ensures Canon(Cell(a, id)) == Canon(Cell(b, id)) {
        OutlineCell(ids, a, b, id);
      }
      EvalCongruent(e, a, b);
      assert AllHold([e], a) == Holds(e, a) && AllHold([e], b) == Holds(e, b);
    }
  }

  /** A filter on shown columns keeps the same outlines. */
  lemma KeepOutlines(ids: set<ColumnId>, e: Expr, a: seq<Row>, b: seq<Row>)
    requires Refs(e) <= ids && SameOutlines(ids, a, b)
    ensures SameOutlines(ids, Keep([e], a), Keep([e], b))
  {
    PredicateAgrees(ids, e);
    SelectOutlines(ids, Holding([e]), a, b);
  }

  // ---------------------------------------------------------------------------------------
  // Projections, sorts and limits.

  /** The outputs computed from shown columns only. */
  function ShownOutputs(xs: seq<NamedExpr>, ids: set<ColumnId>): set<ColumnId> {
    set id <- Ids(OutputFields(xs)) | Refs(xs[IndexOf(OutputFields(xs), id)].expr) <= ids
  }

  lemma ProjectedOutline(xs: seq<NamedExpr>, ids: set<ColumnId>, a: Row, b: Row)
    requires OutlineRow(ids, a) == OutlineRow(ids, b)
    ensures OutlineRow(ShownOutputs(xs, ids), ProjectRow(xs, a)) == OutlineRow(ShownOutputs(xs, ids), ProjectRow(xs, b))
  {
    forall id | id in ShownOutputs(xs, ids) ensures Canon(ProjectRow(xs, a)[id]) == Canon(ProjectRow(xs, b)[id]) {
      var e := xs[IndexOf(OutputFields(xs), id)].expr;
      forall r <- Refs(e) ensures Canon(Cell(a, r)) == Canon(Cell(b, r)) {
        OutlineCell(ids, a, b, r);
      }
      EvalCongruent(e, a, b);
    }
  }

  lemma ProjectOutlines(xs: seq<NamedExpr>, ids: set<ColumnId>, a: seq<Row>, b: seq<Row>)
    requires SameOutlines(ids, a, b)
    ensures SameOutlines(ShownOutputs(xs, ids), Map(Projecting(xs), a), Map(Projecting(xs), b))
  {
    var b' := Align(Outline(ids), a, b);
    forall i | 0 <= i < |a|
      ensures |a| == |b'| && OutlineRow(ShownOutputs(xs, ids), Map(Projecting(xs), a)[i])
        == OutlineRow(ShownOutputs(xs, ids), Map(Projecting(xs), b')[i])
    {
      AlikeAt(ids, a, b', i);
      ProjectedOutline(xs, ids, a[i], b'[i]);
    }
    AlikeInit(ids, a, b');
    AlikePointwise(ShownOutputs(xs, ids), Map(Projecting(xs), a), Map(Projecting(xs), b'));
    MapOfBag(Projecting(xs), b', b);
    ThroughAlike(ShownOutputs(xs, ids), Map(Projecting(xs), a), Map(Projecting(xs), b'), Map(Projecting(xs), b));
  }

  lemma SortOutlines(ids: set<ColumnId>, keys: seq<SortKey>, a: seq<Row>, b: seq<Row>)
    requires SameOutlines(ids, a, b)
    ensures SameOutlines(ids, SortRows(keys, a), SortRows(keys, b))
  {
    StableSortMembers(RowOrder(keys), a);
    StableSortMembers(RowOrder(keys), b);
    SameRowsSameOutlines(ids, SortRows(keys, a), a);
    SameRowsSameOutlines(ids, b, SortRows(keys, b));
  }

  /** A limit keeps as many rows of the one list as of the other. */
  lemma LimitOutlines(ids: set<ColumnId>, a: seq<Row>, b: seq<Row>, n: nat)
    requires SameOutlines(ids, a, b)
    ensures SameOutlines({}, Take(a, n), Take(b, n))
  {
    OutlineCount(ids, a, b);
    assert Map(Outline({}), Take(a, n)) == Map(Outline({}), Take(b, n));
  }

  /** And the rows it keeps of the one are, as far as shown, among the rows of the other. */
  lemma LimitWithin(ids: set<ColumnId>, a: seq<Row>, b: seq<Row>, n: nat)
    requires SameOutlines(ids, a, b)
    ensures multiset(Map(Outline(ids), Take(a, n))) <= multiset(Map(Outline(ids), b))
  {
    var k := if n <= |a| then n else |a|;
    assert a == Take(a, n) + a[k..];
    MapAppend(Outline(ids), Take(a, n), a[k..]);
  }

  // ---------------------------------------------------------------------------------------
  // Joins.

  lemma KeysSeen(ids: set<ColumnId>, keys: seq<ColumnId>, a: Row, b: Row)
    requires OutlineRow(ids, a) == OutlineRow(ids, b) && KeySet(keys) <= ids
    ensures KeyOf(keys, a) == KeyOf(keys, b) && (Joinable(keys, a) <==> Joinable(keys, b))
  {
    forall i | 0 <= i < |keys| ensures Canon(Cell(a, keys[i])) == Canon(Cell(b, keys[i])) {
      assert keys[i] in KeySet(keys);
      OutlineCell(ids, a, b, keys[i]);
    }
    forall k <- keys ensures JoinableCell(Cell(a, k)) <==> JoinableCell(Cell(b, k)) {
      assert k in KeySet(keys);
      OutlineCell(ids, a, b, k);
    }
  }

  /** Left columns and right columns do not meet. */
  ghost predicate Sides(ls: set<ColumnId>, rs: set<ColumnId>, l: Row, r: Row) {
    l.Keys == ls && r.Keys == rs && ls !! rs
  }

  lemma PairedOutline(lids: set<ColumnId>, rids: set<ColumnId>, ls: set<ColumnId>, rs: set<ColumnId>,
                      l: Row, r: Row, l': Row, r': Row)
    requires Sides(ls, rs, l, r) && Sides(ls, rs, l', r') && lids <= ls && rids <= rs
    requires OutlineRow(lids, l) == OutlineRow(lids, l') && OutlineRow(rids, r) == OutlineRow(rids, r')
    ensures OutlineRow(lids + rids, l + r) == OutlineRow(lids + rids, l' + r')
  {
    forall id | id in lids + rids ensures Canon((l + r)[id]) == Canon((l' + r')[id]) {
      if id in rids {
        OutlineCell(rids, r, r', id);
      } else {
        OutlineCell(lids, l, l', id);
      }
    }
  }

  ghost predicate AllKeys(rows: seq<Row>, ids: set<ColumnId>) {
    forall row <- rows :: row.Keys == ids
  }

  lemma {:induction false} JoinOneAlike(lids: set<ColumnId>, rids: set<ColumnId>, ls: set<ColumnId>, rs: set<ColumnId>,
                                        lk: seq<ColumnId>, rk: seq<ColumnId>, l: Row, l': Row,
                                        right: seq<Row>, right': seq<Row>)
    requires KeySet(lk) <= lids <= ls && KeySet(rk) <= rids <= rs && ls !! rs
    requires l.Keys == l'.Keys == ls && OutlineRow(lids, l) == OutlineRow(lids, l')
    requires AllKeys(right, rs) && AllKeys(right', rs) && Alike(rids, right, right')
    ensures Alike(lids + rids, JoinOne(lk, rk, l, right), JoinOne(lk, rk, l', right'))
  {
    KeysSeen(lids, lk, l, l');
    forall r: Row, r': Row | OutlineRow(rids, r) == OutlineRow(rids, r')
      ensures Matching(lk, rk, l, r) == Matching(lk, rk, l', r')
    {
      KeysSeen(rids, rk, r, r');
    }
    SelectAlike(rids, MatchingWith(lk, rk, l), MatchingWith(lk, rk, l'), right, right');
    var a, b := Select(MatchingWith(lk, rk, l), right), Select(MatchingWith(lk, rk, l'), right');
    AlikeInit(rids, a, b);
    forall i | 0 <= i < |a| ensures OutlineRow(lids + rids, l + a[i]) == OutlineRow(lids + rids, l' + b[i]) {
      AlikeAt(rids, a, b, i);
      PairedOutline(lids, rids, ls, rs, l, a[i], l', b[i]);
    }
    AlikePointwise(lids + rids, JoinOne(lk, rk, l, right), JoinOne(lk, rk, l', right'));
  }

  lemma {:induction false} JoinAlike(lids: set<ColumnId>, rids: set<ColumnId>, ls: set<ColumnId>, rs: set<ColumnId>,
                                     lk: seq<ColumnId>, rk: seq<ColumnId>,
                                     left: seq<Row>, left': seq<Row>, right: seq<Row>, right': seq<Row>)
    requires KeySet(lk) <= lids <= ls && KeySet(rk) <= rids <= rs && ls !! rs
    requires AllKeys(left, ls) && AllKeys(left', ls) && Alike(lids, left, left')
    requires AllKeys(right, rs) && AllKeys(right', rs) && Alike(rids, right, right')
    ensures Alike(lids + rids, JoinRows(lk, rk, left, right), JoinRows(lk, rk, left', right'))
  {
    AlikeInit(lids, left, left');
    if left != [] {
      var init, init' := left[..|left| - 1], left'[..|left'| - 1];
      var l, l' := left[|left| - 1], left'[|left'| - 1];
      JoinAlike(lids, rids, ls, rs, lk, rk, init, init', right, right');
      JoinOneAlike(lids, rids, ls, rs, lk, rk, l, l', right, right');
      AlikeAppend(lids + rids, JoinRows(lk, rk, init, right), JoinRows(lk, rk, init', right'),
                  JoinOne(lk, rk, l, right), JoinOne(lk, rk, l', right'));
    }
  }

  lemma KeysOfBag(a: seq<Row>, b: seq<Row>, ids: set<ColumnId>)
    requires multiset(a) == multiset(b) && AllKeys(b, ids)
    ensures AllKeys(a, ids)
  {
    forall row | row in a ensures row.Keys == ids {
      assert row in multiset(a);
    }
  }

  /** A join on shown keys gives the same outlines, whichever side was built. */
  lemma JoinOutlines(buildRight: bool, lids: set<ColumnId>, rids: set<ColumnId>, ls: set<ColumnId>, rs: set<ColumnId>,
                     lk: seq<ColumnId>, rk: seq<ColumnId>,
                     left: seq<Row>, left': seq<Row>, right: seq<Row>, right': seq<Row>)
    requires KeySet(lk) <= lids <= ls && KeySet(rk) <= rids <= rs && ls !! rs
    requires AllKeys(left, ls) && AllKeys(left', ls) && SameOutlines(lids, left, left')
    requires AllKeys(right, rs) && AllKeys(right', rs) && SameOutlines(rids, right, right')
    ensures SameOutlines(lids + rids, HashJoinRows(buildRight, lk, rk, left, right), JoinRows(lk, rk, left', right'))
  {
    hide HashJoinRows;
    hide JoinRows;
    var ids := lids + rids;
    var l' := Align(Outline(lids), left, left');
    var r' := Align(Outline(rids), right, right');
    KeysOfBag(l', left', ls);
    KeysOfBag(r', right', rs);
    JoinOfBags(buildRight, lk, rk, left, right, left, right);
    SameRowsSameOutlines(ids, HashJoinRows(buildRight, lk, rk, left, right), JoinRows(lk, rk, left, right));
    JoinAlike(lids, rids, ls, rs, lk, rk, left, l', right, r');
    JoinOfBags(true, lk, rk, l', r', left', right');
    assert HashJoinRows(true, lk, rk, l', r') == JoinRows(lk, rk, l', r') by {
      BuiltRight(lk, rk, l', r');
    }
    ThroughAlike(ids, JoinRows(lk, rk, left, right), JoinRows(lk, rk, l', r'), JoinRows(lk, rk, left', right'));
  }

  lemma BuiltRight(lk: seq<ColumnId>, rk: seq<ColumnId>, left: seq<Row>, right: seq<Row>)
    ensures HashJoinRows(true, lk, rk, left, right) == JoinRows(lk, rk, left, right)
  {
  }
}
