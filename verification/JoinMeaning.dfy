/** What the hash join produces on named rows, and that its two build sides produce the same bag. */
module JoinMeaning {
  import opened Values
  import opened Expressions
  import opened Sequences
  import opened Bags
  import opened Relations
  import opened Plans
  import opened Batches
  import opened RowStore
  import Lists = JoinLists
  import opened PhysicalPlans
  import opened OperatorMeaning

  /** The rows one right row contributes to a join whose left side was built. */
  function JoinOneRight(lk: seq<ColumnId>, rk: seq<ColumnId>, left: seq<Row>, r: Row): seq<Row> {
    Map(PairingRight(r), Select(MatchedBy(lk, rk, r), left))
  }

  function MatchedBy(lk: seq<ColumnId>, rk: seq<ColumnId>, r: Row): Row -> bool {
    l => Matching(lk, rk, l, r)
  }

  function PairingRight(r: Row): Row -> Row {
    l => l + r
  }

  /** The join as a right-major nested loop. */
  function RightMajorJoin(lk: seq<ColumnId>, rk: seq<ColumnId>, left: seq<Row>, right: seq<Row>): seq<Row> {
    if right == [] then []
    else RightMajorJoin(lk, rk, left, right[..|right| - 1]) + JoinOneRight(lk, rk, left, right[|right| - 1])
  }

  /** The rows of a hash join, in the order its build side gives them. */
  function HashJoinRows(buildRight: bool, lk: seq<ColumnId>, rk: seq<ColumnId>,
                        left: seq<Row>, right: seq<Row>): seq<Row> {
    if buildRight then JoinRows(lk, rk, left, right) else RightMajorJoin(lk, rk, left, right)
  }

  // ---------------------------------------------------------------------------------------
  // One bag for both build sides.

  function LeftShare(lk: seq<ColumnId>, rk: seq<ColumnId>, right: seq<Row>): Row -> multiset<Row> {
    l => multiset(JoinOne(lk, rk, l, right))
  }

  function RightShare(lk: seq<ColumnId>, rk: seq<ColumnId>, left: seq<Row>): Row -> multiset<Row> {
    r => multiset(JoinOneRight(lk, rk, left, r))
  }

  lemma {:induction false} JoinIsSum(lk: seq<ColumnId>, rk: seq<ColumnId>, left: seq<Row>, right: seq<Row>)
    ensures multiset(JoinRows(lk, rk, left, right)) == Sum(LeftShare(lk, rk, right), left)
  {
    if left != [] {
      JoinIsSum(lk, rk, left[..|left| - 1], right);
    }
  }

  lemma {:induction false} RightMajorIsSum(lk: seq<ColumnId>, rk: seq<ColumnId>, left: seq<Row>, right: seq<Row>)
    ensures multiset(RightMajorJoin(lk, rk, left, right)) == Sum(RightShare(lk, rk, left), right)
  {
    if right != [] {
      RightMajorIsSum(lk, rk, left, right[..|right| - 1]);
    }
  }

  /** Building either side gives the same bag of rows, left columns first. */
  lemma BuildSidesAgree(lk: seq<ColumnId>, rk: seq<ColumnId>, left: seq<Row>, right: seq<Row>)
    ensures multiset(RightMajorJoin(lk, rk, left, right)) == multiset(JoinRows(lk, rk, left, right))
  {
    JoinIsSum(lk, rk, left, right);
    RightMajorIsSum(lk, rk, left, right);
    forall l | l in left ensures LeftShare(lk, rk, right)(l) == Sum(ByLeft(lk, rk)(l), right) {
      SelectedMapIsSum(MatchingWith(lk, rk, l), Relations.Pairing(l), right);
    }
    forall r | r in right ensures RightShare(lk, rk, left)(r) == Sum(ByRight(lk, rk)(r), left) {
      SelectedMapIsSum(MatchedBy(lk, rk, r), PairingRight(r), left);
    }
    forall l, r | l in left && r in right ensures ByLeft(lk, rk)(l)(r) == ByRight(lk, rk)(r)(l) {
      SamePair(lk, rk, l, r);
    }
    hide *;
    SumExchange(ByLeft(lk, rk), ByRight(lk, rk), LeftShare(lk, rk, right), RightShare(lk, rk, left), left, right);
  }

  /** What one pair of rows contributes to a join. */
  function ByLeft(lk: seq<ColumnId>, rk: seq<ColumnId>): Row -> (Row -> multiset<Row>) {
    l => OneMapped(MatchingWith(lk, rk, l), Relations.Pairing(l))
  }

  function ByRight(lk: seq<ColumnId>, rk: seq<ColumnId>): Row -> (Row -> multiset<Row>) {
    r => OneMapped(MatchedBy(lk, rk, r), PairingRight(r))
  }

  lemma SamePair(lk: seq<ColumnId>, rk: seq<ColumnId>, l: Row, r: Row)
    ensures ByLeft(lk, rk)(l)(r) == ByRight(lk, rk)(r)(l)
  {
    hide Matching;
  }

  /** Inputs with the same bags of rows join to the same bag, whichever side is built. */
  lemma JoinOfBags(buildRight: bool, lk: seq<ColumnId>, rk: seq<ColumnId>,
                   left: seq<Row>, right: seq<Row>, left': seq<Row>, right': seq<Row>)
    requires multiset(left) == multiset(left') && multiset(right) == multiset(right')
    ensures multiset(HashJoinRows(buildRight, lk, rk, left, right)) == multiset(JoinRows(lk, rk, left', right'))
  {
    hide RightMajorJoin;
    hide JoinRows;
    hide JoinOne;
    BuildSidesAgree(lk, rk, left, right);
    JoinIsSum(lk, rk, left, right);
    JoinIsSum(lk, rk, left', right');
    SumOfBag(LeftShare(lk, rk, right), left, left');
    forall l | l in left' ensures LeftShare(lk, rk, right)(l) == LeftShare(lk, rk, right')(l) {
      JoinOneOfBag(lk, rk, l, right, right');
    }
    SumSame(LeftShare(lk, rk, right), LeftShare(lk, rk, right'), left');
  }

  lemma JoinOneOfBag(lk: seq<ColumnId>, rk: seq<ColumnId>, l: Row, right: seq<Row>, right': seq<Row>)
    requires multiset(right) == multiset(right')
    ensures multiset(JoinOne(lk, rk, l, right)) == multiset(JoinOne(lk, rk, l, right'))
  {
    SelectOfBag(MatchingWith(lk, rk, l), right, right');
    MapOfBag(Relations.Pairing(l), Select(MatchingWith(lk, rk, l), right), Select(MatchingWith(lk, rk, l), right'));
  }

  /** Two rows a side that all match, and a third pair that differs from the first two: the orders differ. */
  lemma OrdersDiffer(lk: seq<ColumnId>, rk: seq<ColumnId>, a: Row, b: Row, c: Row, d: Row)
    requires Matching(lk, rk, a, c) && Matching(lk, rk, a, d) && Matching(lk, rk, b, c) && Matching(lk, rk, b, d)
    requires b + c != a + c && b + c != a + d
    ensures var rightMajor, leftMajor := RightMajorJoin(lk, rk, [a, b], [c, d]), JoinRows(lk, rk, [a, b], [c, d]);
      rightMajor != leftMajor && multiset(Take(rightMajor, 2)) != multiset(Take(leftMajor, 2))
  {
    TwoByTwo(lk, rk, a, b, c, d);
    hide *;
    FirstTwoDiffer(a + c, a + d, b + c, b + d);
  }

  lemma FirstTwoDiffer<T>(p: T, q: T, r: T, s: T)
    requires r != p && r != q
    ensures [p, r] + [q, s] != [p, q] + [r, s]
    ensures multiset(Take([p, r] + [q, s], 2)) != multiset(Take([p, q] + [r, s], 2))
  {
    var x, y := [p, r] + [q, s], [p, q] + [r, s];
    assert x[1] != y[1];
    assert x[..2] == [p, r] && y[..2] == [p, q];
    assert r in multiset([p, r]) && r !in multiset([p, q]);
  }

  lemma TwoByTwo(lk: seq<ColumnId>, rk: seq<ColumnId>, a: Row, b: Row, c: Row, d: Row)
    requires Matching(lk, rk, a, c) && Matching(lk, rk, a, d) && Matching(lk, rk, b, c) && Matching(lk, rk, b, d)
    ensures JoinRows(lk, rk, [a, b], [c, d]) == [a + c, a + d] + [b + c, b + d]
    ensures RightMajorJoin(lk, rk, [a, b], [c, d]) == [a + c, b + c] + [a + d, b + d]
  {
    MatchesBoth(lk, rk, a, c, d);
    MatchesBoth(lk, rk, b, c, d);
    MatchedByBoth(lk, rk, a, b, c);
    MatchedByBoth(lk, rk, a, b, d);
    hide Matching;
    hide JoinOne;
    hide JoinOneRight;
    hide Select;
    hide Map;
    assert [a, b][..1] == [a] && [a][..0] == [] && [c, d][..1] == [c] && [c][..0] == [];
    assert JoinRows(lk, rk, [a], [c, d]) == [a + c, a + d];
    assert RightMajorJoin(lk, rk, [a, b], [c]) == [a + c, b + c];
  }

  lemma MatchesBoth(lk: seq<ColumnId>, rk: seq<ColumnId>, l: Row, c: Row, d: Row)
    requires Matching(lk, rk, l, c) && Matching(lk, rk, l, d)
    ensures JoinOne(lk, rk, l, [c, d]) == [l + c, l + d]
  {
    hide Matching;
    SelectAll(MatchingWith(lk, rk, l), [c, d]);
  }

  lemma MatchedByBoth(lk: seq<ColumnId>, rk: seq<ColumnId>, a: Row, b: Row, r: Row)
    requires Matching(lk, rk, a, r) && Matching(lk, rk, b, r)
    ensures JoinOneRight(lk, rk, [a, b], r) == [a + r, b + r]
  {
    hide Matching;
    SelectAll(MatchedBy(lk, rk, r), [a, b]);
  }

  // ---------------------------------------------------------------------------------------
  // From positional rows to named rows.

  lemma NamedKey(s: Schema, keys: seq<ColumnId>, t: Tuple)
    requires KeySet(keys) <= Ids(s)
    ensures TupleKey(Indices(s, keys), t) == KeyOf(keys, ToRow(s, t))
    ensures JoinableTuple(Indices(s, keys), t) <==> Joinable(keys, ToRow(s, t))
  {
    forall i | 0 <= i < |keys| ensures Cell(ToRow(s, t), keys[i]) == CellOf(t, ColumnIndex(s, keys[i])) {
      assert keys[i] in KeySet(keys);
      NamedCell(s, t, keys[i]);
    }
    forall k <- keys ensures exists i :: 0 <= i < |keys| && keys[i] == k {
    }
  }

  lemma PairedTyped(ls: Schema, rs: Schema, l: Tuple, r: Tuple)
    requires TupleTyped(l, SchemaTypes(ls)) && TupleTyped(r, SchemaTypes(rs))
    ensures TupleTyped(l + r, SchemaTypes(ls + rs))
  {
  }

  lemma PairedIndex(ls: Schema, rs: Schema, id: ColumnId)
    requires UniqueIds(ls + rs) && id in Ids(ls + rs)
    ensures id in Ids(ls) ==> id !in Ids(rs) && IndexOf(ls + rs, id) == IndexOf(ls, id)
    ensures id !in Ids(ls) ==> id in Ids(rs) && IndexOf(ls + rs, id) == |ls| + IndexOf(rs, id)
  {
    var out := ls + rs;
    LookupAppend(ls, rs, id);
    if id in Ids(ls) {
      assert out[IndexOf(ls, id)].id == id;
      FieldAt(out, IndexOf(ls, id));
    } else {
      assert out[|ls| + IndexOf(rs, id)].id == id;
      FieldAt(out, |ls| + IndexOf(rs, id));
    }
  }

  lemma PairedRow(ls: Schema, rs: Schema, l: Tuple, r: Tuple)
    requires UniqueIds(ls + rs) && |l| == |ls| && |r| == |rs|
    ensures ToRow(ls + rs, l + r) == ToRow(ls, l) + ToRow(rs, r)
  {
    IdsAppend(ls, rs);
    var joined, parts := ToRow(ls + rs, l + r), ToRow(ls, l) + ToRow(rs, r);
    assert joined.Keys == parts.Keys;
    forall id | id in joined ensures joined[id] == parts[id] {
      PairedCell(ls, rs, l, r, id);
    }
    hide *;
    assert joined == parts;
  }

  lemma PairedCell(ls: Schema, rs: Schema, l: Tuple, r: Tuple, id: ColumnId)
    requires UniqueIds(ls + rs) && |l| == |ls| && |r| == |rs| && id in Ids(ls + rs)
    ensures id in ToRow(ls + rs, l + r) && id in ToRow(ls, l) + ToRow(rs, r)
    ensures ToRow(ls + rs, l + r)[id] == (ToRow(ls, l) + ToRow(rs, r))[id]
  {
    PairedIndex(ls, rs, id);
  }

  lemma NamedPairs(shape: Lists.JoinShape, build: seq<Tuple>, p: Tuple, s: Schema, out: Schema,
                   matching: Row -> bool, pairing: Row -> Row)
    requires forall b <- build :: matching(ToRow(s, b)) == Lists.Matches(shape, p, b)
    requires forall b <- build :: pairing(ToRow(s, b)) == ToRow(out, Lists.Pair(shape, p, b))
    ensures Named(out, Lists.PairsFrom(shape, build, p, 0)) == Map(pairing, Select(matching, Named(s, build)))
  {
    assert build[0..] == build;
    Lists.PairsAreSelected(shape, build, p, 0);
    SelectMap(matching, Lists.Matching(shape, p), Naming(s), build);
    var chosen := Select(Lists.Matching(shape, p), build);
    assert Map(Naming(out), Map(Lists.Pairing(shape, p), chosen)) == Map(pairing, Map(Naming(s), chosen));
  }

  lemma {:induction false} JoinRightMeaning(ls: Schema, rs: Schema, lk: seq<ColumnId>, rk: seq<ColumnId>,
                                            left: seq<Tuple>, right: seq<Tuple>)
    requires UniqueIds(ls + rs) && KeySet(lk) <= Ids(ls) && KeySet(rk) <= Ids(rs)
    requires AllTuplesTyped(ls, left) && AllTuplesTyped(rs, right)
    ensures Named(ls + rs, Lists.JoinTuples(JoinShapeOf(ls, rs, lk, rk, true), right, left))
         == JoinRows(lk, rk, Named(ls, left), Named(rs, right))
  {
    var shape := JoinShapeOf(ls, rs, lk, rk, true);
    if left != [] {
      var l, init := left[|left| - 1], left[..|left| - 1];
      JoinRightMeaning(ls, rs, lk, rk, init, right);
      assert Named(ls, left)[..|left| - 1] == Named(ls, init);
      NamedAppend(ls + rs, Lists.JoinTuples(shape, right, init), Lists.PairsFrom(shape, right, l, 0));
      forall r | r in right
        ensures MatchingWith(lk, rk, ToRow(ls, l))(ToRow(rs, r)) == Lists.Matches(shape, l, r)
        ensures Relations.Pairing(ToRow(ls, l))(ToRow(rs, r)) == ToRow(ls + rs, Lists.Pair(shape, l, r))
      {
        NamedKey(ls, lk, l);
        NamedKey(rs, rk, r);
        PairedRow(ls, rs, l, r);
      }
      NamedPairs(shape, right, l, rs, ls + rs, MatchingWith(lk, rk, ToRow(ls, l)), Relations.Pairing(ToRow(ls, l)));
    }
  }

  lemma {:induction false} JoinLeftMeaning(ls: Schema, rs: Schema, lk: seq<ColumnId>, rk: seq<ColumnId>,
                                           left: seq<Tuple>, right: seq<Tuple>)
    requires UniqueIds(ls + rs) && KeySet(lk) <= Ids(ls) && KeySet(rk) <= Ids(rs)
    requires AllTuplesTyped(ls, left) && AllTuplesTyped(rs, right)
    ensures Named(ls + rs, Lists.JoinTuples(JoinShapeOf(ls, rs, lk, rk, false), left, right))
         == RightMajorJoin(lk, rk, Named(ls, left), Named(rs, right))
  {
    var shape := JoinShapeOf(ls, rs, lk, rk, false);
    if right != [] {
      var r, init := right[|right| - 1], right[..|right| - 1];
      JoinLeftMeaning(ls, rs, lk, rk, left, init);
      assert Named(rs, right)[..|right| - 1] == Named(rs, init);
      NamedAppend(ls + rs, Lists.JoinTuples(shape, left, init), Lists.PairsFrom(shape, left, r, 0));
      forall l | l in left
        ensures MatchedBy(lk, rk, ToRow(rs, r))(ToRow(ls, l)) == Lists.Matches(shape, r, l)
        ensures PairingRight(ToRow(rs, r))(ToRow(ls, l)) == ToRow(ls + rs, Lists.Pair(shape, r, l))
      {
        NamedKey(ls, lk, l);
        NamedKey(rs, rk, r);
        PairedRow(ls, rs, l, r);
      }
      NamedPairs(shape, left, r, ls, ls + rs, MatchedBy(lk, rk, ToRow(rs, r)), PairingRight(ToRow(rs, r)));
    }
  }
}
