/**
 Lists of rows: filtering, mapping, flattening and the stable sort, with the laws that let one
 move past another. All recursions take the last element off, as appending loops do.
 */
module Sequences {

  function Select<T>(p: T -> bool, s: seq<T>): (r: seq<T>)
    ensures forall x <- r :: x in s && p(x)
    ensures |r| <= |s|
  {
    if s == [] then [] else
      var last, init := s[|s| - 1], Select(p, s[..|s| - 1]);
      if p(last) then init + [last] else init
  }

  function Map<A, B>(f: A -> B, s: seq<A>): (r: seq<B>)
    ensures |r| == |s|
    ensures forall i :: 0 <= i < |s| ==> r[i] == f(s[i])
  {
    seq(|s|, i requires 0 <= i < |s| => f(s[i]))
  }

  function Flatten<T>(ss: seq<seq<T>>): seq<T> {
    if ss == [] then [] else Flatten(ss[..|ss| - 1]) + ss[|ss| - 1]
  }

  lemma {:induction false} SelectKeepsMembers<T>(p: T -> bool, s: seq<T>, x: T)
    requires x in s && p(x)
    ensures x in Select(p, s)
  {
    assert s == s[..|s| - 1] + [s[|s| - 1]];
    if x in s[..|s| - 1] {
      SelectKeepsMembers(p, s[..|s| - 1], x);
    }
  }

  lemma SelectLast<T>(p: T -> bool, s: seq<T>, last: T)
    ensures Select(p, s + [last]) == if p(last) then Select(p, s) + [last] else Select(p, s)
  {
    assert (s + [last])[..|s|] == s;
  }

  lemma {:induction false} SelectAppend<T>(p: T -> bool, a: seq<T>, b: seq<T>)
    ensures Select(p, a + b) == Select(p, a) + Select(p, b)
  {
    if b == [] {
      assert a + b == a;
    } else {
      var init, last := b[..|b| - 1], b[|b| - 1];
      assert b == init + [last] && a + b == (a + init) + [last];
      SelectAppend(p, a, init);
      SelectLast(p, a + init, last);
      SelectLast(p, init, last);
      hide Select;
      assert Select(p, a) + (Select(p, init) + [last]) == (Select(p, a) + Select(p, init)) + [last];
    }
  }

  lemma SelectFirst<T>(p: T -> bool, x: T, rest: seq<T>)
    ensures Select(p, [x] + rest) == if p(x) then [x] + Select(p, rest) else Select(p, rest)
  {
    SelectAppend(p, [x], rest);
    SelectLast(p, [], x);
    assert [] + [x] == [x];
  }

  lemma {:induction false} SelectSame<T>(p: T -> bool, q: T -> bool, s: seq<T>)
    requires forall x <- s :: p(x) == q(x)
    ensures Select(p, s) == Select(q, s)
  {
    if s != [] {
      SelectSame(p, q, s[..|s| - 1]);
    }
  }

  lemma {:induction false} SelectAll<T>(p: T -> bool, s: seq<T>)
    requires forall x <- s :: p(x)
    ensures Select(p, s) == s
  {
    if s != [] {
      SelectAll(p, s[..|s| - 1]);
    }
  }

  lemma {:induction false} SelectNone<T>(p: T -> bool, s: seq<T>)
    requires forall x <- s :: !p(x)
    ensures Select(p, s) == []
  {
    if s != [] {
      SelectNone(p, s[..|s| - 1]);
    }
  }

  /** Filtering twice is filtering by the conjunction. */
  lemma {:induction false} SelectSelect<T>(p: T -> bool, q: T -> bool, both: T -> bool, s: seq<T>)
    requires forall x <- s :: both(x) == (p(x) && q(x))
    ensures Select(p, Select(q, s)) == Select(both, s)
  {
    if s != [] {
      var last := s[|s| - 1];
      SelectSelect(p, q, both, s[..|s| - 1]);
      if q(last) {
        SelectLast(p, Select(q, s[..|s| - 1]), last);
      }
    }
  }

  /** Filtering after a map is mapping after a filter, when the map does not disturb the test. */
  lemma {:induction false} SelectMap<A, B>(p: B -> bool, q: A -> bool, f: A -> B, s: seq<A>)
    requires forall x <- s :: p(f(x)) == q(x)
    ensures Select(p, Map(f, s)) == Map(f, Select(q, s))
  {
    if s != [] {
      var last := s[|s| - 1];
      SelectMap(p, q, f, s[..|s| - 1]);
      assert Map(f, s)[..|s| - 1] == Map(f, s[..|s| - 1]);
      assert last in s;
    }
  }

  lemma MapAppend<A, B>(f: A -> B, a: seq<A>, b: seq<A>)
    ensures Map(f, a + b) == Map(f, a) + Map(f, b)
  {
  }

  lemma MapFirst<A, B>(f: A -> B, x: A, rest: seq<A>)
    ensures Map(f, [x] + rest) == [f(x)] + Map(f, rest)
  {
  }

  /** A list cut in two: what has been dealt with, and what has not. */
  ghost predicate Splits<T>(all: seq<T>, done: seq<T>, rest: seq<T>) {
    all == done + rest
  }

  lemma SplitStart<T>(all: seq<T>)
    ensures Splits(all, [], all)
  {
  }

  lemma SplitMove<T>(all: seq<T>, done: seq<T>, x: seq<T>, more: seq<T>, rest: seq<T>)
    requires Splits(all, done, more) && Splits(more, x, rest)
    ensures Splits(all, done + x, rest)
  {
  }

  lemma SplitEnd<T>(all: seq<T>, done: seq<T>)
    requires Splits(all, done, [])
    ensures all == done
  {
  }

  lemma TakeNext<T>(done: seq<T>, s: seq<T>, j: nat)
    requires j < |s|
    ensures done + s[..j + 1] == (done + s[..j]) + [s[j]]
  {
  }

  lemma TakeAll<T>(done: seq<T>, s: seq<T>)
    ensures done + s[..0] == done && done + s[..|s|] == done + s
  {
  }

  lemma {:induction false} FlattenAppend<T>(a: seq<seq<T>>, b: seq<seq<T>>)
    ensures Flatten(a + b) == Flatten(a) + Flatten(b)
  {
    if b == [] {
      assert a + b == a;
    } else {
      FlattenAppend(a, b[..|b| - 1]);
      assert (a + b)[..|a + b| - 1] == a + b[..|b| - 1];
    }
  }

  lemma FlattenOne<T>(x: seq<T>)
    ensures Flatten([x]) == x
  {
    assert [x][..0] == [];
  }

  lemma FlattenHead<T>(ss: seq<seq<T>>)
    requires ss != []
    ensures Flatten(ss) == ss[0] + Flatten(ss[1..])
  {
    FlattenAppend([ss[0]], ss[1..]);
    FlattenOne(ss[0]);
    assert ss == [ss[0]] + ss[1..];
  }

  // ---------------------------------------------------------------------------------------
  // Stable sorting by a three-way comparison.

  type Comparison<!T> = (T, T) -> int

  predicate Opposite<T>(cmp: Comparison<T>, a: T, b: T) {
    cmp(a, b) < 0 <==> cmp(b, a) > 0
  }

  predicate Transitive<T>(cmp: Comparison<T>, a: T, b: T, c: T) {
    cmp(a, b) <= 0 && cmp(b, c) <= 0 ==> cmp(a, c) <= 0
  }

  ghost predicate TotalPreorder<T(!new)>(cmp: Comparison<T>) {
    && (forall a, b :: Opposite(cmp, a, b))
    && (forall a, b, c :: Transitive(cmp, a, b, c))
  }

  ghost predicate Sorted<T>(cmp: Comparison<T>, s: seq<T>) {
    forall i, j :: 0 <= i < j < |s| ==> cmp(s[i], s[j]) <= 0
  }

  /** Places x after every element that is not greater. */
  function Insert<T>(cmp: Comparison<T>, x: T, s: seq<T>): (r: seq<T>)
    ensures |r| == |s| + 1
  {
    if s == [] then [x]
    else if cmp(x, s[|s| - 1]) < 0 then Insert(cmp, x, s[..|s| - 1]) + [s[|s| - 1]]
    else s + [x]
  }

  function StableSort<T>(cmp: Comparison<T>, s: seq<T>): (r: seq<T>)
    ensures |r| == |s|
  {
    if s == [] then [] else Insert(cmp, s[|s| - 1], StableSort(cmp, s[..|s| - 1]))
  }

  lemma {:induction false} InsertMembers<T>(cmp: Comparison<T>, x: T, s: seq<T>)
    ensures multiset(Insert(cmp, x, s)) == multiset(s) + multiset{x}
  {
    if s != [] {
      assert s == s[..|s| - 1] + [s[|s| - 1]];
      InsertMembers(cmp, x, s[..|s| - 1]);
    }
  }

  /** Sorting permutes. */
  lemma {:induction false} StableSortMembers<T>(cmp: Comparison<T>, s: seq<T>)
    ensures multiset(StableSort(cmp, s)) == multiset(s)
  {
    if s != [] {
      assert s == s[..|s| - 1] + [s[|s| - 1]];
      StableSortMembers(cmp, s[..|s| - 1]);
      InsertMembers(cmp, s[|s| - 1], StableSort(cmp, s[..|s| - 1]));
    }
  }

  lemma AtMost<T(!new)>(cmp: Comparison<T>, x: T, s: seq<T>)
    requires TotalPreorder(cmp) && Sorted(cmp, s)
    requires s != [] ==> cmp(x, s[|s| - 1]) >= 0
    ensures forall y <- s :: cmp(y, x) <= 0
  {
    forall i | 0 <= i < |s| ensures cmp(s[i], x) <= 0 {
      var last := s[|s| - 1];
      assert Opposite(cmp, x, last) && Opposite(cmp, last, x) && Opposite(cmp, s[i], x);
      assert Transitive(cmp, s[i], last, x);
    }
  }

  lemma {:induction false} InsertSorted<T(!new)>(cmp: Comparison<T>, x: T, s: seq<T>)
    requires TotalPreorder(cmp) && Sorted(cmp, s)
    ensures Sorted(cmp, Insert(cmp, x, s))
  {
    if s == [] {
    } else if cmp(x, s[|s| - 1]) < 0 {
      var last, init := s[|s| - 1], s[..|s| - 1];
      InsertSorted(cmp, x, init);
      forall y | y in Insert(cmp, x, init) ensures cmp(y, last) <= 0 {
        InsertMembers(cmp, x, init);
        assert y in multiset(init) + multiset{x};
      }
    } else {
      AtMost(cmp, x, s);
    }
  }

  lemma {:induction false} StableSortSorted<T(!new)>(cmp: Comparison<T>, s: seq<T>)
    requires TotalPreorder(cmp)
    ensures Sorted(cmp, StableSort(cmp, s))
  {
    if s != [] {
      StableSortSorted(cmp, s[..|s| - 1]);
      InsertSorted(cmp, s[|s| - 1], StableSort(cmp, s[..|s| - 1]));
    }
  }

  lemma InsertLast<T>(cmp: Comparison<T>, x: T, s: seq<T>, last: T)
    requires cmp(x, last) < 0
    ensures Insert(cmp, x, s + [last]) == Insert(cmp, x, s) + [last]
  {
    assert (s + [last])[..|s|] == s;
  }

  lemma SelectInsertBefore<T>(p: T -> bool, cmp: Comparison<T>, x: T, s: seq<T>, last: T)
    requires cmp(x, last) < 0
    requires Select(p, Insert(cmp, x, s)) == if p(x) then Insert(cmp, x, Select(p, s)) else Select(p, s)
    ensures Select(p, Insert(cmp, x, s + [last]))
         == if p(x) then Insert(cmp, x, Select(p, s + [last])) else Select(p, s + [last])
  {
    InsertLast(cmp, x, s, last);
    SelectLast(p, Insert(cmp, x, s), last);
    SelectLast(p, s, last);
    if p(last) {
      InsertLast(cmp, x, Select(p, s), last);
    }
  }

  lemma SelectInsertAfter<T(!new)>(p: T -> bool, cmp: Comparison<T>, x: T, s: seq<T>)
    requires TotalPreorder(cmp) && Sorted(cmp, s) && s != [] && cmp(x, s[|s| - 1]) >= 0
    ensures Select(p, s + [x]) == if p(x) then Insert(cmp, x, Select(p, s)) else Select(p, s)
  {
    AtMost(cmp, x, s);
    SelectLast(p, s, x);
    if Select(p, s) != [] {
      var y := Select(p, s)[|Select(p, s)| - 1];
      assert y in s;
      assert Opposite(cmp, x, y);
    }
  }

  lemma {:induction false} SelectInsert<T(!new)>(p: T -> bool, cmp: Comparison<T>, x: T, s: seq<T>)
    requires TotalPreorder(cmp) && Sorted(cmp, s)
    ensures Select(p, Insert(cmp, x, s)) == if p(x) then Insert(cmp, x, Select(p, s)) else Select(p, s)
  {
    if s == [] {
      SelectLast(p, [], x);
    } else if cmp(x, s[|s| - 1]) < 0 {
      assert s == s[..|s| - 1] + [s[|s| - 1]];
      SelectInsert(p, cmp, x, s[..|s| - 1]);
      SelectInsertBefore(p, cmp, x, s[..|s| - 1], s[|s| - 1]);
    } else {
      SelectInsertAfter(p, cmp, x, s);
    }
  }

  /** A stable sort commutes with a filter. */
  lemma {:induction false} SelectSort<T(!new)>(p: T -> bool, cmp: Comparison<T>, s: seq<T>)
    requires TotalPreorder(cmp)
    ensures Select(p, StableSort(cmp, s)) == StableSort(cmp, Select(p, s))
  {
    if s != [] {
      var last, init := s[|s| - 1], s[..|s| - 1];
      SelectSort(p, cmp, init);
      StableSortSorted(cmp, init);
      SelectInsert(p, cmp, last, StableSort(cmp, init));
      if p(last) {
        StableSortLast(cmp, Select(p, init), last);
      }
    }
  }

  lemma StableSortLast<T>(cmp: Comparison<T>, s: seq<T>, last: T)
    ensures StableSort(cmp, s + [last]) == Insert(cmp, last, StableSort(cmp, s))
  {
    assert (s + [last])[..|s|] == s;
  }

  lemma {:induction false} MapInsert<A, B>(f: A -> B, cmp: Comparison<A>, cmp': Comparison<B>, x: A, s: seq<A>)
    requires forall y <- s :: cmp'(f(x), f(y)) == cmp(x, y)
    ensures Map(f, Insert(cmp, x, s)) == Insert(cmp', f(x), Map(f, s))
  {
    if s != [] {
      assert s[|s| - 1] in s;
      assert Map(f, s)[..|s| - 1] == Map(f, s[..|s| - 1]);
      if cmp(x, s[|s| - 1]) < 0 {
        MapInsert(f, cmp, cmp', x, s[..|s| - 1]);
      }
    }
  }

  /** A stable sort commutes with a map that keeps the comparison. */
  lemma {:induction false} MapSort<A, B>(f: A -> B, cmp: Comparison<A>, cmp': Comparison<B>, s: seq<A>)
    requires forall x, y :: x in s && y in s ==> cmp'(f(x), f(y)) == cmp(x, y)
    ensures Map(f, StableSort(cmp, s)) == StableSort(cmp', Map(f, s))
  {
    if s != [] {
      assert Map(f, s)[..|s| - 1] == Map(f, s[..|s| - 1]);
      MapSort(f, cmp, cmp', s[..|s| - 1]);
      StableSortMembers(cmp, s[..|s| - 1]);
      forall y | y in StableSort(cmp, s[..|s| - 1]) ensures y in s {
        assert y in multiset(s[..|s| - 1]);
      }
      MapInsert(f, cmp, cmp', s[|s| - 1], StableSort(cmp, s[..|s| - 1]));
    }
  }

  // ---------------------------------------------------------------------------------------
  // Sorting the positions of a list instead of the list.

  function Iota(n: nat): (s: seq<nat>)
    ensures |s| == n && forall i :: 0 <= i < n ==> s[i] == i
  {
    seq(n, i requires 0 <= i < n => i)
  }

  /** The elements at some positions. */
  function Gather<T>(s: seq<T>, ids: seq<nat>): (r: seq<T>)
    requires Within(ids, |s|)
    ensures |r| == |ids| && forall i :: 0 <= i < |r| ==> r[i] == s[ids[i]]
  {
    seq(|ids|, i requires 0 <= i < |ids| => s[ids[i]])
  }

  predicate Within(ids: seq<nat>, n: nat) {
    forall i :: 0 <= i < |ids| ==> ids[i] < n
  }

  function CompareIds<T>(cmp: Comparison<T>, s: seq<T>, a: nat, b: nat): int {
    if a < |s| && b < |s| then cmp(s[a], s[b]) else 0
  }

  function IdOrder<T>(cmp: Comparison<T>, s: seq<T>): Comparison<nat> {
    (a: nat, b: nat) => CompareIds(cmp, s, a, b)
  }

  /** Position a must come before position b in a stable sort. */
  predicate Precedes<T>(cmp: Comparison<T>, s: seq<T>, a: nat, b: nat) {
    a < |s| && b < |s| && (cmp(s[a], s[b]) < 0 || (cmp(s[a], s[b]) == 0 && a < b))
  }

  ghost predicate InOrder<T>(cmp: Comparison<T>, s: seq<T>, order: seq<nat>) {
    forall i, j :: 0 <= i < j < |order| ==> Precedes(cmp, s, order[i], order[j])
  }

  /** What makes an order a stable sort of a list: every position once, sorted, ties in place. */
  ghost predicate StableOrder<T>(cmp: Comparison<T>, s: seq<T>, order: seq<nat>) {
    multiset(order) == multiset(Iota(|s|)) && InOrder(cmp, s, order)
  }

  lemma InsertInOrder<T(!new)>(cmp: Comparison<T>, s: seq<T>, n: nat, order: seq<nat>)
    requires TotalPreorder(cmp) && n < |s| && InOrder(cmp, s, order) && Within(order, n)
    ensures InOrder(cmp, s, Insert(IdOrder(cmp, s), n, order))
  {
    if order != [] {
      var last, init := order[|order| - 1], order[..|order| - 1];
      if cmp(s[n], s[last]) < 0 {
        InsertInOrder(cmp, s, n, init);
        forall a | a in Insert(IdOrder(cmp, s), n, init) ensures Precedes(cmp, s, a, last) {
          InsertMembers(IdOrder(cmp, s), n, init);
          assert a in multiset(init) + multiset{n};
          assert a in init ==> exists i :: 0 <= i < |init| && init[i] == a;
        }
      } else {
        forall i | 0 <= i < |order| ensures Precedes(cmp, s, order[i], n) {
          assert i < |order| - 1 ==> Precedes(cmp, s, order[i], last);
          assert Opposite(cmp, s[n], s[last]) && Opposite(cmp, s[last], s[n]) && Opposite(cmp, s[order[i]], s[last]);
          assert Transitive(cmp, s[order[i]], s[last], s[n]);
        }
      }
    }
  }

  /** The first n positions, stably sorted by what stands there. */
  function SortedIds<T>(cmp: Comparison<T>, s: seq<T>, n: nat): seq<nat> {
    StableSort<nat>(IdOrder(cmp, s), Iota(n))
  }

  lemma SortedIdsMembers<T>(cmp: Comparison<T>, s: seq<T>, n: nat)
    ensures multiset(SortedIds(cmp, s, n)) == multiset(Iota(n))
    ensures |SortedIds(cmp, s, n)| == n && Within(SortedIds(cmp, s, n), n)
  {
    var ids := SortedIds(cmp, s, n);
    StableSortMembers<nat>(IdOrder(cmp, s), Iota(n));
    forall i | 0 <= i < |ids| ensures ids[i] < n {
      assert ids[i] in multiset(ids);
    }
  }

  /** Sorting the positions gives a stable order of the list. */
  lemma {:induction false} SortedIdsInOrder<T(!new)>(cmp: Comparison<T>, s: seq<T>, n: nat)
    requires TotalPreorder(cmp) && n <= |s|
    ensures InOrder(cmp, s, SortedIds(cmp, s, n))
  {
    if n > 0 {
      SortedIdsInOrder(cmp, s, n - 1);
      SortedIdsMembers(cmp, s, n - 1);
      assert Iota(n)[..n - 1] == Iota(n - 1);
      InsertInOrder(cmp, s, n - 1, SortedIds(cmp, s, n - 1));
    }
  }

  lemma OnlyOnePrecedes<T(!new)>(cmp: Comparison<T>, s: seq<T>, a: nat, b: nat)
    requires TotalPreorder(cmp) && Precedes(cmp, s, a, b)
    ensures !Precedes(cmp, s, b, a)
  {
    assert Opposite(cmp, s[a], s[b]) && Opposite(cmp, s[b], s[a]);
  }

  lemma LastsAgree<T(!new)>(cmp: Comparison<T>, s: seq<T>, a: seq<nat>, b: seq<nat>)
    requires TotalPreorder(cmp) && multiset(a) == multiset(b) && a != [] && b != []
    requires InOrder(cmp, s, a) && InOrder(cmp, s, b)
    ensures a[|a| - 1] == b[|b| - 1]
  {
    var x, y := a[|a| - 1], b[|b| - 1];
    assert x in multiset(b) && y in multiset(a);
    var i :| 0 <= i < |b| && b[i] == x;
    var j :| 0 <= j < |a| && a[j] == y;
    if x != y {
      OnlyOnePrecedes(cmp, s, b[i], b[|b| - 1]);
    }
  }

  lemma SameWithoutLast<T>(a: seq<T>, b: seq<T>)
    requires a != [] && b != [] && multiset(a) == multiset(b) && a[|a| - 1] == b[|b| - 1]
    ensures multiset(a[..|a| - 1]) == multiset(b[..|b| - 1])
    ensures a[..|a| - 1] == b[..|b| - 1] ==> a == b
  {
    var x := a[|a| - 1];
    assert a == a[..|a| - 1] + [x] && b == b[..|b| - 1] + [x];
    assert multiset(a[..|a| - 1]) == multiset(a) - multiset{x} == multiset(b[..|b| - 1]);
  }

  /** There is only one order of the same positions. */
  lemma {:induction false} OrderIsUnique<T(!new)>(cmp: Comparison<T>, s: seq<T>, a: seq<nat>, b: seq<nat>)
    requires TotalPreorder(cmp) && multiset(a) == multiset(b)
    requires InOrder(cmp, s, a) && InOrder(cmp, s, b)
    ensures a == b
  {
    assert |multiset(a)| == |multiset(b)| && |a| == |b|;
    if a != [] {
      LastsAgree(cmp, s, a, b);
      SameWithoutLast(a, b);
      OrderIsUnique(cmp, s, a[..|a| - 1], b[..|b| - 1]);
    }
  }

  /** The stable sort of a list is what any stable order of its positions reads, and there is one. */
  lemma StableSortIsUnique<T(!new)>(cmp: Comparison<T>, s: seq<T>, order: seq<nat>)
    requires TotalPreorder(cmp)
    ensures StableOrder(cmp, s, order) <==> order == SortedIds(cmp, s, |s|)
    ensures StableOrder(cmp, s, order) ==>
      Within(order, |s|) && Gather(s, order) == StableSort(cmp, s)
  {
    SortedIdsInOrder(cmp, s, |s|);
    SortedIdsMembers(cmp, s, |s|);
    SortByPosition(cmp, s);
    if StableOrder(cmp, s, order) {
      OrderIsUnique(cmp, s, order, SortedIds(cmp, s, |s|));
    }
  }

  lemma SortByPosition<T>(cmp: Comparison<T>, s: seq<T>)
    ensures Within(SortedIds(cmp, s, |s|), |s|)
    ensures Gather(s, SortedIds(cmp, s, |s|)) == StableSort(cmp, s)
  {
    SortedIdsMembers(cmp, s, |s|);
    if s != [] {
      SortMapsPositions(cmp, s);
      assert Map(ElementAt(s), SortedIds(cmp, s, |s|)) == Gather(s, SortedIds(cmp, s, |s|));
    }
  }

  lemma SortMapsPositions<T>(cmp: Comparison<T>, s: seq<T>)
    requires s != []
    ensures Map(ElementAt(s), SortedIds(cmp, s, |s|)) == StableSort(cmp, s)
  {
    var ids: seq<nat> := Iota(|s|);
    forall x: nat, y: nat | x in ids && y in ids
      ensures cmp(ElementAt(s)(x), ElementAt(s)(y)) == IdOrder(cmp, s)(x, y)
    {
      assert x < |s| && y < |s|;
    }
    hide StableSort;
    MapSort<nat, T>(ElementAt(s), IdOrder(cmp, s), cmp, ids);
    assert Map(ElementAt(s), ids) == s;
  }

  function ElementAt<T>(s: seq<T>): nat -> T
    requires s != []
  {
    (i: nat) => if i < |s| then s[i] else s[0]
  }
}
