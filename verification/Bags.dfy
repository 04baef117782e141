/** Lists compared as bags: filters, maps and nested loops do not care in which order rows come. */
module Bags {
  import opened Sequences

  /** The bag union of what a function yields over a list. */
  function Sum<A, B>(g: A -> multiset<B>, s: seq<A>): multiset<B> {
    if s == [] then multiset{} else Sum(g, s[..|s| - 1]) + g(s[|s| - 1])
  }

  lemma SumLast<A, B>(g: A -> multiset<B>, s: seq<A>, x: A)
    ensures Sum(g, s + [x]) == Sum(g, s) + g(x)
  {
    assert (s + [x])[..|s|] == s;
  }

  lemma {:induction false} SumAppend<A, B>(g: A -> multiset<B>, a: seq<A>, b: seq<A>)
    ensures Sum(g, a + b) == Sum(g, a) + Sum(g, b)
  {
    if b == [] {
      assert a + b == a;
    } else {
      var init, x := b[..|b| - 1], b[|b| - 1];
      SumAppend(g, a, init);
      assert a + b == (a + init) + [x];
      SumLast(g, a + init, x);
    }
  }

  lemma {:induction false} SumSame<A, B>(g: A -> multiset<B>, h: A -> multiset<B>, s: seq<A>)
    requires forall x <- s :: g(x) == h(x)
    ensures Sum(g, s) == Sum(h, s)
  {
    if s != [] {
      SumSame(g, h, s[..|s| - 1]);
    }
  }

  lemma {:induction false} SumBoth<A, B>(g: A -> multiset<B>, h: A -> multiset<B>, both: A -> multiset<B>, s: seq<A>)
    requires forall x <- s :: both(x) == g(x) + h(x)
    ensures Sum(both, s) == Sum(g, s) + Sum(h, s)
  {
    if s != [] {
      SumBoth(g, h, both, s[..|s| - 1]);
      assert s[|s| - 1] in s;
    }
  }

  lemma {:induction false} SumNone<A, B>(g: A -> multiset<B>, s: seq<A>)
    requires forall x <- s :: g(x) == multiset{}
    ensures Sum(g, s) == multiset{}
  {
    if s != [] {
      SumNone(g, s[..|s| - 1]);
    }
  }

  lemma SumInsert<A, B>(g: A -> multiset<B>, before: seq<A>, x: A, after: seq<A>)
    ensures Sum(g, (before + [x]) + after) == Sum(g, before + after) + g(x)
  {
    SumAppend(g, before + [x], after);
    SumLast(g, before, x);
    SumAppend(g, before, after);
  }

  lemma TakenOut<A>(b: seq<A>, i: nat)
    requires i < |b|
    ensures b == (b[..i] + [b[i]]) + b[i + 1..]
    ensures multiset(b) == multiset(b[..i] + b[i + 1..]) + multiset{b[i]}
  {
    assert b == (b[..i] + [b[i]]) + b[i + 1..];
  }

  lemma OneLess<A>(a: multiset<A>, b: multiset<A>, x: A)
    requires a + multiset{x} == b + multiset{x}
    ensures a == b
  {
    assert a == (a + multiset{x}) - multiset{x};
    assert b == (b + multiset{x}) - multiset{x};
  }

  /** Lists with the same elements agree on where the last element of one stands in the other. */
  lemma TakeOut<A>(init: seq<A>, x: A, b: seq<A>) returns (before: seq<A>, after: seq<A>)
    requires multiset(init + [x]) == multiset(b)
    ensures b == (before + [x]) + after && multiset(init) == multiset(before + after)
  {
    assert x in multiset(b);
    var i :| 0 <= i < |b| && b[i] == x;
    before, after := b[..i], b[i + 1..];
    TakenOut(b, i);
    assert multiset(init + [x]) == multiset(init) + multiset{x};
    OneLess(multiset(init), multiset(before + after), x);
  }

  /** The sum over a list does not depend on the order of the list. */
  lemma {:induction false} SumOfBag<A, B>(g: A -> multiset<B>, a: seq<A>, b: seq<A>)
    requires multiset(a) == multiset(b)
    ensures Sum(g, a) == Sum(g, b)
  {
    assert |multiset(a)| == |multiset(b)| && |a| == |b|;
    if a != [] {
      var x, init := a[|a| - 1], a[..|a| - 1];
      assert a == init + [x];
      var before, after := TakeOut(init, x, b);
      SumOfBag(g, init, before + after);
      SumInsert(g, before, x, after);
    }
  }

  /** Summing over one list and then another is summing over the other and then the one. */
  lemma {:induction false} SumExchange<A, B, C>(rows: A -> (B -> multiset<C>), columns: B -> (A -> multiset<C>),
                                                rowSum: A -> multiset<C>, columnSum: B -> multiset<C>,
                                                a: seq<A>, b: seq<B>)
    requires forall x, y :: x in a && y in b ==> rows(x)(y) == columns(y)(x)
    requires forall x <- a :: rowSum(x) == Sum(rows(x), b)
    requires forall y <- b :: columnSum(y) == Sum(columns(y), a)
    ensures Sum(rowSum, a) == Sum(columnSum, b)
  {
    if a == [] {
      SumNone(columnSum, b);
    } else {
      var x, init := a[|a| - 1], a[..|a| - 1];
      var fewer := (y: B) => Sum(columns(y), init);
      SumExchange(rows, columns, rowSum, fewer, init, b);
      SumBoth(fewer, rows(x), columnSum, b);
    }
  }

  // ---------------------------------------------------------------------------------------

  function One<A, B>(f: A -> B): A -> multiset<B> {
    x => multiset{f(x)}
  }

  function OneIf<A>(p: A -> bool): A -> multiset<A> {
    x => if p(x) then multiset{x} else multiset{}
  }

  lemma {:induction false} MapIsSum<A, B>(f: A -> B, s: seq<A>)
    ensures multiset(Map(f, s)) == Sum(One(f), s)
  {
    if s != [] {
      MapIsSum(f, s[..|s| - 1]);
      assert Map(f, s) == Map(f, s[..|s| - 1]) + [f(s[|s| - 1])];
    }
  }

  lemma {:induction false} SelectIsSum<A>(p: A -> bool, s: seq<A>)
    ensures multiset(Select(p, s)) == Sum(OneIf(p), s)
  {
    if s != [] {
      SelectIsSum(p, s[..|s| - 1]);
    }
  }

  lemma MapOfBag<A, B>(f: A -> B, a: seq<A>, b: seq<A>)
    requires multiset(a) == multiset(b)
    ensures multiset(Map(f, a)) == multiset(Map(f, b))
  {
    MapIsSum(f, a);
    MapIsSum(f, b);
    SumOfBag(One(f), a, b);
  }

  lemma SelectOfBag<A>(p: A -> bool, a: seq<A>, b: seq<A>)
    requires multiset(a) == multiset(b)
    ensures multiset(Select(p, a)) == multiset(Select(p, b))
  {
    SelectIsSum(p, a);
    SelectIsSum(p, b);
    SumOfBag(OneIf(p), a, b);
  }

  function OneMapped<A, B>(p: A -> bool, f: A -> B): A -> multiset<B> {
    x => if p(x) then multiset{f(x)} else multiset{}
  }

  /** A filtered and mapped list as a bag. */
  lemma {:induction false} SelectedMapIsSum<A, B>(p: A -> bool, f: A -> B, s: seq<A>)
    ensures multiset(Map(f, Select(p, s))) == Sum(OneMapped(p, f), s)
  {
    if s != [] {
      var init, x := s[..|s| - 1], s[|s| - 1];
      SelectedMapIsSum(p, f, init);
      if p(x) {
        assert Map(f, Select(p, init) + [x]) == Map(f, Select(p, init)) + [f(x)];
      }
    }
  }

  // ---------------------------------------------------------------------------------------
  // Lists that look alike as bags can be put side by side.

  /** A bag that looks like a list through a function can be listed so that it looks the same at every place. */
  lemma {:induction false} Align<A, B>(f: A -> B, a: seq<A>, b: seq<A>) returns (b': seq<A>)
    requires multiset(Map(f, a)) == multiset(Map(f, b))
    ensures multiset(b') == multiset(b) && Map(f, b') == Map(f, a)
  {
    SameSize(Map(f, a), Map(f, b));
    if a == [] {
      b' := [];
    } else {
      var x, init := a[|a| - 1], a[..|a| - 1];
      assert Map(f, a) == Map(f, init) + [f(x)];
      var before, after := TakeOut(Map(f, init), f(x), Map(f, b));
      var i := |before|;
      assert Map(f, b)[i] == f(x);
      var rest := b[..i] + b[i + 1..];
      assert Map(f, rest) == before + after;
      var aligned := Align(f, init, rest);
      b' := aligned + [b[i]];
      assert b == b[..i] + [b[i]] + b[i + 1..];
      assert Map(f, b') == Map(f, aligned) + [f(b[i])];
    }
  }

  lemma SameSize<A>(a: seq<A>, b: seq<A>)
    requires multiset(a) == multiset(b)
    ensures |a| == |b|
  {
    assert |multiset(a)| == |a| && |multiset(b)| == |b|;
  }

  ghost predicate NoRepeats<A>(s: seq<A>) {
    forall i, j :: 0 <= i < j < |s| ==> s[i] != s[j]
  }

  lemma {:induction false} NoRepeatsCount<A>(s: seq<A>, x: A)
    requires NoRepeats(s)
    ensures multiset(s)[x] == if x in s then 1 else 0
  {
    if s != [] {
      var init, last := s[..|s| - 1], s[|s| - 1];
      assert s == init + [last];
      NoRepeatsCount(init, x);
    }
  }

  /** Lists without repeats that have the same members are one bag. */
  lemma SameMembersSameBag<A(!new)>(a: seq<A>, b: seq<A>)
    requires NoRepeats(a) && NoRepeats(b) && forall x :: x in a <==> x in b
    ensures multiset(a) == multiset(b)
  {
    forall x ensures multiset(a)[x] == multiset(b)[x] {
      NoRepeatsCount(a, x);
      NoRepeatsCount(b, x);
    }
  }
}
