/**
 The duplicate chains of the hash join: `nexts` links each stored row to the next one with the
 same key, and `tails` holds the end of the chain at each chain head.
 */
module Chains {
  import opened Values
  import opened Sequences

  /** The first stored row with its key. */
  ghost predicate IsHead<K>(ks: seq<K>, i: nat) {
    i < |ks| && forall j :: 0 <= j < i ==> ks[j] != ks[i]
  }

  ghost predicate NextOk<K>(ks: seq<K>, i: nat, next: Option<nat>)
    requires i < |ks|
  {
    match next
    case None => forall j :: i < j < |ks| ==> ks[j] != ks[i]
    case Some(n) => i < n < |ks| && ks[n] == ks[i] && forall j :: i < j < n ==> ks[j] != ks[i]
  }

  ghost predicate TailOk<K>(ks: seq<K>, h: nat, t: nat)
    requires h < |ks|
  {
    h <= t < |ks| && ks[t] == ks[h] && forall j :: t < j < |ks| ==> ks[j] != ks[h]
  }

  ghost predicate ChainsOk<K>(ks: seq<K>, nexts: seq<Option<nat>>, tails: seq<nat>) {
    && |nexts| == |ks| && |tails| == |ks|
    && (forall i :: 0 <= i < |ks| ==> NextOk(ks, i, nexts[i]))
    && (forall h :: 0 <= h < |ks| && IsHead(ks, h) ==> TailOk(ks, h, tails[h]))
  }

  lemma {:induction false} HeadExists<K>(ks: seq<K>, i: nat) returns (h: nat)
    requires i < |ks|
    ensures h <= i && IsHead(ks, h) && ks[h] == ks[i]
  {
    if j :| 0 <= j < i && ks[j] == ks[i] {
      h := HeadExists(ks, j);
    } else {
      h := i;
    }
  }

  lemma AddNewKey<K>(ks: seq<K>, nexts: seq<Option<nat>>, tails: seq<nat>, k: K)
    requires ChainsOk(ks, nexts, tails) && k !in ks
    ensures ChainsOk(ks + [k], nexts + [None], tails + [|ks|])
  {
    var more := ks + [k];
    forall i | 0 <= i < |ks| ensures NextOk(more, i, nexts[i]) {
      assert NextOk(ks, i, nexts[i]);
      assert more[i] == ks[i];
    }
    forall h | 0 <= h < |ks| && IsHead(more, h) ensures TailOk(more, h, tails[h]) {
      assert forall j :: 0 <= j < h ==> more[j] == ks[j];
      assert IsHead(ks, h);
    }
  }

  /** Appending to a chain links its old tail to the new row. */
  lemma AddToChain<K>(ks: seq<K>, nexts: seq<Option<nat>>, tails: seq<nat>, k: K, head: nat)
    requires ChainsOk(ks, nexts, tails) && IsHead(ks, head) && ks[head] == k
    ensures tails[head] < |ks|
    ensures ChainsOk(ks + [k], (nexts + [None])[tails[head] := Some(|ks|)], (tails + [|ks|])[head := |ks|])
  {
    var more, tail := ks + [k], tails[head];
    assert TailOk(ks, head, tail);
    var nexts', tails' := (nexts + [None])[tail := Some(|ks|)], (tails + [|ks|])[head := |ks|];
    forall i | 0 <= i < |more| ensures NextOk(more, i, nexts'[i]) {
      if i < |ks| {
        assert NextOk(ks, i, nexts[i]);
        assert i != tail && ks[i] == k ==> nexts[i].Some?;
      }
    }
    forall h | 0 <= h < |more| && IsHead(more, h) ensures TailOk(more, h, tails'[h]) {
      assert more[head] == k;
      if h < |ks| {
        assert forall j :: 0 <= j < h ==> more[j] == ks[j];
        assert IsHead(ks, h);
        if ks[h] == k {
          assert h == head;
        }
      }
    }
  }

  /** The stored rows from i on with a key, in row order. */
  function MatchesFrom<K(==)>(ks: seq<K>, k: K, i: nat): seq<nat>
    decreases |ks| - i
  {
    if i >= |ks| then []
    else if ks[i] == k then [i] + MatchesFrom(ks, k, i + 1)
    else MatchesFrom(ks, k, i + 1)
  }

  /** The rows visited by following the links from a row to the end of its chain. */
  function Walk(nexts: seq<Option<nat>>, i: nat): seq<nat>
    requires i < |nexts| && forall j :: 0 <= j < |nexts| && nexts[j].Some? ==> j < nexts[j].value < |nexts|
    decreases |nexts| - i
  {
    [i] + if nexts[i].None? then [] else Walk(nexts, nexts[i].value)
  }

  lemma {:induction false} SkipNonMatches<K>(ks: seq<K>, k: K, i: nat, n: nat)
    requires i <= n <= |ks| && forall j :: i <= j < n ==> ks[j] != k
    ensures MatchesFrom(ks, k, i) == MatchesFrom(ks, k, n)
    decreases n - i
  {
    if i < n {
      SkipNonMatches(ks, k, i + 1, n);
    }
  }

  lemma LinksForward<K>(ks: seq<K>, nexts: seq<Option<nat>>, tails: seq<nat>)
    requires ChainsOk(ks, nexts, tails)
    ensures forall j :: 0 <= j < |nexts| && nexts[j].Some? ==> j < nexts[j].value < |nexts|
  {
    forall j | 0 <= j < |nexts| && nexts[j].Some? ensures j < nexts[j].value < |nexts| {
      assert NextOk(ks, j, nexts[j]);
    }
  }

  /** Walking from any row visits exactly the rows from it on with its key, in row order. */
  lemma {:induction false} WalkVisitsMatches<K>(ks: seq<K>, nexts: seq<Option<nat>>, tails: seq<nat>, i: nat)
    requires ChainsOk(ks, nexts, tails) && i < |ks|
    ensures forall j :: 0 <= j < |nexts| && nexts[j].Some? ==> j < nexts[j].value < |nexts|
    ensures Walk(nexts, i) == MatchesFrom(ks, ks[i], i)
    decreases |ks| - i
  {
    LinksForward(ks, nexts, tails);
    assert NextOk(ks, i, nexts[i]);
    match nexts[i]
    case None =>
      SkipNonMatches(ks, ks[i], i + 1, |ks|);
    case Some(n) =>
      SkipNonMatches(ks, ks[i], i + 1, n);
      WalkVisitsMatches(ks, nexts, tails, n);
  }

  lemma {:induction false} WalkLast<K>(ks: seq<K>, nexts: seq<Option<nat>>, tails: seq<nat>, i: nat, t: nat)
    requires ChainsOk(ks, nexts, tails) && i <= t < |ks| && ks[t] == ks[i]
    requires forall j :: t < j < |ks| ==> ks[j] != ks[i]
    ensures forall j :: 0 <= j < |nexts| && nexts[j].Some? ==> j < nexts[j].value < |nexts|
    ensures Walk(nexts, i)[|Walk(nexts, i)| - 1] == t
    decreases |ks| - i
  {
    LinksForward(ks, nexts, tails);
    assert NextOk(ks, i, nexts[i]);
    if nexts[i].Some? {
      WalkLast(ks, nexts, tails, nexts[i].value, t);
    }
  }

  /** From a chain head, the walk visits every row with its key once, and ends at the recorded tail. */
  lemma HeadWalkIsComplete<K>(ks: seq<K>, nexts: seq<Option<nat>>, tails: seq<nat>, h: nat)
    requires ChainsOk(ks, nexts, tails) && IsHead(ks, h)
    ensures forall j :: 0 <= j < |nexts| && nexts[j].Some? ==> j < nexts[j].value < |nexts|
    ensures Walk(nexts, h) == MatchesFrom(ks, ks[h], 0)
    ensures Walk(nexts, h)[|Walk(nexts, h)| - 1] == tails[h]
  {
    WalkVisitsMatches(ks, nexts, tails, h);
    SkipNonMatches(ks, ks[h], 0, h);
    assert TailOk(ks, h, tails[h]);
    WalkLast(ks, nexts, tails, h, tails[h]);
  }
}
