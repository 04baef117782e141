/** The join as a list of positional rows: probe-major, matches in build order. */
module JoinLists {
  import opened Values
  import opened Sequences
  import opened Relations
  import opened RowStore

  datatype JoinShape = JoinShape(buildKeys: seq<nat>, probeKeys: seq<nat>, buildRight: bool)

  /** Output rows put the left columns first, whichever side was built. */
  function Pair(shape: JoinShape, p: Tuple, b: Tuple): Tuple {
    if shape.buildRight then p + b else b + p
  }

  predicate Matches(shape: JoinShape, p: Tuple, b: Tuple) {
    && JoinableTuple(shape.probeKeys, p) && JoinableTuple(shape.buildKeys, b)
    && TupleKey(shape.probeKeys, p) == TupleKey(shape.buildKeys, b)
  }

  /** The output rows of one probe row and its matches among the build rows from i on. */
  function PairsFrom(shape: JoinShape, build: seq<Tuple>, p: Tuple, i: nat): seq<Tuple>
    decreases |build| - i
  {
    if i >= |build| then []
    else if Matches(shape, p, build[i]) then [Pair(shape, p, build[i])] + PairsFrom(shape, build, p, i + 1)
    else PairsFrom(shape, build, p, i + 1)
  }

  /** The join as a list: probe rows in order, and for each its matches in build order. */
  function JoinTuples(shape: JoinShape, build: seq<Tuple>, probe: seq<Tuple>): seq<Tuple> {
    if probe == [] then []
    else JoinTuples(shape, build, probe[..|probe| - 1]) + PairsFrom(shape, build, probe[|probe| - 1], 0)
  }

  /** The build rows that some probe row might match. */
  function BuildableRows(shape: JoinShape, rows: seq<Tuple>): seq<Tuple> {
    if rows == [] then [] else
      var t, init := rows[|rows| - 1], BuildableRows(shape, rows[..|rows| - 1]);
      if JoinableTuple(shape.buildKeys, t) then init + [t] else init
  }

  lemma JoinTuplesLast(shape: JoinShape, build: seq<Tuple>, probe: seq<Tuple>, p: Tuple)
    ensures JoinTuples(shape, build, probe + [p]) == JoinTuples(shape, build, probe) + PairsFrom(shape, build, p, 0)
  {
    assert (probe + [p])[..|probe|] == probe;
  }

  lemma {:induction false} JoinTuplesHead(shape: JoinShape, build: seq<Tuple>, p: Tuple, q: seq<Tuple>)
    ensures JoinTuples(shape, build, [p] + q) == PairsFrom(shape, build, p, 0) + JoinTuples(shape, build, q)
  {
    if q == [] {
      assert [p] + q == [] + [p];
      JoinTuplesLast(shape, build, [], p);
    } else {
      var init, last := q[..|q| - 1], q[|q| - 1];
      JoinTuplesHead(shape, build, p, init);
      assert [p] + q == ([p] + init) + [last];
      JoinTuplesLast(shape, build, [p] + init, last);
    }
  }

  lemma {:induction false} NothingStored(shape: JoinShape, probe: seq<Tuple>)
    ensures JoinTuples(shape, [], probe) == []
  {
    if probe != [] {
      NothingStored(shape, probe[..|probe| - 1]);
    }
  }

  // ---------------------------------------------------------------------------------------
  // The same list through filters and maps.

  function Matching(shape: JoinShape, p: Tuple): Tuple -> bool {
    (b: Tuple) => Matches(shape, p, b)
  }

  function Pairing(shape: JoinShape, p: Tuple): Tuple -> Tuple {
    (b: Tuple) => Pair(shape, p, b)
  }

  function Buildable(shape: JoinShape): Tuple -> bool {
    (b: Tuple) => JoinableTuple(shape.buildKeys, b)
  }

  lemma {:induction false} PairsAreSelected(shape: JoinShape, build: seq<Tuple>, p: Tuple, i: nat)
    requires i <= |build|
    ensures PairsFrom(shape, build, p, i) == Map(Pairing(shape, p), Select(Matching(shape, p), build[i..]))
    decreases |build| - i
  {
    if i < |build| {
      PairsAreSelected(shape, build, p, i + 1);
      assert build[i..] == [build[i]] + build[i + 1..];
      SelectFirst(Matching(shape, p), build[i], build[i + 1..]);
      MapFirst(Pairing(shape, p), build[i], Select(Matching(shape, p), build[i + 1..]));
    }
  }

  lemma {:induction false} BuildableAreSelected(shape: JoinShape, rows: seq<Tuple>)
    ensures BuildableRows(shape, rows) == Select(Buildable(shape), rows)
  {
    if rows != [] {
      BuildableAreSelected(shape, rows[..|rows| - 1]);
    }
  }

  /** Build rows with a NULL or NaN key may be left out. */
  lemma {:induction false} OnlyBuildable(shape: JoinShape, build: seq<Tuple>, probe: seq<Tuple>)
    ensures JoinTuples(shape, BuildableRows(shape, build), probe) == JoinTuples(shape, build, probe)
  {
    if probe != [] {
      var p, kept := probe[|probe| - 1], BuildableRows(shape, build);
      OnlyBuildable(shape, build, probe[..|probe| - 1]);
      BuildableAreSelected(shape, build);
      PairsAreSelected(shape, build, p, 0);
      PairsAreSelected(shape, kept, p, 0);
      assert build[0..] == build && kept[0..] == kept;
      SelectSelect(Matching(shape, p), Buildable(shape), Matching(shape, p), build);
    }
  }

  // ---------------------------------------------------------------------------------------
  // The cursor: a probe row within a batch, and a row within a duplicate chain.

  /** The output rows of the current probe row that are still to come. */
  function RestOfRow(shape: JoinShape, stored: seq<Tuple>, p: Tuple, matched: Option<nat>): seq<Tuple> {
    if matched.None? then [] else PairsFrom(shape, stored, p, matched.value)
  }

  /** What a cursor has still to produce. */
  function Remaining(shape: JoinShape, stored: seq<Tuple>, active: seq<Tuple>, cursor: nat,
                     matched: Option<nat>, later: seq<Tuple>): seq<Tuple> {
    if cursor < |active| then
      RestOfRow(shape, stored, active[cursor], matched) + JoinTuples(shape, stored, active[cursor + 1..] + later)
    else JoinTuples(shape, stored, later)
  }

  /** The head found for a probe row: the first stored row that matches, if any does. */
  ghost predicate HeadFound(shape: JoinShape, stored: seq<Tuple>, p: Tuple, head: Option<nat>) {
    match head
    case None => NoMatches(shape, stored, p, 0, |stored|)
    case Some(h) => h < |stored| && Matches(shape, p, stored[h]) && NoMatches(shape, stored, p, 0, h)
  }

  /** No stored row of an interval matches the probe row. */
  ghost predicate NoMatches(shape: JoinShape, stored: seq<Tuple>, p: Tuple, from: nat, end: nat)
    requires end <= |stored|
  {
    forall j {:trigger Matches(shape, p, stored[j])} :: from <= j < end ==> !Matches(shape, p, stored[j])
  }

  lemma {:induction false} SkipNoMatches(shape: JoinShape, stored: seq<Tuple>, p: Tuple, from: nat, end: nat)
    requires from <= end <= |stored| && NoMatches(shape, stored, p, from, end)
    ensures PairsFrom(shape, stored, p, from) == PairsFrom(shape, stored, p, end)
    decreases end - from
  {
    if from < end {
      assert !Matches(shape, p, stored[from]);
      SkipNoMatches(shape, stored, p, from + 1, end);
    }
  }

  ghost predicate HeadsFound(shape: JoinShape, stored: seq<Tuple>, active: seq<Tuple>, heads: seq<Option<nat>>) {
    |heads| == |active| && forall j :: 0 <= j < |active| ==> HeadFound(shape, stored, active[j], heads[j])
  }

  lemma HeadStartsAll(shape: JoinShape, stored: seq<Tuple>, p: Tuple, head: Option<nat>)
    requires HeadFound(shape, stored, p, head)
    ensures RestOfRow(shape, stored, p, head) == PairsFrom(shape, stored, p, 0)
  {
    SkipNoMatches(shape, stored, p, 0, if head.None? then |stored| else head.value);
  }

  /** A cursor at the head of a probe row has that row's whole join ahead of it. */
  lemma CursorAtRow(shape: JoinShape, stored: seq<Tuple>, active: seq<Tuple>, heads: seq<Option<nat>>,
                    cursor: nat, later: seq<Tuple>)
    requires HeadsFound(shape, stored, active, heads) && cursor <= |active|
    ensures Remaining(shape, stored, active, cursor, if cursor < |heads| then heads[cursor] else None, later)
         == JoinTuples(shape, stored, active[cursor..] + later)
  {
    if cursor < |active| {
      HeadStartsAll(shape, stored, active[cursor], heads[cursor]);
      var more := active[cursor + 1..] + later;
      assert active[cursor..] + later == [active[cursor]] + more;
      JoinTuplesHead(shape, stored, active[cursor], more);
    } else {
      assert active[cursor..] + later == later;
    }
  }

  /** At the end of a chain the next probe row follows. */
  lemma CursorAdvances(shape: JoinShape, stored: seq<Tuple>, active: seq<Tuple>, heads: seq<Option<nat>>,
                       cursor: nat, later: seq<Tuple>)
    requires HeadsFound(shape, stored, active, heads) && cursor < |active|
    ensures Remaining(shape, stored, active, cursor, None, later)
         == Remaining(shape, stored, active, cursor + 1,
                      if cursor + 1 < |heads| then heads[cursor + 1] else None, later)
  {
    CursorAtRow(shape, stored, active, heads, cursor + 1, later);
  }

  /** The links of the chains lead from one match of a probe row to its next. */
  ghost predicate LinksMatches(shape: JoinShape, stored: seq<Tuple>, p: Tuple, m: nat, next: Option<nat>)
    requires m < |stored|
  {
    match next
    case None => NoMatches(shape, stored, p, m + 1, |stored|)
    case Some(n) => m < n < |stored| && Matches(shape, p, stored[n]) && NoMatches(shape, stored, p, m + 1, n)
  }

  /** Emitting one match leaves the rest of the chain. */
  lemma CursorEmits(shape: JoinShape, stored: seq<Tuple>, active: seq<Tuple>, cursor: nat, m: nat,
                    next: Option<nat>, later: seq<Tuple>)
    requires cursor < |active| && m < |stored| && Matches(shape, active[cursor], stored[m])
    requires LinksMatches(shape, stored, active[cursor], m, next)
    ensures Splits(Remaining(shape, stored, active, cursor, Some(m), later),
                   [Pair(shape, active[cursor], stored[m])],
                   Remaining(shape, stored, active, cursor, next, later))
  {
    var p, row := active[cursor], [Pair(shape, active[cursor], stored[m])];
    SkipNoMatches(shape, stored, p, m + 1, if next.None? then |stored| else next.value);
    var rest, joins := RestOfRow(shape, stored, p, next), JoinTuples(shape, stored, active[cursor + 1..] + later);
    assert PairsFrom(shape, stored, p, m) == row + rest;
    assert (row + rest) + joins == row + (rest + joins);
  }
}
