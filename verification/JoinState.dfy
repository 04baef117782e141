/** The invariants of the hash join's state, and the steps that keep them. */
module JoinState {
  import opened Values
  import opened Sequences
  import opened Relations
  import opened Batches
  import opened RowStore
  import opened HashIndex
  import opened Chains
  import opened JoinLists

  function StoredKeys(indices: seq<nat>, stored: seq<Tuple>): (ks: seq<seq<Value>>)
    ensures |ks| == |stored| && forall i :: 0 <= i < |ks| ==> ks[i] == TupleKey(indices, stored[i])
  {
    seq(|stored|, i requires 0 <= i < |stored| => TupleKey(indices, stored[i]))
  }

  /** The index holds exactly the chain heads, under the hash of their key. */
  ghost predicate IndexesHeads(indices: seq<nat>, stored: seq<Tuple>, entries: Entries) {
    && (forall i :: i in entries <==> IsHead(StoredKeys(indices, stored), i))
    && (forall i <- entries :: i < |stored| && entries[i] == HashRow(indices, stored[i]))
  }

  ghost predicate AllBuildable(shape: JoinShape, stored: seq<Tuple>) {
    forall i :: 0 <= i < |stored| ==> JoinableTuple(shape.buildKeys, stored[i])
  }

  /** Chains and index agree with the stored rows, all of which can match. */
  ghost predicate Linked(shape: JoinShape, stored: seq<Tuple>, nexts: seq<Option<nat>>, tails: seq<nat>,
                         entries: Entries) {
    && ChainsOk(StoredKeys(shape.buildKeys, stored), nexts, tails)
    && IndexesHeads(shape.buildKeys, stored, entries)
    && AllBuildable(shape, stored)
  }

  lemma LinkedEmpty(shape: JoinShape)
    ensures Linked(shape, [], [], [], map[])
  {
  }

  /** Linked rows only bear ids of stored rows. */
  lemma LinkedIds(shape: JoinShape, stored: seq<Tuple>, nexts: seq<Option<nat>>, tails: seq<nat>, entries: Entries)
    requires Linked(shape, stored, nexts, tails, entries)
    ensures |nexts| == |tails| == |stored| && |stored| !in entries
    ensures forall i <- entries :: i < |stored|
  {
  }

  // ---------------------------------------------------------------------------------------
  // Lookup.

  /** The key comparison the index calls back, on the stored columns. */
  function SameKey(columns: seq<Vector>, indices: seq<nat>, t: Tuple, keys: seq<nat>): nat -> bool
    requires |indices| == |keys|
  {
    (h: nat) => EqualKey(TupleAt(columns, h), indices, t, keys)
  }

  /** What a failed lookup by hash and key comparison tells. */
  ghost predicate LookupFailed(entries: Entries, hash: nat, equal: nat -> bool) {
    forall h <- entries :: entries[h] == hash ==> !equal(h)
  }

  lemma LookupFound(shape: JoinShape, columns: seq<Vector>, types: seq<Type>, stored: seq<Tuple>,
                    nexts: seq<Option<nat>>, tails: seq<nat>, entries: Entries, keys: seq<nat>, t: Tuple, head: nat)
    requires |shape.buildKeys| == |keys| && Stores(columns, types, stored)
    requires Linked(shape, stored, nexts, tails, entries) && head in entries
    requires SameKey(columns, shape.buildKeys, t, keys)(head)
    ensures head < |stored| && TupleKey(shape.buildKeys, stored[head]) == TupleKey(keys, t)
    ensures IsHead(StoredKeys(shape.buildKeys, stored), head)
  {
    assert TupleAt(columns, head) == stored[head];
    EqualKeyIsTupleKey(stored[head], shape.buildKeys, t, keys);
  }

  lemma LookupMissed(shape: JoinShape, columns: seq<Vector>, types: seq<Type>, stored: seq<Tuple>,
                     nexts: seq<Option<nat>>, tails: seq<nat>, entries: Entries, keys: seq<nat>, t: Tuple)
    requires |shape.buildKeys| == |keys| && Stores(columns, types, stored)
    requires Linked(shape, stored, nexts, tails, entries)
    requires LookupFailed(entries, HashRow(keys, t), SameKey(columns, shape.buildKeys, t, keys))
    ensures TupleKey(keys, t) !in StoredKeys(shape.buildKeys, stored)
  {
    var ks := StoredKeys(shape.buildKeys, stored);
    if i :| 0 <= i < |ks| && ks[i] == TupleKey(keys, t) {
      var h := HeadExists(ks, i);
      assert h in entries;
      assert TupleAt(columns, h) == stored[h];
      EqualKeyIsTupleKey(stored[h], shape.buildKeys, t, keys);
      HashRespectsKeys(shape.buildKeys, stored[h], keys, t);
      assert false;
    }
  }

  lemma NeverMatches(shape: JoinShape, stored: seq<Tuple>, p: Tuple)
    requires !JoinableTuple(shape.probeKeys, p)
    ensures HeadFound(shape, stored, p, None)
  {
  }

  lemma KeyNotStored(shape: JoinShape, stored: seq<Tuple>, p: Tuple)
    requires TupleKey(shape.probeKeys, p) !in StoredKeys(shape.buildKeys, stored)
    ensures HeadFound(shape, stored, p, None)
  {
    var ks := StoredKeys(shape.buildKeys, stored);
    forall j | 0 <= j < |stored| ensures !Matches(shape, p, stored[j]) {
      assert ks[j] in ks;
    }
  }

  lemma KeyStoredFirst(shape: JoinShape, stored: seq<Tuple>, nexts: seq<Option<nat>>, tails: seq<nat>,
                       entries: Entries, p: Tuple, h: nat)
    requires Linked(shape, stored, nexts, tails, entries) && JoinableTuple(shape.probeKeys, p)
    requires IsHead(StoredKeys(shape.buildKeys, stored), h)
    requires TupleKey(shape.buildKeys, stored[h]) == TupleKey(shape.probeKeys, p)
    ensures HeadFound(shape, stored, p, Some(h))
  {
    var ks := StoredKeys(shape.buildKeys, stored);
    forall j | 0 <= j < h ensures !Matches(shape, p, stored[j]) {
      assert ks[j] != ks[h];
    }
  }

  // ---------------------------------------------------------------------------------------
  // Building.

  lemma HeadsAfterAppend<K>(ks: seq<K>, k: K)
    ensures forall i :: IsHead(ks + [k], i) <==> IsHead(ks, i) || (i == |ks| && k !in ks)
  {
    forall i: nat ensures IsHead(ks + [k], i) <==> IsHead(ks, i) || (i == |ks| && k !in ks) {
      if i < |ks| {
        assert forall j :: 0 <= j <= i ==> (ks + [k])[j] == ks[j];
      } else if i == |ks| {
        assert forall j :: 0 <= j < i ==> (ks + [k])[j] == ks[j];
      }
    }
  }

  lemma LinkNewKey(shape: JoinShape, stored: seq<Tuple>, nexts: seq<Option<nat>>, tails: seq<nat>,
                   entries: Entries, t: Tuple)
    requires Linked(shape, stored, nexts, tails, entries) && JoinableTuple(shape.buildKeys, t)
    requires TupleKey(shape.buildKeys, t) !in StoredKeys(shape.buildKeys, stored)
    ensures Linked(shape, stored + [t], nexts + [None], tails + [|stored|],
                   entries[|stored| := HashRow(shape.buildKeys, t)])
  {
    var ks, k := StoredKeys(shape.buildKeys, stored), TupleKey(shape.buildKeys, t);
    assert StoredKeys(shape.buildKeys, stored + [t]) == ks + [k];
    HeadsAfterAppend(ks, k);
    AddNewKey(ks, nexts, tails, k);
  }

  lemma LinkToChain(shape: JoinShape, stored: seq<Tuple>, nexts: seq<Option<nat>>, tails: seq<nat>,
                    entries: Entries, t: Tuple, head: nat)
    requires Linked(shape, stored, nexts, tails, entries) && JoinableTuple(shape.buildKeys, t)
    requires head in entries && head < |stored|
    requires TupleKey(shape.buildKeys, stored[head]) == TupleKey(shape.buildKeys, t)
    ensures |tails| == |nexts| == |stored| && tails[head] < |stored|
    ensures Linked(shape, stored + [t], (nexts + [None])[tails[head] := Some(|stored|)],
                   (tails + [|stored|])[head := |stored|], entries)
  {
    var ks, k := StoredKeys(shape.buildKeys, stored), TupleKey(shape.buildKeys, t);
    assert StoredKeys(shape.buildKeys, stored + [t]) == ks + [k];
    HeadsAfterAppend(ks, k);
    AddToChain(ks, nexts, tails, k, head);
    assert k == ks[head];
  }

  /** The stored rows are those of the consumed ones that can match. */
  ghost predicate StoredFrom(shape: JoinShape, stored: seq<Tuple>, consumed: seq<Tuple>) {
    stored == BuildableRows(shape, consumed)
  }

  lemma StoredStart(shape: JoinShape)
    ensures StoredFrom(shape, [], [])
  {
  }

  lemma StoredStep(shape: JoinShape, stored: seq<Tuple>, consumed: seq<Tuple>, t: Tuple)
    requires StoredFrom(shape, stored, consumed)
    ensures StoredFrom(shape, if JoinableTuple(shape.buildKeys, t) then stored + [t] else stored, consumed + [t])
  {
    assert (consumed + [t])[..|consumed|] == consumed;
  }

  // ---------------------------------------------------------------------------------------
  // Probing.

  /** The active rows of the probe batch that is being expanded. */
  function ActiveRows(heads: seq<Option<nat>>, b: Batch): seq<Tuple> {
    if heads != [] then b.Active() else []
  }

  ghost predicate CursorOk(shape: JoinShape, types: seq<Type>, stored: seq<Tuple>, heads: seq<Option<nat>>,
                           b: Batch, cursor: nat, matched: Option<nat>) {
    var active := ActiveRows(heads, b);
    && (heads != [] ==> b.Valid(types))
    && HeadsFound(shape, stored, active, heads)
    && (cursor < |heads| && matched.Some? ==>
          matched.value < |stored| && Matches(shape, active[cursor], stored[matched.value]))
  }

  /** What the operator has still to produce once the build side is stored. */
  function Rest(shape: JoinShape, stored: seq<Tuple>, heads: seq<Option<nat>>, b: Batch, cursor: nat,
                matched: Option<nat>, later: seq<Tuple>): seq<Tuple> {
    Remaining(shape, stored, ActiveRows(heads, b), cursor, matched, later)
  }

  /** Before any probe batch is loaded, the cursor has the whole probe side ahead of it. */
  lemma NothingLoaded(shape: JoinShape, types: seq<Type>, stored: seq<Tuple>, b: Batch, cursor: nat,
                      matched: Option<nat>, later: seq<Tuple>)
    ensures CursorOk(shape, types, stored, [], b, cursor, matched)
    ensures Rest(shape, stored, [], b, cursor, matched, later) == JoinTuples(shape, stored, later)
  {
  }

  /** With no stored rows nothing is left to produce, wherever the cursor stands. */
  lemma NothingToJoin(shape: JoinShape, types: seq<Type>, heads: seq<Option<nat>>,
                      b: Batch, cursor: nat, matched: Option<nat>, later: seq<Tuple>)
    requires CursorOk(shape, types, [], heads, b, cursor, matched)
    ensures Rest(shape, [], heads, b, cursor, matched, later) == []
  {
    var active := ActiveRows(heads, b);
    NothingStored(shape, later);
    if cursor < |active| {
      NothingStored(shape, active[cursor + 1..] + later);
    }
  }

  /** Nothing is left after the last row of the last probe batch. */
  lemma ProbeExhausted(shape: JoinShape, types: seq<Type>, stored: seq<Tuple>, heads: seq<Option<nat>>, b: Batch,
                       cursor: nat, matched: Option<nat>)
    requires CursorOk(shape, types, stored, heads, b, cursor, matched) && cursor >= |heads|
    ensures Rest(shape, stored, heads, b, cursor, matched, []) == []
  {
  }

  /** Loading the next probe batch, with the heads of its rows found, moves no rows. */
  lemma ProbeLoaded(shape: JoinShape, types: seq<Type>, stored: seq<Tuple>, heads: seq<Option<nat>>, b: Batch,
                    cursor: nat, matched: Option<nat>, coming: seq<Tuple>, next: Batch, later: seq<Tuple>,
                    found: seq<Option<nat>>)
    requires CursorOk(shape, types, stored, heads, b, cursor, matched) && cursor >= |heads|
    requires next.Valid(types) && next.selection.Size() > 0 && Splits(coming, next.Active(), later)
    requires HeadsFound(shape, stored, next.Active(), found)
    ensures found != [] && CursorOk(shape, types, stored, found, next, 0, found[0])
    ensures Rest(shape, stored, found, next, 0, found[0], later)
         == Rest(shape, stored, heads, b, cursor, matched, coming)
  {
    var active := next.Active();
    CursorAtRow(shape, stored, active, found, 0, later);
    assert active[0..] == active;
    assert HeadFound(shape, stored, active[0], found[0]);
  }

  lemma ProbeAdvanced(shape: JoinShape, types: seq<Type>, stored: seq<Tuple>, heads: seq<Option<nat>>, b: Batch,
                      cursor: nat, later: seq<Tuple>)
    requires CursorOk(shape, types, stored, heads, b, cursor, None) && cursor < |heads|
    ensures var matched := if cursor + 1 < |heads| then heads[cursor + 1] else None;
      && CursorOk(shape, types, stored, heads, b, cursor + 1, matched)
      && Rest(shape, stored, heads, b, cursor + 1, matched, later)
         == Rest(shape, stored, heads, b, cursor, None, later)
  {
    var active := ActiveRows(heads, b);
    CursorAdvances(shape, stored, active, heads, cursor, later);
    if cursor + 1 < |heads| {
      assert HeadFound(shape, stored, active[cursor + 1], heads[cursor + 1]);
    }
  }

  /** The link of a stored match is the next match of the same probe row. */
  lemma NextMatch(shape: JoinShape, stored: seq<Tuple>, nexts: seq<Option<nat>>, tails: seq<nat>, entries: Entries,
                  p: Tuple, m: nat)
    requires Linked(shape, stored, nexts, tails, entries)
    requires m < |stored| && Matches(shape, p, stored[m])
    ensures |nexts| == |stored| && LinksMatches(shape, stored, p, m, nexts[m])
  {
    var ks := StoredKeys(shape.buildKeys, stored);
    assert NextOk(ks, m, nexts[m]);
    forall j | 0 <= j < |stored| ensures Matches(shape, p, stored[j]) <==> ks[j] == ks[m] {
    }
  }

  /** Emitting the current match leaves the cursor on the next one. */
  lemma ProbeEmitted(shape: JoinShape, types: seq<Type>, stored: seq<Tuple>, nexts: seq<Option<nat>>,
                     tails: seq<nat>, entries: Entries, heads: seq<Option<nat>>, b: Batch, cursor: nat,
                     m: nat, later: seq<Tuple>)
    requires Linked(shape, stored, nexts, tails, entries)
    requires CursorOk(shape, types, stored, heads, b, cursor, Some(m)) && cursor < |heads|
    ensures m < |stored| == |nexts| && cursor < |ActiveRows(heads, b)|
    ensures nexts[m].Some? ==> m < nexts[m].value < |stored|
    ensures CursorOk(shape, types, stored, heads, b, cursor, nexts[m])
    ensures Splits(Rest(shape, stored, heads, b, cursor, Some(m), later),
                   [Pair(shape, ActiveRows(heads, b)[cursor], stored[m])],
                   Rest(shape, stored, heads, b, cursor, nexts[m], later))
  {
    var active := ActiveRows(heads, b);
    NextMatch(shape, stored, nexts, tails, entries, active[cursor], m);
    CursorEmits(shape, stored, active, cursor, m, nexts[m], later);
  }
}
