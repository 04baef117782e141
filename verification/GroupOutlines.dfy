/**
 Aggregations over two inputs that show the same bag of outlines: the same groups, and the same
 value of every aggregate that does not depend on the order of its input.
 */
module GroupOutlines {
  import opened Values
  import opened Expressions
  import opened Sequences
  import Bags
  import opened Aggregates
  import opened Relations
  import RelationLaws
  import opened Outlines

  function Canonical(): Value -> Value {
    v => Canon(v)
  }

  /** Two lists of cells are one bag, up to the sign of a zero. */
  ghost predicate SameCells(vs: seq<Value>, ws: seq<Value>) {
    multiset(Map(Canonical(), vs)) == multiset(Map(Canonical(), ws))
  }

  // ---------------------------------------------------------------------------------------
  // The aggregates that do not depend on order.

  lemma {:induction false} ExactSumAppend(a: seq<Value>, b: seq<Value>)
    ensures ExactSum(a + b) == ExactSum(a) + ExactSum(b)
  {
    if b == [] {
      assert a + b == a;
    } else {
      ExactSumAppend(a, b[..|b| - 1]);
      assert (a + b)[..|a + b| - 1] == a + b[..|b| - 1];
    }
  }

  lemma ExactSumLast(a: seq<Value>, v: Value)
    ensures ExactSum(a + [v]) == ExactSum(a) + AsInt(v)
  {
    assert (a + [v])[..|a|] == a;
  }

  lemma {:induction false} ExactSumOfBag(a: seq<Value>, b: seq<Value>)
    requires multiset(a) == multiset(b)
    ensures ExactSum(a) == ExactSum(b)
  {
    Bags.SameSize(a, b);
    if a != [] {
      var x, init := a[|a| - 1], a[..|a| - 1];
      assert a == init + [x];
      var before, after := Bags.TakeOut(init, x, b);
      ExactSumOfBag(init, before + after);
      ExactSumAppend(before + [x], after);
      ExactSumLast(before, x);
      ExactSumAppend(before, after);
    }
  }

  lemma {:induction false} ExactSumCanonical(vs: seq<Value>)
    ensures ExactSum(Map(Canonical(), vs)) == ExactSum(vs)
  {
    if vs != [] {
      ExactSumCanonical(vs[..|vs| - 1]);
      assert Map(Canonical(), vs)[..|vs| - 1] == Map(Canonical(), vs[..|vs| - 1]);
    }
  }

  lemma SameCellsFind(vs: seq<Value>, ws: seq<Value>, w: Value) returns (v: Value)
    requires SameCells(vs, ws) && w in ws
    ensures v in vs && Canon(v) == Canon(w)
  {
    var j :| 0 <= j < |ws| && ws[j] == w;
    assert Map(Canonical(), ws)[j] == Canon(w);
    assert Canon(w) in multiset(Map(Canonical(), vs));
    var i :| 0 <= i < |vs| && Map(Canonical(), vs)[i] == Canon(w);
    v := vs[i];
  }

  lemma ExtremeBounds(least: bool, vs: seq<Value>, ws: seq<Value>, w: Value)
    requires vs != [] && SameCells(vs, ws) && w in ws
    ensures Oriented(least, Extreme(least, vs), w) <= 0
  {
    var k := ExtremeIsEarliestBound(least, vs);
    var v := SameCellsFind(vs, ws, w);
    var i :| 0 <= i < |vs| && vs[i] == v;
    assert Oriented(least, vs[k], vs[i]) <= 0;
    CompareCongruent(vs[k], v);
    CompareCongruent(vs[k], w);
    CompareCongruent(v, vs[k]);
    CompareCongruent(w, vs[k]);
  }

  /** The extreme of a bag of cells is one key class. */
  lemma ExtremeOfCells(least: bool, vs: seq<Value>, ws: seq<Value>)
    requires vs != [] && ws != [] && SameCells(vs, ws)
    ensures Canon(Extreme(least, vs)) == Canon(Extreme(least, ws))
  {
    var i := ExtremeIsEarliestBound(least, vs);
    var j := ExtremeIsEarliestBound(least, ws);
    ExtremeBounds(least, vs, ws, ws[j]);
    ExtremeBounds(least, ws, vs, vs[i]);
    CompareAntisymmetric(vs[i], ws[j]);
    CompareEqualIsCanon(vs[i], ws[j]);
  }

  /** COUNT, MIN and MAX; and SUM over integers, if it may be taken to fit. */
  predicate OrderInsensitive(kind: AggregateKind, typ: Type, sums: bool) {
    kind.Sum? ==> sums && typ.Int64Type?
  }

  /** An integer SUM some running total of which leaves 64 bits. */
  predicate Overflows(kind: AggregateKind, typ: Type, vs: seq<Value>) {
    kind.Sum? && typ.Int64Type? && SomePrefixOverflows(vs)
  }

  lemma AggregateOfCells(kind: AggregateKind, typ: Type, vs: seq<Value>, ws: seq<Value>)
    requires SameCells(vs, ws) && OrderInsensitive(kind, typ, true)
    requires !Overflows(kind, typ, vs) && !Overflows(kind, typ, ws)
    ensures Canon(AggregateValue(kind, typ, vs)) == Canon(AggregateValue(kind, typ, ws))
  {
    Bags.SameSize(Map(Canonical(), vs), Map(Canonical(), ws));
    match kind
    case Count =>
    case Sum =>
      ExactSumOfBag(Map(Canonical(), vs), Map(Canonical(), ws));
      ExactSumCanonical(vs);
      ExactSumCanonical(ws);
    case Min =>
      if vs != [] {
        ExtremeOfCells(true, vs, ws);
      }
    case Max =>
      if vs != [] {
        ExtremeOfCells(false, vs, ws);
      }
  }

  /** An integer SUM of one bag of cells that leaves 64 bits in one order and not in another. */
  lemma SumDependsOnOrder()
    ensures var vs, ws := [Int(MAX_INT64), Int(1), Int(-1)], [Int(1), Int(-1), Int(MAX_INT64)];
      SameCells(vs, ws) && AggregateValue(Sum, Int64Type, vs) == Null
        && AggregateValue(Sum, Int64Type, ws) == Int(MAX_INT64)
  {
    var vs, ws := [Int(MAX_INT64), Int(1), Int(-1)], [Int(1), Int(-1), Int(MAX_INT64)];
    assert Map(Canonical(), vs) == vs && Map(Canonical(), ws) == ws;
    RunningTotals(MAX_INT64, 1, -1);
    RunningTotals(1, -1, MAX_INT64);
  }

  lemma RunningTotals(x: Int64, y: Int64, z: Int64)
    ensures ExactSum([Int(x), Int(y), Int(z)]) == x + y + z
    ensures SomePrefixOverflows([Int(x), Int(y), Int(z)]) <==> !InInt64(x + y) || !InInt64(x + y + z)
  {
    var vs := [Int(x), Int(y), Int(z)];
    assert vs[..0] == [] && vs[..1] == [Int(x)] && vs[..2] == [Int(x), Int(y)] && vs[..3] == vs;
    ExactSumLast([], Int(x));
    ExactSumLast([Int(x)], Int(y));
    ExactSumLast([Int(x), Int(y)], Int(z));
    assert [] + [Int(x)] == [Int(x)] && [Int(x)] + [Int(y)] == vs[..2] && vs[..2] + [Int(z)] == vs;
  }

  // ---------------------------------------------------------------------------------------
  // What an outline tells of keys and inputs.

  lemma OutlineReads(ids: set<ColumnId>, row: Row, id: ColumnId)
    requires id in ids
    ensures Cell(OutlineRow(ids, row), id) == Canon(Cell(row, id))
  {
  }

  function Keying(keys: seq<ColumnId>): Row -> seq<Value> {
    row => KeyOf(keys, row)
  }

  lemma OutlineKey(ids: set<ColumnId>, keys: seq<ColumnId>, row: Row)
    requires KeySet(keys) <= ids
    ensures KeyOf(keys, OutlineRow(ids, row)) == KeyOf(keys, row)
  {
    forall i | 0 <= i < |keys| ensures Canon(Cell(OutlineRow(ids, row), keys[i])) == Canon(Cell(row, keys[i])) {
      assert keys[i] in KeySet(keys);
      OutlineReads(ids, row, keys[i]);
    }
  }

  lemma KeysOfOutlines(ids: set<ColumnId>, keys: seq<ColumnId>, rows: seq<Row>)
    requires KeySet(keys) <= ids
    ensures Map(Keying(keys), Map(Outline(ids), rows)) == Map(Keying(keys), rows)
  {
    forall i | 0 <= i < |rows| ensures KeyOf(keys, OutlineRow(ids, rows[i])) == KeyOf(keys, rows[i]) {
      OutlineKey(ids, keys, rows[i]);
    }
  }

  lemma MembersOutlines(ids: set<ColumnId>, keys: seq<ColumnId>, key: seq<Value>, a: seq<Row>, b: seq<Row>)
    requires KeySet(keys) <= ids && SameOutlines(ids, a, b)
    ensures SameOutlines(ids, Members(keys, key, a), Members(keys, key, b))
  {
    var p := HavingKey(keys, key);
    forall x: Row, y: Row | OutlineRow(ids, x) == OutlineRow(ids, y) ensures p(x) == p(y) {
      OutlineKey(ids, keys, x);
      OutlineKey(ids, keys, y);
    }
    SelectOutlines(ids, p, a, b);
  }

  lemma CanonicalInputs(ids: set<ColumnId>, id: ColumnId, rows: seq<Row>)
    requires id in ids
    ensures Map(Canonical(), NonNull(Map(Reading(id), rows))) == NonNull(Map(Reading(id), Map(Outline(ids), rows)))
  {
    var cells := Map(Reading(id), rows);
    SelectMap(Present(), Present(), Canonical(), cells);
    forall i | 0 <= i < |rows| ensures Cell(OutlineRow(ids, rows[i]), id) == Canon(Cell(rows[i], id)) {
      OutlineReads(ids, rows[i], id);
    }
    assert Map(Canonical(), cells) == Map(Reading(id), Map(Outline(ids), rows));
  }

  lemma InputsOutlines(ids: set<ColumnId>, input: Option<ColumnId>, a: seq<Row>, b: seq<Row>)
    requires SameOutlines(ids, a, b) && (input.Some? ==> input.value in ids)
    ensures SameCells(AggregateInputs(input, a), AggregateInputs(input, b))
  {
    if input.None? {
      OutlineCount(ids, a, b);
    } else {
      CanonicalInputs(ids, input.value, a);
      CanonicalInputs(ids, input.value, b);
      var x, y := Map(Outline(ids), a), Map(Outline(ids), b);
      Bags.MapOfBag(Reading(input.value), x, y);
      Bags.SelectOfBag(Present(), Map(Reading(input.value), x), Map(Reading(input.value), y));
    }
  }

  // ---------------------------------------------------------------------------------------
  // The groups.

  lemma {:induction false} RepresentativesApart(keys: seq<ColumnId>, rows: seq<Row>)
    ensures Bags.NoRepeats(Map(Keying(keys), Representatives(keys, rows)))
  {
    if rows != [] {
      var last, reps := rows[|rows| - 1], Representatives(keys, rows[..|rows| - 1]);
      RepresentativesApart(keys, rows[..|rows| - 1]);
      if !Represented(keys, reps, last) {
        assert Map(Keying(keys), reps + [last]) == Map(Keying(keys), reps) + [KeyOf(keys, last)];
      }
    }
  }

  lemma KeysRepresented(keys: seq<ColumnId>, rows: seq<Row>, key: seq<Value>)
    ensures key in Map(Keying(keys), Representatives(keys, rows)) <==> key in Map(Keying(keys), rows)
  {
    var reps := Representatives(keys, rows);
    if key in Map(Keying(keys), rows) {
      var i :| 0 <= i < |rows| && Map(Keying(keys), rows)[i] == key;
      RelationLaws.RepresentedExactly(keys, rows, rows[i]);
      var j :| 0 <= j < |reps| && KeyOf(keys, reps[j]) == KeyOf(keys, rows[i]);
      assert Map(Keying(keys), reps)[j] == key;
    }
    if key in Map(Keying(keys), reps) {
      var j :| 0 <= j < |reps| && Map(Keying(keys), reps)[j] == key;
      assert reps[j] in rows;
      var i :| 0 <= i < |rows| && rows[i] == reps[j];
      assert Map(Keying(keys), rows)[i] == key;
    }
  }

  /** The same groups, up to their order and the sign of zeros in their keys. */
  lemma SameGroups(ids: set<ColumnId>, keys: seq<ColumnId>, a: seq<Row>, b: seq<Row>)
    requires KeySet(keys) <= ids && SameOutlines(ids, a, b)
    ensures multiset(Map(Keying(keys), Representatives(keys, a)))
         == multiset(Map(Keying(keys), Representatives(keys, b)))
  {
    KeysOfOutlines(ids, keys, a);
    KeysOfOutlines(ids, keys, b);
    Bags.MapOfBag(Keying(keys), Map(Outline(ids), a), Map(Outline(ids), b));
    RepresentativesApart(keys, a);
    RepresentativesApart(keys, b);
    var x, y := Map(Keying(keys), Representatives(keys, a)), Map(Keying(keys), Representatives(keys, b));
    forall key: seq<Value> ensures key in x <==> key in y {
      KeysRepresented(keys, a, key);
      KeysRepresented(keys, b, key);
      assert key in Map(Keying(keys), a) <==> key in multiset(Map(Keying(keys), a));
      assert key in Map(Keying(keys), b) <==> key in multiset(Map(Keying(keys), b));
    }
    Bags.SameMembersSameBag(x, y);
  }

  // ---------------------------------------------------------------------------------------
  // The output rows.

  predicate ShownAggregate(a: AggregateSpec, ids: set<ColumnId>, sums: bool) {
    OrderInsensitive(a.kind, a.output.typ, sums) && (a.input.Some? ==> a.input.value in ids)
  }

  /** The grouping keys, and the aggregates that only depend on the bag of their input. */
  function ShownGroups(keys: seq<ColumnId>, aggs: seq<AggregateSpec>, ids: set<ColumnId>, sums: bool): set<ColumnId> {
    set id <- KeySet(keys) + Ids(AggregateFields(aggs)) |
      id in Ids(AggregateFields(aggs)) ==> ShownAggregate(aggs[IndexOf(AggregateFields(aggs), id)], ids, sums)
  }

  /** No integer SUM of any group leaves 64 bits on the way. */
  ghost predicate SumsFit(keys: seq<ColumnId>, aggs: seq<AggregateSpec>, rows: seq<Row>) {
    forall key: seq<Value> :: GroupFits(aggs, Members(keys, key, rows))
  }

  predicate GroupFits(aggs: seq<AggregateSpec>, members: seq<Row>) {
    forall a <- aggs :: !Overflows(a.kind, a.output.typ, AggregateInputs(a.input, members))
  }

  lemma AggregateCellOutline(ids: set<ColumnId>, spec: AggregateSpec, sums: bool, a: seq<Row>, b: seq<Row>)
    requires SameOutlines(ids, a, b) && ShownAggregate(spec, ids, sums)
    requires sums ==> !Overflows(spec.kind, spec.output.typ, AggregateInputs(spec.input, a))
    requires sums ==> !Overflows(spec.kind, spec.output.typ, AggregateInputs(spec.input, b))
    ensures Canon(AggregateCell(spec, a)) == Canon(AggregateCell(spec, b))
  {
    InputsOutlines(ids, spec.input, a, b);
    AggregateOfCells(spec.kind, spec.output.typ, AggregateInputs(spec.input, a), AggregateInputs(spec.input, b));
  }

  lemma KeyCellShown(keys: seq<ColumnId>, r: Row, s: Row, id: ColumnId)
    requires KeyOf(keys, r) == KeyOf(keys, s) && id in KeySet(keys)
    ensures Canon(Cell(r, id)) == Canon(Cell(s, id))
  {
    var i :| 0 <= i < |keys| && keys[i] == id;
    assert KeyOf(keys, r)[i] == KeyOf(keys, s)[i];
  }

  /** One group's output row, for two leaders of the group and two lists of its members. */
  lemma GroupRowOutline(ids: set<ColumnId>, keys: seq<ColumnId>, aggs: seq<AggregateSpec>, sums: bool,
                        r: Row, s: Row, a: seq<Row>, b: seq<Row>)
    requires KeyOf(keys, r) == KeyOf(keys, s) && SameOutlines(ids, a, b)
    requires sums ==> GroupFits(aggs, a) && GroupFits(aggs, b)
    ensures OutlineRow(ShownGroups(keys, aggs, ids, sums), AggregateRow(keys, aggs, r, a))
         == OutlineRow(ShownGroups(keys, aggs, ids, sums), AggregateRow(keys, aggs, s, b))
  {
    var shown, outputs := ShownGroups(keys, aggs, ids, sums), AggregateFields(aggs);
    forall id | id in shown
      ensures Canon(AggregateRow(keys, aggs, r, a)[id]) == Canon(AggregateRow(keys, aggs, s, b)[id])
    {
      if id in Ids(outputs) {
        var spec := aggs[IndexOf(outputs, id)];
        assert spec in aggs;
        AggregateCellOutline(ids, spec, sums, a, b);
      } else {
        KeyCellShown(keys, r, s, id);
      }
    }
  }

  lemma GlobalGroupOutline(ids: set<ColumnId>, aggs: seq<AggregateSpec>, sums: bool, a: seq<Row>, b: seq<Row>)
    requires SameOutlines(ids, a, b) && (sums ==> SumsFit([], aggs, a) && SumsFit([], aggs, b))
    ensures SameOutlines(ShownGroups([], aggs, ids, sums), AggregateRows([], aggs, a), AggregateRows([], aggs, b))
  {
    SelectAll(HavingKey([], []), a);
    SelectAll(HavingKey([], []), b);
    assert Members([], [], a) == a && Members([], [], b) == b;
    GroupRowOutline(ids, [], aggs, sums, map[], map[], a, b);
    AlikePointwise(ShownGroups([], aggs, ids, sums), AggregateRows([], aggs, a), AggregateRows([], aggs, b));
  }

  /** Two leaders of one group, each summarized over its own input. */
  lemma SummaryOutline(ids: set<ColumnId>, keys: seq<ColumnId>, aggs: seq<AggregateSpec>, sums: bool,
                       a: seq<Row>, b: seq<Row>, r: Row, s: Row)
    requires KeySet(keys) <= ids && SameOutlines(ids, a, b) && KeyOf(keys, r) == KeyOf(keys, s)
    requires sums ==> SumsFit(keys, aggs, a) && SumsFit(keys, aggs, b)
    ensures OutlineRow(ShownGroups(keys, aggs, ids, sums), Summarizing(keys, aggs, a)(r))
         == OutlineRow(ShownGroups(keys, aggs, ids, sums), Summarizing(keys, aggs, b)(s))
  {
    var key := KeyOf(keys, r);
    MembersOutlines(ids, keys, key, a, b);
    GroupRowOutline(ids, keys, aggs, sums, r, s, Members(keys, key, a), Members(keys, key, b));
  }

  /** An aggregation on shown keys gives the same bag of groups, as far as order does not matter to them. */
  lemma AggregateOutlines(ids: set<ColumnId>, keys: seq<ColumnId>, aggs: seq<AggregateSpec>, sums: bool,
                          a: seq<Row>, b: seq<Row>)
    requires KeySet(keys) <= ids && SameOutlines(ids, a, b)
    requires sums ==> SumsFit(keys, aggs, a) && SumsFit(keys, aggs, b)
    ensures SameOutlines(ShownGroups(keys, aggs, ids, sums), AggregateRows(keys, aggs, a), AggregateRows(keys, aggs, b))
  {
    if keys == [] {
      GlobalGroupOutline(ids, aggs, sums, a, b);
      return;
    }
    SameGroups(ids, keys, a, b);
    var x, y := Representatives(keys, a), Representatives(keys, b);
    var y' := Bags.Align(Keying(keys), x, y);
    var shown, f, g := ShownGroups(keys, aggs, ids, sums), Summarizing(keys, aggs, a), Summarizing(keys, aggs, b);
    hide *;
    AlignedSummaries(ids, keys, aggs, sums, a, b, x, y');
    Bags.MapOfBag(g, y', y);
    ThroughAlike(shown, Map(f, x), Map(g, y'), Map(g, y));
    KeyedRows(keys, aggs, a);
    KeyedRows(keys, aggs, b);
  }

  lemma KeyedRows(keys: seq<ColumnId>, aggs: seq<AggregateSpec>, rows: seq<Row>)
    requires keys != []
    ensures AggregateRows(keys, aggs, rows) == Map(Summarizing(keys, aggs, rows), Representatives(keys, rows))
  {
  }

  lemma AlignedSummaries(ids: set<ColumnId>, keys: seq<ColumnId>, aggs: seq<AggregateSpec>, sums: bool,
                         a: seq<Row>, b: seq<Row>, x: seq<Row>, y: seq<Row>)
    requires KeySet(keys) <= ids && SameOutlines(ids, a, b) && Map(Keying(keys), y) == Map(Keying(keys), x)
    requires sums ==> SumsFit(keys, aggs, a) && SumsFit(keys, aggs, b)
    ensures Alike(ShownGroups(keys, aggs, ids, sums),
                  Map(Summarizing(keys, aggs, a), x), Map(Summarizing(keys, aggs, b), y))
  {
    hide SumsFit;
    hide ShownGroups;
    assert |Map(Keying(keys), x)| == |x| && |Map(Keying(keys), y)| == |y|;
    forall i | 0 <= i < |x|
      ensures OutlineRow(ShownGroups(keys, aggs, ids, sums), Map(Summarizing(keys, aggs, a), x)[i])
           == OutlineRow(ShownGroups(keys, aggs, ids, sums), Map(Summarizing(keys, aggs, b), y)[i])
    {
      assert Map(Keying(keys), x)[i] == Map(Keying(keys), y)[i];
      SummaryOutline(ids, keys, aggs, sums, a, b, x[i], y[i]);
    }
    AlikePointwise(ShownGroups(keys, aggs, ids, sums),
                   Map(Summarizing(keys, aggs, a), x), Map(Summarizing(keys, aggs, b), y));
  }
}
