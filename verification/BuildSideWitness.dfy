/** A concrete plan whose result depends on the build side of its join. */
module BuildSideWitness {
  import opened Values
  import opened Expressions
  import opened Sequences
  import opened Relations
  import opened Plans
  import opened Batches
  import opened PhysicalPlans
  import opened OperatorMeaning
  import opened JoinMeaning
  import opened LoweringProof
  import opened BuildSides

  /** One dense batch of two rows: a column of ones, and a column that numbers the rows. */
  function TwoRows(): Batch {
    Batch([Vector(Int64Type, [Int(1), Int(1)], [true, true]), Vector(Int64Type, [Int(1), Int(2)], [true, true])],
          Dense(2), 2)
  }

  function TwoFields(key: ColumnId): Schema {
    [Field(key, Int64Type, "key"), Field(key + 1, Int64Type, "number")]
  }

  lemma TwoRowsShow()
    ensures TwoRows().Valid([Int64Type, Int64Type]) && StreamRows([TwoRows()]) == [[Int(1), Int(1)], [Int(1), Int(2)]]
  {
    var b := TwoRows();
    forall c | 0 <= c < 2 ensures ColumnOk(b.columns, [Int64Type, Int64Type], 2, c) {
    }
    NoRows();
    StreamRowsFirst(b, []);
    assert [b] + [] == [b] && b.Active() + [] == b.Active();
    assert TupleAt(b.columns, 0) == [Int(1), Int(1)] && TupleAt(b.columns, 1) == [Int(1), Int(2)];
  }

  lemma TwoFieldsFit(key: ColumnId)
    ensures SchemaTypes(TwoFields(key)) == [Int64Type, Int64Type] && UniqueIds(TwoFields(key))
    ensures Ids(TwoFields(key)) == {key, key + 1} && KeySet([key, key + 1]) == {key, key + 1}
    ensures IndexOf(TwoFields(key), key) == 0 && IndexOf(TwoFields(key), key + 1) == 1
  {
    var s := TwoFields(key);
    assert s[0] in s && s[1] in s;
    FieldAt(s, 0);
    FieldAt(s, 1);
    assert [key, key + 1][0] in [key, key + 1] && [key, key + 1][1] in [key, key + 1];
  }

  lemma TwoRowsSource(key: ColumnId)
    ensures ValidSource(SourceData(TwoFields(key), [TwoRows()]))
  {
    TwoRowsShow();
    TwoFieldsFit(key);
  }

  function Numbered(key: ColumnId): Source {
    TwoRowsSource(key);
    SourceData(TwoFields(key), [TwoRows()])
  }

  function NumberedRow(key: ColumnId, n: Int64): Row {
    map[key := Int(1), key + 1 := Int(n)]
  }

  lemma NamedPair(key: ColumnId, n: Int64)
    ensures ToRow(TwoFields(key), [Int(1), Int(n)]) == NumberedRow(key, n)
    ensures RestrictRow(NumberedRow(key, n), {key, key + 1}) == NumberedRow(key, n)
  {
    TwoFieldsFit(key);
  }

  function NumberedScan(key: ColumnId): Plan {
    Scan(Numbered(key), [key, key + 1])
  }

  lemma ScanRows(key: ColumnId)
    ensures Rows(NumberedScan(key)) == [NumberedRow(key, 1), NumberedRow(key, 2)]
  {
    TwoRowsShow();
    TwoFieldsFit(key);
    NamedPair(key, 1);
    NamedPair(key, 2);
    assert SourceRows(Numbered(key)) == [NumberedRow(key, 1), NumberedRow(key, 2)];
  }

  lemma NumberedSchema(key: ColumnId)
    ensures OutputSchema(NumberedScan(key)) == Some(TwoFields(key))
  {
    TwoFieldsFit(key);
    assert SelectFields(TwoFields(key), [key, key + 1]) == TwoFields(key);
  }

  /** The first two rows of a join of two tables of two rows each, all of which match. */
  function TwoOfFour(): Plan {
    Limit(Join(NumberedScan(0), NumberedScan(2), [0], [2]), 2)
  }

  lemma JoinFits(l: Plan, r: Plan, lk: seq<ColumnId>, rk: seq<ColumnId>, n: nat, ls: Schema, rs: Schema)
    requires OutputSchema(l) == Some(ls) && OutputSchema(r) == Some(rs)
    requires JoinKeysOk(lk, rk, Types(ls), Types(rs)) && UniqueIds(ls + rs)
    ensures WellFormed(Limit(Join(l, r, lk, rk), n))
  {
  }

  lemma KeysFit()
    ensures JoinKeysOk([0], [2], Types(TwoFields(0)), Types(TwoFields(2)))
    ensures UniqueIds(TwoFields(0) + TwoFields(2))
  {
    TwoFieldsFit(0);
    TwoFieldsFit(2);
  }

  lemma TwoOfFourIsWellFormed()
    ensures WellFormed(TwoOfFour())
  {
    NumberedSchema(0);
    NumberedSchema(2);
    KeysFit();
    hide NumberedScan;
    hide TwoFields;
    JoinFits(NumberedScan(0), NumberedScan(2), [0], [2], 2, TwoFields(0), TwoFields(2));
  }

  function BuildLeft(): Smaller {
    (l: Plan, r: Plan) => false
  }

  /** What a limit over a join that builds its left side carries, and what it denotes. */
  lemma LimitedJoin(l: Plan, r: Plan, lk: seq<ColumnId>, rk: seq<ColumnId>, n: nat)
    requires l.Scan? && r.Scan?
    ensures Carried(Lower(BuildLeft(), Limit(Join(l, r, lk, rk), n)))
         == Take(RightMajorJoin(lk, rk, Rows(l), Rows(r)), n)
    ensures Rows(Limit(Join(l, r, lk, rk), n)) == Take(JoinRows(lk, rk, Rows(l), Rows(r)), n)
  {
    hide RightMajorJoin;
    hide JoinRows;
    hide RestrictRows;
    hide SourceRows;
    var pl, pr := Lower(BuildLeft(), l), Lower(BuildLeft(), r);
    assert Carried(pl) == Rows(l) && Carried(pr) == Rows(r);
    assert Lower(BuildLeft(), Join(l, r, lk, rk)) == HashJoining(pl, pr, lk, rk, false);
    assert Carried(HashJoining(pl, pr, lk, rk, false)) == RightMajorJoin(lk, rk, Rows(l), Rows(r));
  }

  lemma PairedNumbers(m: Int64, n: Int64)
    ensures Matching([0], [2], NumberedRow(0, m), NumberedRow(2, n))
    ensures (NumberedRow(0, m) + NumberedRow(2, n))[1] == Int(m)
  {
  }

  /** With its left side built, the plan gives another bag of rows than it denotes. */
  lemma BuildSideChangesRows()
    ensures var p := TwoOfFour();
      && WellFormed(p) && Runnable(Lower(BuildLeft(), p))
      && multiset(Named(SchemaOf(p), Produce(Lower(BuildLeft(), p)))) != multiset(Rows(p))
  {
    assert InInt64(1) && InInt64(2);
    hide *;
    TwoOfFourIsWellFormed();
    LowerSound(BuildLeft(), TwoOfFour());
    RealizedRows(BuildLeft(), TwoOfFour());
    TwoOfFourRows();
    ScanRows(0);
    ScanRows(2);
    PairedNumbers(1, 1);
    PairedNumbers(1, 2);
    PairedNumbers(2, 1);
    PairedNumbers(2, 2);
    OrdersDiffer([0], [2], NumberedRow(0, 1), NumberedRow(0, 2), NumberedRow(2, 1), NumberedRow(2, 2));
  }

  lemma TwoOfFourRows()
    ensures var left, right := Rows(NumberedScan(0)), Rows(NumberedScan(2));
      && Carried(Lower(BuildLeft(), TwoOfFour())) == Take(RightMajorJoin([0], [2], left, right), 2)
      && Rows(TwoOfFour()) == Take(JoinRows([0], [2], left, right), 2)
  {
    LimitedJoin(NumberedScan(0), NumberedScan(2), [0], [2], 2);
  }

  lemma RealizedRows(rightSmaller: Smaller, p: Plan)
    requires WellFormed(p) && Realizes(Lower(rightSmaller, p), p)
    ensures Runnable(Lower(rightSmaller, p))
    ensures Named(SchemaOf(p), Produce(Lower(rightSmaller, p))) == Carried(Lower(rightSmaller, p))
  {
  }
}
