/** The star query of the workloads, which uses every kind of plan, and that it is accepted. */
module StarQuery {
  import opened Values
  import opened Expressions
  import opened Aggregates
  import opened Relations
  import opened Plans
  import opened TypeLaws

  const CUSTOMER: Schema := [Field(21, Int64Type, "c_custkey"), Field(22, StringType, "c_mktsegment")]

  const ORDERS: Schema :=
    [Field(11, Int64Type, "o_orderkey"), Field(12, Int64Type, "o_custkey"), Field(13, Int64Type, "o_orderday")]

  const LINEITEM: Schema :=
    [Field(1, Int64Type, "l_orderkey"), Field(2, Int64Type, "l_quantity"), Field(3, DoubleType, "l_extendedprice"),
     Field(4, DoubleType, "l_discount"), Field(5, Int64Type, "l_shipday"), Field(6, StringType, "l_returnflag"),
     Field(7, StringType, "l_linestatus")]

  /** The string BUILDING. */
  const BUILDING: Value := Str([66, 85, 73, 76, 68, 73, 78, 71])

  function Day(op: CompareOp, column: ColumnId): Expr {
    Binary(Compare(op), Column(column), Literal(Int(9150), Int64Type))
  }

  function Customers(customer: Source): Plan {
    Filter(Scan(customer, [21, 22]), Binary(Compare(Equal), Column(22), Literal(BUILDING, StringType)))
  }

  function Orders(orders: Source): Plan {
    Filter(Scan(orders, [11, 12, 13]), Day(Less, 13))
  }

  function Lineitems(lineitem: Source): Plan {
    Filter(Scan(lineitem, [1, 2, 3, 4, 5, 6, 7]), Day(Greater, 5))
  }

  function Joined(customer: Source, orders: Source, lineitem: Source): Plan {
    Join(Join(Customers(customer), Orders(orders), [21], [12]), Lineitems(lineitem), [11], [1])
  }

  /** The price after the discount. */
  function Revenue(): Expr {
    Binary(Arith(Multiply), Column(3),
           Binary(Arith(Subtract), Literal(Dbl(Finite(1.0)), DoubleType), Column(4)))
  }

  const OUTPUTS: seq<NamedExpr> :=
    [NamedExpr(Field(11, Int64Type, "o_orderkey"), Column(11)),
     NamedExpr(Field(13, Int64Type, "o_orderday"), Column(13)),
     NamedExpr(Field(31, DoubleType, "discounted_price"), Revenue())]

  const TOTALS: seq<AggregateSpec> := [AggregateSpec(Field(41, DoubleType, "revenue"), Sum, Some(31))]

  const ORDER: seq<SortKey> := [SortKey(41, false, false), SortKey(13, true, false), SortKey(11, true, false)]

  function Q3(customer: Source, orders: Source, lineitem: Source): Plan {
    Limit(Sort(Aggregate(Projection(Joined(customer, orders, lineitem), OUTPUTS), [11, 13], TOTALS), ORDER), 10)
  }

  // ---------------------------------------------------------------------------------------

  lemma ScanAccepted(source: Source, columns: seq<ColumnId>)
    requires |columns| == |source.schema| && forall i :: 0 <= i < |columns| ==> columns[i] == source.schema[i].id
    ensures OutputSchema(Scan(source, columns)) == Some(source.schema)
  {
    var s := source.schema;
    forall i | 0 <= i < |columns| ensures columns[i] in Ids(s) && Lookup(s, columns[i]) == s[i] {
      FieldAt(s, i);
    }
    forall id | id in KeySet(columns) ensures id in Ids(s) {
      var i :| 0 <= i < |columns| && columns[i] == id;
    }
    assert SelectFields(s, columns) == s;
  }

  lemma FilterAccepted(l: Plan, e: Expr, s: Schema)
    requires OutputSchema(l) == Some(s) && Fits(e, s, BooleanType)
    ensures OutputSchema(Filter(l, e)) == Some(s)
  {
    OutputUnique(l);
    FitsExactly(e, s, BooleanType);
  }

  lemma JoinAccepted(l: Plan, r: Plan, lk: seq<ColumnId>, rk: seq<ColumnId>, ls: Schema, rs: Schema)
    requires OutputSchema(l) == Some(ls) && OutputSchema(r) == Some(rs) && !JoinThrows(ls, rs, lk, rk)
    ensures OutputSchema(Join(l, r, lk, rk)) == Some(ls + rs)
  {
    OutputUnique(l);
    OutputUnique(r);
    JoinFails(ls, rs, lk, rk);
  }

  lemma ProjectionAccepted(l: Plan, xs: seq<NamedExpr>, s: Schema)
    requires OutputSchema(l) == Some(s) && !ProjectionThrows(s, xs)
    ensures OutputSchema(Projection(l, xs)) == Some(OutputFields(xs))
  {
    OutputUnique(l);
    ProjectThrows(s, xs);
  }

  lemma AggregateAccepted(l: Plan, keys: seq<ColumnId>, aggs: seq<AggregateSpec>, s: Schema)
    requires OutputSchema(l) == Some(s) && !AggregateThrows(s, keys, aggs)
    ensures KeySet(keys) <= Ids(s)
    ensures OutputSchema(Aggregate(l, keys, aggs)) == Some(SelectFields(s, keys) + AggregateFields(aggs))
  {
    OutputUnique(l);
    GroupThrows(s, keys, aggs);
    KnownKeys(s, keys);
  }

  lemma SortAccepted(l: Plan, keys: seq<SortKey>, s: Schema)
    requires OutputSchema(l) == Some(s) && !SortThrows(s, keys)
    ensures OutputSchema(Sort(l, keys)) == Some(s)
  {
    OutputUnique(l);
    SortKnown(s, keys);
  }

  // ---------------------------------------------------------------------------------------

  ghost predicate Tables(customer: Source, orders: Source, lineitem: Source) {
    customer.schema == CUSTOMER && orders.schema == ORDERS && lineitem.schema == LINEITEM
  }

  lemma CustomersAccepted(customer: Source)
    requires customer.schema == CUSTOMER
    ensures OutputSchema(Customers(customer)) == Some(CUSTOMER)
  {
    ScanAccepted(customer, [21, 22]);
    var e := Binary(Compare(Equal), Column(22), Literal(BUILDING, StringType));
    assert CUSTOMER[1].id == 22 && HasField(CUSTOMER, 22, StringType);
    assert Fits(e.left, CUSTOMER, StringType) && Fits(e.right, CUSTOMER, StringType);
    FilterAccepted(Scan(customer, [21, 22]), e, CUSTOMER);
  }

  lemma DayFits(op: CompareOp, column: ColumnId, s: Schema, k: nat)
    requires k < |s| && s[k].id == column && s[k].typ == Int64Type
    ensures Fits(Day(op, column), s, BooleanType)
  {
    assert HasField(s, column, Int64Type);
    assert Fits(Day(op, column).left, s, Int64Type) && Fits(Day(op, column).right, s, Int64Type);
  }

  lemma OrdersAccepted(orders: Source)
    requires orders.schema == ORDERS
    ensures OutputSchema(Orders(orders)) == Some(ORDERS)
  {
    ScanAccepted(orders, [11, 12, 13]);
    DayFits(Less, 13, ORDERS, 2);
    FilterAccepted(Scan(orders, [11, 12, 13]), Day(Less, 13), ORDERS);
  }

  lemma LineitemsAccepted(lineitem: Source)
    requires lineitem.schema == LINEITEM
    ensures OutputSchema(Lineitems(lineitem)) == Some(LINEITEM)
  {
    ScanAccepted(lineitem, [1, 2, 3, 4, 5, 6, 7]);
    DayFits(Greater, 5, LINEITEM, 4);
    FilterAccepted(Scan(lineitem, [1, 2, 3, 4, 5, 6, 7]), Day(Greater, 5), LINEITEM);
  }

  lemma OneKey(ls: Schema, rs: Schema, l: ColumnId, r: ColumnId, i: nat, j: nat)
    requires i < |ls| && j < |rs| && ls[i].id == l && rs[j].id == r && ls[i].typ == rs[j].typ
    requires forall i, j :: 0 <= i < |ls| && 0 <= j < |rs| ==> ls[i].id != rs[j].id
    ensures !JoinThrows(ls, rs, [l], [r])
  {
    assert HasField(ls, l, ls[i].typ) && HasField(rs, r, ls[i].typ);
    assert SameFieldType(ls, rs, [l][0], [r][0]);
  }

  lemma KeysJoin()
    ensures !JoinThrows(CUSTOMER, ORDERS, [21], [12]) && !JoinThrows(CUSTOMER + ORDERS, LINEITEM, [11], [1])
  {
    OneKey(CUSTOMER, ORDERS, 21, 12, 0, 1);
    OneKey(CUSTOMER + ORDERS, LINEITEM, 11, 1, 2, 0);
  }

  lemma JoinedAccepted(customer: Source, orders: Source, lineitem: Source)
    requires Tables(customer, orders, lineitem)
    ensures OutputSchema(Joined(customer, orders, lineitem)) == Some((CUSTOMER + ORDERS) + LINEITEM)
  {
    CustomersAccepted(customer);
    OrdersAccepted(orders);
    LineitemsAccepted(lineitem);
    KeysJoin();
    var c, o, l := Customers(customer), Orders(orders), Lineitems(lineitem);
    assert Joined(customer, orders, lineitem) == Join(Join(c, o, [21], [12]), l, [11], [1]);
    hide *;
    JoinAccepted(c, o, [21], [12], CUSTOMER, ORDERS);
    JoinAccepted(Join(c, o, [21], [12]), l, [11], [1], CUSTOMER + ORDERS, LINEITEM);
  }

  // ---------------------------------------------------------------------------------------

  lemma OutputsFit(s: Schema)
    requires HasField(s, 11, Int64Type) && HasField(s, 13, Int64Type)
    requires HasField(s, 3, DoubleType) && HasField(s, 4, DoubleType)
    ensures !ProjectionThrows(s, OUTPUTS)
  {
    hide HasField;
    var one := Literal(Dbl(Finite(1.0)), DoubleType);
    assert Fits(one, s, DoubleType) && Fits(Column(4), s, DoubleType) && Fits(Column(3), s, DoubleType);
    assert Fits(Binary(Arith(Subtract), one, Column(4)), s, DoubleType);
    assert Fits(Revenue(), s, DoubleType);
  }

  lemma JoinedFields()
    ensures var s := (CUSTOMER + ORDERS) + LINEITEM;
      && HasField(s, 11, Int64Type) && HasField(s, 13, Int64Type)
      && HasField(s, 3, DoubleType) && HasField(s, 4, DoubleType)
  {
    var s := (CUSTOMER + ORDERS) + LINEITEM;
    assert s[2].id == 11 && s[4].id == 13 && s[7].id == 3 && s[8].id == 4;
  }

  const GROUPED: Schema :=
    [Field(11, Int64Type, "o_orderkey"), Field(13, Int64Type, "o_orderday"), Field(41, DoubleType, "revenue")]

  lemma TotalsFit()
    ensures !AggregateThrows(OutputFields(OUTPUTS), [11, 13], TOTALS)
    ensures KeySet([11, 13]) <= Ids(OutputFields(OUTPUTS))
    ensures SelectFields(OutputFields(OUTPUTS), [11, 13]) + AggregateFields(TOTALS) == GROUPED
  {
    var out := OutputFields(OUTPUTS);
    assert out == [Field(11, Int64Type, "o_orderkey"), Field(13, Int64Type, "o_orderday"),
                   Field(31, DoubleType, "discounted_price")];
    assert out[0].id == 11 && out[1].id == 13 && out[2].id == 31;
    assert HasField(out, 31, DoubleType) && HasColumn(out, 31) && HasColumn(out, 11) && HasColumn(out, 13);
    assert UniqueIds(out);
    KnownKeys(out, [11, 13]);
    FieldAt(out, 0);
    FieldAt(out, 1);
    assert SelectFields(out, [11, 13]) == [out[0], out[1]];
  }

  lemma OrderFits()
    ensures !SortThrows(GROUPED, ORDER)
  {
    assert GROUPED[0].id == 11 && GROUPED[1].id == 13 && GROUPED[2].id == 41;
    assert HasColumn(GROUPED, 41) && HasColumn(GROUPED, 13) && HasColumn(GROUPED, 11);
  }

  lemma LimitAccepted(l: Plan, n: nat)
    ensures OutputSchema(Limit(l, n)) == OutputSchema(l)
  {
  }

  /** The star query is accepted, with the columns it asks for. */
  lemma Q3Accepted(customer: Source, orders: Source, lineitem: Source)
    requires Tables(customer, orders, lineitem)
    ensures OutputSchema(Q3(customer, orders, lineitem)) == Some(GROUPED)
  {
    JoinedAccepted(customer, orders, lineitem);
    JoinedFields();
    TotalsFit();
    OrderFits();
    var joined, s := Joined(customer, orders, lineitem), (CUSTOMER + ORDERS) + LINEITEM;
    var projected := Projection(joined, OUTPUTS);
    var grouped := Aggregate(projected, [11, 13], TOTALS);
    var q3 := Q3(customer, orders, lineitem);
    assert q3 == Limit(Sort(grouped, ORDER), 10);
    hide *;
    OutputsFit(s);
    ProjectionAccepted(joined, OUTPUTS, s);
    AggregateAccepted(projected, [11, 13], TOTALS, OutputFields(OUTPUTS));
    SortAccepted(grouped, ORDER, GROUPED);
    LimitAccepted(Sort(grouped, ORDER), 10);
  }
}
