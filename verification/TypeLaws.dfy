/**
 Which expressions and plans are accepted: an operator takes the types on whose values it has an
 answer, and a plan is refused exactly at the places where the engine throws.
 */
module TypeLaws {
  import opened Values
  import opened Expressions
  import opened Aggregates
  import opened Relations
  import opened Plans

  // ---------------------------------------------------------------------------------------
  // Operators.

  /** On some values of the type that are not NULL, the operation has an answer that is not NULL. */
  ghost predicate Answers(op: BinaryOp, t: Type) {
    exists v: Value, w: Value :: Answered(op, t, v, w)
  }

  predicate Answered(op: BinaryOp, t: Type, v: Value, w: Value) {
    !v.Null? && !w.Null? && HasType(v, t) && HasType(w, t) && !EvalBinary(op, v, w).Null?
  }

  /** The engine types an operation exactly where it can answer, and only on operands of one type. */
  lemma BinaryAccepts(op: BinaryOp, t: Type, u: Type)
    ensures BinaryType(op, t, t).Some? <==> Answers(op, t)
    ensures t != u ==> BinaryType(op, t, u).None?
  {
    assert Answered(op, BooleanType, TRUE, TRUE) <==> !op.Arith?;
    assert Answered(op, Int64Type, Int(1), Int(1)) <==> op.Arith? || op.Compare? by {
      assert InInt64(1);
    }
    assert Answered(op, DoubleType, Dbl(Finite(1.0)), Dbl(Finite(1.0))) <==> op.Arith? || op.Compare?;
    assert Answered(op, StringType, Str([]), Str([])) <==> op.Compare?;
    match t {
      case BooleanType => assert op.Arith? ==> !Answers(op, t);
      case Int64Type => assert op.And? || op.Or? ==> !Answers(op, t);
      case DoubleType => assert op.And? || op.Or? ==> !Answers(op, t);
      case StringType => assert !op.Compare? ==> !Answers(op, t);
    }
  }

  lemma UnaryAccepts(op: UnaryOp, t: Type)
    ensures UnaryType(op, t).Some?
       <==> exists v: Value :: !v.Null? && HasType(v, t) && !EvalUnary(op, v).Null?
  {
    assert InInt64(1);
    var v :=
      match t
      case BooleanType => TRUE
      case Int64Type => Int(1)
      case DoubleType => Dbl(NaN)
      case StringType => Str([]);
    assert !v.Null? && HasType(v, t);
    assert UnaryType(op, t).Some? ==> !EvalUnary(op, v).Null?;
  }

  // ---------------------------------------------------------------------------------------
  // Expressions.

  predicate HasField(s: Schema, id: ColumnId, t: Type) {
    exists i :: 0 <= i < |s| && s[i].id == id && s[i].typ == t
  }

  predicate HasColumn(s: Schema, id: ColumnId) {
    exists i :: 0 <= i < |s| && s[i].id == id
  }

  /** The expression has this type over the columns of the schema. */
  ghost predicate Fits(e: Expr, s: Schema, t: Type) {
    match e
    case Column(id) => HasField(s, id, t)
    case Literal(v, u) => t == u && HasType(v, u)
    case Unary(op, x) =>
      t == BooleanType && if op.IsNull? then exists u :: Fits(x, s, u) else Fits(x, s, BooleanType)
    case Binary(op, x, y) =>
      match op
      case Arith(_) => (t == Int64Type || t == DoubleType) && Fits(x, s, t) && Fits(y, s, t)
      case Compare(_) => t == BooleanType && exists u :: Fits(x, s, u) && Fits(y, s, u)
      case And => t == BooleanType && Fits(x, s, t) && Fits(y, s, t)
      case Or => t == BooleanType && Fits(x, s, t) && Fits(y, s, t)
  }

  lemma FieldIsType(s: Schema, id: ColumnId, t: Type)
    requires UniqueIds(s)
    ensures id in Types(s) && Types(s)[id] == t <==> HasField(s, id, t)
    ensures id in Ids(s) <==> HasColumn(s, id)
  {
    if id in Ids(s) {
      assert s[IndexOf(s, id)].id == id;
    }
    if HasColumn(s, id) {
      var i :| 0 <= i < |s| && s[i].id == id;
      FieldAt(s, i);
    }
    if HasField(s, id, t) {
      var i :| 0 <= i < |s| && s[i].id == id && s[i].typ == t;
      FieldAt(s, i);
    }
  }

  /** `expression_type` yields a type exactly when the expression fits it. */
  lemma {:induction false} FitsExactly(e: Expr, s: Schema, t: Type)
    requires UniqueIds(s)
    ensures ExpressionType(e, Types(s)) == Some(t) <==> Fits(e, s, t)
  {
    match e
    case Column(id) => FieldIsType(s, id, t);
    case Literal(_, _) =>
    case Unary(op, x) =>
      forall u: Type ensures ExpressionType(x, Types(s)) == Some(u) <==> Fits(x, s, u) {
        FitsExactly(x, s, u);
      }
    case Binary(op, x, y) =>
      forall u: Type ensures ExpressionType(x, Types(s)) == Some(u) <==> Fits(x, s, u) {
        FitsExactly(x, s, u);
      }
      forall u: Type ensures ExpressionType(y, Types(s)) == Some(u) <==> Fits(y, s, u) {
        FitsExactly(y, s, u);
      }
  }

  // ---------------------------------------------------------------------------------------
  // Where the engine throws, node by node.

  ghost predicate Repeats(ids: seq<ColumnId>) {
    exists i, j :: 0 <= i < j < |ids| && ids[i] == ids[j]
  }

  ghost predicate FieldsRepeat(s: Schema) {
    exists i, j :: 0 <= i < j < |s| && s[i].id == s[j].id
  }

  ghost predicate Unknown(s: Schema, ids: seq<ColumnId>) {
    exists i :: 0 <= i < |ids| && !HasColumn(s, ids[i])
  }

  ghost predicate ProjectionThrows(s: Schema, xs: seq<NamedExpr>) {
    || (exists i :: 0 <= i < |xs| && !Fits(xs[i].expr, s, xs[i].field.typ))
    || FieldsRepeat(OutputFields(xs))
  }

  /** COUNT yields an integer; the others need a numeric input of the type they yield. */
  ghost predicate SpecThrows(s: Schema, a: AggregateSpec) {
    || (a.input.Some? && !HasColumn(s, a.input.value))
    || if a.kind.Count? then a.output.typ != Int64Type
       else || a.input.None?
            || !HasField(s, a.input.value, a.output.typ)
            || (a.output.typ != Int64Type && a.output.typ != DoubleType)
  }

  ghost predicate AggregateThrows(s: Schema, keys: seq<ColumnId>, aggs: seq<AggregateSpec>) {
    || Unknown(s, keys) || Repeats(keys)
    || (exists i :: 0 <= i < |aggs| && SpecThrows(s, aggs[i]))
    || FieldsRepeat(AggregateFields(aggs))
    || (exists i, j :: 0 <= i < |keys| && 0 <= j < |aggs| && keys[i] == aggs[j].output.id)
  }

  /** Both columns exist, with one type. */
  ghost predicate SameFieldType(ls: Schema, rs: Schema, l: ColumnId, r: ColumnId) {
    exists t :: HasField(ls, l, t) && HasField(rs, r, t)
  }

  ghost predicate JoinThrows(ls: Schema, rs: Schema, lk: seq<ColumnId>, rk: seq<ColumnId>) {
    || lk == [] || |lk| != |rk|
    || (exists i :: 0 <= i < |lk| && !SameFieldType(ls, rs, lk[i], rk[i]))
    || (exists i, j :: 0 <= i < |ls| && 0 <= j < |rs| && ls[i].id == rs[j].id)
  }

  ghost predicate SortThrows(s: Schema, keys: seq<SortKey>) {
    exists i :: 0 <= i < |keys| && !HasColumn(s, keys[i].column)
  }

  /** The plan is one on which the engine throws, at some node. */
  ghost predicate Refused(p: Plan) {
    match p
    case Scan(source, columns) => Unknown(source.schema, columns) || Repeats(columns)
    case Filter(l, e) => Refused(l) || (WellFormed(l) && !Fits(e, SchemaOf(l), BooleanType))
    case Projection(l, xs) => Refused(l) || (WellFormed(l) && ProjectionThrows(SchemaOf(l), xs))
    case Aggregate(l, keys, aggs) => Refused(l) || (WellFormed(l) && AggregateThrows(SchemaOf(l), keys, aggs))
    case Join(l, r, lk, rk) =>
      Refused(l) || Refused(r) || (WellFormed(l) && WellFormed(r) && JoinThrows(SchemaOf(l), SchemaOf(r), lk, rk))
    case Sort(l, keys) => Refused(l) || (WellFormed(l) && SortThrows(SchemaOf(l), keys))
    case Limit(l, _) => Refused(l)
  }

  lemma KnownKeys(s: Schema, ids: seq<ColumnId>)
    requires UniqueIds(s)
    ensures KeySet(ids) <= Ids(s) <==> !Unknown(s, ids)
  {
    forall id: ColumnId ensures id in Ids(s) <==> HasColumn(s, id) {
      FieldIsType(s, id, BooleanType);
    }
    if KeySet(ids) <= Ids(s) {
      forall i | 0 <= i < |ids| ensures HasColumn(s, ids[i]) {
        assert ids[i] in KeySet(ids);
      }
    }
  }

  lemma SelectThrows(s: Schema, ids: seq<ColumnId>)
    requires UniqueIds(s)
    ensures SelectSchema(s, ids).None? <==> Unknown(s, ids) || Repeats(ids)
    ensures SelectSchema(s, ids).Some? ==>
      |SelectSchema(s, ids).value| == |ids| && forall i :: 0 <= i < |ids| ==> SelectSchema(s, ids).value[i].id == ids[i]
  {
    KnownKeys(s, ids);
    if KeySet(ids) <= Ids(s) {
      var out := SelectFields(s, ids);
      forall i | 0 <= i < |ids| ensures out[i].id == ids[i] {
        assert ids[i] in KeySet(ids);
      }
    }
  }

  lemma ProjectThrows(s: Schema, xs: seq<NamedExpr>)
    requires UniqueIds(s)
    ensures ProjectionSchema(xs, s).None? <==> ProjectionThrows(s, xs)
  {
    forall i | 0 <= i < |xs|
      ensures ExpressionType(xs[i].expr, Types(s)) == Some(xs[i].field.typ) <==> Fits(xs[i].expr, s, xs[i].field.typ)
    {
      FitsExactly(xs[i].expr, s, xs[i].field.typ);
    }
    hide Fits;
    hide ExpressionType;
    if ExpressionsTyped(xs, Types(s)) {
      forall i | 0 <= i < |xs| ensures Fits(xs[i].expr, s, xs[i].field.typ) {
        assert xs[i] in xs;
      }
    }
  }

  lemma SpecOk(s: Schema, a: AggregateSpec)
    requires UniqueIds(s)
    ensures AggregateOk(a, Types(s)) <==> !SpecThrows(s, a)
  {
    if a.input.Some? {
      FieldIsType(s, a.input.value, a.output.typ);
    }
  }

  lemma GroupThrows(s: Schema, keys: seq<ColumnId>, aggs: seq<AggregateSpec>)
    requires UniqueIds(s)
    ensures AggregateSchema(s, keys, aggs).None? <==> AggregateThrows(s, keys, aggs)
  {
    SelectThrows(s, keys);
    forall i | 0 <= i < |aggs| ensures AggregateOk(aggs[i], Types(s)) <==> !SpecThrows(s, aggs[i]) {
      SpecOk(s, aggs[i]);
    }
    hide SelectSchema;
    hide AggregateOk;
    hide SpecThrows;
    hide Types;
    var ks := SelectSchema(s, keys);
    assert (forall a <- aggs :: AggregateOk(a, Types(s)))
      <==> forall i :: 0 <= i < |aggs| ==> AggregateOk(aggs[i], Types(s));
    if ks.Some? {
      DistinctParts(ks.value, AggregateFields(aggs));
    }
  }

  lemma DistinctParts(a: Schema, b: Schema)
    ensures UniqueIds(a + b) <==>
      && UniqueIds(a) && UniqueIds(b) && forall i, j :: 0 <= i < |a| && 0 <= j < |b| ==> a[i].id != b[j].id
  {
    var s := a + b;
    if UniqueIds(s) {
      forall i, j | 0 <= i < j < |b| ensures b[i].id != b[j].id {
        assert s[|a| + i] == b[i] && s[|a| + j] == b[j];
      }
      forall i, j | 0 <= i < j < |a| ensures a[i].id != a[j].id {
        assert s[i] == a[i] && s[j] == a[j];
      }
      forall i, j | 0 <= i < |a| && 0 <= j < |b| ensures a[i].id != b[j].id {
        assert s[i] == a[i] && s[|a| + j] == b[j];
      }
    }
  }

  lemma KeyTypesAgree(ls: Schema, rs: Schema, l: ColumnId, r: ColumnId)
    requires UniqueIds(ls) && UniqueIds(rs)
    ensures l in Types(ls) && r in Types(rs) && Types(ls)[l] == Types(rs)[r]
       <==> SameFieldType(ls, rs, l, r)
  {
    forall t: Type
      ensures l in Types(ls) && Types(ls)[l] == t <==> HasField(ls, l, t)
      ensures r in Types(rs) && Types(rs)[r] == t <==> HasField(rs, r, t)
    {
      FieldIsType(ls, l, t);
      FieldIsType(rs, r, t);
    }
    if l in Types(ls) && r in Types(rs) && Types(ls)[l] == Types(rs)[r] {
      var t := Types(ls)[l];
      assert HasField(ls, l, t) && HasField(rs, r, t);
    }
    if t :| HasField(ls, l, t) && HasField(rs, r, t) {
      assert Types(ls)[l] == t && Types(rs)[r] == t;
    }
  }

  lemma JoinFails(ls: Schema, rs: Schema, lk: seq<ColumnId>, rk: seq<ColumnId>)
    requires UniqueIds(ls) && UniqueIds(rs)
    ensures JoinKeysOk(lk, rk, Types(ls), Types(rs)) && UniqueIds(ls + rs) <==> !JoinThrows(ls, rs, lk, rk)
  {
    forall i | 0 <= i < |lk| && |lk| == |rk|
      ensures lk[i] in Types(ls) && rk[i] in Types(rs) && Types(ls)[lk[i]] == Types(rs)[rk[i]]
         <==> SameFieldType(ls, rs, lk[i], rk[i])
    {
      KeyTypesAgree(ls, rs, lk[i], rk[i]);
    }
    DistinctParts(ls, rs);
    hide Types;
    hide SameFieldType;
  }

  lemma SortKnown(s: Schema, keys: seq<SortKey>)
    requires UniqueIds(s)
    ensures (forall k <- keys :: k.column in Ids(s)) <==> !SortThrows(s, keys)
  {
    forall id: ColumnId ensures id in Ids(s) <==> HasColumn(s, id) {
      FieldIsType(s, id, BooleanType);
    }
    hide Ids;
    hide HasColumn;
    if forall k <- keys :: k.column in Ids(s) {
      forall i | 0 <= i < |keys| ensures HasColumn(s, keys[i].column) {
        assert keys[i] in keys;
      }
    }
  }

  /** A plan has an output schema exactly when the engine throws at none of its nodes. */
  lemma {:induction false} RefusedExactly(p: Plan)
    ensures OutputSchema(p).None? <==> Refused(p)
  {
    hide ExpressionType;
    hide Types;
    hide SelectSchema;
    hide ProjectionSchema;
    hide AggregateSchema;
    hide JoinKeysOk;
    hide ProjectionThrows;
    hide AggregateThrows;
    hide JoinThrows;
    hide SortThrows;
    hide Ids;
    hide UniqueIds;
    match p
    case Scan(source, columns) => SelectThrows(source.schema, columns);
    case Filter(l, e) =>
      RefusedExactly(l);
      if WellFormed(l) {
        OutputUnique(l);
        FitsExactly(e, SchemaOf(l), BooleanType);
      }
    case Projection(l, xs) =>
      RefusedExactly(l);
      if WellFormed(l) {
        OutputUnique(l);
        ProjectThrows(SchemaOf(l), xs);
      }
    case Aggregate(l, keys, aggs) =>
      RefusedExactly(l);
      if WellFormed(l) {
        OutputUnique(l);
        GroupThrows(SchemaOf(l), keys, aggs);
      }
    case Join(l, r, lk, rk) =>
      RefusedExactly(l);
      RefusedExactly(r);
      if WellFormed(l) && WellFormed(r) {
        OutputUnique(l);
        OutputUnique(r);
        JoinFails(SchemaOf(l), SchemaOf(r), lk, rk);
      }
    case Sort(l, keys) =>
      RefusedExactly(l);
      if WellFormed(l) {
        OutputUnique(l);
        SortKnown(SchemaOf(l), keys);
      }
    case Limit(l, _) => RefusedExactly(l);
  }
}
