/** The streaming operators as functions on lists of positional rows. */
module OperatorLists {
  import opened Values
  import opened Expressions
  import opened Sequences
  import opened Relations
  import opened Plans
  import opened Batches
  import opened Nodes

  /** The rows on which a predicate is TRUE, not FALSE or NULL. */
  function Passing(s: Schema, e: Expr): Tuple -> bool {
    (t: Tuple) => Holds(e, ToRow(s, t))
  }

  function FilterTuples(s: Schema, e: Expr, rows: seq<Tuple>): seq<Tuple> {
    Select(Passing(s, e), rows)
  }

  /** A list passes its filter part by part. */
  lemma FilterHead(s: Schema, e: Expr, all: seq<Tuple>, now: seq<Tuple>, later: seq<Tuple>)
    requires Splits(all, now, later)
    ensures Splits(FilterTuples(s, e, all), FilterTuples(s, e, now), FilterTuples(s, e, later))
  {
    SelectAppend(Passing(s, e), now, later);
  }

  lemma FilterNothing(s: Schema, e: Expr)
    ensures FilterTuples(s, e, []) == []
  {
  }

  /** A part of which nothing passes is done with. */
  lemma NothingPassed(all: seq<Tuple>, passed: seq<Tuple>, later: seq<Tuple>)
    requires Splits(all, passed, later) && passed == []
    ensures all == later
  {
  }

  /** The rows a list of physical positions selects from a batch. */
  function Chosen(b: Batch, chosen: seq<nat>): (ts: seq<Tuple>)
    ensures |ts| == |chosen| && forall j :: 0 <= j < |ts| ==> ts[j] == TupleAt(b.columns, chosen[j])
  {
    seq(|chosen|, j requires 0 <= j < |chosen| => TupleAt(b.columns, chosen[j]))
  }

  lemma NothingChosen(s: Schema, e: Expr, b: Batch)
    ensures Chosen(b, []) == FilterTuples(s, e, b.Active()[..0])
  {
  }

  lemma ChosenShows(b: Batch, types: seq<Type>, chosen: seq<nat>)
    requires b.Valid(types) && forall i <- chosen :: i < b.physicalSize
    ensures var out := Batch(b.columns, Sparse(chosen), b.physicalSize);
      out.Valid(types) && out.Active() == Chosen(b, chosen)
  {
    var out := Batch(b.columns, Sparse(chosen), b.physicalSize);
    forall j | 0 <= j < |chosen| ensures out.selection.At(j) < b.physicalSize {
      assert chosen[j] in chosen;
    }
  }

  lemma ChosenMore(b: Batch, chosen: seq<nat>, i: nat)
    ensures Chosen(b, chosen + [i]) == Chosen(b, chosen) + [TupleAt(b.columns, i)]
  {
  }

  /** The payload of a valid predicate cell is TRUE exactly when the row passes. */
  lemma PassesWhenTrue(s: Schema, e: Expr, b: Batch, v: Vector, j: nat)
    requires Agrees(s, b, e, v) && b.Valid(SchemaTypes(s)) && j < b.selection.Size()
    ensures var i := b.selection.At(j);
      i < |v.data| && i < |v.valid|
      && (v.valid[i] && v.data[i] == TRUE <==> Holds(e, ToRow(s, TupleAt(b.columns, i))))
  {
    var i := b.selection.At(j);
    assert i < b.physicalSize;
    assert v.CellAt(i) == Eval(e, RowOf(s, b, i));
  }

  /** One more active row is chosen exactly when the predicate's vector holds TRUE for it. */
  lemma ChooseStep(s: Schema, e: Expr, b: Batch, v: Vector, j: nat, chosen: seq<nat>)
    requires Agrees(s, b, e, v) && b.Valid(SchemaTypes(s)) && j < b.selection.Size()
    requires Chosen(b, chosen) == FilterTuples(s, e, b.Active()[..j])
    ensures var i := b.selection.At(j);
      i < |v.data| && i < |v.valid|
      && Chosen(b, if v.valid[i] && v.data[i] == TRUE then chosen + [i] else chosen)
         == FilterTuples(s, e, b.Active()[..j + 1])
  {
    hide Agrees;
    hide Select;
    hide Chosen;
    hide TupleAt;
    hide ToRow;
    hide Holds;
    var i, rows := b.selection.At(j), b.Active();
    PassesWhenTrue(s, e, b, v, j);
    assert rows[..j + 1] == rows[..j] + [rows[j]];
    SelectLast(Passing(s, e), rows[..j], rows[j]);
    ChosenMore(b, chosen, i);
  }

  // ---------------------------------------------------------------------------------------

  function ProjectTuple(s: Schema, xs: seq<NamedExpr>, t: Tuple): (r: Tuple)
    ensures |r| == |xs| && forall c :: 0 <= c < |xs| ==> r[c] == Eval(xs[c].expr, ToRow(s, t))
  {
    seq(|xs|, c requires 0 <= c < |xs| => Eval(xs[c].expr, ToRow(s, t)))
  }

  function Computing(s: Schema, xs: seq<NamedExpr>): Tuple -> Tuple {
    (t: Tuple) => ProjectTuple(s, xs, t)
  }

  function ProjectTuples(s: Schema, xs: seq<NamedExpr>, rows: seq<Tuple>): seq<Tuple> {
    Map(Computing(s, xs), rows)
  }

  lemma ProjectHead(s: Schema, xs: seq<NamedExpr>, all: seq<Tuple>, now: seq<Tuple>, later: seq<Tuple>)
    requires Splits(all, now, later)
    ensures Splits(ProjectTuples(s, xs, all), ProjectTuples(s, xs, now), ProjectTuples(s, xs, later))
    ensures |ProjectTuples(s, xs, now)| == |now|
  {
    MapAppend(Computing(s, xs), now, later);
  }

  lemma ProjectNothing(s: Schema, xs: seq<NamedExpr>)
    ensures ProjectTuples(s, xs, []) == []
  {
  }

  /** An output column holds the first n active values of an expression. */
  ghost predicate Collected(s: Schema, e: Expr, b: Batch, n: nat, typ: Type, out: Vector) {
    && out.Valid() && out.typ == typ && |out.data| == n <= b.selection.Size()
    && forall j :: 0 <= j < n ==> out.CellAt(j) == Eval(e, RowOf(s, b, b.selection.At(j)))
  }

  lemma HoldNothing(s: Schema, e: Expr, b: Batch, typ: Type)
    ensures Collected(s, e, b, 0, typ, Vector(typ, [], []))
  {
  }

  lemma HoldMore(s: Schema, e: Expr, b: Batch, n: nat, typ: Type, out: Vector, v: Vector)
    requires Collected(s, e, b, n, typ, out) && Agrees(s, b, e, v) && b.Valid(SchemaTypes(s))
    requires n < b.selection.Size() && v.typ == typ
    ensures Collected(s, e, b, n + 1, typ, out.AppendFrom(v, b.selection.At(n)))
  {
    var i := b.selection.At(n);
    assert i < b.physicalSize;
    AppendedCells(out, n, v, b.physicalSize, i);
  }

  /** Columns that each hold their expression show the projected rows. */
  lemma ColumnsProject(s: Schema, xs: seq<NamedExpr>, b: Batch, columns: seq<Vector>)
    requires |columns| == |xs|
    requires forall c :: 0 <= c < |xs| ==>
      Collected(s, xs[c].expr, b, b.selection.Size(), xs[c].field.typ, columns[c])
    ensures Stores(columns, SchemaTypes(OutputFields(xs)), ProjectTuples(s, xs, b.Active()))
  {
    var n, rows := b.selection.Size(), ProjectTuples(s, xs, b.Active());
    forall c | 0 <= c < |columns| ensures ColumnOk(columns, SchemaTypes(OutputFields(xs)), n, c) {
      assert Collected(s, xs[c].expr, b, n, xs[c].field.typ, columns[c]);
    }
    forall j | 0 <= j < n ensures TupleAt(columns, j) == rows[j] {
      assert rows[j] == ProjectTuple(s, xs, TupleAt(b.columns, b.selection.At(j)));
      forall c | 0 <= c < |columns| ensures TupleAt(columns, j)[c] == rows[j][c] {
        assert Collected(s, xs[c].expr, b, n, xs[c].field.typ, columns[c]);
      }
    }
    assert Tuples(columns, n) == rows;
  }

  // ---------------------------------------------------------------------------------------

  /** Truncating the first part of a list leaves the rest of the limit for the others. */
  lemma LimitHead(all: seq<Tuple>, now: seq<Tuple>, later: seq<Tuple>, n: nat)
    requires Splits(all, now, later)
    ensures var k := if n < |now| then n else |now|;
      Splits(Take(all, n), now[..k], Take(later, n - k))
  {
    if n < |now| {
      assert (now + later)[..n] == now[..n] + [];
    } else if n <= |now| + |later| {
      assert (now + later)[..n] == now + later[..n - |now|];
    }
  }

  lemma LimitNothing(n: nat)
    ensures Take<Tuple>([], n) == []
  {
  }

  lemma TruncatedShows(b: Batch, types: seq<Type>, k: nat)
    requires b.Valid(types) && k <= b.selection.Size()
    ensures var cut := Batch(b.columns, b.selection.Truncate(k), b.physicalSize);
      cut.Valid(types) && cut.Active() == b.Active()[..k] && cut.selection.Size() == k
  {
    var cut := Batch(b.columns, b.selection.Truncate(k), b.physicalSize);
    forall j | 0 <= j < k ensures cut.selection.At(j) == b.selection.At(j) {
    }
  }
}
