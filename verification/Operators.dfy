/**
 The operators. Each pulls batches from the operators below it, and all obey the one contract of
 `Operator.Next`, whatever tree they are put together to.
 */
module Operators {
  import opened Values
  import opened Expressions
  import opened Sequences
  import opened Relations
  import opened Plans
  import opened Batches
  import opened Nodes
  import opened Evaluator
  import opened AggregateStates
  import opened RowStore
  import opened HashIndex
  import opened Chains
  import opened OperatorLists
  import opened SortLists
  import opened JoinLists
  import opened JoinState
  import EqualityLaws
  import opened GroupLists
  import opened GroupState
  import ScanOperator = Scan

  /** Any operator, with the operators below it. */
  datatype Operator =
    | ScanNode(scan: ScanOperator.Scan)
    | FilterNode(filter: Filter)
    | ProjectionNode(projection: Projection)
    | LimitNode(limit: Limit)
    | SortNode(sort: Sort)
    | JoinNode(join: HashJoin)
    | AggregateNode(aggregate: HashAggregate)
  {
    ghost function Anchor(): object {
      match this
      case ScanNode(o) => o
      case FilterNode(o) => o
      case ProjectionNode(o) => o
      case LimitNode(o) => o
      case SortNode(o) => o
      case JoinNode(o) => o
      case AggregateNode(o) => o
    }

    /** The objects of the operator and of all operators below it. */
    ghost function Repr(): set<object>
      reads Anchor()
    {
      match this
      case ScanNode(o) => {o}
      case FilterNode(o) => o.Repr
      case ProjectionNode(o) => o.Repr
      case LimitNode(o) => o.Repr
      case SortNode(o) => o.Repr
      case JoinNode(o) => o.Repr
      case AggregateNode(o) => o.Repr
    }

    /** A bound on the height of the tree. */
    ghost function Depth(): nat {
      match this
      case ScanNode(_) => 0
      case FilterNode(o) => o.depth
      case ProjectionNode(o) => o.depth
      case LimitNode(o) => o.depth
      case SortNode(o) => o.depth
      case JoinNode(o) => o.depth
      case AggregateNode(o) => o.depth
    }

    ghost predicate Valid()
      reads Anchor(), Repr()
      ensures Valid() ==> Anchor() in Repr()
      decreases Depth(), 1
    {
      match this
      case ScanNode(o) => o.Valid()
      case FilterNode(o) => o.Valid()
      case ProjectionNode(o) => o.Valid()
      case LimitNode(o) => o.Valid()
      case SortNode(o) => o.Valid()
      case JoinNode(o) => o.Valid()
      case AggregateNode(o) => o.Valid()
    }

    /** The rows the operator has still to produce. */
    ghost function Todo(): seq<Tuple>
      requires Valid()
      reads Anchor(), Repr()
      decreases Depth(), 1
    {
      match this
      case ScanNode(o) => o.Todo()
      case FilterNode(o) => o.Todo()
      case ProjectionNode(o) => o.Todo()
      case LimitNode(o) => o.Todo()
      case SortNode(o) => o.Todo()
      case JoinNode(o) => o.Todo()
      case AggregateNode(o) => o.Todo()
    }

    function OutputTypes(): seq<Type> {
      match this
      case ScanNode(o) => o.types
      case FilterNode(o) => o.types
      case ProjectionNode(o) => o.types
      case LimitNode(o) => o.types
      case SortNode(o) => o.types
      case JoinNode(o) => o.types
      case AggregateNode(o) => o.types
    }

    function Capacity(): nat {
      match this
      case ScanNode(o) => o.batchSize
      case FilterNode(o) => o.batchSize
      case ProjectionNode(o) => o.batchSize
      case LimitNode(o) => o.batchSize
      case SortNode(o) => o.batchSize
      case JoinNode(o) => o.batchSize
      case AggregateNode(o) => o.batchSize
    }

    /** Delivers the next batch, pulling from the operators below as often as it takes. */
    method Next() returns (ok: bool, out: Batch)
      requires Valid()
      modifies Repr()
      ensures Valid() && fresh(Repr() - old(Repr()))
      ensures Delivers(old(Todo()), ok, out, Todo(), OutputTypes(), Capacity())
      decreases Depth(), 9
    {
      hide Delivers;
      match this {
        case ScanNode(o) => ok, out := o.Next();
        case FilterNode(o) => ok, out := o.Next();
        case ProjectionNode(o) => ok, out := o.Next();
        case LimitNode(o) => ok, out := o.Next();
        case SortNode(o) => ok, out := o.Next();
        case JoinNode(o) => ok, out := o.Next();
        case AggregateNode(o) => ok, out := o.Next();
      }
    }

    /** Pulls every batch of the operator. */
    method Collect() returns (batches: seq<Batch>)
      requires Valid()
      modifies Repr()
      ensures ValidStream(batches, OutputTypes()) && Bounded(batches, Capacity())
      ensures StreamRows(batches) == old(Todo())
      ensures Valid() && fresh(Repr() - old(Repr())) && Todo() == []
    {
      hide Pulled;
      hide Delivers;
      hide Splits;
      hide Valid;
      hide Todo;
      batches := [];
      ghost var all, coming := Todo(), Todo();
      NothingPulled(OutputTypes(), Capacity(), all);
      var ok, b := Next();
      while ok
        invariant Valid() && fresh(Repr() - old(Repr()))
        invariant Pulled(batches, OutputTypes(), Capacity(), all, coming)
        invariant Delivers(coming, ok, b, Todo(), OutputTypes(), Capacity())
        decreases ok, |coming|
      {
        DeliversRows(coming, b, Todo(), OutputTypes(), Capacity());
        PullStep(batches, OutputTypes(), Capacity(), all, coming, b, Todo());
        batches, coming := batches + [b], Todo();
        ghost var before := Repr();
        ok, b := Next();
        assert Repr() - old(Repr()) <= (Repr() - before) + (before - old(Repr()));
      }
      DeliversEnd(coming, b, Todo(), OutputTypes(), Capacity());
      PulledAll(batches, OutputTypes(), Capacity(), all);
    }
  }

  class Filter {
    const schema: Schema
    const types: seq<Type>
    const condition: Expr
    const batchSize: nat
    const child: Operator
    const evaluator: Evaluator
    ghost const depth: nat
    ghost var Repr: set<object>

    ghost predicate Wired() {
      types == SchemaTypes(schema) == child.OutputTypes() && child.Capacity() == batchSize && child.Depth() < depth
    }

    ghost predicate Ready()
      reads evaluator
    {
      evaluator.Valid() && evaluator.schema == schema && evaluator.root == condition
    }

    ghost predicate Valid()
      reads this, Repr
      ensures Valid() ==> this in Repr
      decreases depth, 0
    {
      && Wired() && this in Repr && evaluator in Repr && child.Anchor() in Repr
      && child.Repr() <= Repr && {this, evaluator} !! child.Repr()
      && child.Valid() && Ready()
    }

    ghost function Todo(): seq<Tuple>
      requires Valid()
      reads this, Repr
      decreases depth, 0
    {
      FilterTuples(schema, condition, child.Todo())
    }

    constructor (schema: Schema, child: Operator, condition: Expr)
      requires child.Valid() && child.OutputTypes() == SchemaTypes(schema)
      requires ExpressionType(condition, Types(schema)) == Some(BooleanType)
      ensures Valid() && fresh(Repr - child.Repr())
      ensures types == child.OutputTypes() && batchSize == child.Capacity()
      ensures Todo() == FilterTuples(schema, condition, child.Todo())
    {
      hide Operator.Valid;
      hide Operator.Todo;
      hide ExpressionType;
      hide FilterTuples;
      this.schema, this.child, this.condition := schema, child, condition;
      types, batchSize, depth := child.OutputTypes(), child.Capacity(), child.Depth() + 1;
      evaluator := new Evaluator(condition, schema);
      new;
      Repr := {this, evaluator} + child.Repr();
    }

    /** Pulls the next batch of the child. */
    method Pull() returns (ok: bool, b: Batch)
      requires Valid()
      modifies this`Repr, child.Repr()
      ensures Valid() && fresh(Repr - old(Repr))
      ensures Delivers(old(child.Todo()), ok, b, child.Todo(), types, batchSize)
      decreases depth, 1
    {
      hide Delivers;
      hide Operator.Valid;
      hide Operator.Todo;
      ok, b := child.Next();
      Repr := Repr + child.Repr();
    }

    /** The active rows on which the predicate's vector is TRUE. */
    method Choose(b: Batch, v: Vector) returns (selected: seq<nat>)
      requires b.Valid(SchemaTypes(schema)) && Agrees(schema, b, condition, v)
      ensures |selected| <= b.selection.Size() && forall i <- selected :: i < b.physicalSize
      ensures Chosen(b, selected) == FilterTuples(schema, condition, b.Active())
    {
      hide Agrees;
      hide FilterTuples;
      hide Chosen;
      selected := [];
      ghost var rows := b.Active();
      NothingChosen(schema, condition, b);
      for j := 0 to b.selection.Size()
        invariant |selected| <= j && forall i <- selected :: i < b.physicalSize
        invariant Chosen(b, selected) == FilterTuples(schema, condition, rows[..j])
      {
        ChooseStep(schema, condition, b, v, j, selected);
        var i := b.selection.At(j);
        if v.valid[i] && v.data[i] == TRUE {
          selected := selected + [i];
        }
      }
      assert rows[..|rows|] == rows;
    }

    /** Replaces the selection of a batch by the rows that pass. */
    method Refine(b: Batch) returns (out: Batch)
      requires Wired() && Ready() && b.Valid(types) && b.selection.Size() > 0
      modifies evaluator
      ensures Ready() && out.Valid(types) && out.selection.Size() <= b.selection.Size()
      ensures out.Active() == FilterTuples(schema, condition, b.Active())
    {
      hide Agrees;
      hide FilterTuples;
      hide Chosen;
      ActiveRowsEvaluate(b, types, condition);
      var v := evaluator.Evaluate(b);
      var selected := Choose(b, v.value);
      ChosenShows(b, types, selected);
      out := Batch(b.columns, Sparse(selected), b.physicalSize);
    }

    /** Delivers the next batch in which some row passes, with a selection of exactly those rows. */
    method Next() returns (ok: bool, out: Batch)
      requires Valid()
      modifies Repr
      ensures Valid() && fresh(Repr - old(Repr))
      ensures Delivers(old(Todo()), ok, out, Todo(), types, batchSize)
      decreases depth, 2
    {
      hide Operator.Valid;
      hide Operator.Todo;
      hide FilterTuples;
      hide Delivers;
      hide Splits;
      ghost var all, coming := Todo(), child.Todo();
      ok, out := Pull();
      while ok
        invariant Valid() && fresh(Repr - old(Repr))
        invariant Delivers(coming, ok, out, child.Todo(), types, batchSize)
        invariant all == FilterTuples(schema, condition, coming)
        decreases ok, |coming|
      {
        DeliversRows(coming, out, child.Todo(), types, batchSize);
        FilterHead(schema, condition, coming, out.Active(), child.Todo());
        out := Refine(out);
        if out.selection.Size() > 0 {
          Delivered(all, out, Todo(), types, batchSize);
          return;
        }
        NothingPassed(all, out.Active(), Todo());
        coming := child.Todo();
        ok, out := Pull();
      }
      DeliversEnd(coming, out, child.Todo(), types, batchSize);
      FilterNothing(schema, condition);
      NothingDelivered(out, types, batchSize);
    }
  }

  class Limit {
    const types: seq<Type>
    const batchSize: nat
    const child: Operator
    var remaining: nat
    ghost const depth: nat
    ghost var Repr: set<object>

    ghost predicate Valid()
      reads this, Repr
      ensures Valid() ==> this in Repr
      decreases depth, 0
    {
      && this in Repr && child.Anchor() in Repr && child.Repr() <= Repr && this !in child.Repr()
      && child.OutputTypes() == types && child.Capacity() == batchSize && child.Depth() < depth
      && child.Valid()
    }

    ghost function Todo(): seq<Tuple>
      requires Valid()
      reads this, Repr
      decreases depth, 0
    {
      Take(child.Todo(), remaining)
    }

    constructor (child: Operator, count: nat)
      requires child.Valid()
      ensures Valid() && fresh(Repr - child.Repr())
      ensures types == child.OutputTypes() && batchSize == child.Capacity()
      ensures Todo() == Take(child.Todo(), count)
    {
      hide Operator.Valid;
      hide Operator.Todo;
      this.child, remaining := child, count;
      types, batchSize, depth := child.OutputTypes(), child.Capacity(), child.Depth() + 1;
      new;
      Repr := {this} + child.Repr();
    }

    /** Delivers the next batch, cut short where the limit ends; after that nothing below is touched. */
    method Next() returns (ok: bool, out: Batch)
      requires Valid()
      modifies Repr
      ensures Valid() && fresh(Repr - old(Repr))
      ensures Delivers(old(Todo()), ok, out, Todo(), types, batchSize)
      ensures old(remaining) == 0 ==> unchanged(old(Repr))
      decreases depth, 2
    {
      hide Operator.Valid;
      hide Operator.Todo;
      hide Delivers;
      hide Splits;
      ghost var coming := child.Todo();
      if remaining == 0 {
        NothingDelivered(Batch([], Dense(0), 0), types, batchSize);
        return false, Batch([], Dense(0), 0);
      }
      var b;
      ok, b := child.Next();
      Repr := Repr + child.Repr();
      if !ok {
        DeliversEnd(coming, b, child.Todo(), types, batchSize);
        LimitNothing(remaining);
        NothingDelivered(b, types, batchSize);
        return false, b;
      }
      DeliversRows(coming, b, child.Todo(), types, batchSize);
      LimitHead(coming, b.Active(), child.Todo(), remaining);
      var k := if remaining < b.selection.Size() then remaining else b.selection.Size();
      TruncatedShows(b, types, k);
      out := Batch(b.columns, b.selection.Truncate(k), b.physicalSize);
      remaining := remaining - k;
      Delivered(old(Todo()), out, Todo(), types, batchSize);
    }
  }

  class Projection {
    const schema: Schema
    const expressions: seq<NamedExpr>
    const types: seq<Type>
    const batchSize: nat
    const child: Operator
    const evaluators: seq<Evaluator>
    ghost const depth: nat
    ghost var Repr: set<object>

    ghost predicate Wired() {
      && child.OutputTypes() == SchemaTypes(schema) && types == SchemaTypes(OutputFields(expressions))
      && child.Capacity() == batchSize && child.Depth() < depth
      && ExpressionsTyped(expressions, Types(schema))
      && |evaluators| == |expressions|
    }

    ghost predicate Ready()
      requires Wired()
      reads evaluators
    {
      forall c :: 0 <= c < |evaluators| ==>
        evaluators[c].Valid() && evaluators[c].schema == schema && evaluators[c].root == expressions[c].expr
    }

    ghost predicate Owned()
      reads this
    {
      forall e <- evaluators :: e in Repr
    }

    ghost predicate Apart()
      reads child.Anchor()
    {
      forall e <- evaluators :: e !in child.Repr()
    }

    ghost predicate Valid()
      reads this, Repr
      ensures Valid() ==> this in Repr
      decreases depth, 0
    {
      && Wired() && this in Repr && Owned() && child.Anchor() in Repr
      && child.Repr() <= Repr && this !in child.Repr() && Apart()
      && child.Valid() && Ready()
    }

    ghost function Todo(): seq<Tuple>
      requires Valid()
      reads this, Repr
      decreases depth, 0
    {
      ProjectTuples(schema, expressions, child.Todo())
    }

    constructor (schema: Schema, child: Operator, expressions: seq<NamedExpr>)
      requires child.Valid() && child.OutputTypes() == SchemaTypes(schema)
      requires ExpressionsTyped(expressions, Types(schema))
      ensures Valid() && fresh(Repr - child.Repr())
      ensures types == SchemaTypes(OutputFields(expressions)) && batchSize == child.Capacity()
      ensures Todo() == ProjectTuples(schema, expressions, child.Todo())
    {
      hide Operator.Valid;
      hide Operator.Todo;
      hide ExpressionType;
      hide ProjectTuples;
      this.schema, this.child, this.expressions := schema, child, expressions;
      types, batchSize, depth := SchemaTypes(OutputFields(expressions)), child.Capacity(), child.Depth() + 1;
      var compiled: seq<Evaluator> := [];
      for c := 0 to |expressions|
        invariant |compiled| == c
        invariant forall k :: 0 <= k < c ==> fresh(compiled[k]) && compiled[k].Valid()
        invariant forall k :: 0 <= k < c ==> compiled[k].schema == schema && compiled[k].root == expressions[k].expr
      {
        assert expressions[c] in expressions;
        var evaluator := new Evaluator(expressions[c].expr, schema);
        compiled := compiled + [evaluator];
      }
      evaluators := compiled;
      new;
      ghost var compiled': set<object> := set e | e in evaluators;
      Repr := {this} + compiled' + child.Repr();
    }

    /** Copies the active cells of an expression's vector into an output column. */
    method Gather(b: Batch, c: nat, v: Vector) returns (out: Vector)
      requires Wired() && c < |expressions| && b.Valid(SchemaTypes(schema))
      requires Agrees(schema, b, expressions[c].expr, v)
      ensures Collected(schema, expressions[c].expr, b, b.selection.Size(), types[c], out)
    {
      hide Collected;
      out := Vector(types[c], [], []);
      HoldNothing(schema, expressions[c].expr, b, types[c]);
      assert v.typ == types[c] by {
        assert expressions[c] in expressions;
      }
      hide Agrees;
      for j := 0 to b.selection.Size()
        invariant Collected(schema, expressions[c].expr, b, j, types[c], out)
      {
        HoldMore(schema, expressions[c].expr, b, j, types[c], out, v);
        out := out.AppendFrom(v, b.selection.At(j));
      }
    }

    /** Evaluates every expression over one batch into dense output columns. */
    method ProjectBatch(b: Batch) returns (columns: seq<Vector>)
      requires Wired() && Ready() && b.Valid(SchemaTypes(schema)) && b.selection.Size() > 0
      modifies evaluators
      ensures Ready()
      ensures Stores(columns, types, ProjectTuples(schema, expressions, b.Active()))
    {
      hide Collected;
      hide Agrees;
      hide Stores;
      hide AllCompiled;
      hide ExpressionsTyped;
      hide ProjectTuples;
      columns := [];
      for c := 0 to |expressions|
        invariant |columns| == c && Ready()
        invariant forall k :: 0 <= k < c ==>
          Collected(schema, expressions[k].expr, b, b.selection.Size(), types[k], columns[k])
      {
        ActiveRowsEvaluate(b, SchemaTypes(schema), expressions[c].expr);
        var v := evaluators[c].Evaluate(b);
        var out := Gather(b, c, v.value);
        columns := columns + [out];
      }
      ColumnsProject(schema, expressions, b, columns);
    }

    /** Delivers the next batch: each input batch gives one dense batch of computed rows. */
    method Next() returns (ok: bool, out: Batch)
      requires Valid()
      modifies Repr
      ensures Valid() && fresh(Repr - old(Repr))
      ensures Delivers(old(Todo()), ok, out, Todo(), types, batchSize)
      decreases depth, 2
    {
      hide Operator.Valid;
      hide Operator.Todo;
      hide Delivers;
      hide Splits;
      hide Stores;
      hide ProjectTuples;
      hide Evaluator.Valid;
      ghost var coming, inputTypes := child.Todo(), SchemaTypes(schema);
      var b;
      ok, b := child.Next();
      Repr := Repr + child.Repr();
      if !ok {
        DeliversEnd(coming, b, child.Todo(), inputTypes, batchSize);
        ProjectNothing(schema, expressions);
        NothingDelivered(b, types, batchSize);
        return false, b;
      }
      DeliversRows(coming, b, child.Todo(), inputTypes, batchSize);
      ProjectHead(schema, expressions, coming, b.Active(), child.Todo());
      var columns := ProjectBatch(b);
      ghost var rows := ProjectTuples(schema, expressions, b.Active());
      FilledDelivers(old(Todo()), columns, rows, Todo(), types, batchSize);
      out := DenseBatch(columns, b.selection.Size());
    }
  }

  class Sort {
    const shape: SortShape
    const types: seq<Type>
    const batchSize: nat
    const child: Operator
    const store: RowStore
    var order: seq<nat>
    var sorted: bool
    var cursor: nat
    ghost const depth: nat
    ghost var Repr: set<object>

    ghost predicate Attached()
      reads this, child.Anchor()
    {
      && child.OutputTypes() == types == store.types && child.Capacity() == batchSize > 0 && child.Depth() < depth
      && this in Repr && store in Repr && child.Anchor() in Repr
      && child.Repr() <= Repr && {this, store} !! child.Repr()
    }

    ghost predicate OrderOk()
      reads this, store
    {
      && store.Valid() && Within(order, |store.contents|)
      && (!sorted ==> store.contents == [] && order == [] && cursor == 0)
    }

    ghost predicate Valid()
      reads this, Repr
      ensures Valid() ==> this in Repr
      decreases depth, 0
    {
      child.Anchor() in Repr && Attached() && child.Valid() && OrderOk()
    }

    ghost function Todo(): seq<Tuple>
      requires Valid()
      reads this, Repr
      decreases depth, 0
    {
      if sorted then EmitFrom(store.contents, order, cursor) else SortTuples(shape, child.Todo())
    }

    constructor (shape: SortShape, child: Operator)
      requires child.Valid() && child.Capacity() > 0
      ensures Valid() && fresh(Repr - child.Repr())
      ensures types == child.OutputTypes() && batchSize == child.Capacity()
      ensures Todo() == SortTuples(shape, child.Todo())
    {
      hide Operator.Valid;
      hide Operator.Todo;
      hide Stores;
      this.shape, this.child := shape, child;
      types, batchSize, depth := child.OutputTypes(), child.Capacity(), child.Depth() + 1;
      store := new RowStore(child.OutputTypes());
      order, sorted, cursor := [], false, 0;
      new;
      Repr := {this, store} + child.Repr();
    }

    /** Pulls the next batch of the child. */
    method Pull() returns (ok: bool, b: Batch)
      requires Attached() && child.Valid()
      modifies this`Repr, child.Repr()
      ensures Attached() && child.Valid() && fresh(Repr - old(Repr))
      ensures fresh(child.Repr() - old(child.Repr()))
      ensures Delivers(old(child.Todo()), ok, b, child.Todo(), types, batchSize)
      decreases depth, 1
    {
      hide Delivers;
      hide Operator.Valid;
      hide Operator.Todo;
      ok, b := child.Next();
      Repr := Repr + child.Repr();
    }

    /** Stores the active rows of one input batch. */
    method StoreBatch(b: Batch)
      requires store.Valid() && b.Valid(store.types)
      modifies store
      ensures store.Valid() && store.contents == old(store.contents) + b.Active()
    {
      hide Stores;
      ghost var before, rows := store.contents, b.Active();
      TakeAll(before, rows);
      for j := 0 to b.selection.Size()
        invariant store.Valid() && store.contents == before + rows[..j]
      {
        TakeNext(before, rows, j);
        store.Append(b, b.selection.At(j));
      }
    }

    /** Stores the whole input. */
    method StoreInput()
      requires Attached() && child.Valid() && store.Valid() && store.contents == []
      modifies this`Repr, store, child.Repr()
      ensures Attached() && child.Valid() && fresh(Repr - old(Repr))
      ensures store.Valid() && store.contents == old(child.Todo())
      decreases depth, 2
    {
      hide Operator.Valid;
      hide Operator.Todo;
      hide Delivers;
      hide Splits;
      hide Stores;
      ghost var all, coming := child.Todo(), child.Todo();
      SplitStart(all);
      var ok, b := Pull();
      while ok
        invariant Attached() && child.Valid() && fresh(Repr - old(Repr)) && fresh(child.Repr() - old(child.Repr()))
        invariant store.Valid()
        invariant Delivers(coming, ok, b, child.Todo(), types, batchSize) && Splits(all, store.contents, coming)
        decreases ok, |coming|
      {
        DeliversRows(coming, b, child.Todo(), types, batchSize);
        SplitMove(all, store.contents, b.Active(), coming, child.Todo());
        StoreBatch(b);
        coming := child.Todo();
        ok, b := Pull();
      }
      DeliversEnd(coming, b, child.Todo(), types, batchSize);
      SplitEnd(all, store.contents);
    }

    /** Reads the whole input and orders its row ids, by any stable sort of them. */
    method Materialize()
      requires Valid() && !sorted
      modifies Repr
      ensures Valid() && fresh(Repr - old(Repr)) && sorted && Todo() == old(Todo())
      decreases depth, 3
    {
      hide Operator.Valid;
      hide Operator.Todo;
      hide Stores;
      hide SortTuples;
      hide EmitFrom;
      StoreInput();
      StoredTuples(store.columns, store.types, store.contents);
      order := StablySort(shape, Tuples(store.columns, store.rows));
      EmitSorted(shape, store.contents, order);
      sorted := true;
    }

    /** Appends the row at the cursor to the output columns. */
    method EmitRow(columns: seq<Vector>, ghost rows: seq<Tuple>) returns (more: seq<Vector>, ghost row: Tuple)
      requires OrderOk() && sorted && cursor < |order| && Stores(columns, store.types, rows)
      modifies this`cursor
      ensures OrderOk() && cursor == old(cursor) + 1
      ensures Stores(more, store.types, rows + [row])
      ensures Splits(EmitFrom(store.contents, order, old(cursor)), [row], EmitFrom(store.contents, order, cursor))
    {
      hide Stores;
      hide Splits;
      hide EmitFrom;
      EmitStep(store.contents, order, cursor);
      row := store.contents[order[cursor]];
      more := AppendStored(columns, rows, order[cursor]);
      cursor := cursor + 1;
    }

    method AppendStored(columns: seq<Vector>, ghost rows: seq<Tuple>, id: nat) returns (more: seq<Vector>)
      requires store.Valid() && id < |store.contents| && Stores(columns, store.types, rows)
      ensures Stores(more, store.types, rows + [store.contents[id]])
    {
      more := AppendColumns(columns, 0, store.columns, id);
      AppendedTuple(columns, store.types, rows, more, store.columns, store.rows, id);
      assert TupleAt(store.columns, id) == store.contents[id];
    }

    /** Fills output columns up to the batch capacity. */
    method Fill() returns (columns: seq<Vector>, n: nat, ghost rows: seq<Tuple>)
      requires OrderOk() && sorted
      modifies this`cursor
      ensures OrderOk() && Stores(columns, store.types, rows) && n == |rows| <= batchSize
      ensures Splits(EmitFrom(store.contents, order, old(cursor)), rows, EmitFrom(store.contents, order, cursor))
      ensures n < batchSize ==> EmitFrom(store.contents, order, cursor) == []
    {
      hide Stores;
      hide Splits;
      hide EmitFrom;
      hide Within;
      hide Gather;
      ghost var all := EmitFrom(store.contents, order, cursor);
      columns, n, rows := EmptyColumns(store.types), 0, [];
      EmptyStores(store.types);
      SplitStart(all);
      while cursor < |order| && n < batchSize
        invariant OrderOk() && Stores(columns, store.types, rows) && n == |rows| <= batchSize
        invariant Splits(all, rows, EmitFrom(store.contents, order, cursor))
      {
        ghost var before, row := EmitFrom(store.contents, order, cursor), [];
        columns, row := EmitRow(columns, rows);
        SplitMove(all, rows, [row], before, EmitFrom(store.contents, order, cursor));
        n, rows := n + 1, rows + [row];
      }
      if n < batchSize {
        EmitOver(store.contents, order, cursor);
      }
    }

    /** Delivers the next batch of the stably sorted input. */
    method Next() returns (ok: bool, out: Batch)
      requires Valid()
      modifies Repr
      ensures Valid() && fresh(Repr - old(Repr))
      ensures Delivers(old(Todo()), ok, out, Todo(), types, batchSize)
      decreases depth, 4
    {
      hide Operator.Valid;
      hide Operator.Todo;
      hide Delivers;
      hide Stores;
      hide Splits;
      hide EmitFrom;
      hide SortTuples;
      if !sorted {
        Materialize();
      }
      ghost var all, rows := Todo(), [];
      var columns, n;
      columns, n, rows := Fill();
      FilledDelivers(all, columns, rows, Todo(), types, batchSize);
      return n != 0, DenseBatch(columns, n);
    }
  }

  class HashJoin {
    const shape: JoinShape
    const types: seq<Type>
    const batchSize: nat
    const build: Operator
    const probe: Operator
    const store: RowStore
    const index: HashIndex
    var nexts: seq<Option<nat>>
    var tails: seq<nat>
    var heads: seq<Option<nat>>
    var probeBatch: Batch
    var probeCursor: nat
    var matched: Option<nat>
    var built: bool
    ghost const probeTypes: seq<Type>
    ghost const depth: nat
    ghost var Repr: set<object>

    ghost predicate Wired() {
      && batchSize > 0 && |shape.buildKeys| == |shape.probeKeys|
      && types == if shape.buildRight then probeTypes + store.types else store.types + probeTypes
    }

    ghost predicate Attached()
      reads this, index, build.Anchor(), probe.Anchor()
    {
      && build.OutputTypes() == store.types && probe.OutputTypes() == probeTypes
      && build.Depth() < depth && probe.Depth() < depth
      && {this, store, index, index.buckets} <= Repr && build.Repr() <= Repr && probe.Repr() <= Repr
      && {this, store, index, index.buckets} !! build.Repr()
      && {this, store, index, index.buckets} !! probe.Repr()
      && build.Repr() !! probe.Repr()
      && build.Capacity() == probe.Capacity() == batchSize
    }

    /** The stored rows, their chains and the index agree. */
    ghost predicate TableOk()
      reads `nexts, `tails, store, index, index.buckets
    {
      && store.Valid() && index.Valid()
      && Linked(shape, store.contents, nexts, tails, index.entries)
    }

    /** The probe cursor stands on a row of the loaded batch and on a match of it. */
    ghost predicate CursorValid()
      reads this, store
    {
      CursorOk(shape, probeTypes, store.contents, heads, probeBatch, probeCursor, matched)
    }

    ghost predicate Valid()
      reads this, Repr
      ensures Valid() ==> this in Repr
      decreases depth, 0
    {
      && this in Repr && index in Repr && build.Anchor() in Repr && probe.Anchor() in Repr
      && Wired() && Attached() && build.Valid() && probe.Valid()
      && TableOk() && CursorValid()
      && (!built ==> store.contents == [] && heads == [])
    }

    /** What the cursor has ahead of it, when these probe rows follow the loaded batch. */
    ghost function Ahead(later: seq<Tuple>): seq<Tuple>
      reads this, store
    {
      Rest(shape, store.contents, heads, probeBatch, probeCursor, matched, later)
    }

    ghost function Todo(): seq<Tuple>
      requires Valid()
      reads this, Repr
      decreases depth, 0
    {
      if built then Ahead(probe.Todo()) else JoinTuples(shape, build.Todo(), probe.Todo())
    }

    constructor (shape: JoinShape, build: Operator, probe: Operator)
      requires build.Valid() && probe.Valid() && build.Repr() !! probe.Repr()
      requires build.Capacity() == probe.Capacity() > 0 && |shape.buildKeys| == |shape.probeKeys|
      ensures Valid() && build.Valid() && probe.Valid() && fresh(Repr - old(build.Repr() + probe.Repr()))
      ensures batchSize == build.Capacity()
      ensures types == if shape.buildRight then probe.OutputTypes() + build.OutputTypes()
                       else build.OutputTypes() + probe.OutputTypes()
      ensures Todo() == JoinTuples(shape, build.Todo(), probe.Todo())
    {
      hide Operator.Valid;
      hide Operator.Todo;
      hide Operator.Anchor;
      hide Operator.Depth;
      hide Operator.OutputTypes;
      hide Operator.Capacity;
      hide HashIndex.Valid;
      hide RowStore.Valid;
      hide Linked;
      hide CursorOk;
      hide Rest;
      hide Stores;
      hide JoinTuples;
      this.shape, this.build, this.probe := shape, build, probe;
      batchSize, depth := build.Capacity(), build.Depth() + probe.Depth() + 1;
      probeTypes := probe.OutputTypes();
      types := if shape.buildRight then probe.OutputTypes() + build.OutputTypes()
               else build.OutputTypes() + probe.OutputTypes();
      nexts, tails, heads := [], [], [];
      probeBatch, probeCursor, matched, built := Batch([], Dense(0), 0), 0, None, false;
      LinkedEmpty(shape);
      NothingLoaded(shape, probe.OutputTypes(), [], Batch([], Dense(0), 0), 0, None, []);
      ghost var below := build.Repr() + probe.Repr();
      var rows := new RowStore(build.OutputTypes());
      var slots := new HashIndex(16);
      store, index := rows, slots;
      Repr := {this, rows, slots, slots.buckets} + below;
    }

    /** Until the build, the rows to come are the product of the sides, filtered by the equality of all keys. */
    lemma ProductAhead()
      requires Valid() && !built
      ensures Todo() == EqualityLaws.EqualPairs(shape, build.Todo(), probe.Todo())
    {
      EqualityLaws.HashJoinIsFilteredProduct(shape, build.Todo(), probe.Todo());
    }

    // -------------------------------------------------------------------------------------
    // Building.

    /** Stores one build row and links it to the chain of its key, unless it can never match. */
    method InsertRow(b: Batch, r: nat, ghost consumed: seq<Tuple>)
      requires Wired() && TableOk() && StoredFrom(shape, store.contents, consumed)
      requires b.Valid(store.types) && r < b.physicalSize
      modifies this`nexts, this`tails, store, index, index.buckets
      ensures TableOk() && (index.buckets == old(index.buckets) || fresh(index.buckets))
      ensures StoredFrom(shape, store.contents, consumed + [TupleAt(b.columns, r)])
    {
      hide Represents;
      hide PowerOfTwo;
      hide Linked;
      hide CursorOk;
      hide Rest;
      hide StoredFrom;
      hide Stores;
      hide SameKey;
      hide LookupFailed;
      hide HashRow;
      hide TupleAt;
      var t := TupleAt(b.columns, r);
      StoredStep(shape, store.contents, consumed, t);
      if !JoinableTuple(shape.buildKeys, t) {
        return;
      }
      var id, equal := store.rows, SameKey(store.columns, shape.buildKeys, t, shape.buildKeys);
      ghost var stored, columns, entries := store.contents, store.columns, index.entries;
      LinkedIds(shape, stored, nexts, tails, entries);
      var head, inserted := index.FindOrInsert(HashRow(shape.buildKeys, t), equal, id);
      store.Append(b, r);
      if inserted {
        LookupMissed(shape, columns, store.types, stored, nexts, tails, entries, shape.buildKeys, t);
        LinkNewKey(shape, stored, nexts, tails, entries, t);
        nexts, tails := nexts + [None], tails + [id];
      } else {
        LookupFound(shape, columns, store.types, stored, nexts, tails, entries, shape.buildKeys, t, head);
        LinkToChain(shape, stored, nexts, tails, entries, t, head);
        nexts, tails := nexts + [None], tails + [id];
        nexts := nexts[tails[head] := Some(id)];
        tails := tails[head := id];
      }
    }

    /** Stores the active rows of one build batch. */
    method InsertBatch(b: Batch, ghost consumed: seq<Tuple>)
      requires Wired() && TableOk() && StoredFrom(shape, store.contents, consumed)
      requires b.Valid(store.types)
      modifies this`nexts, this`tails, store, index, index.buckets
      ensures TableOk() && (index.buckets == old(index.buckets) || fresh(index.buckets))
      ensures StoredFrom(shape, store.contents, consumed + b.Active())
    {
      hide Represents;
      hide PowerOfTwo;
      hide Linked;
      hide StoredFrom;
      hide Stores;
      ghost var rows := b.Active();
      TakeAll(consumed, rows);
      for j := 0 to b.selection.Size()
        invariant TableOk() && (index.buckets == old(index.buckets) || fresh(index.buckets))
        invariant StoredFrom(shape, store.contents, consumed + rows[..j])
      {
        TakeNext(consumed, rows, j);
        InsertRow(b, b.selection.At(j), consumed + rows[..j]);
      }
    }

    /** Pulls the next batch of the build side. */
    method PullBuild() returns (ok: bool, b: Batch)
      requires Attached() && build.Valid() && probe.Valid()
      modifies this`Repr, build.Repr()
      ensures Attached() && build.Valid() && probe.Valid() && probe.Todo() == old(probe.Todo())
      ensures fresh(Repr - old(Repr)) && fresh(build.Repr() - old(build.Repr()))
      ensures Delivers(old(build.Todo()), ok, b, build.Todo(), store.types, batchSize)
      decreases depth, 1
    {
      hide Operator.Valid;
      hide Operator.Todo;
      hide Delivers;
      ok, b := build.Next();
      Repr := Repr + build.Repr();
    }

    /** Stores and links the rows of one build batch, leaving the operators below alone. */
    method StoreBuild(b: Batch, ghost consumed: seq<Tuple>)
      requires Wired() && Attached() && build.Valid() && probe.Valid() && TableOk()
      requires b.Valid(store.types) && StoredFrom(shape, store.contents, consumed)
      modifies this`nexts, this`tails, this`Repr, store, index, index.buckets
      ensures Attached() && build.Valid() && probe.Valid()
      ensures build.Repr() == old(build.Repr()) && build.Todo() == old(build.Todo())
      ensures probe.Todo() == old(probe.Todo())
      ensures TableOk() && (index.buckets == old(index.buckets) || fresh(index.buckets)) && fresh(Repr - old(Repr))
      ensures StoredFrom(shape, store.contents, consumed + b.Active())
    {
      hide Operator.Valid;
      hide Operator.Todo;
      hide Linked;
      hide StoredFrom;
      hide HashIndex.Valid;
      hide RowStore.Valid;
      InsertBatch(b, consumed);
      Repr := Repr + {index.buckets};
    }

    /** Stores and links the rows of the whole build side that can match. */
    method ConsumeBuild()
      requires Wired() && Attached() && build.Valid() && probe.Valid() && TableOk() && store.contents == []
      modifies this`nexts, this`tails, this`Repr, build.Repr(), store, index, index.buckets
      ensures Attached() && build.Valid() && probe.Valid() && probe.Todo() == old(probe.Todo())
      ensures fresh(Repr - old(Repr)) && TableOk()
      ensures StoredFrom(shape, store.contents, old(build.Todo()))
      decreases depth, 2
    {
      hide Operator.Valid;
      hide Operator.Todo;
      hide Delivers;
      hide Splits;
      hide TableOk;
      hide StoredFrom;
      ghost var all, consumed, coming := build.Todo(), [], build.Todo();
      StoredStart(shape);
      SplitStart(all);
      var ok, b := PullBuild();
      while ok
        invariant Attached() && build.Valid() && probe.Valid() && probe.Todo() == old(probe.Todo())
        invariant fresh(Repr - old(Repr)) && fresh(build.Repr() - old(build.Repr())) && TableOk()
        invariant index.buckets == old(index.buckets) || fresh(index.buckets)
        invariant Delivers(coming, ok, b, build.Todo(), store.types, batchSize) && Splits(all, consumed, coming)
        invariant StoredFrom(shape, store.contents, consumed)
        decreases ok, |coming|
      {
        DeliversRows(coming, b, build.Todo(), store.types, batchSize);
        SplitMove(all, consumed, b.Active(), coming, build.Todo());
        StoreBuild(b, consumed);
        consumed, coming := consumed + b.Active(), build.Todo();
        ok, b := PullBuild();
      }
      DeliversEnd(coming, b, build.Todo(), store.types, batchSize);
      SplitEnd(all, consumed);
    }

    /** The build phase: afterwards the join still to be produced is that of the stored rows. */
    method Build()
      requires Valid() && !built
      modifies this`built, this`nexts, this`tails, this`Repr, build.Repr(), store, index, index.buckets
      ensures Valid() && fresh(Repr - old(Repr)) && built && Todo() == old(Todo())
      decreases depth, 3
    {
      hide Operator.Valid;
      hide Operator.Todo;
      hide Represents;
      hide PowerOfTwo;
      hide Linked;
      hide CursorOk;
      hide Rest;
      hide BuildableRows;
      hide Stores;
      hide JoinTuples;
      built := true;
      OnlyBuildable(shape, build.Todo(), probe.Todo());
      ConsumeBuild();
      NothingLoaded(shape, probeTypes, store.contents, probeBatch, probeCursor, matched, probe.Todo());
    }

    // -------------------------------------------------------------------------------------
    // Probing.

    /** The head of the chain a probe row matches. */
    method Locate(b: Batch, r: nat) returns (head: Option<nat>)
      requires Wired() && TableOk() && b.Valid(probeTypes) && r < b.physicalSize
      ensures HeadFound(shape, store.contents, TupleAt(b.columns, r), head)
    {
      hide Represents;
      hide PowerOfTwo;
      hide Linked;
      hide Stores;
      hide HeadFound;
      hide HashRow;
      var p := TupleAt(b.columns, r);
      if !JoinableTuple(shape.probeKeys, p) {
        NeverMatches(shape, store.contents, p);
        return None;
      }
      head := index.Find(HashRow(shape.probeKeys, p), SameKey(store.columns, shape.buildKeys, p, shape.probeKeys));
      match head
      case None =>
        LookupMissed(shape, store.columns, store.types, store.contents, nexts, tails, index.entries,
                     shape.probeKeys, p);
        KeyNotStored(shape, store.contents, p);
      case Some(h) =>
        LookupFound(shape, store.columns, store.types, store.contents, nexts, tails, index.entries,
                    shape.probeKeys, p, h);
        KeyStoredFirst(shape, store.contents, nexts, tails, index.entries, p, h);
    }

    method LocateAll(b: Batch) returns (found: seq<Option<nat>>)
      requires Wired() && TableOk() && b.Valid(probeTypes)
      ensures HeadsFound(shape, store.contents, b.Active(), found)
    {
      hide Represents;
      hide PowerOfTwo;
      hide Linked;
      hide Stores;
      hide HeadFound;
      found := [];
      for j := 0 to b.selection.Size()
        invariant |found| == j
        invariant forall i :: 0 <= i < j ==> HeadFound(shape, store.contents, b.Active()[i], found[i])
      {
        var head := Locate(b, b.selection.At(j));
        found := found + [head];
      }
    }

    /** Pulls the next batch of the probe side. */
    method PullProbe() returns (ok: bool, b: Batch)
      requires Attached() && build.Valid() && probe.Valid()
      modifies this`Repr, probe.Repr()
      ensures Attached() && build.Valid() && probe.Valid()
      ensures fresh(Repr - old(Repr)) && fresh(probe.Repr() - old(probe.Repr()))
      ensures Delivers(old(probe.Todo()), ok, b, probe.Todo(), probeTypes, batchSize)
      decreases depth, 1
    {
      hide Operator.Valid;
      hide Operator.Todo;
      hide Delivers;
      ok, b := probe.Next();
      Repr := Repr + probe.Repr();
    }

    /** Fetches a probe batch and locates the chain heads of all its rows. */
    method LoadProbe() returns (ok: bool)
      requires Wired() && Attached() && build.Valid() && probe.Valid()
      requires TableOk() && CursorValid() && probeCursor >= |heads|
      modifies this`heads, this`probeBatch, this`probeCursor, this`matched, this`Repr, probe.Repr()
      ensures Attached() && build.Valid() && probe.Valid() && CursorValid()
      ensures fresh(Repr - old(Repr)) && fresh(probe.Repr() - old(probe.Repr()))
      ensures Ahead(probe.Todo()) == old(Ahead(probe.Todo()))
      ensures ok ==> |probe.Todo()| < old(|probe.Todo()|) && probeCursor == 0 && heads != []
      ensures !ok ==> probeCursor >= |heads| && probe.Todo() == []
      decreases depth, 2
    {
      hide Operator.Valid;
      hide Operator.Todo;
      hide Delivers;
      hide Splits;
      hide Represents;
      hide PowerOfTwo;
      hide Linked;
      hide CursorOk;
      hide Rest;
      hide StoredFrom;
      hide Stores;
      hide HeadsFound;
      ghost var coming := probe.Todo();
      var b;
      ok, b := PullProbe();
      if !ok {
        DeliversEnd(coming, b, probe.Todo(), probeTypes, batchSize);
        return;
      }
      DeliversRows(coming, b, probe.Todo(), probeTypes, batchSize);
      var found := LocateAll(b);
      ProbeLoaded(shape, probeTypes, store.contents, heads, probeBatch, probeCursor, matched,
                  coming, b, probe.Todo(), found);
      heads, probeBatch, probeCursor, matched := found, b, 0, found[0];
    }

    /** Moves to the next probe row, at the head of its chain. */
    method Advance(ghost later: seq<Tuple>)
      requires CursorValid() && probeCursor < |heads| && matched.None?
      modifies this`probeCursor, this`matched
      ensures CursorValid() && probeCursor == old(probeCursor) + 1
      ensures Ahead(later) == old(Ahead(later))
    {
      hide CursorOk;
      hide Rest;
      ProbeAdvanced(shape, probeTypes, store.contents, heads, probeBatch, probeCursor, later);
      probeCursor := probeCursor + 1;
      if probeCursor < |heads| {
        matched := heads[probeCursor];
      }
    }

    /** Appends the current match to the output columns and follows its chain. */
    method Emit(columns: seq<Vector>, ghost rows: seq<Tuple>, ghost later: seq<Tuple>)
      returns (more: seq<Vector>, ghost row: Tuple)
      requires Wired() && TableOk() && CursorValid() && probeCursor < |heads| && matched.Some?
      requires Stores(columns, types, rows)
      modifies this`matched
      ensures CursorValid() && (matched.Some? ==> old(matched).value < matched.value < store.rows)
      ensures old(matched).value < store.rows
      ensures Stores(more, types, rows + [row])
      ensures Splits(old(Ahead(later)), [row], Ahead(later))
    {
      hide Represents;
      hide PowerOfTwo;
      hide Linked;
      hide CursorOk;
      hide Rest;
      hide Stores;
      hide Splits;
      ghost var m := matched.value;
      ProbeEmitted(shape, probeTypes, store.contents, nexts, tails, index.entries, heads, probeBatch, probeCursor,
                   m, later);
      row := Pair(shape, ActiveRows(heads, probeBatch)[probeCursor], store.contents[m]);
      more := AppendMatch(columns, rows, matched.value);
      matched := nexts[matched.value];
    }

    /** Appends the current probe row paired with one stored row, left columns first. */
    method AppendMatch(columns: seq<Vector>, ghost rows: seq<Tuple>, m: nat) returns (more: seq<Vector>)
      requires Wired() && store.Valid() && CursorValid() && probeCursor < |heads| && m < store.rows
      requires Stores(columns, types, rows)
      ensures Stores(more, types,
                     rows + [Pair(shape, ActiveRows(heads, probeBatch)[probeCursor], store.contents[m])])
    {
      var probeRow := probeBatch.selection.At(probeCursor);
      assert store.contents[m] == TupleAt(store.columns, m);
      if shape.buildRight {
        more := AppendPair(columns, rows, probeBatch.columns, probeTypes, probeBatch.physicalSize, probeRow,
                           store.columns, store.types, store.rows, m);
      } else {
        more := AppendPair(columns, rows, store.columns, store.types, store.rows, m,
                           probeBatch.columns, probeTypes, probeBatch.physicalSize, probeRow);
      }
    }

    /** Fills output columns up to the batch capacity. */
    method Fill() returns (columns: seq<Vector>, n: nat, ghost rows: seq<Tuple>)
      requires Wired() && Attached() && build.Valid() && probe.Valid() && TableOk() && CursorValid()
      modifies this`heads, this`probeBatch, this`probeCursor, this`matched, this`Repr, probe.Repr()
      ensures Attached() && build.Valid() && probe.Valid() && CursorValid() && fresh(Repr - old(Repr))
      ensures Stores(columns, types, rows) && n == |rows| <= batchSize
      ensures Splits(old(Ahead(probe.Todo())), rows, Ahead(probe.Todo()))
      ensures n < batchSize ==> Ahead(probe.Todo()) == []
      decreases depth, 3
    {
      hide Operator.Valid;
      hide Operator.Todo;
      hide Represents;
      hide PowerOfTwo;
      hide Linked;
      hide CursorOk;
      hide Rest;
      hide Stores;
      hide Splits;
      ghost var all := Ahead(probe.Todo());
      columns, n, rows := EmptyColumns(types), 0, [];
      EmptyStores(types);
      SplitStart(all);
      while n < batchSize
        invariant Attached() && build.Valid() && probe.Valid() && CursorValid()
        invariant fresh(Repr - old(Repr)) && fresh(probe.Repr() - old(probe.Repr()))
        invariant Stores(columns, types, rows) && n == |rows| <= batchSize
        invariant Splits(all, rows, Ahead(probe.Todo()))
        decreases |probe.Todo()|, |heads| - probeCursor, if matched.None? then 0 else store.rows + 1 - matched.value
      {
        if probeCursor >= |heads| {
          var loaded := LoadProbe();
          if !loaded {
            ProbeExhausted(shape, probeTypes, store.contents, heads, probeBatch, probeCursor, matched);
            return;
          }
        }
        if matched.None? {
          Advance(probe.Todo());
        } else {
          ghost var before, row := Ahead(probe.Todo()), [];
          columns, row := Emit(columns, rows, probe.Todo());
          SplitMove(all, rows, [row], before, Ahead(probe.Todo()));
          n, rows := n + 1, rows + [row];
        }
      }
    }

    /**
     Delivers the next batch. Whatever the batch capacity and wherever the last call stopped,
     the rows are the next of the join's rows, and only the end of the join ends them.
     */
    method Next() returns (ok: bool, out: Batch)
      requires Valid()
      modifies Repr
      ensures Valid() && fresh(Repr - old(Repr))
      ensures Delivers(old(Todo()), ok, out, Todo(), types, batchSize)
      ensures |shape.buildKeys| == |shape.probeKeys|
      ensures !old(built) ==>
        Delivers(EqualityLaws.EqualPairs(shape, old(build.Todo()), old(probe.Todo())),
                 ok, out, Todo(), types, batchSize)
      decreases depth, 4
    {
      hide Operator.Valid;
      hide Operator.Todo;
      hide Delivers;
      hide Represents;
      hide PowerOfTwo;
      hide Linked;
      hide CursorOk;
      hide Rest;
      hide Stores;
      hide Splits;
      hide JoinTuples;
      hide EqualityLaws.EqualPairs;
      if !built {
        ProductAhead();
        Build();
      }
      if store.rows == 0 {
        NothingToJoin(shape, probeTypes, heads, probeBatch, probeCursor, matched, probe.Todo());
        NothingDelivered(Batch([], Dense(0), 0), types, batchSize);
        return false, Batch([], Dense(0), 0);
      }
      ghost var rows;
      var columns, n;
      ghost var all := Todo();
      columns, n, rows := Fill();
      FilledDelivers(all, columns, rows, Todo(), types, batchSize);
      return n != 0, DenseBatch(columns, n);
    }
  }

  class HashAggregate {
    const shape: GroupShape
    const types: seq<Type>
    const batchSize: nat
    const child: Operator
    const keys: RowStore
    const index: HashIndex
    const storedKeys: seq<nat>
    var states: seq<State>
    var consumed: bool
    var cursor: nat
    ghost var rows: seq<Tuple>
    ghost const inputTypes: seq<Type>
    ghost const depth: nat
    ghost var Repr: set<object>

    ghost predicate Wired() {
      && batchSize > 0 && storedKeys == Iota(|shape.keys|)
      && KeyTypes(shape.keys, inputTypes, keys.types)
      && SlotsBound(shape, inputTypes)
      && types == keys.types + SlotTypes(shape.slots)
    }

    ghost predicate Attached()
      reads this, index, child.Anchor()
    {
      && child.OutputTypes() == inputTypes && child.Capacity() == batchSize && child.Depth() < depth
      && {this, keys, index, index.buckets} <= Repr && child.Repr() <= Repr
      && {this, keys, index, index.buckets} !! child.Repr()
    }

    /** Key store, states and index agree with the groups of the rows consumed so far. */
    ghost predicate TableOk()
      reads `rows, `states, keys, index, index.buckets
    {
      && keys.Valid() && index.Valid()
      && GroupsOk(shape, rows, keys.contents, states, index.entries)
      && AllTypedRows(rows, inputTypes)
    }

    ghost predicate Valid()
      reads this, Repr
      ensures Valid() ==> this in Repr
      decreases depth, 0
    {
      && this in Repr && index in Repr && child.Anchor() in Repr
      && Wired() && Attached() && child.Valid() && keys.Valid() && index.Valid()
      && (if consumed then TableOk()
          else rows == [] && keys.contents == [] && states == [] && index.entries == map[] && cursor == 0)
    }

    ghost function Todo(): seq<Tuple>
      requires Valid()
      reads this, Repr
      decreases depth, 0
    {
      if consumed then GroupsFrom(shape, rows, GroupLeaders(shape, rows), cursor)
      else GroupTuples(shape, child.Todo())
    }

    constructor (shape: GroupShape, keyTypes: seq<Type>, child: Operator)
      requires child.Valid() && child.Capacity() > 0
      requires KeyTypes(shape.keys, child.OutputTypes(), keyTypes) && SlotsBound(shape, child.OutputTypes())
      ensures Valid() && child.Valid() && fresh(Repr - old(child.Repr()))
      ensures types == keyTypes + SlotTypes(shape.slots) && batchSize == child.Capacity()
      ensures Todo() == GroupTuples(shape, child.Todo())
    {
      hide Operator.Valid;
      hide Operator.Todo;
      hide Operator.Depth;
      hide Operator.OutputTypes;
      hide Operator.Capacity;
      hide HashIndex.Valid;
      hide RowStore.Valid;
      hide SlotsBound;
      hide KeyTypes;
      hide GroupTuples;
      this.shape, this.child := shape, child;
      batchSize, depth, inputTypes := child.Capacity(), child.Depth() + 1, child.OutputTypes();
      types := keyTypes + SlotTypes(shape.slots);
      storedKeys := Iota(|shape.keys|);
      states, consumed, cursor, rows := [], false, 0, [];
      ghost var below := child.Repr();
      var store := new RowStore(keyTypes);
      var slots := new HashIndex(16);
      keys, index := store, slots;
      Repr := {this, store, slots, slots.buckets} + below;
    }

    // -------------------------------------------------------------------------------------
    // Consuming.

    /** The group of a row, opened if the row is the first of its key. */
    method FindGroup(b: Batch, r: nat) returns (group: nat)
      requires Wired() && TableOk() && b.Valid(inputTypes) && r < b.physicalSize
      modifies this`states, keys, index, index.buckets
      ensures keys.Valid() && index.Valid() && (index.buckets == old(index.buckets) || fresh(index.buckets))
      ensures RowPending(shape, rows, TupleAt(b.columns, r), keys.contents, states, index.entries, group, 0)
    {
      hide GroupsOk;
      hide RowPending;
      hide Represents;
      hide PowerOfTwo;
      hide SameGroup;
      hide HashRow;
      hide PickCells;
      hide TupleAt;
      hide Stores;
      hide AllTypedRows;
      hide SlotsBound;
      hide InitialStates;
      var t := TupleAt(b.columns, r);
      if shape.keys == [] {
        GlobalGroup(shape, rows, keys.contents, states, index.entries, t);
        return 0;
      }
      var id, equal := keys.rows, SameGroup(keys.columns, storedKeys, t, shape.keys);
      ghost var stored, columns, entries := keys.contents, keys.columns, index.entries;
      GroupsIds(shape, rows, stored, states, entries);
      var inserted;
      group, inserted := index.FindOrInsert(HashRow(shape.keys, t), equal, id);
      if inserted {
        GroupMissed(shape, columns, keys.types, rows, stored, states, entries, t);
        GroupOpened(shape, rows, stored, states, entries, t);
        keys.AppendKey(b, inputTypes, shape.keys, r);
        states := states + InitialStates(|shape.slots|);
      } else {
        GroupFound(shape, columns, keys.types, rows, stored, states, entries, t, group);
      }
    }

    /** Updates every aggregate of the row's group. */
    method ConsumeRow(b: Batch, r: nat)
      requires Wired() && TableOk() && b.Valid(inputTypes) && r < b.physicalSize
      modifies this`states, this`rows, keys, index, index.buckets
      ensures TableOk() && (index.buckets == old(index.buckets) || fresh(index.buckets))
      ensures rows == old(rows) + [TupleAt(b.columns, r)]
    {
      hide GroupsOk;
      hide RowPending;
      hide Represents;
      hide PowerOfTwo;
      hide TupleAt;
      hide Stores;
      hide SlotsBound;
      hide StepRow;
      hide KeyTypes;
      var t := TupleAt(b.columns, r);
      var group := FindGroup(b, r);
      for a := 0 to |shape.slots|
        invariant keys.Valid() && index.Valid()
        invariant RowPending(shape, rows, t, keys.contents, states, index.entries, group, a)
        modifies this`states
      {
        SlotStepped(shape, rows, t, keys.contents, states, index.entries, group, a);
        var p := Position(group, a, |shape.slots|);
        states := states[p := StepRow(shape.slots[a], states[p], t)];
      }
      RowFinished(shape, rows, t, keys.contents, states, index.entries, group);
      TupleAtTyped(b.columns, inputTypes, b.physicalSize, r);
      rows := rows + [t];
    }

    /** Groups the active rows of one input batch, leaving the operators below alone. */
    method ConsumeBatch(b: Batch)
      requires Wired() && Attached() && child.Valid() && TableOk() && b.Valid(inputTypes)
      modifies this`states, this`rows, this`Repr, keys, index, index.buckets
      ensures Attached() && child.Valid() && child.Repr() == old(child.Repr()) && child.Todo() == old(child.Todo())
      ensures TableOk() && (index.buckets == old(index.buckets) || fresh(index.buckets)) && fresh(Repr - old(Repr))
      ensures rows == old(rows) + b.Active()
    {
      hide Operator.Valid;
      hide Operator.Todo;
      hide TableOk;
      hide Wired;
      ghost var active, before := b.Active(), rows;
      TakeAll(before, active);
      for j := 0 to b.selection.Size()
        invariant TableOk() && (index.buckets == old(index.buckets) || fresh(index.buckets))
        invariant rows == before + active[..j]
        modifies this`states, this`rows, keys, index, index.buckets
      {
        TakeNext(before, active, j);
        ConsumeRow(b, b.selection.At(j));
      }
      Repr := Repr + {index.buckets};
    }

    /** Pulls the next batch of the child. */
    method Pull() returns (ok: bool, b: Batch)
      requires Attached() && child.Valid()
      modifies this`Repr, child.Repr()
      ensures Attached() && child.Valid() && fresh(Repr - old(Repr))
      ensures fresh(child.Repr() - old(child.Repr()))
      ensures Delivers(old(child.Todo()), ok, b, child.Todo(), inputTypes, batchSize)
      decreases depth, 1
    {
      hide Delivers;
      hide Operator.Valid;
      hide Operator.Todo;
      ok, b := child.Next();
      Repr := Repr + child.Repr();
    }

    /** Without keys there is one group from the start. */
    method Prepare()
      requires Wired() && keys.Valid() && index.Valid()
      requires rows == [] && keys.contents == [] && states == [] && index.entries == map[]
      modifies this`states, keys
      ensures TableOk()
    {
      hide GroupsOk;
      hide Represents;
      hide PowerOfTwo;
      hide AllTypedRows;
      hide SlotsBound;
      hide Stores;
      NoRowsYet(shape);
      NothingTyped(inputTypes);
      if shape.keys == [] {
        keys.AppendKey(Batch([], Dense(0), 1), [], [], 0);
        states := InitialStates(|shape.slots|);
        assert keys.contents == [[]];
      }
    }

    /** Groups the whole input. */
    method ConsumeInput()
      requires Wired() && Attached() && child.Valid() && TableOk() && rows == []
      modifies this`states, this`rows, this`Repr, keys, index, index.buckets, child.Repr()
      ensures Attached() && child.Valid() && fresh(Repr - old(Repr))
      ensures TableOk() && rows == old(child.Todo())
      decreases depth, 2
    {
      hide Operator.Valid;
      hide Operator.Todo;
      hide Delivers;
      hide Splits;
      hide TableOk;
      hide Wired;
      ghost var all, coming := child.Todo(), child.Todo();
      SplitStart(all);
      var ok, b := Pull();
      while ok
        invariant Attached() && child.Valid() && fresh(Repr - old(Repr)) && fresh(child.Repr() - old(child.Repr()))
        invariant TableOk() && (index.buckets == old(index.buckets) || fresh(index.buckets))
        invariant Delivers(coming, ok, b, child.Todo(), inputTypes, batchSize) && Splits(all, rows, coming)
        decreases ok, |coming|
      {
        DeliversRows(coming, b, child.Todo(), inputTypes, batchSize);
        SplitMove(all, rows, b.Active(), coming, child.Todo());
        ConsumeBatch(b);
        coming := child.Todo();
        ok, b := Pull();
      }
      DeliversEnd(coming, b, child.Todo(), inputTypes, batchSize);
      SplitEnd(all, rows);
    }

    /** Reads the whole input; afterwards the groups are those of all its rows. */
    method Consume()
      requires Valid() && !consumed
      modifies Repr
      ensures Valid() && fresh(Repr - old(Repr)) && consumed && Todo() == old(Todo())
      decreases depth, 3
    {
      hide Operator.Valid;
      hide Operator.Todo;
      hide TableOk;
      hide HashIndex.Valid;
      hide RowStore.Valid;
      hide Wired;
      hide GroupsFrom;
      consumed := true;
      Prepare();
      ConsumeInput();
      TableParts();
    }

    lemma TableParts()
      requires TableOk()
      ensures keys.Valid() && index.Valid()
    {
    }

    // -------------------------------------------------------------------------------------
    // Emitting.

    /** Appends the row of one group to the output columns. */
    method EmitGroup(columns: seq<Vector>, ghost out: seq<Tuple>) returns (more: seq<Vector>, ghost row: Tuple)
      requires Wired() && TableOk() && cursor < keys.rows && Stores(columns, types, out)
      ensures Stores(more, types, out + [row])
      ensures cursor < |GroupLeaders(shape, rows)|
      ensures row == GroupTuple(shape, GroupLeaders(shape, rows)[cursor],
                                MembersOf(shape, KeyAt(shape, GroupLeaders(shape, rows)[cursor]), rows))
    {
      hide GroupsOk;
      hide Represents;
      hide PowerOfTwo;
      hide AllTypedRows;
      hide SlotsBound;
      hide Shown;
      GroupShown(shape, rows, keys.contents, states, index.entries, inputTypes, cursor);
      var shown: Tuple := [];
      ghost var members := MembersOf(shape, KeyAt(shape, GroupLeaders(shape, rows)[cursor]), rows);
      for a := 0 to |shape.slots|
        invariant shown == SlotValues(shape.slots, members)[..a]
      {
        shown := shown + [Shown(shape.slots[a].kind, shape.slots[a].typ, states[Position(cursor, a, |shape.slots|)])];
      }
      row := keys.contents[cursor] + shown;
      assert shown == SlotValues(shape.slots, members);
      assert TupleAt(keys.columns, cursor) == keys.contents[cursor];
      more := AppendRowAndValues(columns, out, keys.columns, keys.types, keys.rows, cursor,
                                 shown, SlotTypes(shape.slots));
    }

    /** Fills output columns up to the batch capacity. */
    method Fill() returns (columns: seq<Vector>, n: nat, ghost emitted: seq<Tuple>)
      requires Wired() && TableOk()
      modifies this`cursor
      ensures Stores(columns, types, emitted) && n == |emitted| <= batchSize
      ensures Splits(GroupsFrom(shape, rows, GroupLeaders(shape, rows), old(cursor)), emitted,
                     GroupsFrom(shape, rows, GroupLeaders(shape, rows), cursor))
      ensures n < batchSize ==> GroupsFrom(shape, rows, GroupLeaders(shape, rows), cursor) == []
    {
      hide GroupsOk;
      hide Represents;
      hide PowerOfTwo;
      hide AllTypedRows;
      hide SlotsBound;
      hide Stores;
      hide Splits;
      hide GroupTuple;
      hide GroupsFrom;
      hide GroupLeaders;
      hide KeyTypes;
      hide SlotTypes;
      ghost var leaders := GroupLeaders(shape, rows);
      ghost var all := GroupsFrom(shape, rows, leaders, cursor);
      GroupsIds(shape, rows, keys.contents, states, index.entries);
      columns, n, emitted := EmptyColumns(types), 0, [];
      EmptyStores(types);
      SplitStart(all);
      while cursor < keys.rows && n < batchSize
        invariant Stores(columns, types, emitted) && n == |emitted| <= batchSize
        invariant Splits(all, emitted, GroupsFrom(shape, rows, leaders, cursor))
      {
        ghost var row;
        columns, row := EmitGroup(columns, emitted);
        NextGroup(shape, rows, leaders, cursor);
        SplitMove(all, emitted, [row],
                  GroupsFrom(shape, rows, leaders, cursor), GroupsFrom(shape, rows, leaders, cursor + 1));
        emitted := emitted + [row];
        cursor, n := cursor + 1, n + 1;
      }
      if n < batchSize {
        NoMoreGroups(shape, rows, leaders, cursor);
      }
    }

    /**
     Delivers the next batch: whatever the input batching and the batch capacity, the next groups
     in order of first appearance, with the aggregates of their rows.
     */
    method Next() returns (ok: bool, out: Batch)
      requires Valid()
      modifies Repr
      ensures Valid() && fresh(Repr - old(Repr))
      ensures Delivers(old(Todo()), ok, out, Todo(), types, batchSize)
      decreases depth, 4
    {
      hide Operator.Valid;
      hide Operator.Todo;
      hide Delivers;
      hide GroupsOk;
      hide Represents;
      hide PowerOfTwo;
      hide AllTypedRows;
      hide SlotsBound;
      hide Stores;
      hide Splits;
      hide GroupTuples;
      hide GroupsFrom;
      hide GroupLeaders;
      hide KeyTypes;
      hide SlotTypes;
      if !consumed {
        Consume();
      }
      ghost var all, emitted := Todo(), [];
      var columns, n;
      columns, n, emitted := Fill();
      FilledDelivers(all, columns, emitted, Todo(), types, batchSize);
      return n != 0, DenseBatch(columns, n);
    }
  }

  // ---------------------------------------------------------------------------------------
  // New operators above given ones.

  lemma FilterIsOperator(o: Filter)
    requires o.Valid()
    ensures FilterNode(o).Valid() && FilterNode(o).Todo() == o.Todo()
  {
    hide Filter.Valid;
    hide Filter.Todo;
  }

  lemma ProjectionIsOperator(o: Projection)
    requires o.Valid()
    ensures ProjectionNode(o).Valid() && ProjectionNode(o).Todo() == o.Todo()
  {
    hide Projection.Valid;
    hide Projection.Todo;
  }

  lemma LimitIsOperator(o: Limit)
    requires o.Valid()
    ensures LimitNode(o).Valid() && LimitNode(o).Todo() == o.Todo()
  {
    hide Limit.Valid;
    hide Limit.Todo;
  }

  lemma SortIsOperator(o: Sort)
    requires o.Valid()
    ensures SortNode(o).Valid() && SortNode(o).Todo() == o.Todo()
  {
    hide Sort.Valid;
    hide Sort.Todo;
  }

  lemma HashJoinIsOperator(o: HashJoin)
    requires o.Valid()
    ensures JoinNode(o).Valid() && JoinNode(o).Todo() == o.Todo()
  {
    hide HashJoin.Valid;
    hide HashJoin.Todo;
  }

  lemma HashAggregateIsOperator(o: HashAggregate)
    requires o.Valid()
    ensures AggregateNode(o).Valid() && AggregateNode(o).Todo() == o.Todo()
  {
    hide HashAggregate.Valid;
    hide HashAggregate.Todo;
  }

  method FilterOver(schema: Schema, child: Operator, condition: Expr) returns (op: Operator)
    requires child.Valid() && child.OutputTypes() == SchemaTypes(schema)
    requires ExpressionType(condition, Types(schema)) == Some(BooleanType)
    ensures op.Valid() && fresh(op.Repr() - old(child.Repr()))
    ensures op.OutputTypes() == child.OutputTypes() && op.Capacity() == child.Capacity()
    ensures op.Todo() == FilterTuples(schema, condition, old(child.Todo()))
  {
    hide FilterTuples;
    hide ExpressionType;
    hide Operator.Valid;
    hide Operator.Todo;
    hide Filter.Valid;
    hide Filter.Todo;
    var filter := new Filter(schema, child, condition);
    FilterIsOperator(filter);
    op := FilterNode(filter);
  }

  method ProjectionOver(schema: Schema, child: Operator, expressions: seq<NamedExpr>) returns (op: Operator)
    requires child.Valid() && child.OutputTypes() == SchemaTypes(schema)
    requires ExpressionsTyped(expressions, Types(schema))
    ensures op.Valid() && fresh(op.Repr() - old(child.Repr()))
    ensures op.OutputTypes() == SchemaTypes(OutputFields(expressions)) && op.Capacity() == child.Capacity()
    ensures op.Todo() == ProjectTuples(schema, expressions, old(child.Todo()))
  {
    hide ProjectTuples;
    hide ExpressionsTyped;
    hide Operator.Valid;
    hide Operator.Todo;
    hide Projection.Valid;
    hide Projection.Todo;
    var projection := new Projection(schema, child, expressions);
    ProjectionIsOperator(projection);
    op := ProjectionNode(projection);
  }

  method LimitOver(child: Operator, count: nat) returns (op: Operator)
    requires child.Valid()
    ensures op.Valid() && fresh(op.Repr() - old(child.Repr()))
    ensures op.OutputTypes() == child.OutputTypes() && op.Capacity() == child.Capacity()
    ensures op.Todo() == Take(old(child.Todo()), count)
  {
    hide Operator.Valid;
    hide Operator.Todo;
    hide Limit.Valid;
    hide Limit.Todo;
    var limit := new Limit(child, count);
    LimitIsOperator(limit);
    op := LimitNode(limit);
  }

  method SortOver(shape: SortShape, child: Operator) returns (op: Operator)
    requires child.Valid() && child.Capacity() > 0
    ensures op.Valid() && fresh(op.Repr() - old(child.Repr()))
    ensures op.OutputTypes() == child.OutputTypes() && op.Capacity() == child.Capacity()
    ensures op.Todo() == SortTuples(shape, old(child.Todo()))
  {
    hide SortTuples;
    hide Operator.Valid;
    hide Operator.Todo;
    hide Sort.Valid;
    hide Sort.Todo;
    var sort := new Sort(shape, child);
    SortIsOperator(sort);
    op := SortNode(sort);
  }

  method JoinOver(shape: JoinShape, build: Operator, probe: Operator) returns (op: Operator)
    requires build.Valid() && probe.Valid() && build.Repr() !! probe.Repr()
    requires build.Capacity() == probe.Capacity() > 0 && |shape.buildKeys| == |shape.probeKeys|
    ensures op.Valid() && fresh(op.Repr() - old(build.Repr() + probe.Repr()))
    ensures op.Capacity() == build.Capacity()
    ensures op.OutputTypes() == if shape.buildRight then probe.OutputTypes() + build.OutputTypes()
                                else build.OutputTypes() + probe.OutputTypes()
    ensures op.Todo() == JoinTuples(shape, old(build.Todo()), old(probe.Todo()))
  {
    hide JoinTuples;
    hide Operator.Valid;
    hide Operator.Todo;
    hide HashJoin.Valid;
    hide HashJoin.Todo;
    var join := new HashJoin(shape, build, probe);
    HashJoinIsOperator(join);
    op := JoinNode(join);
  }

  method AggregateOver(shape: GroupShape, keyTypes: seq<Type>, child: Operator) returns (op: Operator)
    requires child.Valid() && child.Capacity() > 0
    requires KeyTypes(shape.keys, child.OutputTypes(), keyTypes) && SlotsBound(shape, child.OutputTypes())
    ensures op.Valid() && fresh(op.Repr() - old(child.Repr()))
    ensures op.OutputTypes() == keyTypes + SlotTypes(shape.slots) && op.Capacity() == child.Capacity()
    ensures op.Todo() == GroupTuples(shape, old(child.Todo()))
  {
    hide GroupTuples;
    hide KeyTypes;
    hide SlotsBound;
    hide Operator.Valid;
    hide Operator.Todo;
    hide HashAggregate.Valid;
    hide HashAggregate.Todo;
    var aggregate := new HashAggregate(shape, keyTypes, child);
    HashAggregateIsOperator(aggregate);
    op := AggregateNode(aggregate);
  }
}
