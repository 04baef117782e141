/** Keys of positional rows, their hashes, and the columnar payload of the blocking operators. */
module RowStore {
  import opened Values
  import opened Relations
  import opened Batches

  function CellOf(t: Tuple, k: nat): Value {
    if k < |t| then t[k] else Null
  }

  /** The key class of a row: equal exactly when `equal_cell` accepts every key column. */
  function TupleKey(indices: seq<nat>, t: Tuple): (key: seq<Value>)
    ensures |key| == |indices| && forall i :: 0 <= i < |indices| ==> key[i] == Canon(CellOf(t, indices[i]))
  {
    seq(|indices|, i requires 0 <= i < |indices| => Canon(CellOf(t, indices[i])))
  }

  predicate EqualKey(a: Tuple, aKeys: seq<nat>, b: Tuple, bKeys: seq<nat>)
    requires |aKeys| == |bKeys|
  {
    forall i :: 0 <= i < |aKeys| ==> CompareCell(CellOf(a, aKeys[i]), CellOf(b, bKeys[i])) == 0
  }

  lemma EqualKeyIsTupleKey(a: Tuple, aKeys: seq<nat>, b: Tuple, bKeys: seq<nat>)
    requires |aKeys| == |bKeys|
    ensures EqualKey(a, aKeys, b, bKeys) <==> TupleKey(aKeys, a) == TupleKey(bKeys, b)
  {
    forall i | 0 <= i < |aKeys|
      ensures CompareCell(CellOf(a, aKeys[i]), CellOf(b, bKeys[i])) == 0
         <==> TupleKey(aKeys, a)[i] == TupleKey(bKeys, b)[i]
    {
      CompareEqualIsCanon(CellOf(a, aKeys[i]), CellOf(b, bKeys[i]));
    }
  }

  /** NULL and NaN keys take no part in a join. */
  predicate JoinableTuple(indices: seq<nat>, t: Tuple) {
    forall i :: 0 <= i < |indices| ==> JoinableCell(CellOf(t, indices[i]))
  }

  // ---------------------------------------------------------------------------------------
  // Hashing. The bit mixing is left uninterpreted: only its being a function matters.

  const MixHash: bv64 -> bv64
  const HashBytes: Text -> bv64
  const DoubleBits: Double -> bv64

  function IntBits(i: Int64): bv64 {
    assert InInt64(i);
    if i >= 0 then i as bv64 else (i + 0x1_0000_0000_0000_0000) as bv64
  }

  function HashCell(v: Value): bv64 {
    match v
    case Null => 0x9e3779b97f4a7c15
    case Bool(b) => MixHash(if b then 1 else 0)
    case Int(i) => MixHash(IntBits(i))
    case Dbl(d) =>
      var x := if d.Zero? then Zero(false) else d;
      MixHash(if x.NaN? then 0x7ff8000000000000 else DoubleBits(x))
    case Str(s) => MixHash(HashBytes(s))
  }

  function HashFrom(h: bv64, indices: seq<nat>, t: Tuple): bv64
    decreases |indices|
  {
    if indices == [] then h
    else HashFrom(MixHash(h ^ HashCell(CellOf(t, indices[0]))), indices[1..], t)
  }

  function HashRow(indices: seq<nat>, t: Tuple): nat {
    HashFrom(0x243f6a8885a308d3, indices, t) as nat
  }

  lemma {:induction false} HashFromRespectsKeys(h: bv64, aKeys: seq<nat>, a: Tuple, bKeys: seq<nat>, b: Tuple)
    requires |aKeys| == |bKeys| && TupleKey(aKeys, a) == TupleKey(bKeys, b)
    ensures HashFrom(h, aKeys, a) == HashFrom(h, bKeys, b)
    decreases |aKeys|
  {
    if aKeys != [] {
      assert TupleKey(aKeys, a)[0] == TupleKey(bKeys, b)[0];
      assert HashCell(CellOf(a, aKeys[0])) == HashCell(CellOf(b, bKeys[0]));
      forall i | 0 <= i < |aKeys| - 1 ensures TupleKey(aKeys[1..], a)[i] == TupleKey(bKeys[1..], b)[i] {
        assert TupleKey(aKeys, a)[i + 1] == TupleKey(bKeys, b)[i + 1];
      }
      HashFromRespectsKeys(MixHash(h ^ HashCell(CellOf(a, aKeys[0]))), aKeys[1..], a, bKeys[1..], b);
    }
  }

  /** Rows with equal keys have equal hashes: both zeros, and all NaNs, hash alike. */
  lemma HashRespectsKeys(aKeys: seq<nat>, a: Tuple, bKeys: seq<nat>, b: Tuple)
    requires |aKeys| == |bKeys| && TupleKey(aKeys, a) == TupleKey(bKeys, b)
    ensures HashRow(aKeys, a) == HashRow(bKeys, b)
  {
    HashFromRespectsKeys(0x243f6a8885a308d3, aKeys, a, bKeys, b);
  }

  // ---------------------------------------------------------------------------------------

  /** The key columns of a row, as they are stored. */
  function PickCells(keys: seq<nat>, t: Tuple): (k: Tuple)
    ensures |k| == |keys| && forall i :: 0 <= i < |keys| ==> k[i] == CellOf(t, keys[i])
  {
    seq(|keys|, i requires 0 <= i < |keys| => CellOf(t, keys[i]))
  }

  function PickColumns(columns: seq<Vector>, keys: seq<nat>): (picked: seq<Vector>)
    requires forall i :: 0 <= i < |keys| ==> keys[i] < |columns|
    ensures |picked| == |keys| && forall i :: 0 <= i < |keys| ==> picked[i] == columns[keys[i]]
  {
    seq(|keys|, i requires 0 <= i < |keys| => columns[keys[i]])
  }

  predicate KeyTypes(keys: seq<nat>, types: seq<Type>, keyTypes: seq<Type>) {
    |keys| == |keyTypes| && forall i :: 0 <= i < |keys| ==> keys[i] < |types| && types[keys[i]] == keyTypes[i]
  }

  lemma PickedTuple(columns: seq<Vector>, types: seq<Type>, n: nat, keys: seq<nat>, keyTypes: seq<Type>, r: nat)
    requires ColumnsOk(columns, types, n) && r < n && KeyTypes(keys, types, keyTypes)
    ensures ColumnsOk(PickColumns(columns, keys), keyTypes, n)
    ensures TupleAt(PickColumns(columns, keys), r) == PickCells(keys, TupleAt(columns, r))
  {
    forall i | 0 <= i < |keys| ensures ColumnOk(PickColumns(columns, keys), keyTypes, n, i) {
      assert ColumnOk(columns, types, n, keys[i]);
    }
  }

  class RowStore {
    const types: seq<Type>
    var columns: seq<Vector>
    var rows: nat
    ghost var contents: seq<Tuple>

    ghost predicate Valid()
      reads this
    {
      Stores(columns, types, contents) && rows == |contents|
    }

    constructor (types: seq<Type>)
      ensures Valid() && this.types == types && contents == []
    {
      this.types := types;
      columns, rows, contents := EmptyColumns(types), 0, [];
      EmptyStores(types);
    }

    method AppendRow(source: seq<Vector>, ghost size: nat, r: nat)
      requires Valid() && ColumnsOk(source, types, size) && r < size
      modifies this
      ensures Valid() && contents == old(contents) + [TupleAt(source, r)]
    {
      var more := AppendColumns(columns, 0, source, r);
      AppendedTuple(columns, types, contents, more, source, size, r);
      columns, rows := more, rows + 1;
      contents := contents + [TupleAt(source, r)];
    }

    /** Appends one physical row of a batch. */
    method Append(b: Batch, r: nat)
      requires Valid() && b.Valid(types) && r < b.physicalSize
      modifies this
      ensures Valid() && contents == old(contents) + [TupleAt(b.columns, r)]
    {
      AppendRow(b.columns, b.physicalSize, r);
    }

    /** Appends the key columns of one physical row of a batch. */
    method AppendKey(b: Batch, ghost batchTypes: seq<Type>, keys: seq<nat>, r: nat)
      requires Valid() && b.Valid(batchTypes) && r < b.physicalSize
      requires KeyTypes(keys, batchTypes, types)
      modifies this
      ensures Valid()
      ensures contents == old(contents) + [PickCells(keys, TupleAt(b.columns, r))]
    {
      PickedTuple(b.columns, batchTypes, b.physicalSize, keys, types, r);
      AppendRow(PickColumns(b.columns, keys), b.physicalSize, r);
    }
  }
}
