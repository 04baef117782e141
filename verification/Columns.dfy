/** Columns as they are stored: typed payloads or a string arena, and a validity bitmap. */
module Columns {
  import opened Values
  import opened Words
  import opened Bitmaps
  import V = Validity
  import opened Arenas
  import opened Batches

  /** Fixed-width payloads, or strings in an arena. */
  datatype Data = Fixed(values: seq<Value>) | Packed(offsets: seq<Offset>, bytes: Text)

  ghost predicate DataOk(typ: Type, data: Data, rows: nat) {
    && (data.Packed? <==> typ.StringType?)
    && match data
       case Fixed(values) =>
         |values| == rows && forall i :: 0 <= i < rows ==> !values[i].Null? && HasType(values[i], typ)
       case Packed(offsets, bytes) => ArenaOk(offsets, bytes, rows)
  }

  /** The payload of every row. */
  function Payloads(data: Data, rows: nat): seq<Value> {
    match data
    case Fixed(values) => values
    case Packed(offsets, bytes) => Strings(offsets, bytes, rows)
  }

  function ZeroOffsets(n: nat): (offsets: seq<Offset>)
    ensures |offsets| == n && forall i :: 0 <= i < n ==> offsets[i] == 0
  {
    seq(n, _ => 0)
  }

  function EmptyData(typ: Type, rows: nat): Data {
    if typ.StringType? then Packed(ZeroOffsets(rows + 1), []) else Fixed(seq(rows, _ => DefaultPayload(typ)))
  }

  /** Whether one more payload fits; only the string arena is bounded. */
  predicate Fits(data: Data, v: Value) {
    data.Packed? && v.Str? ==> |data.bytes| + |v.s| <= MAX_OFFSET
  }

  function Extended(data: Data, v: Value): Data
    requires Fits(data, v)
  {
    match data
    case Fixed(values) => Fixed(values + [v])
    case Packed(offsets, bytes) =>
      if v.Str? then Packed(offsets + [|bytes| + |v.s|], bytes + v.s) else data
  }

  lemma ExtendedPayloads(typ: Type, data: Data, rows: nat, v: Value)
    requires DataOk(typ, data, rows) && Fits(data, v) && !v.Null? && HasType(v, typ)
    ensures DataOk(typ, Extended(data, v), rows + 1)
    ensures Payloads(Extended(data, v), rows + 1) == Payloads(data, rows) + [v]
  {
    if data.Packed? {
      OneString(data.offsets, data.bytes, rows, v.s);
    }
  }

  lemma EmptyPayloads(typ: Type, rows: nat)
    ensures DataOk(typ, EmptyData(typ, rows), rows)
    ensures |Payloads(EmptyData(typ, rows), rows)| == rows
    ensures forall i :: 0 <= i < rows ==> Payloads(EmptyData(typ, rows), rows)[i] == DefaultPayload(typ)
  {
    if typ.StringType? {
      EmptyStrings(rows, ZeroOffsets(rows + 1));
    }
  }

  /** Offsets are 32 bits wide: the strings of a column take less than 4 GiB. */
  ghost predicate RoomFor(stored: seq<Value>, more: seq<Value>) {
    StringBytes(stored) + StringBytes(more) < 0x1_0000_0000
  }

  lemma FitsExactly(typ: Type, data: Data, rows: nat, v: Value)
    requires DataOk(typ, data, rows) && HasType(v, typ)
    ensures Fits(data, v) <==> (v.Str? ==> RoomFor(Payloads(data, rows), [v]))
  {
    assert [v][..0] == [];
    if data.Packed? && v.Str? {
      assert StringBytes([v]) == |v.s|;
      ArenaTakes(data.offsets, data.bytes, rows);
    }
  }

  lemma RangeFitsExactly(typ: Type, data: Data, rows: nat, source: Data, sourceRows: nat, start: nat, count: nat)
    requires DataOk(typ, data, rows) && DataOk(typ, source, sourceRows) && typ.StringType?
    requires start + count <= sourceRows
    ensures |source.offsets| == sourceRows + 1
    ensures source.offsets[start + count] - source.offsets[start] <= MAX_OFFSET - |data.bytes|
       <==> RoomFor(Payloads(data, rows), Payloads(source, sourceRows)[start..start + count])
  {
    ArenaTakes(data.offsets, data.bytes, rows);
    RangeTakes(source.offsets, source.bytes, sourceRows, start, count);
  }

  class Column {
    const typ: Type
    var data: Data
    const validity: V.Validity

    ghost predicate Valid()
      reads this, validity
    {
      validity.Valid() && DataOk(typ, data, validity.size)
    }

    /** Only a bitmap that is clear past its end counts its NULLs right when it grows. */
    ghost predicate Growable()
      reads this, validity
    {
      Valid() && validity.Clear()
    }

    /** The column as operators see it. */
    ghost function View(): Vector
      reads this, validity
    {
      Vector(typ, Payloads(data, validity.size), validity.View())
    }

    constructor (typ: Type)
      ensures Growable() && this.typ == typ && View() == Vector(typ, [], []) && fresh(validity)
    {
      this.typ, data := typ, EmptyData(typ, 0);
      validity := new V.Validity();
      EmptyPayloads(typ, 0);
    }

    method Reset(n: nat)
      modifies this, validity
      ensures Valid() && validity.size == n && (n % 64 == 0 ==> Growable())
      ensures forall i :: 0 <= i < n ==>
        View().CellAt(i) == match typ
                            case BooleanType => Bool(false)
                            case Int64Type => Int(0)
                            case DoubleType => Dbl(Zero(false))
                            case StringType => Str([])
    {
      data := EmptyData(typ, n);
      EmptyPayloads(typ, n);
      validity.Reset(n, true);
    }

    /** Adds one payload with its validity; a full string arena refuses it and changes nothing. */
    method Append(payload: Value, valid: bool) returns (ok: bool)
      requires Growable() && !payload.Null? && HasType(payload, typ)
      modifies this`data, validity
      ensures ok <==> (payload.Str? ==> RoomFor(old(View().data), [payload]))
      ensures Growable()
      ensures View() == if ok then Vector(typ, old(View().data) + [payload], old(View().valid) + [valid])
                        else old(View())
    {
      ok := Fits(data, payload);
      FitsExactly(typ, data, validity.size, payload);
      if ok {
        ExtendedPayloads(typ, data, validity.size, payload);
        data := Extended(data, payload);
        validity.Append(valid);
      }
    }

    method AppendNull()
      requires Growable()
      modifies this`data, validity
      ensures Growable() && View() == old(View()).AppendValue(Null)
    {
      FitsExactly(typ, data, validity.size, DefaultPayload(typ));
      var ok := Append(DefaultPayload(typ), false);
    }

    /** Adds a value; one of another type, or one that does not fit, is refused. */
    method AppendValue(v: Value) returns (ok: bool)
      requires Growable()
      modifies this`data, validity
      ensures ok <==> HasType(v, typ) && (v.Str? ==> RoomFor(old(View().data), [v]))
      ensures Growable()
      ensures View() == if ok then old(View()).AppendValue(v) else old(View())
    {
      if v.Null? {
        AppendNull();
        return true;
      }
      ok := HasType(v, typ);
      if ok {
        ok := Append(v, true);
      }
    }

    /**
     Copies one row of a column of the same type; a full string arena refuses it. The column may be
     the source itself, unless it holds strings, whose bytes the copy would read while they move.
     */
    method AppendFrom(source: Column, row: nat) returns (ok: bool)
      requires Growable() && source.Valid() && row < source.validity.size
      requires if source == this then data.Fixed? else source.validity != validity
      modifies this`data, validity
      ensures ok <==> source.typ == typ && (typ.StringType? ==>
                RoomFor(old(View().data), [old(source.View().data[row])]))
      ensures Growable() && (source != this ==> source.View() == old(source.View()))
      ensures View() == if ok then old(View()).AppendFrom(old(source.View()), row) else old(View())
    {
      ok := source.typ == typ;
      if ok {
        PayloadTyped(source.typ, source.data, source.validity.size, row);
        ok := Append(Payloads(source.data, source.validity.size)[row], source.validity.IsValid(row));
      }
    }

    /**
     Copies a range of rows of another column: the column afterwards is the one that copying the
     rows one by one gives. A range out of bounds, a column of another type, the column itself and
     a range that would overflow the arena's 32-bit offsets are refused, with nothing changed.
     */
    method AppendRange(source: Column, start: nat, count: nat) returns (ok: bool)
      requires Growable() && source.Valid() && (source != this ==> source.validity != validity)
      modifies this`data, validity
      ensures ok <==> (source != this && source.typ == typ && start + count <= source.validity.size
                       && (typ.StringType? ==>
                             RoomFor(old(View().data), source.View().data[start..start + count])))
      ensures Growable()
      ensures View() == if ok then old(View()).AppendRange(source.View(), start, count) else old(View())
    {
      ok := source != this && source.typ == typ
            && start <= source.validity.size && count <= source.validity.size - start;
      if !ok {
        return;
      }
      match data {
        case Fixed(values) =>
          FixedRange(typ, data, validity.size, source.data, source.validity.size, start, count);
          data := Fixed(values + source.data.values[start..start + count]);
        case Packed(offsets, bytes) =>
          var first, last := source.data.offsets[start], source.data.offsets[start + count];
          RangeFitsExactly(typ, data, validity.size, source.data, source.validity.size, start, count);
          RangeInArena(|bytes|, source.data.offsets, source.data.bytes, source.validity.size, start, count);
          if last - first > MAX_OFFSET - |bytes| {
            return false;
          }
          ManyStrings(offsets, bytes, validity.size, source.data.offsets, source.data.bytes, source.validity.size,
                      start, count);
          var added := Rebase(source.data.offsets, start, count, |bytes|);
          data := Packed(offsets + added, bytes + source.data.bytes[first..last]);
      }
      var copied := validity.AppendRange(source.validity, start, count);
    }
  }

  lemma PayloadTyped(typ: Type, data: Data, rows: nat, row: nat)
    requires DataOk(typ, data, rows) && row < rows
    ensures |Payloads(data, rows)| == rows && !Payloads(data, rows)[row].Null?
    ensures HasType(Payloads(data, rows)[row], typ)
  {
  }

  lemma FixedRange(typ: Type, data: Data, rows: nat, source: Data, sourceRows: nat, start: nat, count: nat)
    requires DataOk(typ, data, rows) && DataOk(typ, source, sourceRows) && data.Fixed? && start + count <= sourceRows
    ensures source.Fixed? && DataOk(typ, Fixed(data.values + source.values[start..start + count]), rows + count)
  {
  }

  /** Moves the offsets of a range, one by one. */
  method Rebase(source: seq<Offset>, start: nat, count: nat, base: nat) returns (r: seq<Offset>)
    requires RangeFits(base, source, start, count)
    ensures r == Rebased(source, start, count, base)
  {
    r := [];
    for i := 0 to count
      invariant r == Rebased(source, start, count, base)[..i]
    {
      r := r + [base + source[start + i + 1] - source[start]];
    }
  }
}
