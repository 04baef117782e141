/** Strings packed in one byte arena, delimited by 32-bit offsets. */
module Arenas {
  import opened Values

  const MAX_OFFSET: nat := 0xffff_ffff

  type Offset = x: int | 0 <= x <= MAX_OFFSET

  /** Offsets start at 0, never decrease, and end at the byte count. */
  ghost predicate ArenaOk(offsets: seq<Offset>, bytes: Text, rows: nat) {
    && |offsets| == rows + 1 && offsets[0] == 0 && offsets[rows] == |bytes|
    && forall i, j :: 0 <= i <= j <= rows ==> offsets[i] <= offsets[j]
  }

  function StringAt(offsets: seq<Offset>, bytes: Text, i: nat): Text {
    if i + 1 < |offsets| && offsets[i] <= offsets[i + 1] <= |bytes| then bytes[offsets[i]..offsets[i + 1]] else []
  }

  /** The payloads of a string column. */
  function Strings(offsets: seq<Offset>, bytes: Text, rows: nat): (s: seq<Value>)
    ensures |s| == rows && forall i :: 0 <= i < rows ==> s[i] == Str(StringAt(offsets, bytes, i))
  {
    seq(rows, i requires 0 <= i < rows => Str(StringAt(offsets, bytes, i)))
  }

  lemma EmptyStrings(rows: nat, offsets: seq<Offset>)
    requires |offsets| == rows + 1 && forall i :: 0 <= i <= rows ==> offsets[i] == 0
    ensures ArenaOk(offsets, [], rows) && forall i :: 0 <= i < rows ==> Strings(offsets, [], rows)[i] == Str([])
  {
  }

  lemma OneString(offsets: seq<Offset>, bytes: Text, rows: nat, v: Text)
    requires ArenaOk(offsets, bytes, rows) && |bytes| + |v| <= MAX_OFFSET
    ensures ArenaOk(offsets + [|bytes| + |v|], bytes + v, rows + 1)
    ensures Strings(offsets + [|bytes| + |v|], bytes + v, rows + 1) == Strings(offsets, bytes, rows) + [Str(v)]
  {
    var more, all := offsets + [|bytes| + |v|], bytes + v;
    forall i | 0 <= i < rows ensures StringAt(more, all, i) == StringAt(offsets, bytes, i) {
      assert offsets[i] <= offsets[i + 1] <= offsets[rows];
      assert all[offsets[i]..offsets[i + 1]] == bytes[offsets[i]..offsets[i + 1]];
    }
    assert StringAt(more, all, rows) == v;
  }

  /** The bytes of all strings among some payloads. */
  function StringBytes(s: seq<Value>): nat {
    if s == [] then 0
    else StringBytes(s[..|s| - 1]) + if s[|s| - 1].Str? then |s[|s| - 1].s| else 0
  }

  lemma StringBytesLast(s: seq<Value>, v: Value)
    ensures StringBytes(s + [v]) == StringBytes(s) + if v.Str? then |v.s| else 0
  {
    assert (s + [v])[..|s|] == s;
  }

  lemma StringTakes(offsets: seq<Offset>, bytes: Text, rows: nat, i: nat)
    requires ArenaOk(offsets, bytes, rows) && i < rows
    ensures |StringAt(offsets, bytes, i)| == offsets[i + 1] - offsets[i]
  {
    assert offsets[i] <= offsets[i + 1] <= offsets[rows];
  }

  /** A range of the strings takes the bytes between its offsets; all of them take the arena. */
  lemma {:induction false} RangeTakes(offsets: seq<Offset>, bytes: Text, rows: nat, start: nat, count: nat)
    requires ArenaOk(offsets, bytes, rows) && start + count <= rows
    ensures StringBytes(Strings(offsets, bytes, rows)[start..start + count]) == offsets[start + count] - offsets[start]
  {
    hide ArenaOk;
    hide StringAt;
    ArenaEnd(offsets, bytes, rows);
    if count > 0 {
      RangeTakes(offsets, bytes, rows, start, count - 1);
      var s, last := Strings(offsets, bytes, rows), start + count - 1;
      StringTakes(offsets, bytes, rows, last);
      hide StringBytes;
      assert s[start..start + count] == s[start..last] + [s[last]];
      StringBytesLast(s[start..last], s[last]);
    }
  }

  lemma ArenaTakes(offsets: seq<Offset>, bytes: Text, rows: nat)
    requires ArenaOk(offsets, bytes, rows)
    ensures StringBytes(Strings(offsets, bytes, rows)) == |bytes|
  {
    RangeTakes(offsets, bytes, rows, 0, rows);
    assert Strings(offsets, bytes, rows)[0..rows] == Strings(offsets, bytes, rows);
  }

  /** A copied range lies in its arena, and its bytes fit behind those already stored. */
  predicate RangeFits(base: nat, source: seq<Offset>, start: nat, count: nat) {
    && start + count < |source|
    && (forall i :: start <= i <= start + count ==> source[start] <= source[i] <= source[start + count])
    && base + source[start + count] - source[start] <= MAX_OFFSET
  }

  /** The offsets of a copied range, moved from the source's arena to the end of another. */
  function Rebased(source: seq<Offset>, start: nat, count: nat, base: nat): (r: seq<Offset>)
    requires RangeFits(base, source, start, count)
    ensures |r| == count && forall i :: 0 <= i < count ==> r[i] == base + source[start + 1 + i] - source[start]
  {
    seq(count, i requires 0 <= i < count => base + source[start + 1 + i] - source[start])
  }

  lemma RangeInArena(base: nat, offsets: seq<Offset>, bytes: Text, rows: nat, start: nat, count: nat)
    requires ArenaOk(offsets, bytes, rows) && start + count <= rows
    ensures offsets[start] <= offsets[start + count] <= |bytes|
    ensures base + offsets[start + count] - offsets[start] <= MAX_OFFSET ==> RangeFits(base, offsets, start, count)
  {
  }

  lemma PrefixSlice(bytes: Text, more: Text, i: nat, j: nat)
    requires i <= j <= |bytes|
    ensures (bytes + more)[i..j] == bytes[i..j]
  {
  }

  lemma MovedSlice(bytes: Text, source: Text, first: nat, last: nat, i: nat, j: nat)
    requires first <= i <= j <= last <= |source|
    ensures (bytes + source[first..last])[|bytes| + i - first..|bytes| + j - first] == source[i..j]
  {
    var part := source[first..last];
    var moved := (bytes + part)[|bytes| + i - first..|bytes| + j - first];
    forall k | 0 <= k < j - i ensures moved[k] == source[i..j][k] {
      assert moved[k] == (bytes + part)[|bytes| + (i - first + k)] == part[i - first + k];
    }
  }

  lemma KeptString(offsets: seq<Offset>, bytes: Text, rows: nat, added: seq<Offset>, more: Text, i: nat)
    requires ArenaOk(offsets, bytes, rows) && i < rows
    ensures StringAt(offsets + added, bytes + more, i) == StringAt(offsets, bytes, i)
  {
    assert offsets[i] <= offsets[i + 1] <= offsets[rows];
    PrefixSlice(bytes, more, offsets[i], offsets[i + 1]);
  }

  lemma ArenaEnd(offsets: seq<Offset>, bytes: Text, rows: nat)
    requires ArenaOk(offsets, bytes, rows)
    ensures |offsets| == rows + 1 && offsets[rows] == |bytes|
  {
  }

  lemma BoundedOffsets(source: seq<Offset>, sourceBytes: Text, sourceRows: nat, start: nat, count: nat, i: nat)
    requires ArenaOk(source, sourceBytes, sourceRows) && start + count <= sourceRows && i < count
    ensures |source| == sourceRows + 1
    ensures source[start] <= source[start + i] <= source[start + i + 1] <= source[start + count] <= |sourceBytes|
  {
  }

  lemma MovedString(offsets: seq<Offset>, bytes: Text, rows: nat,
                    source: seq<Offset>, sourceBytes: Text, sourceRows: nat,
                    start: nat, count: nat, i: nat)
    requires ArenaOk(offsets, bytes, rows) && ArenaOk(source, sourceBytes, sourceRows)
    requires start + count <= sourceRows && i < count
    requires RangeFits(|bytes|, source, start, count)
    ensures StringAt(offsets + Rebased(source, start, count, |bytes|),
                     bytes + sourceBytes[source[start]..source[start + count]], rows + i)
         == StringAt(source, sourceBytes, start + i)
  {
    hide ArenaOk;
    hide RangeFits;
    hide Rebased;
    hide StringAt;
    ArenaEnd(offsets, bytes, rows);
    BoundedOffsets(source, sourceBytes, sourceRows, start, count, i);
    MovedOffset(offsets, |bytes|, rows, source, start, count, i);
    MovedOffset(offsets, |bytes|, rows, source, start, count, i + 1);
    var more := offsets + Rebased(source, start, count, |bytes|);
    MovedReads(more, rows + i, bytes, source, start + i, sourceBytes, source[start], source[start + count]);
  }

  /** A string found at moved offsets in the longer arena is the string of the source. */
  lemma MovedReads(more: seq<Offset>, m: nat, bytes: Text, source: seq<Offset>, k: nat, sourceBytes: Text,
                   first: nat, last: nat)
    requires m + 1 < |more| && k + 1 < |source|
    requires more[m] == |bytes| + source[k] - first && more[m + 1] == |bytes| + source[k + 1] - first
    requires first <= source[k] <= source[k + 1] <= last <= |sourceBytes|
    ensures StringAt(more, bytes + sourceBytes[first..last], m) == StringAt(source, sourceBytes, k)
  {
    MovedSlice(bytes, sourceBytes, first, last, source[k], source[k + 1]);
  }

  lemma MovedOffset(offsets: seq<Offset>, base: nat, rows: nat, source: seq<Offset>, start: nat, count: nat, i: nat)
    requires |offsets| == rows + 1 && offsets[rows] == base && i <= count && RangeFits(base, source, start, count)
    ensures (offsets + Rebased(source, start, count, base))[rows + i] == base + source[start + i] - source[start]
  {
  }

  lemma MovedArena(offsets: seq<Offset>, bytes: Text, rows: nat,
                   source: seq<Offset>, sourceBytes: Text, sourceRows: nat,
                   start: nat, count: nat)
    requires ArenaOk(offsets, bytes, rows) && ArenaOk(source, sourceBytes, sourceRows) && start + count <= sourceRows
    requires RangeFits(|bytes|, source, start, count)
    ensures ArenaOk(offsets + Rebased(source, start, count, |bytes|),
                    bytes + sourceBytes[source[start]..source[start + count]], rows + count)
  {
    var more := offsets + Rebased(source, start, count, |bytes|);
    forall i | 0 <= i <= rows + count
      ensures more[i] == if i <= rows then offsets[i] else |bytes| + source[start + (i - rows)] - source[start]
    {
    }
  }

  /** Copying a range rebases its offsets: every copied row reads back the same bytes. */
  lemma ManyStrings(offsets: seq<Offset>, bytes: Text, rows: nat,
                    source: seq<Offset>, sourceBytes: Text, sourceRows: nat,
                    start: nat, count: nat)
    requires ArenaOk(offsets, bytes, rows) && ArenaOk(source, sourceBytes, sourceRows) && start + count <= sourceRows
    requires RangeFits(|bytes|, source, start, count)
    ensures var more := offsets + Rebased(source, start, count, |bytes|);
      var all := bytes + sourceBytes[source[start]..source[start + count]];
      && ArenaOk(more, all, rows + count)
      && Strings(more, all, rows + count)
         == Strings(offsets, bytes, rows) + Strings(source, sourceBytes, sourceRows)[start..start + count]
  {
    var more := offsets + Rebased(source, start, count, |bytes|);
    var all := bytes + sourceBytes[source[start]..source[start + count]];
    MovedArena(offsets, bytes, rows, source, sourceBytes, sourceRows, start, count);
    forall i | 0 <= i < rows ensures StringAt(more, all, i) == StringAt(offsets, bytes, i) {
      KeptString(offsets, bytes, rows, Rebased(source, start, count, |bytes|),
                 sourceBytes[source[start]..source[start + count]], i);
    }
    forall i | rows <= i < rows + count
      ensures StringAt(more, all, i) == StringAt(source, sourceBytes, start + (i - rows))
    {
      MovedString(offsets, bytes, rows, source, sourceBytes, sourceRows, start, count, i - rows);
    }
    hide StringAt;
    hide Rebased;
    StringsConcatenated(offsets, bytes, rows, source, sourceBytes, sourceRows, start, count, more, all);
  }

  lemma StringsConcatenated(offsets: seq<Offset>, bytes: Text, rows: nat, source: seq<Offset>, sourceBytes: Text,
                            sourceRows: nat, start: nat, count: nat, more: seq<Offset>, all: Text)
    requires start + count <= sourceRows
    requires forall i :: 0 <= i < rows ==> StringAt(more, all, i) == StringAt(offsets, bytes, i)
    requires forall i :: rows <= i < rows + count ==>
      StringAt(more, all, i) == StringAt(source, sourceBytes, start + (i - rows))
    ensures Strings(more, all, rows + count)
         == Strings(offsets, bytes, rows) + Strings(source, sourceBytes, sourceRows)[start..start + count]
  {
  }
}
