/** The validity bitmap of a column: packed bits with a running count of the NULLs. */
module Validity {
  import opened Words
  import opened Bitmaps
  import opened Sequences

  class Validity {
    var bits: seq<Word>
    var size: nat
    var nullCount: nat

    ghost predicate Shaped()
      reads this
    {
      |bits| == WordsFor(size)
    }

    /** The rows' validity, in order. */
    ghost function View(): seq<bool>
      reads this
    {
      Shown(bits, size)
    }

    ghost predicate Valid()
      reads this
    {
      Shaped() && nullCount == Zeros(View())
    }

    /** No bit past the last row is set. */
    ghost predicate Clear()
      reads this
    {
      TailClear(bits, size)
    }

    constructor ()
      ensures Valid() && View() == [] && Clear()
    {
      bits, size, nullCount := [], 0, 0;
    }

    method Reset(n: nat, valid: bool)
      modifies this
      ensures Valid() && size == n && forall r :: 0 <= r < n ==> View()[r] == valid
      ensures Clear() <==> !valid || n % 64 == 0
      ensures BitAt(bits, n) <==> valid && n % 64 != 0
    {
      size, nullCount := n, if valid then 0 else n;
      bits := Filled(WordsFor(n), valid);
      FilledShows(n, valid);
      ZerosOfConstant(View(), valid);
    }

    predicate IsValid(row: nat)
      requires Shaped() && row < size
      reads this
    {
      BitAt(bits, row)
    }

    predicate AllValid()
      reads this
    {
      nullCount == 0
    }

    /** Changes one row's validity, and the count exactly when that changes anything. */
    method Set(row: nat, v: bool)
      requires Shaped() && row < size && (Valid() || nullCount > 0)
      modifies this`bits, this`nullCount
      ensures Shaped() && View() == old(View())[row := v]
      ensures old(Clear()) ==> Clear()
      ensures old(Valid()) ==> Valid()
      ensures nullCount == if old(BitAt(bits, row)) == v then old(nullCount)
                           else if v then old(nullCount) - 1 else old(nullCount) + 1
    {
      ZerosUpdated(View(), row, v);
      var was := IsValid(row);
      if was != v {
        nullCount := if v then nullCount - 1 else nullCount + 1;
      }
      BitSet(bits, size, row, v);
      bits := bits[row / 64 := SetBit(bits[row / 64], row % 64, v)];
    }

    /**
     Adds a row. The bits are right whatever the bitmap held past its end; the count is right
     exactly when the bit that was claimed had been clear.
     */
    method Append(v: bool)
      requires Valid()
      modifies this
      ensures Shaped() && View() == old(View()) + [v]
      ensures Valid() <==> !old(BitAt(bits, size))
      ensures old(Clear()) ==> Clear()
    {
      hide Zeros;
      hide BitAt;
      hide TailClear;
      ghost var before := View();
      if size % 64 == 0 {
        OneZeroWord(bits, size);
        bits := bits + [0];
      }
      var row := size;
      ShownGrows(bits, row);
      size, nullCount := size + 1, nullCount + 1;
      hide Shown;
      Set(row, v);
      OneMore(before, v);
    }

    /** Copies the bits that fill up at most the current word. */
    method AppendChunk(source: Validity, start: nat, take: nat)
      requires source != this && source.Valid() && start + take <= source.size
      requires 0 < take && size % 64 + take <= 64 && size + take <= 64 * |bits| && nullCount == Zeros(View())
      modifies this
      ensures |bits| == |old(bits)| && size == old(size) + take
      ensures View() == old(View()) + source.View()[start..start + take] && nullCount == Zeros(View())
      ensures old(Clear()) ==> Clear()
    {
      hide Zeros;
      hide PopCount;
      hide Extract;
      hide Splice;
      hide ShowsChunk;
      hide BitAt;
      hide TailClear;
      hide LowMask;
      ghost var chunk := source.View()[start..start + take];
      var shift := size % 64;
      var value := LowMask(take);
      if source.AllValid() {
        MaskShows(source.View(), start, take);
        ChunkAppended(bits, size, take, value, chunk);
      } else {
        ExtractShows(source.bits, source.size, start, take);
        value := Extract(source.bits, start, take);
        ChunkAppended(bits, size, take, value, chunk);
        nullCount := nullCount + (take - PopCount(value));
      }
      ZerosAppend(View(), chunk);
      bits := bits[size / 64 := Splice(bits[size / 64], shift, take, value)];
      size := size + take;
    }

    /** Appends the zero words that a number of new rows needs. */
    method MakeRoom(count: nat)
      requires Valid()
      modifies this`bits
      ensures |bits| == WordsFor(size + count) && View() == old(View()) && (old(Clear()) ==> Clear())
    {
      WordsHold(size, count, count);
      ZerosAdded(bits, size, WordsFor(size + count) - |bits|);
      bits := bits + Filled(WordsFor(size + count) - |bits|, false);
    }

    /**
     Appends a range of another bitmap, a word's worth at a time: at every misalignment of source
     and destination the rows added are exactly those of the range. Ranges out of bounds, and a
     bitmap's own rows, are refused.
     */
    method AppendRange(source: Validity, start: nat, count: nat) returns (ok: bool)
      requires Valid() && source.Valid()
      modifies this
      ensures ok <==> source != this && start + count <= source.size
      ensures ok ==> Valid() && View() == old(View()) + source.View()[start..start + count]
      ensures ok && old(Clear()) ==> Clear()
      ensures !ok ==> View() == old(View()) && Valid()
    {
      hide Zeros;
      hide BitAt;
      hide TailClear;
      hide WordsFor;
      ok := source != this && start <= source.size && count <= source.size - start;
      if !ok {
        return;
      }
      ghost var before, added := View(), source.View()[start..start + count];
      MakeRoom(count);
      var done := 0;
      TakeAll(before, added);
      while done < count
        invariant done <= count && size == |before| + done && |bits| == WordsFor(|before| + count)
        invariant View() == before + added[..done] && nullCount == Zeros(View())
        invariant old(Clear()) ==> Clear()
      {
        var left, room := count - done, 64 - size % 64;
        var take := if left < room then left else room;
        WordsHold(size, left, take);
        AppendChunk(source, start + done, take);
        TakeMore(before, added, done, take);
        PartOfPart(source.View(), start, count, done, take);
        done := done + take;
      }
    }
  }

  lemma WordsHold(size: nat, left: nat, take: nat)
    requires take <= left
    ensures size + take <= 64 * WordsFor(size + left) && WordsFor(size) <= WordsFor(size + left)
  {
  }

  lemma OneMore(before: seq<bool>, v: bool)
    ensures Zeros(before + [v]) == Zeros(before) + if v then 0 else 1
    ensures forall was :: (before + [was])[|before| := v] == before + [v]
  {
    ZerosAppend(before, [v]);
  }

  lemma TakeMore<T>(before: seq<T>, added: seq<T>, done: nat, take: nat)
    requires done + take <= |added|
    ensures (before + added[..done]) + added[done..done + take] == before + added[..done + take]
  {
    assert added[..done + take] == added[..done] + added[done..done + take];
  }

  lemma PartOfPart<T>(s: seq<T>, start: nat, count: nat, done: nat, take: nat)
    requires start + count <= |s| && done + take <= count
    ensures s[start..start + count][done..done + take] == s[start + done..start + done + take]
  {
    var inner, outer := s[start..start + count][done..done + take], s[start + done..start + done + take];
    forall i | 0 <= i < take ensures inner[i] == outer[i] {
    }
  }

  /** After a reset, one more row is counted right exactly when the reset left no bit set past its end. */
  method AppendAfterReset(n: nat, valid: bool, v: bool) returns (nullCount: nat, rows: seq<bool>)
    ensures |rows| == n + 1 && rows[n] == v && forall r :: 0 <= r < n ==> rows[r] == valid
    ensures nullCount == Zeros(rows) <==> !valid || n % 64 == 0
  {
    var b := new Validity();
    b.Reset(n, valid);
    b.Append(v);
    nullCount, rows := b.nullCount, Shown(b.bits, b.size);
  }

  lemma {:induction false} ZerosUpdated(s: seq<bool>, row: nat, v: bool)
    requires row < |s|
    ensures Zeros(s[row := v]) == Zeros(s) + (if s[row] && !v then 1 else 0) - (if !s[row] && v then 1 else 0)
    ensures !s[row] ==> Zeros(s) > 0
  {
    if row == |s| - 1 {
      assert s[row := v][..|s| - 1] == s[..|s| - 1];
    } else {
      ZerosUpdated(s[..|s| - 1], row, v);
      assert s[row := v][..|s| - 1] == s[..|s| - 1][row := v];
    }
  }

  lemma BitSet(bits: seq<Word>, size: nat, row: nat, v: bool)
    requires row < size && |bits| == WordsFor(size)
    ensures var more := bits[row / 64 := SetBit(bits[row / 64], row % 64, v)];
      Shown(more, size) == Shown(bits, size)[row := v] && (TailClear(bits, size) ==> TailClear(more, size))
  {
    hide BitAt;
    hide SetBit;
    var more := bits[row / 64 := SetBit(bits[row / 64], row % 64, v)];
    forall r: nat ensures BitAt(more, r) == if r == row then v else BitAt(bits, r) {
      SetBitShows(bits, row, v, r);
    }
  }

  lemma ZerosAdded(bits: seq<Word>, size: nat, k: nat)
    ensures Shown(bits + Filled(k, false), size) == Shown(bits, size)
    ensures TailClear(bits, size) ==> TailClear(bits + Filled(k, false), size)
    ensures forall r: nat :: BitAt(bits + Filled(k, false), r) == BitAt(bits, r)
  {
    hide BitAt;
    forall r: nat ensures BitAt(bits + Filled(k, false), r) == BitAt(bits, r) {
      ZeroWords(bits, k, r);
    }
  }

  lemma OneZeroWord(bits: seq<Word>, size: nat)
    ensures Shown(bits + [0], size) == Shown(bits, size)
    ensures TailClear(bits, size) ==> TailClear(bits + [0], size)
    ensures BitAt(bits + [0], size) == BitAt(bits, size)
  {
    assert Filled(1, false) == [0];
    ZerosAdded(bits, size, 1);
  }

  lemma ShownGrows(bits: seq<Word>, size: nat)
    ensures Shown(bits, size + 1) == Shown(bits, size) + [BitAt(bits, size)]
    ensures TailClear(bits, size) ==> TailClear(bits, size + 1)
  {
  }
}
