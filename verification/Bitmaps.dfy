/** Bit vectors packed in words, and the word operations that extend them. */
module Bitmaps {
  import opened Words

  predicate BitAt(bits: seq<Word>, r: nat) {
    r / 64 < |bits| && Bit(bits[r / 64], r % 64)
  }

  /** The first n bits. */
  function Shown(bits: seq<Word>, n: nat): (s: seq<bool>)
    ensures |s| == n && forall r :: 0 <= r < n ==> s[r] == BitAt(bits, r)
  {
    seq(n, r requires 0 <= r < n => BitAt(bits, r))
  }

  /** How many words n bits take. */
  function WordsFor(n: nat): nat {
    (n + 63) / 64
  }

  /** No bit past the first n is set. */
  ghost predicate TailClear(bits: seq<Word>, n: nat) {
    forall r: nat :: r >= n ==> !BitAt(bits, r)
  }

  lemma SplitIndex(n: nat, j: nat)
    requires j < 64
    ensures (64 * n + j) / 64 == n && (64 * n + j) % 64 == j
  {
  }

  // ---------------------------------------------------------------------------------------
  // One bit.

  function SetBit(w: Word, k: nat, v: bool): Word
    requires k < 64
  {
    if v then Or(w, ShiftLeft(1, k)) else And(w, Not(ShiftLeft(1, k)))
  }

  lemma SetBitBits(w: Word, k: nat, v: bool, i: nat)
    requires k < 64 && i < 64
    ensures Bit(SetBit(w, k, v), i) == if i == k then v else Bit(w, i)
  {
    hide Bit;
    hide ShiftLeft;
    hide And;
    hide Or;
    hide Not;
    var one := ShiftLeft(1, k);
    SingleBit(k, i);
    Bitwise(w, one, i);
    Bitwise(one, w, i);
    Bitwise(w, Not(one), i);
  }

  /** Setting a bit changes that bit and no other. */
  lemma SetBitShows(bits: seq<Word>, row: nat, v: bool, r: nat)
    requires row / 64 < |bits|
    ensures BitAt(bits[row / 64 := SetBit(bits[row / 64], row % 64, v)], r) == if r == row then v else BitAt(bits, r)
  {
    hide SetBit;
    if r / 64 == row / 64 {
      SetBitBits(bits[row / 64], row % 64, v, r % 64);
      assert r == 64 * (r / 64) + r % 64 && row == 64 * (row / 64) + row % 64;
    }
  }

  // ---------------------------------------------------------------------------------------
  // Part of a word.

  /** The bits of a word between two positions replaced by the low bits of a value. */
  function Splice(w: Word, shift: nat, take: nat, value: Word): Word
    requires shift < 64 && shift + take <= 64
  {
    Or(And(w, Not(ShiftLeft(LowMask(take), shift))), ShiftLeft(value, shift))
  }

  ghost predicate LowOnly(value: Word, take: nat) {
    forall i :: take <= i < 64 ==> !Bit(value, i)
  }

  lemma SpliceBits(w: Word, shift: nat, take: nat, value: Word, i: nat)
    requires shift < 64 && shift + take <= 64 && LowOnly(value, take) && i < 64
    ensures Bit(Splice(w, shift, take, value), i)
         == if shift <= i < shift + take then Bit(value, i - shift) else Bit(w, i)
  {
    hide Bit;
    hide ShiftLeft;
    hide And;
    hide Or;
    hide Not;
    hide LowMask;
    var mask, moved := ShiftLeft(LowMask(take), shift), ShiftLeft(value, shift);
    ShiftLeftBit(LowMask(take), shift, i);
    ShiftLeftBit(value, shift, i);
    if i >= shift {
      LowMaskBit(take, i - shift);
    }
    Bitwise(mask, 0, i);
    Bitwise(w, Not(mask), i);
    Bitwise(And(w, Not(mask)), moved, i);
  }

  /** The bits from a position on, as many as asked for, in the low bits of a word. */
  function Extract(bits: seq<Word>, start: nat, take: nat): Word
    requires 0 < take <= 64 && start + take <= 64 * |bits|
  {
    var shift := start % 64;
    var low := ShiftRight(bits[start / 64], shift);
    var value := if shift != 0 && take > 64 - shift then Or(low, ShiftLeft(bits[start / 64 + 1], 64 - shift)) else low;
    And(value, LowMask(take))
  }

  lemma NextWord(start: nat, take: nat, words: nat, i: nat)
    requires 0 < take <= 64 && start + take <= 64 * words && i < take
    ensures start / 64 < words
    ensures start % 64 + i < 64 ==> (start + i) / 64 == start / 64 && (start + i) % 64 == start % 64 + i
    ensures start % 64 + i >= 64 ==>
      start / 64 + 1 < words && (start + i) / 64 == start / 64 + 1 && (start + i) % 64 == start % 64 + i - 64
  {
    var q, s := start / 64, start % 64;
    assert start == 64 * q + s;
    if s + i < 64 {
      SplitIndex(q, s + i);
    } else {
      SplitIndex(q + 1, s + i - 64);
    }
  }

  /** At every misalignment, the extracted bits are those of the source from the start on. */
  lemma ExtractBits(bits: seq<Word>, start: nat, take: nat, i: nat)
    requires 0 < take <= 64 && start + take <= 64 * |bits| && i < 64
    ensures Bit(Extract(bits, start, take), i) == (i < take && BitAt(bits, start + i))
  {
    hide Bit;
    hide ShiftLeft;
    hide ShiftRight;
    hide And;
    hide Or;
    hide LowMask;
    var shift, first := start % 64, bits[start / 64];
    var low := ShiftRight(first, shift);
    LowMaskBit(take, i);
    ShiftRightBit(first, shift, i);
    if i < take {
      NextWord(start, take, |bits|, i);
    }
    if shift != 0 && take > 64 - shift {
      NextWord(start, take, |bits|, take - 1);
      var high := ShiftLeft(bits[start / 64 + 1], 64 - shift);
      ShiftLeftBit(bits[start / 64 + 1], 64 - shift, i);
      Bitwise(low, high, i);
      Bitwise(Or(low, high), LowMask(take), i);
    } else {
      Bitwise(low, LowMask(take), i);
    }
  }

  // ---------------------------------------------------------------------------------------
  // Extending a bit vector.

  function Filled(words: nat, v: bool): (bits: seq<Word>)
    ensures |bits| == words && forall i :: 0 <= i < words ==> bits[i] == if v then ALL_ONES else 0
  {
    seq(words, _ => if v then ALL_ONES else 0)
  }

  lemma FilledBit(words: nat, v: bool, r: nat)
    ensures BitAt(Filled(words, v), r) == (v && r / 64 < words)
  {
    ConstantBits(r % 64);
  }

  /** Words filled with one bit show that bit everywhere; only whole words leave no tail set. */
  lemma FilledShows(n: nat, v: bool)
    ensures forall r :: 0 <= r < n ==> Shown(Filled(WordsFor(n), v), n)[r] == v
    ensures TailClear(Filled(WordsFor(n), v), n) <==> !v || n % 64 == 0
    ensures BitAt(Filled(WordsFor(n), v), n) <==> v && n % 64 != 0
  {
    hide BitAt;
    forall r: nat ensures BitAt(Filled(WordsFor(n), v), r) == (v && r / 64 < WordsFor(n)) {
      FilledBit(WordsFor(n), v, r);
    }
    if v && n % 64 != 0 {
      assert BitAt(Filled(WordsFor(n), v), n);
    }
  }

  /** Zero words appended show nothing new. */
  lemma ZeroWords(bits: seq<Word>, k: nat, r: nat)
    ensures BitAt(bits + Filled(k, false), r) == BitAt(bits, r)
  {
    if |bits| <= r / 64 < |bits| + k {
      ConstantBits(r % 64);
    }
  }

  /** A chunk that ends within the word it starts in. */
  lemma SameWord(size: nat, take: nat, r: nat)
    requires size % 64 + take <= 64
    ensures size <= r < size + take ==> r / 64 == size / 64 && r % 64 == size % 64 + (r - size)
    ensures r / 64 == size / 64 ==> (r >= size <==> r % 64 >= size % 64)
    ensures r / 64 == size / 64 ==> (r < size + take <==> r % 64 < size % 64 + take)
  {
    assert size == 64 * (size / 64) + size % 64 && r == 64 * (r / 64) + r % 64;
    if size <= r < size + take {
      SplitIndex(size / 64, size % 64 + (r - size));
    }
  }

  lemma ChunkBit(bits: seq<Word>, size: nat, take: nat, value: Word, chunk: seq<bool>, r: nat)
    requires size / 64 < |bits| && size % 64 + take <= 64 && |chunk| == take
    requires ShowsChunk(value, chunk)
    ensures BitAt(bits[size / 64 := Splice(bits[size / 64], size % 64, take, value)], r)
         == if size <= r < size + take then chunk[r - size] else BitAt(bits, r)
  {
    hide Bit;
    hide Splice;
    SameWord(size, take, r);
    if r / 64 == size / 64 {
      SpliceBits(bits[size / 64], size % 64, take, value, r % 64);
    }
  }

  /** The word holds a list of bits from its lowest bit on, and zeros above. */
  ghost predicate ShowsChunk(value: Word, chunk: seq<bool>) {
    |chunk| <= 64 && forall i :: 0 <= i < 64 ==> Bit(value, i) == (i < |chunk| && chunk[i])
  }

  /** Splicing a chunk in appends exactly its bits, keeps a clear tail clear, and counts its nulls. */
  lemma ChunkAppended(bits: seq<Word>, size: nat, take: nat, value: Word, chunk: seq<bool>)
    requires size / 64 < |bits| && size % 64 + take <= 64 && |chunk| == take && ShowsChunk(value, chunk)
    ensures var more := bits[size / 64 := Splice(bits[size / 64], size % 64, take, value)];
      && Shown(more, size + take) == Shown(bits, size) + chunk
      && (TailClear(bits, size) ==> TailClear(more, size + take))
    ensures PopCount(value) == take - Zeros(chunk)
  {
    hide Bit;
    hide Splice;
    hide BitAt;
    var more := bits[size / 64 := Splice(bits[size / 64], size % 64, take, value)];
    forall r: nat ensures BitAt(more, r) == if size <= r < size + take then chunk[r - size] else BitAt(bits, r) {
      ChunkBit(bits, size, take, value, chunk, r);
    }
    CountShown(value, chunk, 64);
    assert chunk[..take] == chunk;
  }

  lemma ExtractShows(bits: seq<Word>, n: nat, start: nat, take: nat)
    requires n <= 64 * |bits| && 0 < take <= 64 && start + take <= n
    ensures ShowsChunk(Extract(bits, start, take), Shown(bits, n)[start..start + take])
  {
    hide Bit;
    hide BitAt;
    hide Extract;
    forall i | 0 <= i < 64
      ensures Bit(Extract(bits, start, take), i) == (i < take && Shown(bits, n)[start..start + take][i])
    {
      ExtractBits(bits, start, take, i);
    }
  }

  lemma {:induction false} NoZeros(s: seq<bool>, i: nat)
    requires Zeros(s) == 0 && i < |s|
    ensures s[i]
  {
    if i < |s| - 1 {
      NoZeros(s[..|s| - 1], i);
    }
  }

  /** Where nothing is NULL the mask alone is the chunk. */
  lemma MaskShows(s: seq<bool>, start: nat, take: nat)
    requires Zeros(s) == 0 && take <= 64 && start + take <= |s|
    ensures ShowsChunk(LowMask(take), s[start..start + take]) && Zeros(s[start..start + take]) == 0
  {
    var chunk := s[start..start + take];
    forall i | 0 <= i < take ensures chunk[i] {
      NoZeros(s, start + i);
    }
    forall i | 0 <= i < 64 ensures Bit(LowMask(take), i) == (i < take && chunk[i]) {
      LowMaskBit(take, i);
    }
    ZerosOfConstant(chunk, true);
  }
}
