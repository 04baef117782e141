/**
 The open-addressed hash index: linear probing over a power-of-two array of (hash, row)
 buckets that doubles before it is more than 70% full.
 */
module HashIndex {
  import opened Values

  datatype Bucket = Empty | Occupied(hash: nat, row: nat)

  /** The rows in the index, each with its hash. */
  type Entries = map<nat, nat>

  predicate PowerOfTwo(n: nat) {
    n == 1 || (n > 0 && n % 2 == 0 && PowerOfTwo(n / 2))
  }

  /** The slot a hash probes first; the capacity is a power of two, so masking is a remainder. */
  function Home(hash: nat, n: nat): nat
    requires n > 0
  {
    hash % n
  }

  function Step(i: nat, n: nat): nat {
    if i + 1 == n then 0 else i + 1
  }

  /** The slot d probes after slot h. */
  function At(h: nat, d: nat, n: nat): nat
    requires h < n && d < n
  {
    if h + d < n then h + d else h + d - n
  }

  function Distance(h: nat, i: nat, n: nat): nat
    requires h < n && i < n
  {
    if h <= i then i - h else i + n - h
  }

  // ---------------------------------------------------------------------------------------
  // The invariant, on the contents of the bucket array.

  /** No empty bucket lies between slot h and slot i in probe order. */
  ghost predicate NoGap(b: seq<Bucket>, h: nat, i: nat)
    requires h < |b| && i < |b|
  {
    forall d :: 0 <= d < Distance(h, i, |b|) ==> b[At(h, d, |b|)].Occupied?
  }

  ghost predicate Holds(b: seq<Bucket>, row: nat) {
    exists i :: 0 <= i < |b| && b[i].Occupied? && b[i].row == row
  }

  ghost predicate BucketOk(b: seq<Bucket>, entries: Entries, i: nat) {
    i < |b| && b[i].Occupied? ==>
      && b[i].row in entries && entries[b[i].row] == b[i].hash
      && NoGap(b, Home(b[i].hash, |b|), i)
  }

  ghost predicate Apart(b: seq<Bucket>, i: nat, j: nat) {
    i < j < |b| && b[i].Occupied? && b[j].Occupied? ==> b[i].row != b[j].row
  }

  ghost predicate Represents(b: seq<Bucket>, entries: Entries) {
    && |b| > 0
    && (forall i :: BucketOk(b, entries, i))
    && (forall i, j :: Apart(b, i, j))
    && (forall row :: row in entries ==> Holds(b, row))
  }

  function RowsBelow(b: seq<Bucket>, n: nat): set<nat>
    requires n <= |b|
  {
    set i | 0 <= i < n && b[i].Occupied? :: b[i].row
  }

  lemma {:induction false} DistinctRows(b: seq<Bucket>, n: nat)
    requires n <= |b| && forall i :: 0 <= i < n ==> b[i].Occupied?
    requires forall i, j :: 0 <= i < j < n ==> b[i].row != b[j].row
    ensures |RowsBelow(b, n)| == n
  {
    if n == 0 {
      assert RowsBelow(b, 0) == {};
    } else {
      DistinctRows(b, n - 1);
      assert RowsBelow(b, n) == RowsBelow(b, n - 1) + {b[n - 1].row};
    }
  }

  lemma SubsetSize<T>(a: set<T>, b: set<T>)
    requires a <= b
    ensures |a| <= |b|
  {
    assert b == a + (b - a);
  }

  /** An index with fewer rows than buckets has an empty bucket, so every probe ends. */
  lemma SomeBucketEmpty(b: seq<Bucket>, entries: Entries) returns (z: nat)
    requires Represents(b, entries) && |entries| < |b|
    ensures z < |b| && b[z].Empty?
  {
    if forall i :: 0 <= i < |b| ==> b[i].Occupied? {
      forall i, j | 0 <= i < j < |b| ensures b[i].row != b[j].row && b[i].row in entries {
        assert Apart(b, i, j) && BucketOk(b, entries, i);
      }
      forall i | 0 <= i < |b| ensures b[i].row in entries {
        assert BucketOk(b, entries, i);
      }
      DistinctRows(b, |b|);
      SubsetSize(RowsBelow(b, |b|), entries.Keys);
      assert false;
    }
    z :| 0 <= z < |b| && b[z].Empty?;
  }

  lemma ProbeArithmetic(h: nat, d: nat, i: nat, n: nat)
    requires h < n && d < n && i < n
    ensures At(h, d, n) < n && Distance(h, At(h, d, n), n) == d
    ensures At(h, Distance(h, i, n), n) == i && Distance(h, i, n) < n
    ensures d + 1 < n ==> At(h, d + 1, n) == Step(At(h, d, n), n)
  {
  }

  /** Everything a probe from h has passed in d steps is occupied and fails the test. */
  ghost predicate Passed(b: seq<Bucket>, h: nat, d: nat, hash: nat, equal: nat -> bool)
    requires h < |b| && d <= |b|
  {
    forall e :: 0 <= e < d ==>
      && b[At(h, e, |b|)].Occupied?
      && !(b[At(h, e, |b|)].hash == hash && equal(b[At(h, e, |b|)].row))
  }

  lemma PassedStopsAtEmpty(b: seq<Bucket>, h: nat, d: nat, hash: nat, equal: nat -> bool, z: nat)
    requires h < |b| && d <= |b| && z < |b| && b[z].Empty? && Passed(b, h, d, hash, equal)
    ensures d <= Distance(h, z, |b|) < |b|
  {
    ProbeArithmetic(h, 0, z, |b|);
  }

  /** A probe that reaches an empty bucket has seen every row with its hash. */
  lemma MissedNothing(b: seq<Bucket>, entries: Entries, d: nat, hash: nat, equal: nat -> bool)
    requires Represents(b, entries) && d < |b|
    requires Passed(b, Home(hash, |b|), d, hash, equal)
    requires b[At(Home(hash, |b|), d, |b|)].Empty?
    ensures forall row <- entries :: entries[row] == hash ==> !equal(row)
  {
    var h := Home(hash, |b|);
    forall row <- entries | entries[row] == hash ensures !equal(row) {
      assert Holds(b, row);
      var j :| 0 <= j < |b| && b[j].Occupied? && b[j].row == row;
      ProbeArithmetic(h, d, j, |b|);
      assert BucketOk(b, entries, j);
      if d <= Distance(h, j, |b|) {
        assert false;
      }
    }
  }

  /** Claiming the empty bucket a probe ended at keeps the invariant. */
  lemma ClaimKeepsInvariant(b: seq<Bucket>, entries: Entries, d: nat, hash: nat, row: nat)
    requires Represents(b, entries) && d < |b| && row !in entries
    requires forall e :: 0 <= e < d ==> b[At(Home(hash, |b|), e, |b|)].Occupied?
    requires b[At(Home(hash, |b|), d, |b|)].Empty?
    ensures Represents(b[At(Home(hash, |b|), d, |b|) := Occupied(hash, row)], entries[row := hash])
  {
    var n, h := |b|, Home(hash, |b|);
    var i := At(h, d, n);
    var c := b[i := Occupied(hash, row)];
    ProbeArithmetic(h, d, i, n);
    var more := entries[row := hash];
    forall j: nat ensures BucketOk(c, more, j) {
      assert BucketOk(b, entries, j);
    }
    forall j: nat, k: nat ensures Apart(c, j, k) {
      assert Apart(b, j, k) && BucketOk(b, entries, j) && BucketOk(b, entries, k);
    }
    forall r | r in entries[row := hash] ensures Holds(c, r) {
      if r == row {
        assert c[i].row == row;
      } else {
        assert Holds(b, r);
        var j :| 0 <= j < n && b[j].Occupied? && b[j].row == r;
        assert c[j] == b[j];
      }
    }
  }

  /** The entries held by the first k buckets. */
  ghost function EntriesBelow(b: seq<Bucket>, entries: Entries, k: nat): Entries
    requires k <= |b|
  {
    map row <- RowsBelow(b, k) * entries.Keys :: entries[row]
  }

  lemma EntriesBelowStep(b: seq<Bucket>, entries: Entries, k: nat)
    requires Represents(b, entries) && k < |b|
    ensures b[k].Empty? ==> EntriesBelow(b, entries, k + 1) == EntriesBelow(b, entries, k)
    ensures b[k].Occupied? ==>
      && b[k].row !in EntriesBelow(b, entries, k)
      && EntriesBelow(b, entries, k + 1) == EntriesBelow(b, entries, k)[b[k].row := b[k].hash]
  {
    if b[k].Empty? {
      assert RowsBelow(b, k + 1) == RowsBelow(b, k);
    } else {
      assert BucketOk(b, entries, k);
      forall i | 0 <= i < k && b[i].Occupied? ensures b[i].row != b[k].row {
        assert Apart(b, i, k);
      }
      assert RowsBelow(b, k + 1) == RowsBelow(b, k) + {b[k].row};
    }
  }

  lemma EntriesBelowAll(b: seq<Bucket>, entries: Entries)
    requires Represents(b, entries)
    ensures EntriesBelow(b, entries, |b|) == entries
  {
    forall row <- entries ensures row in RowsBelow(b, |b|) {
      assert Holds(b, row);
    }
  }

  lemma EmptyRepresents(b: seq<Bucket>)
    requires |b| > 0 && forall i :: 0 <= i < |b| ==> b[i].Empty?
    ensures Represents(b, map[])
  {
  }

  function Doubling(n: nat, m: nat): nat
    requires 0 < n
    decreases if n < m then m - n else 0
  {
    if n >= m then n else Doubling(2 * n, m)
  }

  /** The smallest power of two that is at least 16 and at least n. */
  function InitialCapacity(n: nat): (c: nat)
    ensures c >= 16 && c >= n
  {
    DoublingAtLeast(16, n);
    Doubling(16, n)
  }

  lemma {:induction false} DoublingAtLeast(n: nat, m: nat)
    requires 0 < n
    ensures Doubling(n, m) >= n && Doubling(n, m) >= m
    ensures PowerOfTwo(n) ==> PowerOfTwo(Doubling(n, m))
    decreases if n < m then m - n else 0
  {
    if n < m {
      DoublingAtLeast(2 * n, m);
    }
  }

  class HashIndex {
    var buckets: array<Bucket>
    var size: nat
    ghost var entries: Entries

    ghost predicate Valid()
      reads this, buckets
    {
      && buckets.Length >= 16 && PowerOfTwo(buckets.Length)
      && size == |entries|
      && size * 10 <= buckets.Length * 7
      && Represents(buckets[..], entries)
    }

    constructor (initialCapacity: nat)
      ensures Valid() && fresh(buckets) && entries == map[]
    {
      DoublingAtLeast(16, initialCapacity);
      buckets := new Bucket[InitialCapacity(initialCapacity)](_ => Empty);
      size := 0;
      entries := map[];
    }

    /** Finds a row with this hash that the caller accepts as equal, if the index has one. */
    method Find(hash: nat, equal: nat -> bool) returns (r: Option<nat>)
      requires Valid()
      ensures r.Some? ==> r.value in entries && entries[r.value] == hash && equal(r.value)
      ensures r.None? ==> forall row <- entries :: entries[row] == hash ==> !equal(row)
    {
      var i;
      ghost var d;
      i, d := Probe(hash, equal);
      if buckets[i].Empty? {
        MissedNothing(buckets[..], entries, d, hash, equal);
        return None;
      }
      assert BucketOk(buckets[..], entries, i);
      return Some(buckets[i].row);
    }

    /** Probes until an empty bucket or a match. */
    method Probe(hash: nat, equal: nat -> bool) returns (i: nat, ghost d: nat)
      requires Valid()
      ensures i < buckets.Length && d < buckets.Length
      ensures i == At(Home(hash, buckets.Length), d, buckets.Length)
      ensures Passed(buckets[..], Home(hash, buckets.Length), d, hash, equal)
      ensures buckets[i].Occupied? ==> buckets[i].hash == hash && equal(buckets[i].row)
    {
      var n := buckets.Length;
      ghost var b := buckets[..];
      ghost var z := SomeBucketEmpty(b, entries);
      i, d := Home(hash, n), 0;
      while buckets[i].Occupied?
        invariant d < n && i == At(Home(hash, n), d, n)
        invariant Passed(b, Home(hash, n), d, hash, equal)
        decreases n - d
      {
        if buckets[i].hash == hash && equal(buckets[i].row) {
          return;
        }
        assert b[i] == buckets[i];
        PassedStopsAtEmpty(b, Home(hash, n), d + 1, hash, equal, z);
        ProbeArithmetic(Home(hash, n), d, i, n);
        i, d := Step(i, n), d + 1;
      }
    }

    /** Finds an equal row, or adds the new one; growing first keeps the load at 70%. */
    method FindOrInsert(hash: nat, equal: nat -> bool, newRow: nat) returns (row: nat, inserted: bool)
      requires Valid() && newRow !in entries
      modifies this, buckets
      ensures Valid() && (buckets == old(buckets) || fresh(buckets))
      ensures !inserted ==>
        && entries == old(entries)
        && row in entries && entries[row] == hash && equal(row)
      ensures inserted ==>
        && row == newRow
        && entries == old(entries)[newRow := hash]
        && forall r <- old(entries) :: old(entries)[r] == hash ==> !equal(r)
    {
      if (size + 1) * 10 > buckets.Length * 7 {
        Grow();
      }
      var i;
      ghost var d;
      i, d := Probe(hash, equal);
      if buckets[i].Occupied? {
        assert BucketOk(buckets[..], entries, i);
        return buckets[i].row, false;
      }
      MissedNothing(buckets[..], entries, d, hash, equal);
      ClaimKeepsInvariant(buckets[..], entries, d, hash, newRow);
      buckets[i] := Occupied(hash, newRow);
      size := size + 1;
      entries := entries[newRow := hash];
      row, inserted := newRow, true;
    }

    /** Doubles the capacity and keeps exactly the same entries. */
    method Grow()
      requires Valid()
      modifies this
      ensures Valid() && fresh(buckets) && buckets.Length == 2 * old(buckets.Length)
      ensures entries == old(entries) && size == old(size)
    {
      var was := buckets;
      var m := 2 * was.Length;
      assert PowerOfTwo(m);
      var now := new Bucket[m](_ => Empty);
      EmptyRepresents(now[..]);
      Rehash(was, now, entries);
      buckets := now;
    }
  }

  /** Places every occupied bucket of one array into another, empty one. */
  method Rehash(was: array<Bucket>, now: array<Bucket>, ghost entries: Entries)
    requires was != now && Represents(was[..], entries) && |entries| < now.Length
    requires Represents(now[..], map[])
    modifies now
    ensures Represents(now[..], entries)
  {
    ghost var b := was[..];
    assert EntriesBelow(b, entries, 0) == map[];
    for k := 0 to was.Length
      invariant was[..] == b
      invariant Represents(now[..], EntriesBelow(b, entries, k))
    {
      EntriesBelowStep(b, entries, k);
      if was[k].Occupied? {
        ghost var part := EntriesBelow(b, entries, k);
        SubsetSize(part.Keys, entries.Keys);
        assert b[k] == was[k];
        Place(now, part, was[k].hash, was[k].row);
      }
    }
    EntriesBelowAll(b, entries);
  }

  /** Puts a bucket into the first empty slot from its home. */
  method Place(a: array<Bucket>, ghost part: Entries, hash: nat, row: nat)
    requires Represents(a[..], part) && |part| < a.Length && row !in part
    modifies a
    ensures Represents(a[..], part[row := hash])
  {
    var n := a.Length;
    ghost var b := a[..];
    ghost var z := SomeBucketEmpty(b, part);
    var i := Home(hash, n);
    ghost var d := 0;
    while a[i].Occupied?
      invariant d < n && i == At(Home(hash, n), d, n)
      invariant a[..] == b
      invariant forall e :: 0 <= e < d ==> b[At(Home(hash, n), e, n)].Occupied?
      decreases n - d
    {
      assert b[i] == a[i];
      PassedStopsAtEmpty(b, Home(hash, n), d + 1, hash, _ => false, z);
      ProbeArithmetic(Home(hash, n), d, i, n);
      i, d := Step(i, n), d + 1;
    }
    ClaimKeepsInvariant(b, part, d, hash, row);
    a[i] := Occupied(hash, row);
    assert a[..] == b[i := Occupied(hash, row)];
  }
}
