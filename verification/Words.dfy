/** 64-bit words and what shifting, masking and counting do to their bits. */
module Words {

  type Word = bv64

  const ALL_ONES: Word := 0xffff_ffff_ffff_ffff

  /** A shift amount or a bit position. */
  function Position(i: nat): bv7 {
    if i == 0 then 0 else Position(i - 1) + 1
  }

  lemma {:induction false} PositionIs(i: nat)
    requires i < 128
    ensures Position(i) as int == i
  {
    if i > 0 {
      PositionIs(i - 1);
    }
  }

  lemma PositionInWord(i: nat)
    requires i < 128
    ensures Position(i) < 64 <==> i < 64
  {
    PositionIs(i);
  }

  predicate Has(w: Word, p: bv7)
    requires p < 64
  {
    (w >> p) & 1 == 1
  }

  predicate Bit(w: Word, i: nat)
    requires i < 64
  {
    PositionInWord(i);
    Has(w, Position(i))
  }

  function Double(w: Word): Word {
    w << 1
  }

  function Halve(w: Word): Word {
    w >> 1
  }

  function And(w: Word, v: Word): Word {
    w & v
  }

  function Or(w: Word, v: Word): Word {
    w | v
  }

  function Not(w: Word): Word {
    !w
  }

  /** Shifting by k places is shifting by one place k times. */
  function ShiftLeft(w: Word, k: nat): Word {
    if k == 0 then w else Double(ShiftLeft(w, k - 1))
  }

  function ShiftRight(w: Word, k: nat): Word {
    if k == 0 then w else Halve(ShiftRight(w, k - 1))
  }

  /** The machine's shifts. */
  function MachineLeft(w: Word, p: bv7): Word
    requires p < 64
  {
    w << p
  }

  function MachineRight(w: Word, p: bv7): Word
    requires p < 64
  {
    w >> p
  }

  /** The lowest bits of a word. */
  function LowMask(take: nat): Word
    requires take <= 64
  {
    if take == 64 then ALL_ONES else Predecessor(ShiftLeft(1, take))
  }

  function Predecessor(w: Word): Word {
    w - 1
  }

  // ---------------------------------------------------------------------------------------
  // The laws on machine words, one place at a time.

  lemma DoubleHas(w: Word, p: bv7)
    requires p < 64
    ensures Has(Double(w), p) == (p > 0 && Has(w, p - 1))
  {
  }

  lemma HalveHas(w: Word, p: bv7)
    requires p < 64
    ensures Has(Halve(w), p) == (p < 63 && Has(w, p + 1))
  {
  }

  lemma LeftOnce(w: Word, p: bv7)
    requires p < 63
    ensures (w << p) << 1 == w << (p + 1)
  {
  }

  lemma RightOnce(w: Word, p: bv7)
    requires p < 63
    ensures (w >> p) >> 1 == w >> (p + 1)
  {
  }

  lemma MachineLeftStep(w: Word, p: bv7)
    requires p < 63
    ensures p + 1 < 64 && Double(MachineLeft(w, p)) == MachineLeft(w, p + 1)
  {
    LeftOnce(w, p);
  }

  lemma MachineRightStep(w: Word, p: bv7)
    requires p < 63
    ensures p + 1 < 64 && Halve(MachineRight(w, p)) == MachineRight(w, p + 1)
  {
    RightOnce(w, p);
  }

  lemma MachineStart(w: Word)
    ensures MachineLeft(w, 0) == w && MachineRight(w, 0) == w
  {
  }

  lemma AndHas(w: Word, v: Word, p: bv7)
    requires p < 64
    ensures Has(And(w, v), p) == (Has(w, p) && Has(v, p))
  {
  }

  lemma NotHas(w: Word, p: bv7)
    requires p < 64
    ensures Has(Not(w), p) == !Has(w, p)
  {
  }

  lemma OrIsNotAnd(w: Word, v: Word)
    ensures Or(w, v) == Not(And(Not(w), Not(v)))
  {
  }

  lemma OrHas(w: Word, v: Word, p: bv7)
    requires p < 64
    ensures Has(Or(w, v), p) == (Has(w, p) || Has(v, p))
  {
    OrIsNotAnd(w, v);
    hide *;
    NotHas(w, p);
    NotHas(v, p);
    AndHas(Not(w), Not(v), p);
    NotHas(And(Not(w), Not(v)), p);
  }

  lemma ConstantsHave(p: bv7)
    requires p < 64
    ensures Has(ALL_ONES, p) && !Has(0, p) && Has(1, p) == (p == 0)
  {
  }

  lemma LowStep(w: Word)
    ensures Predecessor(Double(w)) == Or(Double(Predecessor(w)), 1) && Predecessor(1) == 0
  {
  }

  // ---------------------------------------------------------------------------------------
  // The same laws on numbered bits.

  lemma Bitwise(w: Word, v: Word, i: nat)
    requires i < 64
    ensures Bit(And(w, v), i) == (Bit(w, i) && Bit(v, i))
    ensures Bit(Or(w, v), i) == (Bit(w, i) || Bit(v, i))
    ensures Bit(Not(w), i) == !Bit(w, i)
  {
    hide Has;
    hide Position;
    hide And;
    hide Or;
    hide Not;
    PositionInWord(i);
    AndHas(w, v, Position(i));
    OrHas(w, v, Position(i));
    NotHas(w, Position(i));
  }

  lemma ConstantBits(i: nat)
    requires i < 64
    ensures Bit(ALL_ONES, i) && !Bit(0, i) && Bit(1, i) == (i == 0)
  {
    hide Has;
    PositionInWord(i);
    PositionIs(i);
    ConstantsHave(Position(i));
  }

  /** Shifting one place k times is the machine's shift by k. */
  lemma {:induction false} ShiftLeftIsMachine(w: Word, k: nat)
    requires k < 64
    ensures Position(k) < 64 && ShiftLeft(w, k) == MachineLeft(w, Position(k))
  {
    hide Double;
    hide MachineLeft;
    PositionInWord(k);
    if k == 0 {
      MachineStart(w);
    } else {
      ShiftLeftIsMachine(w, k - 1);
      PositionIs(k - 1);
      MachineLeftStep(w, Position(k - 1));
    }
  }

  lemma {:induction false} ShiftRightIsMachine(w: Word, k: nat)
    requires k < 64
    ensures Position(k) < 64 && ShiftRight(w, k) == MachineRight(w, Position(k))
  {
    hide Halve;
    hide MachineRight;
    PositionInWord(k);
    if k == 0 {
      MachineStart(w);
    } else {
      ShiftRightIsMachine(w, k - 1);
      PositionIs(k - 1);
      MachineRightStep(w, Position(k - 1));
    }
  }

  lemma DoubleBit(w: Word, i: nat)
    requires i < 64
    ensures Bit(Double(w), i) == (i > 0 && Bit(w, i - 1))
  {
    hide Has;
    hide Double;
    PositionInWord(i);
    PositionIs(i);
    DoubleHas(w, Position(i));
    if i > 0 {
      PositionInWord(i - 1);
      PositionIs(i - 1);
    }
  }

  lemma HalveBit(w: Word, i: nat)
    requires i < 64
    ensures Bit(Halve(w), i) == (i < 63 && Bit(w, i + 1))
  {
    hide Has;
    hide Halve;
    PositionInWord(i);
    PositionIs(i);
    HalveHas(w, Position(i));
    if i < 63 {
      PositionInWord(i + 1);
      PositionIs(i + 1);
    }
  }

  lemma {:induction false} ShiftLeftBit(w: Word, k: nat, i: nat)
    requires k < 64 && i < 64
    ensures Bit(ShiftLeft(w, k), i) == (i >= k && Bit(w, i - k))
    decreases k
  {
    hide Bit;
    hide Double;
    if k > 0 {
      DoubleBit(ShiftLeft(w, k - 1), i);
      if i > 0 {
        ShiftLeftBit(w, k - 1, i - 1);
      }
    }
  }

  lemma {:induction false} ShiftRightBit(w: Word, k: nat, i: nat)
    requires k < 64 && i < 64
    ensures Bit(ShiftRight(w, k), i) == (i + k < 64 && Bit(w, i + k))
    decreases k
  {
    hide Bit;
    hide Halve;
    if k > 0 {
      HalveBit(ShiftRight(w, k - 1), i);
      if i < 63 {
        ShiftRightBit(w, k - 1, i + 1);
      }
    }
  }

  lemma {:induction false} LowMaskBit(take: nat, i: nat)
    requires take <= 64 && i < 64
    ensures Bit(LowMask(take), i) == (i < take)
    decreases take
  {
    hide Bit;
    hide Double;
    hide Or;
    hide Predecessor;
    ConstantBits(i);
    if take < 64 {
      LowStep(1);
      if take > 0 {
        LowStep(ShiftLeft(1, take - 1));
        Bitwise(Double(LowMask(take - 1)), 1, i);
        DoubleBit(LowMask(take - 1), i);
        if i > 0 {
          LowMaskBit(take - 1, i - 1);
        }
      }
    }
  }

  lemma SingleBit(k: nat, i: nat)
    requires k < 64 && i < 64
    ensures Bit(ShiftLeft(1, k), i) == (i == k)
  {
    hide Bit;
    hide ShiftLeft;
    ShiftLeftBit(1, k, i);
    if i >= k {
      ConstantBits(i - k);
    }
  }

  // ---------------------------------------------------------------------------------------
  // Counting.

  function CountBelow(w: Word, n: nat): nat
    requires n <= 64
  {
    if n == 0 then 0 else CountBelow(w, n - 1) + if Bit(w, n - 1) then 1 else 0
  }

  /** The number of one bits of a word. */
  function PopCount(w: Word): nat {
    CountBelow(w, 64)
  }

  /** The number of false entries. */
  function Zeros(s: seq<bool>): nat {
    if s == [] then 0 else Zeros(s[..|s| - 1]) + if s[|s| - 1] then 0 else 1
  }

  lemma {:induction false} ZerosAppend(a: seq<bool>, b: seq<bool>)
    ensures Zeros(a + b) == Zeros(a) + Zeros(b)
  {
    if b == [] {
      assert a + b == a;
    } else {
      ZerosAppend(a, b[..|b| - 1]);
      assert (a + b)[..|a + b| - 1] == a + b[..|b| - 1];
    }
  }

  lemma {:induction false} ZerosOfConstant(s: seq<bool>, v: bool)
    requires forall i :: 0 <= i < |s| ==> s[i] == v
    ensures Zeros(s) == if v then 0 else |s|
  {
    if s != [] {
      ZerosOfConstant(s[..|s| - 1], v);
    }
  }

  /** A word that shows a list in its lowest bits, and nothing above, counts the list's ones. */
  lemma {:induction false} CountShown(w: Word, s: seq<bool>, n: nat)
    requires |s| <= 64 && n <= 64
    requires forall i :: 0 <= i < 64 ==> Bit(w, i) == (i < |s| && s[i])
    ensures n <= |s| ==> CountBelow(w, n) == n - Zeros(s[..n])
    ensures n > |s| ==> CountBelow(w, n) == |s| - Zeros(s)
  {
    if n > 0 {
      CountShown(w, s, n - 1);
      assert Bit(w, n - 1) == (n - 1 < |s| && s[n - 1]);
      if n <= |s| {
        assert s[..n][..n - 1] == s[..n - 1];
      }
      if n == |s| + 1 {
        assert s[..n - 1] == s;
      }
    }
  }
}
