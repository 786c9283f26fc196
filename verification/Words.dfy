/** The arithmetic both rings rest on: `size_t` counters that wrap at 2^64 and slots
    picked with `pos & MASK`, where `MASK == BufSize - 1`. */
module Words {

  /** The number of `size_t` values. */
  const WORD: int := 0x1_0000_0000_0000_0000

  /** The value a 64-bit counter holds after `k` increments from zero. */
  function Wrap(k: int): nat {
    k % WORD
  }

  function Pow2(e: nat): (r: nat)
    ensures r >= 1
  {
    if e == 0 then 1 else 2 * Pow2(e - 1)
  }

  /** Bitwise `&`, one binary digit at a time. */
  function BitAnd(x: nat, y: nat): nat {
    if x == 0 || y == 0 then 0
    else 2 * BitAnd(x / 2, y / 2) + (if x % 2 == 1 && y % 2 == 1 then 1 else 0)
  }

  /** The constraint both templates put on `BufSize`. */
  predicate IsBufSize(b: nat) {
    2 <= b < WORD && BitAnd(b, b - 1) == 0
  }

  /** The slot of position `k` in a ring of `b` slots, by counting laps. */
  function SlotOf(k: nat, b: nat): (i: nat)
    requires b > 0
    ensures i < b
  {
    if k < b then k else SlotOf(k - b, b)
  }

  // ---------------------------------------------------------------- power of two

  lemma {:induction false} BitAndSelf(x: nat)
    ensures BitAnd(x, x) == x
  {
    if x > 0 {
      BitAndSelf(x / 2);
    }
  }

  /** `(b & (b - 1)) == 0` holds of exactly the powers of two. */
  lemma {:induction false} PowerOfTwoTest(b: nat)
    requires b >= 1
    ensures BitAnd(b, b - 1) == 0 <==> exists e: nat :: b == Pow2(e)
  {
    if b == 1 {
      assert b == Pow2(0);
    } else if b % 2 == 1 {
      assert (b - 1) / 2 == b / 2;
      BitAndSelf(b / 2);
      assert BitAnd(b, b - 1) == 2 * (b / 2);
      forall e: nat ensures b != Pow2(e) {
        assert e > 0 ==> Pow2(e) == 2 * Pow2(e - 1);
      }
    } else {
      var h := b / 2;
      assert (b - 1) / 2 == h - 1;
      assert BitAnd(b, b - 1) == 2 * BitAnd(h, h - 1);
      PowerOfTwoTest(h);
      if BitAnd(b, b - 1) == 0 {
        var e: nat :| h == Pow2(e);
        assert b == Pow2(e + 1);
      } else {
        forall e: nat ensures b != Pow2(e) {
          assert e > 0 ==> h != Pow2(e - 1);
        }
      }
    }
  }

  lemma {:induction false} Pow2Monotone(d: nat, e: nat)
    requires d <= e
    ensures Pow2(d) <= Pow2(e)
    decreases e
  {
    if d < e {
      Pow2Monotone(d, e - 1);
    }
  }

  lemma {:induction false} Pow2Split(d: nat, e: nat)
    ensures Pow2(d + e) == Pow2(d) * Pow2(e)
    decreases d
  {
    if d > 0 {
      Pow2Split(d - 1, e);
      assert Pow2(d + e) == 2 * Pow2(d - 1 + e);
      assert Pow2(d) * Pow2(e) == 2 * Pow2(d - 1) * Pow2(e) == 2 * (Pow2(d - 1) * Pow2(e));
    }
  }

  lemma Pow2Of64()
    ensures Pow2(64) == WORD
  {
    assert Pow2(8) == 256;
    Pow2Split(8, 8);
    Pow2Split(16, 16);
    Pow2Split(32, 32);
  }

  /** A legal `BufSize` is a power of two that divides 2^64. */
  lemma BufSizeDividesWord(b: nat) returns (e: nat, laps: nat)
    requires IsBufSize(b)
    ensures b == Pow2(e) && WORD == b * laps
  {
    PowerOfTwoTest(b);
    e :| b == Pow2(e);
    Pow2Of64();
    if e > 64 {
      Pow2Monotone(64, e);
    }
    Pow2Split(e, 64 - e);
    laps := Pow2(64 - e);
  }

  // ---------------------------------------------------------------- slots

  lemma {:induction false} SlotHalves(k: nat, b: nat)
    requires b > 0
    ensures SlotOf(k, 2 * b) == 2 * SlotOf(k / 2, b) + k % 2
  {
    if k >= 2 * b {
      SlotHalves(k - 2 * b, b);
      assert (k - 2 * b) / 2 == k / 2 - b && (k - 2 * b) % 2 == k % 2;
    }
  }

  lemma {:induction false} SlotOfOne(k: nat)
    ensures SlotOf(k, 1) == 0
  {
    if k > 0 {
      SlotOfOne(k - 1);
    }
  }

  lemma {:induction false} MaskOfPow2(k: nat, e: nat)
    ensures BitAnd(k, Pow2(e) - 1) == SlotOf(k, Pow2(e))
    decreases e
  {
    if e == 0 {
      SlotOfOne(k);
    } else {
      var m := Pow2(e - 1);
      assert (2 * m - 1) / 2 == m - 1 && (2 * m - 1) % 2 == 1;
      MaskOfPow2(k / 2, e - 1);
      SlotHalves(k, m);
      if k == 0 || m == 1 {
        assert BitAnd(k / 2, m - 1) == 0;
      }
    }
  }

  lemma {:induction false} SlotOfLaps(k: nat, b: nat, laps: nat)
    requires b > 0
    ensures SlotOf(k + b * laps, b) == SlotOf(k, b)
    decreases laps
  {
    if laps > 0 {
      assert b * laps == b * (laps - 1) + b;
      SlotOfLaps(k, b, laps - 1);
    }
  }

  lemma SlotOfNextWord(k: nat, b: nat, laps: nat)
    requires b > 0 && WORD == b * laps
    ensures SlotOf(k + WORD, b) == SlotOf(k, b)
  {
    SlotOfLaps(k, b, laps);
  }

  lemma {:induction false} SlotOfWrapped(k: nat, b: nat)
    requires b > 0 && forall n: nat :: SlotOf(n + WORD, b) == SlotOf(n, b)
    ensures SlotOf(Wrap(k), b) == SlotOf(k, b)
  {
    if k >= WORD {
      var n := k - WORD;
      SlotOfWrapped(n, b);
      assert SlotOf(n + WORD, b) == SlotOf(n, b);
      assert Wrap(k) == Wrap(n);
    } else {
      assert Wrap(k) == k;
    }
  }

  /** Masking the wrapped counter finds the same slot as counting laps of the unbounded
      one: wrap-around at 2^64 never moves an item. */
  lemma MaskFindsSlot(k: nat, b: nat)
    requires IsBufSize(b)
    ensures BitAnd(Wrap(k), b - 1) == SlotOf(k, b)
  {
    var e, laps := BufSizeDividesWord(b);
    MaskOfPow2(Wrap(k), e);
    forall n: nat ensures SlotOf(n + WORD, b) == SlotOf(n, b) {
      SlotOfNextWord(n, b, laps);
    }
    SlotOfWrapped(k, b);
  }

  /** Two positions share a slot only when they are at least a lap apart. */
  lemma {:induction false} SameSlotApart(j: nat, k: nat, b: nat)
    requires b > 0 && j < k && SlotOf(j, b) == SlotOf(k, b)
    ensures j + b <= k
    decreases k
  {
    if j >= b {
      SameSlotApart(j - b, k - b, b);
    }
  }

  /** Within one lap, positions and slots correspond one to one. */
  lemma WindowSlotsDistinct(f: nat, b: nat)
    requires b > 0
    ensures forall j: nat, k: nat {:trigger SlotOf(j, b), SlotOf(k, b)} ::
              f <= j < f + b && f <= k < f + b && SlotOf(j, b) == SlotOf(k, b) ==> j == k
  {
    forall j: nat, k: nat | f <= j < f + b && f <= k < f + b && SlotOf(j, b) == SlotOf(k, b)
      ensures j == k
    {
      if j < k {
        SameSlotApart(j, k, b);
      } else if k < j {
        SameSlotApart(k, j, b);
      }
    }
  }

  lemma NextLapSameSlot(k: nat, b: nat)
    requires b > 0
    ensures SlotOf(k + b, b) == SlotOf(k, b)
  {
  }

  /** Counters less than 2^64 apart are equal exactly when their words are. */
  lemma WrapInjective(j: nat, k: nat)
    requires -WORD < j - k < WORD
    ensures Wrap(j) == Wrap(k) <==> j == k
  {
  }

  /** The unsigned difference of two words is the wrapped difference of the counters. */
  lemma WrapDifference(j: nat, k: nat)
    ensures Wrap(Wrap(j) - Wrap(k)) == Wrap(j - k)
  {
  }

  lemma WrapSum(k: nat, n: nat)
    ensures Wrap(Wrap(k) + n) == Wrap(k + n)
  {
  }
}
