/**
 * Where the k-th item of an endless stream lands in a ring of n slots, and on which lap.
 * Both are defined by stepping back one lap at a time, so that ring arguments stay linear;
 * `SlotIsResidue` and `EvenLapIsParity` say that they are the remainder and the quotient's parity.
 */
module Modular {

  function Slot(k: nat, n: nat): (s: nat)
    requires n > 0
    ensures s < n
  {
    if k < n then k else Slot(k - n, n)
  }

  /** The lap itself: the quotient. */
  function Lap(k: nat, n: nat): nat
    requires n > 0
  {
    if k < n then 0 else 1 + Lap(k - n, n)
  }

  predicate EvenLap(k: nat, n: nat)
    requires n > 0
  {
    if k < n then true else !EvenLap(k - n, n)
  }

  /** The next slot. */
  function Succ(x: nat, n: nat): nat { if x + 1 == n then 0 else x + 1 }

  /** The wrap test `if (++x == n) { x = 0; flip; }` computes the next slot and lap. */
  lemma {:induction false} NextSlot(k: nat, n: nat)
    requires n > 0
    ensures Slot(k + 1, n) == if Slot(k, n) + 1 == n then 0 else Slot(k, n) + 1
    ensures EvenLap(k + 1, n) == (EvenLap(k, n) != (Slot(k, n) + 1 == n))
  {
    if k >= n { NextSlot(k - n, n); }
  }

  /** Inside a window of n items the slot distance is the item distance, give or take one lap. */
  lemma {:induction false} SlotDistance(a: nat, b: nat, n: nat)
    requires n > 0 && a <= b < a + n
    ensures Slot(b, n) - Slot(a, n) == b - a || Slot(b, n) - Slot(a, n) == b - a - n
    ensures Slot(a, n) == Slot(b, n) <==> a == b
  {
    if a >= n { SlotDistance(a - n, b - n, n); }
  }

  /** One lap later the slot is the same and the lap parity flips. */
  lemma OneLap(k: nat, n: nat)
    requires n > 0
    ensures Slot(k + n, n) == Slot(k, n) && EvenLap(k + n, n) == !EvenLap(k, n)
  {}

  lemma {:induction false} SlotIsResidue(k: nat, n: nat)
    requires n > 0
    ensures Slot(k, n) == k % n
  {
    if k < n { UniqueDivision(k, n, 0, k); } else {
      SlotIsResidue(k - n, n);
      ShiftResidue(k - n, 1, n);
    }
  }

  lemma {:induction false} LapIsQuotient(k: nat, n: nat)
    requires n > 0
    ensures Lap(k, n) == k / n
  {
    if k < n { UniqueDivision(k, n, 0, k); } else {
      LapIsQuotient(k - n, n);
      ShiftResidue(k - n, 1, n);
    }
  }

  lemma {:induction false} EvenLapIsParity(k: nat, n: nat)
    requires n > 0
    ensures EvenLap(k, n) <==> (k / n) % 2 == 0
  {
    if k < n { UniqueDivision(k, n, 0, k); } else {
      EvenLapIsParity(k - n, n);
      ShiftResidue(k - n, 1, n);
    }
  }

  /** Two laps of n slots are one lap of 2n: the slot, plus n on odd laps. */
  lemma {:induction false} DoubleSlot(k: nat, n: nat)
    requires n > 0
    ensures Slot(k, 2 * n) == Slot(k, n) + (if EvenLap(k, n) then 0 else n)
    ensures Slot(Slot(k, 2 * n), n) == Slot(k, n)
    decreases k
  {
    if k >= 2 * n {
      DoubleSlot(k - 2 * n, n);
      assert Slot(k, n) == Slot(k - n, n) == Slot(k - n - n, n);
      assert EvenLap(k, n) == EvenLap(k - n - n, n);
    }
    assert Slot(k, n) < n;
  }

  /** Slot and lap determine the number, and any digits in range are its slot and lap. */
  lemma {:induction false} Decompose(k: nat, n: nat)
    requires n > 0
    ensures k == Lap(k, n) * n + Slot(k, n)
  {
    if k >= n { Decompose(k - n, n); assert Lap(k, n) * n == Lap(k - n, n) * n + n; }
  }

  lemma {:induction false} Digits(q: nat, n: nat, r: nat)
    requires r < n
    ensures Slot(q * n + r, n) == r && Lap(q * n + r, n) == q
  {
    if q > 0 {
      Digits(q - 1, n, r);
      assert q * n + r - n == (q - 1) * n + r;
      assert q * n >= n by { SmallMultiple(q, n); }
    }
  }

  // ---------------------------------------------------------------- division facts

  /** A multiple strictly between -n and n is zero. */
  lemma SmallMultiple(d: int, n: nat)
    ensures d >= 1 ==> d * n >= n
    ensures d <= -1 ==> d * n <= -(n as int)
  {}

  lemma UniqueDivision(k: int, n: nat, q: int, r: nat)
    requires 0 <= r < n && k == q * n + r
    ensures k / n == q && k % n == r
  {
    var d := k / n - q;
    assert k == (k / n) * n + k % n;
    assert d * n == r - k % n by { assert d * n == (k / n) * n - q * n; }
    SmallMultiple(d, n);
  }

  /** Adding a multiple of n keeps the remainder. */
  lemma ShiftResidue(x: int, q: int, n: nat)
    requires n > 0
    ensures (x + q * n) % n == x % n && (x + q * n) / n == x / n + q
  {
    assert (x / n + q) * n == (x / n) * n + q * n;
    UniqueDivision(x + q * n, n, x / n + q, x % n);
  }
}
