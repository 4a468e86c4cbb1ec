/**
 * The queue descriptor of include/nvm_queue.h: the six inline operations as functions on its
 * fields, and what those fields, all residues, say about the counts that are never stored.
 * The methods on queue memory that compute these functions are those of class Queue.Queue.
 */
module Ring {
  import opened Modular

  /** One past the largest value of the 32-bit head and tail fields. */
  const WORD: nat := 0x1_0000_0000
  /** One past the largest value of the 16-bit fields (max_entries, CID). */
  const HALF: nat := 0x1_0000

  /** The mutable fields of nvm_queue_t; `size` is max_entries. */
  datatype Desc = Desc(size: nat, head: nat, tail: nat, phase: bool, last: nat)

  function Clear(size: nat): Desc { Desc(size, 0, 0, true, 0) }

  /** The full test: a wrapped 32-bit difference, its remainder by size, cast to 16 bits. */
  predicate Full(d: Desc)
    requires d.size > 0
  {
    Slot((d.tail - d.head) % WORD, d.size) % HALF == d.size - 1
  }

  /** nvm_sq_enqueue past the full test: take slot `d.tail`. */
  function Enqueue(d: Desc): Desc {
    if d.tail + 1 == d.size then d.(tail := 0, phase := !d.phase) else d.(tail := d.tail + 1)
  }

  /** The identifier nvm_sq_enqueue writes, from the fields after the tail moved (16-bit store). */
  function CommandId(d: Desc): nat {
    (d.tail + (if d.phase then 0 else d.size)) % HALF
  }

  function Submit(d: Desc): Desc { if d.last != d.tail then d.(last := d.tail) else d }

  /** nvm_sq_update in its two visible stores: the increment and the wrap. */
  function HeadIncrement(d: Desc): Desc { d.(head := d.head + 1) }
  function HeadWrap(d: Desc): Desc { if d.head == d.size then d.(head := 0) else d }
  function SqUpdate(d: Desc): Desc { HeadWrap(HeadIncrement(d)) }

  /** nvm_cq_dequeue once the poll succeeded. */
  function Dequeue(d: Desc): Desc {
    if d.head + 1 == d.size then d.(head := 0, phase := !d.phase) else d.(head := d.head + 1)
  }

  function CqUpdate(d: Desc): Desc { if d.last != d.head then d.(last := d.head) else d }

  // ---------------------------------------------------------------- the full test, exactly

  /** The entries in use, read off the two fields (head == size counts as head == 0). */
  function Occupancy(d: Desc): int {
    if d.tail >= d.head then d.tail - d.head else d.tail - d.head + d.size
  }

  /** The sizes whose laps fill the 32-bit word exactly: those that divide 2^32. */
  ghost predicate DividesWord(size: nat)
    requires size > 0
  {
    Slot(WORD, size) == 0
  }

  lemma DividesWordIs(size: nat)
    requires size > 0
    ensures DividesWord(size) <==> WORD % size == 0
  {
    SlotIsResidue(WORD, size);
  }

  /** For one pair of fields: the wrapped test is right when the size divides the word. */
  lemma FullMeansFull(d: Desc)
    requires 2 <= d.size < HALF && DividesWord(d.size) && d.head <= d.size && d.tail < d.size
    ensures Full(d) <==> Occupancy(d) == d.size - 1
  {
    var x := d.tail - d.head;
    assert x % WORD == if x >= 0 then x else x + WORD;
    if x < 0 { SlotBefore(WORD, -x, d.size); }
    assert Slot(x % WORD, d.size) == Occupancy(d);
  }

  /** Stepping back from a lap boundary. */
  lemma SlotBefore(k: nat, back: nat, n: nat)
    requires 0 < back <= n <= k && Slot(k, n) == 0
    ensures Slot(k - back, n) == n - back
    decreases k
  {
    if k > n { SlotBefore(k - n, back, n); }
  }

  /** A ring filled to head 1, tail 0 is full; the test sees the remainder of 2^32 - 1. */
  lemma OddSizeMissesFull(size: nat)
    requires 2 <= size < HALF && !DividesWord(size)
    ensures Occupancy(Desc(size, 1, 0, true, 0)) == size - 1 && !Full(Desc(size, 1, 0, true, 0))
  {
    NextSlot(WORD - 1, size);
  }

  /** The full test agrees with the occupancy on every head and tail a ring of this size can show. */
  ghost predicate TestsFull(size: nat)
    requires size > 0
  {
    forall d: Desc | d.size == size && d.head <= size && d.tail < size :: Full(d) <==> Occupancy(d) == size - 1
  }

  function Pow2(k: nat): nat { if k == 0 then 1 else 2 * Pow2(k - 1) }

  ghost predicate PowerOfTwo(n: nat) { exists k: nat :: n == Pow2(k) }

  lemma Even(n: nat, q: nat, m: nat)
    requires n * q == 2 * m
    ensures n % 2 == 0 ==> n / 2 * q == m
    ensures n % 2 == 1 ==> q % 2 == 0 && n * (q / 2) == m
  {
    var h := n / 2;
    if n % 2 == 0 {
      assert n == 2 * h && 2 * (h * q) == n * q;
    } else {
      assert n == 2 * h + 1 && n * q == 2 * (h * q) + q;
      assert q == 2 * (q / 2) && n * q == 2 * (n * (q / 2));
    }
  }

  /** The divisors of a power of two are powers of two. */
  lemma {:induction false} Divisors(n: nat, q: nat, j: nat) returns (k: nat)
    requires n * q == Pow2(j)
    ensures n == Pow2(k)
  {
    if j == 0 {
      k := 0;
      SmallMultiple(q, n);
    } else {
      Even(n, q, Pow2(j - 1));
      if n % 2 == 0 {
        k := Divisors(n / 2, q, j - 1);
        k := k + 1;
      } else {
        k := Divisors(n, q / 2, j - 1);
      }
    }
  }

  lemma {:induction false} Multiples(k: nat, j: nat) returns (q: nat)
    requires k <= j
    ensures Pow2(j) == q * Pow2(k)
  {
    if k == j { q := 1; } else {
      var p := Multiples(k, j - 1);
      q := 2 * p;
      assert 2 * (p * Pow2(k)) == q * Pow2(k);
    }
  }

  lemma Increasing(k: nat, j: nat)
    requires Pow2(k) < Pow2(j)
    ensures k < j
  {}

  lemma WordIsPow2()
    ensures WORD == Pow2(32)
  {
    assert Pow2(8) == 0x100;
    assert Pow2(16) == 0x1_0000;
    assert Pow2(24) == 0x100_0000;
  }

  /** A 16-bit ring size divides the word exactly when it is a power of two. */
  lemma DividingSizes(size: nat)
    requires 1 <= size < HALF
    ensures DividesWord(size) <==> PowerOfTwo(size)
  {
    WordIsPow2();
    if DividesWord(size) {
      Decompose(WORD, size);
      var k := Divisors(size, Lap(WORD, size), 32);
    }
    if PowerOfTwo(size) { PowersDivide(size); }
  }

  lemma PowersDivide(size: nat)
    requires 1 <= size < HALF && PowerOfTwo(size)
    ensures DividesWord(size)
  {
    hide Slot, Pow2;
    WordIsPow2();
    var k: nat :| size == Pow2(k);
    Increasing(k, 32);
    var q := Multiples(k, 32);
    Digits(q, size, 0);
    assert q * size + 0 == WORD;
  }

  /**
   * The full test is right for every head and tail, the transient head == size of a concurrent
   * nvm_sq_update included, exactly when the ring size divides 2^32, that is, when it is a power of two.
   */
  lemma FullTestExact(size: nat)
    requires 2 <= size < HALF
    ensures TestsFull(size) <==> WORD % size == 0
    ensures TestsFull(size) <==> PowerOfTwo(size)
  {
    DividesWordIs(size);
    DividingSizes(size);
    if DividesWord(size) {
      forall d: Desc | d.size == size && d.head <= size && d.tail < size
        ensures Full(d) <==> Occupancy(d) == size - 1
      {
        FullMeansFull(d);
      }
    } else {
      OddSizeMissesFull(size);
    }
  }

  /** nvm_queue_clear's ring size: what the page holds, capped by the controller. */
  function ClearedSize(maxEntries: nat, pageSize: nat, entrySize: nat): nat
    requires entrySize > 0
  {
    if maxEntries <= pageSize / entrySize then maxEntries else pageSize / entrySize
  }

  // ---------------------------------------------------------------- fields as residues of counters

  /** A submission descriptor after `enq` enqueues, `sub` of them submitted and `upd` head updates. */
  ghost predicate SqTracks(d: Desc, enq: nat, sub: nat, upd: nat) {
    && d.size >= 2
    && d.tail == Slot(enq, d.size) && d.phase == EvenLap(enq, d.size)
    && d.last == Slot(sub, d.size)
    && (d.head == Slot(upd, d.size) || (d.head == d.size && Slot(upd, d.size) == 0))
  }

  /** A completion descriptor after `deq` dequeues, `ack` of them acknowledged. */
  ghost predicate CqTracks(d: Desc, deq: nat, ack: nat) {
    && d.size >= 2
    && d.head == Slot(deq, d.size) && d.phase == EvenLap(deq, d.size)
    && d.last == Slot(ack, d.size)
  }

  /**
   * The submission side never exchanges a count, yet while the counters stay within one ring
   * the full test is `enq - upd == size - 1`, the skipped doorbell is `sub == enq`, and the
   * next command gets identifier (enq + 1) mod 2*size.
   */
  lemma SqByCounters(d: Desc, enq: nat, sub: nat, upd: nat)
    requires SqTracks(d, enq, sub, upd) && upd <= sub <= enq <= upd + d.size - 1
    requires d.size < HALF && DividesWord(d.size)
    ensures Full(d) <==> enq - upd == d.size - 1
    ensures d.last == d.tail <==> sub == enq
    ensures SqTracks(Enqueue(d), enq + 1, sub, upd)
    ensures CommandId(Enqueue(d)) == Slot(enq + 1, 2 * d.size) % HALF
    ensures SqTracks(Submit(d), enq, enq, upd)
  {
    hide Slot, EvenLap, DividesWord;
    NextSlot(enq, d.size);
    SlotDistance(sub, enq, d.size);
    SlotDistance(upd, enq, d.size);
    DoubleSlot(enq + 1, d.size);
    FullMeansFull(d);
  }

  lemma HeadByCounters(d: Desc, enq: nat, sub: nat, upd: nat)
    requires SqTracks(d, enq, sub, upd)
    ensures d.head < d.size ==> SqTracks(HeadIncrement(d), enq, sub, upd + 1)
    ensures SqTracks(HeadWrap(d), enq, sub, upd) && HeadWrap(d).head < d.size
  {
    NextSlot(upd, d.size);
  }

  lemma CqByCounters(d: Desc, deq: nat, ack: nat)
    requires CqTracks(d, deq, ack) && ack <= deq < ack + d.size
    ensures d.last == d.head <==> ack == deq
    ensures CqTracks(Dequeue(d), deq + 1, ack)
    ensures CqTracks(CqUpdate(d), deq, deq)
  {
    NextSlot(deq, d.size);
    SlotDistance(ack, deq, d.size);
  }
}
