/**
 * nvm_queue_t over real queue memory. Each operation of include/nvm_queue.h is a method, proved to
 * take the protocol step of the same name on the state it shows.
 */
module Queue {
  import opened Modular
  import opened Ring
  import opened Wrappers
  import opened Command
  import opened Protocol

  const SQ_WORDS := 16
  const CQ_WORDS := 4

  /** SQID (bytes 10-11), CID (bytes 12-13) and phase tag (bit 0 of byte 14) of a completion entry. */
  function EntryOf(w: seq<Dword>): Completion
    requires |w| == CQ_WORDS
  {
    Completion(w[2].hi, w[3].lo, Slot(w[3].hi, 2) == 1)
  }

  /** The same on the numbers of dwords 2 and 3 (section 4.6 of NVM Express 1.3). */
  lemma EntryReads(w: seq<Dword>)
    requires |w| == 4
    ensures var e, d2, d3 := EntryOf(w), Word(w[2]), Word(w[3]);
            e.sqid == d2 / 0x1_0000 && e.cid == d3 % 0x1_0000 && (e.tag <==> (d3 / 0x1_0000) % 2 == 1)
  {
    SlotIsResidue(w[3].hi, 2);
  }

  /** Memory holds these submission entries, one after the other. */
  ghost predicate HoldsEntries(mem: seq<Dword>, slots: seq<Words>) {
    && SQ_WORDS * |slots| <= |mem|
    && (forall i {:trigger slots[i]} | 0 <= i < |slots| :: mem[SQ_WORDS * i..SQ_WORDS * i + SQ_WORDS] == slots[i])
  }

  lemma FirstWordStored(mem: seq<Dword>, slots: seq<Words>, t: nat, x: Dword)
    requires HoldsEntries(mem, slots) && t < |slots|
    ensures HoldsEntries(mem[SQ_WORDS * t := x], slots[t := slots[t][0 := x]])
  {
    var mem' := mem[SQ_WORDS * t := x];
    forall i | 0 <= i < |slots|
      ensures mem'[SQ_WORDS * i..SQ_WORDS * i + SQ_WORDS] == slots[t := slots[t][0 := x]][i]
    {
      assert mem[SQ_WORDS * i..SQ_WORDS * i + SQ_WORDS] == slots[i];
    }
  }

  class Queue {
    const size: nat
    var head: nat
    var tail: nat
    var phase: bool
    var last: nat
    var db: nat              // value last stored to the doorbell register
    const mem: array<Dword>  // the queue's page

    /** nvm_queue_clear; the caller zeroes completion memory. */
    constructor (maxEntries: nat, pageSize: nat, cq: bool, mem: array<Dword>)
      ensures Desc() == Clear(ClearedSize(maxEntries, pageSize, if cq then 16 else 64)) && this.mem == mem && db == 0
      ensures size <= maxEntries && size * (if cq then 16 else 64) <= pageSize
      ensures size == maxEntries || (size + 1) * (if cq then 16 else 64) > pageSize
    {
      size := if maxEntries <= pageSize / (if cq then 16 else 64) then maxEntries else pageSize / (if cq then 16 else 64);
      head, tail, phase, last, db := 0, 0, true, 0, 0;
      this.mem := mem;
    }

    function Desc(): Ring.Desc
      reads this
    {
      Ring.Desc(size, head, tail, phase, last)
    }

    /** The descriptor, doorbell and memory are those of protocol queue b. */
    ghost predicate ShowsSub(b: Sub)
      reads this, mem
    {
      && Desc() == b.d && db == b.db && |b.slots| == size && mem.Length >= SQ_WORDS * size
      && HoldsEntries(mem[..], b.slots)
    }

    ghost predicate ShowsComp(c: Comp)
      reads this, mem
    {
      && Desc() == c.d && db == c.db && |c.slots| == size && mem.Length >= CQ_WORDS * size
      && (forall i | 0 <= i < size :: EntryOf(mem[CQ_WORDS * i..CQ_WORDS * i + CQ_WORDS]) == c.slots[i])
    }

    /** Offset of the slot taken, or None if the ring is full. */
    method SqEnqueue(ghost b: Sub) returns (slot: Option<nat>)
      requires ShowsSub(b) && SubShaped(b)
      modifies this, mem
      ensures slot == if Full(b.d) then None else Some(SQ_WORDS * b.d.tail)
      ensures ShowsSub(if Full(b.d) then b else SubEnqueue(b))
      ensures slot.None? ==> Desc() == old(Desc()) && mem[..] == old(mem[..])
      ensures slot.Some? ==>
                var i := 16 * old(tail);
                && slot.value == i < mem.Length && tail == (if old(tail) + 1 == size then 0 else old(tail) + 1)
                && Word(mem[i]) / 0x1_0000 == (tail + (if phase then 0 else size)) % 0x1_0000
                && Word(mem[i]) % 0x1_0000 == Word(old(mem[i])) % 0x1_0000
                && mem[..] == old(mem[..])[i := mem[i]]
    {
      if Slot((tail - head) % WORD, size) % HALF == size - 1 {
        return None;
      }
      var cmd := SQ_WORDS * tail;
      tail := tail + 1;
      if tail == size {
        phase := !phase;
        tail := 0;
      }
      ghost var before := mem[..];
      mem[cmd] := Dword((tail + (if phase then 0 else size)) % HALF, mem[cmd].lo);
      assert mem[..] == before[cmd := mem[cmd]];
      FirstWordStored(before, b.slots, b.d.tail, mem[cmd]);
      return Some(cmd);
    }

    method SqSubmit(ghost b: Sub)
      requires ShowsSub(b)
      modifies this
      ensures ShowsSub(SubSubmit(b))
    {
      if last != tail {
        db := tail;
        last := tail;
      }
    }

    method SqUpdate(ghost b: Sub)
      requires ShowsSub(b)
      modifies this
      ensures ShowsSub(b.(d := Ring.SqUpdate(b.d), upd := b.upd + 1))
    {
      head := head + 1;
      if head == size {
        head := 0;
      }
    }

    /** Offset of an unprocessed entry, or None if there is none. */
    method CqPoll(ghost c: Comp) returns (cpl: Option<nat>)
      requires ShowsComp(c) && CompShaped(c)
      ensures cpl == if c.slots[c.d.head].tag == c.d.phase then Some(CQ_WORDS * c.d.head) else None
      ensures 4 * head + 3 < mem.Length
      ensures cpl == if ((Word(mem[4 * head + 3]) / 0x1_0000) % 2 == 1) == phase then Some(4 * head) else None
    {
      var cpl0 := CQ_WORDS * head;
      assert EntryOf(mem[cpl0..cpl0 + CQ_WORDS]) == c.slots[head];
      SlotIsResidue(mem[cpl0 + 3].hi, 2);
      if (Slot(mem[cpl0 + 3].hi, 2) == 1) != phase {
        return None;
      }
      return Some(cpl0);
    }

    method CqDequeue(ghost c: Comp) returns (cpl: Option<nat>)
      requires ShowsComp(c) && CompShaped(c)
      modifies this
      ensures cpl == if c.slots[c.d.head].tag == c.d.phase then Some(CQ_WORDS * c.d.head) else None
      ensures ShowsComp(if cpl.Some? then CompDequeue(c) else c)
      ensures 4 * old(head) + 3 < mem.Length
      ensures cpl == if ((Word(mem[4 * old(head) + 3]) / 0x1_0000) % 2 == 1) == old(phase) then Some(4 * old(head)) else None
    {
      cpl := CqPoll(c);
      if cpl.Some? {
        head := head + 1;
        if head == size {
          head := 0;
          phase := !phase;
        }
      }
    }

    method CqUpdate(ghost c: Comp)
      requires ShowsComp(c)
      modifies this
      ensures ShowsComp(CompAck(c))
    {
      if last != head {
        db := head;
        last := head;
      }
    }
  }
}
