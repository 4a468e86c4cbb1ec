/**
 * One round of produce_commands on real memory: nvm_sq_enqueue, then the command and its PRP list
 * built in place. It is proved to take the step of the same name in module Transfer.
 */
module Issuing {
  import opened Modular
  import opened Ring
  import opened Command
  import opened Protocol
  import opened Safety
  import opened Jobs
  import opened Transfer
  import opened Queue

  /** Where page i begins: i pages of len entries in. */
  function Offset(i: nat, len: nat): nat { if i == 0 then 0 else Offset(i - 1, len) + len }

  lemma {:induction false} OffsetIs(i: nat, len: nat)
    ensures Offset(i, len) == i * len
  {
    if i > 0 { OffsetIs(i - 1, len); assert i * len == (i - 1) * len + len; }
  }

  /** PRP memory is one page after another, page i at bus address prp[i] with these contents. */
  ghost predicate ShowsPages(mem: seq<Address>, prp: seq<Address>, lists: Lists, len: nat) {
    forall i {:trigger prp[i]} | 0 <= i < |prp| ::
      Offset(i, len) + len <= |mem| && prp[i] in lists && lists[prp[i]] == mem[Offset(i, len)..Offset(i, len) + len]
  }

  /** Pages do not overlap. */
  lemma {:induction false} PagesApart(i: nat, j: nat, len: nat)
    requires i < j
    ensures Offset(i, len) + len <= Offset(j, len)
  {
    if i + 1 < j { PagesApart(i, j - 1, len); }
  }

  /** Writing the front of one page. */
  lemma PageWritten(mem: seq<Address>, prp: seq<Address>, lists: Lists, len: nat, p: nat, part: seq<Address>)
    requires ShowsPages(mem, prp, lists, len) && p < |prp| && |part| <= len
    requires forall i, j | 0 <= i < j < |prp| :: prp[i] != prp[j]
    ensures Offset(p, len) + len <= |mem| && prp[p] in lists && |lists[prp[p]]| == len
    ensures ShowsPages(Overlay(mem, Offset(p, len), part), prp, lists[prp[p] := part + lists[prp[p]][|part|..]], len)
  {
    hide Offset, Overlay;
    assert prp[p] in lists && Offset(p, len) + len <= |mem| && lists[prp[p]] == mem[Offset(p, len)..Offset(p, len) + len];
    OwnPage(mem, Offset(p, len), part, len);
    var mem', lists' := Overlay(mem, Offset(p, len), part), lists[prp[p] := part + lists[prp[p]][|part|..]];
    forall i | 0 <= i < |prp| && i != p
      ensures Offset(i, len) + len <= |mem'| && prp[i] in lists' && lists'[prp[i]] == mem'[Offset(i, len)..Offset(i, len) + len]
    {
      assert prp[i] in lists && Offset(i, len) + len <= |mem| && prp[i] != prp[p];
      if i < p { PagesApart(i, p, len); } else { PagesApart(p, i, len); }
      OtherPage(mem, Offset(p, len), part, Offset(i, len), len);
    }
  }

  lemma OtherPage(mem: seq<Address>, off: nat, part: seq<Address>, lo: nat, len: nat)
    requires off + |part| <= |mem| && lo + len <= |mem| && (lo + len <= off || off + |part| <= lo)
    ensures |Overlay(mem, off, part)| == |mem| && Overlay(mem, off, part)[lo..lo + len] == mem[lo..lo + len]
  {}

  lemma OwnPage(mem: seq<Address>, off: nat, part: seq<Address>, len: nat)
    requires |part| <= len && off + len <= |mem|
    ensures |Overlay(mem, off, part)| == |mem| && Overlay(mem, off, part)[off..off + len] == part + mem[off..off + len][|part|..]
  {}

  /** Replacing one entry of queue memory. */
  lemma EntryPut(mem: seq<Dword>, slots: seq<Words>, t: nat, w: Words)
    requires HoldsEntries(mem, slots) && t < |slots|
    ensures At(mem, SQ_WORDS * t) == slots[t]
    ensures HoldsEntries(Put(mem, SQ_WORDS * t, w), slots[t := w])
  {
    var mem' := Put(mem, SQ_WORDS * t, w);
    forall i | 0 <= i < |slots| ensures mem'[SQ_WORDS * i..SQ_WORDS * i + SQ_WORDS] == slots[t := w][i] {
      assert mem[SQ_WORDS * i..SQ_WORDS * i + SQ_WORDS] == slots[i];
    }
  }

  /** What the enqueue leaves for the builders: the slot, its identifier, and a list page within PRP memory. */
  lemma Taken(s: State, q: nat, prp: seq<Address>, io: Io)
    requires Inv(s) && q < |s.subs| && Shaped(s) && s.subs[q].d.size > 0 && !Full(s.subs[q].d) && PrpMemory(prp, s.subs[q], io)
    ensures var b, b1 := s.subs[q], SubEnqueue(s.subs[q]);
            && Enabled(s, Enqueue(q)) && Inv(Apply(s, Enqueue(q))) && Shaped(Apply(s, Enqueue(q))) && Apply(s, Enqueue(q)).subs[q] == b1
            && b.d.tail == Slot(|b.issued|, b.d.size) && b1.slots[b.d.tail] == b1.issued[|b.issued|] && |b1.issued| == |b.issued| + 1
            && PrpPage(Cid(b1.issued[|b.issued|]), b.d.size) < |prp| && b1.sub < |b1.issued| && b1.lists == b.lists
  {
    EnqueueEffect(s, q);
    assert Fits(s.subs[q], s.comp, q);
  }

  /** The front a job writes to its list page. */
  function Front(job: Job, io: Io): seq<Address>
    requires JobFits(job, io)
  {
    if NeedsList(job) then Addresses(job, io)[1..] else []
  }

  lemma FrontBuilds(job: Job, io: Io, page: seq<Address>, mem: seq<Address>, off: nat)
    requires JobFits(job, io) && |page| >= io.pageSize / 8
    ensures |Front(job, io)| <= io.pageSize / 8 && BuildList(page, job, io) == Front(job, io) + page[|Front(job, io)|..]
    ensures !NeedsList(job) && off <= |mem| ==> Overlay(mem, off, Front(job, io)) == mem
  {}

  lemma FlushHasNoList(w: Words, io: Io, list: Address)
    ensures BuildCommand(w, Flush, io, list) == BuildCommand(w, Flush, io, ZERO)
  {}

  /** What the build step leaves in the queue. */
  lemma BuildsShows(s1: State, q: nat, job: Job, prp: seq<Address>, io: Io, s': State, b1: Sub, page: nat)
    requires Builds(s1, q, job, prp, io, s') && b1 == s1.subs[q] && page < |prp|
    requires b1.d.size > 0 && page == PrpPage(Cid(b1.issued[|b1.issued| - 1]), b1.d.size)
    ensures var w, addr := b1.issued[|b1.issued| - 1], prp[page];
            && q < |s'.subs| && addr in b1.lists && |b1.lists[addr]| >= io.pageSize / 8
            && s'.subs[q].slots == b1.slots[Slot(|b1.issued| - 1, b1.d.size) := BuildCommand(w, job, io, addr)]
            && s'.subs[q].lists == b1.lists[addr := BuildList(b1.lists[addr], job, io)]
            && s'.subs[q].d == b1.d && s'.subs[q].db == b1.db
  {
    hide BuildCommand, BuildList;
  }

  /** transfer.c:102-117 and 125-128: enqueue and build in place; false if the ring was full. */
  method Issue(qu: Queue, prpMem: array<Address>, prp: seq<Address>, job: Job, io: Io, ghost s: State, ghost q: nat)
    returns (ok: bool, ghost s': State)
    requires Inv(s) && q < |s.subs| && qu.ShowsSub(s.subs[q]) && PrpMemory(prp, s.subs[q], io)
    requires ShowsPages(prpMem[..], prp, s.subs[q].lists, io.pageSize / 8) && IoOk(io) && JobFits(job, io)
    modifies qu, qu.mem, prpMem
    ensures s.subs[q].d.size > 0 && ok == !Full(s.subs[q].d)
    ensures if ok then Issues(s, q, job, prp, io, s') else s' == s
    ensures q < |s'.subs| && qu.ShowsSub(s'.subs[q]) && ShowsPages(prpMem[..], prp, s'.subs[q].lists, io.pageSize / 8)
    ensures ok ==> 16 * old(qu.tail) < qu.mem.Length
                   && Word(qu.mem[16 * old(qu.tail)]) % 0x1_0000 == if job.Flush? then 0 else if io.write then 1 else 2
  {
    hide BuildCommand, BuildList, Inv, ShowsPages, HoldsEntries, Slot, Offset, Overlay, Front, Builds, PrpMemory, Put, JobFits, Full, SubEnabled, SubEnqueue;
    ShapedByInv(s);
    ghost var b := s.subs[q];
    assert SubShaped(b);
    var slot := qu.SqEnqueue(b);
    if slot.None? {
      return false, s;
    }
    Taken(s, q, prp, io);
    ghost var s1, b1, w := Apply(s, Enqueue(q)), SubEnqueue(b), SubEnqueue(b).issued[|b.issued|];
    EntryPut(qu.mem[..], b1.slots, b.d.tail, w);
    assert At(qu.mem[..], slot.value) == w;
    var page := Slot(qu.mem[slot.value].hi, qu.size) + 1;
    ghost var len, addr := io.pageSize / 8, prp[page];
    Enough(prp, b, io, page);
    s' := BuildPossible(s1, q, job, prp, io, page);
    BuildsShows(s1, q, job, prp, io, s', b1, page);
    EntryPut(qu.mem[..], b1.slots, b.d.tail, BuildCommand(w, job, io, addr));
    FrontBuilds(job, io, b.lists[addr], prpMem[..], Offset(page, len));
    PageWritten(prpMem[..], prp, b.lists, len, page, Front(job, io));
    ghost var m, pm := qu.mem[..], prpMem[..];
    match job {
      case Rw(t) => FillRw(qu.mem, slot.value, prpMem, Offset(page, io.pageSize / 8), prp[page], t, io);
      case Flush => FlushHasNoList(w, io, addr); FillFlush(qu.mem, slot.value, io);
    }
    assert qu.mem[..] == Put(m, slot.value, BuildCommand(w, job, io, addr));
    FrontIs(job, io);
    assert prpMem[..] == Overlay(pm, Offset(page, len), Front(job, io));
    return true, s';
  }

  lemma FrontIs(job: Job, io: Io)
    requires JobFits(job, io)
    ensures NeedsList(job) ==> Front(job, io) == Addresses(job, io)[1..]
  {}

  lemma Enough(prp: seq<Address>, b: Sub, io: Io, page: nat)
    requires PrpMemory(prp, b, io) && page < |prp|
    ensures prp[page] in b.lists && io.pageSize / 8 <= |b.lists[prp[page]]|
    ensures forall i, j | 0 <= i < j < |prp| :: prp[i] != prp[j]
  {}
}
