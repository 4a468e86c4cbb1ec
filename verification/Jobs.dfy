/** The commands examples/integrity/transfer.c builds in its queue slots, and what a controller makes of them. */
module Jobs {
  import opened Wrappers
  import opened Command
  import opened Protocol
  import opened Tiling

  // ---------------------------------------------------------------- commands

  /** What every producer shares; `bpp` is blocks per page, `buf` the buffer's page addresses. */
  datatype Io = Io(write: bool, nsid: Dword, pageSize: nat, bpp: nat, buf: seq<Address>)

  datatype Job = Rw(tile: Tile) | Flush

  /** `toDisk`: from the buffer pages to the blocks, otherwise the other way. */
  datatype Effect = Moved(toDisk: bool, nsid: Dword, block: Qword, blocks: nat, addrs: seq<Address>) | Flushed(nsid: Dword) | Fault

  /** Pages a transfer of this many blocks spans from a page boundary on. */
  function PagesFor(blocks: nat, bpp: nat): nat
    requires bpp > 0
  {
    if blocks <= bpp then 1 else 1 + PagesFor(blocks - bpp, bpp)
  }

  lemma {:induction false} PagesForIs(blocks: nat, bpp: nat)
    requires blocks >= 1 && bpp > 0
    ensures PagesFor(blocks, bpp) == Ceil(blocks, bpp)
  {
    if blocks <= bpp { CeilUnique(blocks, bpp, 1); } else {
      PagesForIs(blocks - bpp, bpp);
      CeilShift(blocks, 1, bpp);
    }
  }

  lemma {:induction false} WholePages(p: nat, bpp: nat)
    requires p >= 1 && bpp > 0
    ensures PagesFor(bpp * p, bpp) == p
  {
    assert bpp * p == bpp * (p - 1) + bpp;
    if p > 1 { WholePages(p - 1, bpp); assert bpp * (p - 1) >= 1; } else { assert bpp * p == bpp; }
  }

  /** A command a producer may ask for: one list page describes it, and the 16-bit block count holds. */
  ghost predicate JobFits(job: Job, io: Io) {
    job.Rw? ==>
      var t := job.tile;
      && 1 <= t.pages <= 1 + io.pageSize / 8 && t.first + t.pages <= |io.buf|
      && 1 <= t.nBlocks <= 0x1_0000 && t.startBlock < 0x1_0000_0000_0000_0000
      && io.bpp > 0 && PagesFor(t.nBlocks, io.bpp) == t.pages
  }

  ghost predicate IoOk(io: Io) { io.bpp > 0 && io.pageSize >= 16 }

  function Addresses(job: Job, io: Io): seq<Address>
    requires JobFits(job, io) && job.Rw?
  {
    io.buf[job.tile.first..job.tile.first + job.tile.pages]
  }

  /** The command a producer leaves in a slot whose identifier is already set (transfer.c:108-117, 126-128). */
  function BuildCommand(w: Words, job: Job, io: Io, list: Address): Words
    requires JobFits(job, io)
  {
    match job
    case Rw(t) =>
      Data(RwBlks(Header(w, Op(io), io.nsid), ToQword(t.startBlock), t.nBlocks),
           t.pages, Some(list), Addresses(job, io))
    case Flush => RwBlks(DataPtr(Header(w, NVM_IO_FLUSH, io.nsid), ZERO, ZERO), ZERO, 0)
  }

  /** The PRP page beside it: rewritten from the front when the command needs more than two pages. */
  function BuildList(page: seq<Address>, job: Job, io: Io): seq<Address>
    requires JobFits(job, io) && |page| >= io.pageSize / 8
  {
    if job.Rw? && job.tile.pages > 2 then Addresses(job, io)[1..] + page[job.tile.pages - 1..] else page
  }

  /**
   * What a controller does with a command's fields, reading lists where the second pointer points to
   * one; opcodes 00h, 01h and 02h of section 6 of NVM Express 1.3.
   */
  function Perform(opcode: nat, nsid: Dword, slba: Qword, nlb: nat, prp1: Address, prp2: Address, lists: Lists, bpp: nat): Effect
    requires bpp > 0
  {
    if opcode == 0 then Flushed(nsid)
    else if opcode == 1 || opcode == 2 then
      match Walk(prp1, prp2, lists, PagesFor(nlb, bpp))
      case Some(addrs) => Moved(opcode == 1, nsid, slba, nlb, addrs)
      case None => Fault
    else Fault
  }

  function Decode(w: Words, lists: Lists, bpp: nat): Effect
    requires bpp > 0
  {
    Perform(Opcode(w), Nsid(w), Slba(w), Nlb(w), Prp1(w), Prp2(w), lists, bpp)
  }

  /** What the job means. */
  function Intended(job: Job, io: Io): Effect
    requires JobFits(job, io)
  {
    match job
    case Rw(t) => Moved(io.write, io.nsid, ToQword(t.startBlock), t.nBlocks, Addresses(job, io))
    case Flush => Flushed(io.nsid)
  }

  function Op(io: Io): nat { if io.write then NVM_IO_WRITE else NVM_IO_READ }

  lemma BuildRwReads(w: Words, t: Tile, io: Io, list: Address)
    requires IoOk(io) && JobFits(Rw(t), io)
    ensures var r, addrs := BuildCommand(w, Rw(t), io, list), Addresses(Rw(t), io);
            && Cid(r) == Cid(w) && Opcode(r) == Op(io) && Nsid(r) == io.nsid
            && Slba(r) == ToQword(t.startBlock) && Nlb(r) == t.nBlocks
            && Prp1(r) == addrs[0] && Prp2(r) == SecondPrp(t.pages, Some(list), addrs)
  {
    var w1 := Header(w, Op(io), io.nsid);
    var w2 := RwBlks(w1, ToQword(t.startBlock), t.nBlocks);
    var addrs := Addresses(Rw(t), io);
    HeaderReads(w, Op(io), io.nsid);
    RwBlksReads(w1, ToQword(t.startBlock), t.nBlocks);
    DataPtrReads(w2, addrs[0], SecondPrp(t.pages, Some(list), addrs));
  }

  /**
   * The entry a read or write leaves, dword by dword: opcode 01h for a write and 02h for a read, the
   * namespace, page and block numbers, and the 0-based block count; the identifier, dwords 2 to 5
   * and 13 to 15 and the upper half of dword 12 as they were.
   */
  lemma RwLayout(w: Words, t: Tile, io: Io, list: Address)
    requires IoOk(io) && JobFits(Rw(t), io)
    ensures var r := BuildCommand(w, Rw(t), io, list);
            && Word(r[0]) == Word(w[0]) / 0x1_0000 * 0x1_0000 + (if io.write then 1 else 2) && r[1] == io.nsid
            && Qword(r[7], r[6]) == io.buf[t.first]
            && (t.pages == 1 ==> Number(Qword(r[9], r[8])) == 0)
            && (t.pages == 2 ==> Qword(r[9], r[8]) == io.buf[t.first + 1])
            && (t.pages > 2 ==> Qword(r[9], r[8]) == list)
            && Word(r[11]) * 0x1_0000_0000 + Word(r[10]) == t.startBlock
            && Word(r[12]) == Word(w[12]) / 0x1_0000 * 0x1_0000 + (t.nBlocks - 1)
            && r[2..6] == w[2..6] && r[13..] == w[13..]
  {
    hide ToQword, BuildCommand, PagesFor, SecondPrp, Word, Number;
    RwWords(w, t, io, list);
    HalfSet(w[0].hi, if io.write then 1 else 2, w[0]);
    HalfSet(w[12].hi, t.nBlocks - 1, w[12]);
    SecondIs(t, io, list);
    QwordIs(ToQword(t.startBlock));
    NumberReads(t.startBlock);
  }

  /** The entry, word by word. */
  lemma RwWords(w: Words, t: Tile, io: Io, list: Address)
    requires IoOk(io) && JobFits(Rw(t), io)
    ensures var r, q, prp2 := BuildCommand(w, Rw(t), io, list), ToQword(t.startBlock), SecondPrp(t.pages, Some(list), Addresses(Rw(t), io));
            && r[0] == Dword(w[0].hi, if io.write then 1 else 2) && r[1] == io.nsid && r[2..6] == w[2..6]
            && r[6] == io.buf[t.first].lo && r[7] == io.buf[t.first].hi && r[8] == prp2.lo && r[9] == prp2.hi
            && r[10] == q.lo && r[11] == q.hi && r[12] == Dword(w[12].hi, t.nBlocks - 1) && r[13..] == w[13..]
  {
    hide ToQword, Header, RwBlks, DataPtr, PagesFor, SecondPrp, Word;
    var w1 := Header(w, Op(io), io.nsid);
    var w2 := RwBlks(w1, ToQword(t.startBlock), t.nBlocks);
    HeaderStores(w, Op(io), io.nsid);
    RwBlksStores(w1, ToQword(t.startBlock), t.nBlocks);
    DataPtrStores(w2, Addresses(Rw(t), io)[0], SecondPrp(t.pages, Some(list), Addresses(Rw(t), io)));
    SmallLow(w2[0].lo, BuildCommand(w, Rw(t), io, list)[0].lo);
  }

  /** A dword whose lower half alone is set. */
  lemma HalfSet(hi: Half, lo: Half, d: Dword)
    requires d.hi == hi
    ensures Word(Dword(hi, lo)) == Word(d) / 0x1_0000 * 0x1_0000 + lo
  {}

  lemma QwordIs(q: Qword)
    ensures Word(q.hi) * 0x1_0000_0000 + Word(q.lo) == Number(q)
  {}

  /** The second pointer by the number of pages. */
  lemma SecondIs(t: Tile, io: Io, list: Address)
    requires JobFits(Rw(t), io)
    ensures var prp2 := SecondPrp(t.pages, Some(list), Addresses(Rw(t), io));
            && (t.pages == 1 ==> Number(prp2) == 0) && (t.pages == 2 ==> prp2 == io.buf[t.first + 1]) && (t.pages > 2 ==> prp2 == list)
  {
    hide PagesFor;
  }

  /** A half below 100h loses nothing to the cleared bits. */
  lemma SmallLow(lo: Half, lo': Half)
    requires lo < 0x100 && lo' / 0x4000 == 0 && lo' / 0x400 % 0x10 == lo / 0x400 % 0x10 && lo' / 0x100 % 4 == 0 && lo' % 0x100 == lo % 0x100
    ensures lo' == lo
  {}

  /** The entry a flush leaves: opcode 00h, no pointers, block 0, and the 0-based count 0 - 1 in 16 bits. */
  lemma FlushLayout(w: Words, io: Io, list: Address)
    ensures var r := BuildCommand(w, Flush, io, list);
            && Word(r[0]) == Word(w[0]) / 0x1_0000 * 0x1_0000 && r[1] == io.nsid
            && (forall i | 6 <= i < 12 :: Word(r[i]) == 0) && Word(r[12]) == Word(w[12]) / 0x1_0000 * 0x1_0000 + 0xffff
            && r[2..6] == w[2..6] && r[13..] == w[13..]
  {
    hide Header, RwBlks, DataPtr, Word;
    var w1 := Header(w, NVM_IO_FLUSH, io.nsid);
    HalfSet(w[0].hi, 0, w[0]);
    HalfSet(w[12].hi, 0xffff, w[12]);
    assert Word(Dword(0, 0)) == 0 by { HalfSet(0, 0, Dword(0, 0)); }
    HeaderStores(w, NVM_IO_FLUSH, io.nsid);
    DataPtrStores(w1, ZERO, ZERO);
    RwBlksStores(DataPtr(w1, ZERO, ZERO), ZERO, 0);
    SmallLow(w1[0].lo, DataPtr(w1, ZERO, ZERO)[0].lo);
  }

  /** The fields of a read or write command perform the job. */
  lemma FieldsPerform(t: Tile, io: Io, list: Address, page: seq<Address>, lists: Lists)
    requires IoOk(io) && JobFits(Rw(t), io) && |page| >= io.pageSize / 8
    requires list in lists && lists[list] == BuildList(page, Rw(t), io)
    ensures var addrs := Addresses(Rw(t), io);
            Perform(Op(io), io.nsid, ToQword(t.startBlock), t.nBlocks, addrs[0], SecondPrp(t.pages, Some(list), addrs), lists, io.bpp)
            == Intended(Rw(t), io)
  {
    var addrs := Addresses(Rw(t), io);
    PrpRoundTrip(io.pageSize, t.pages, Some(list), addrs, lists, lists[list]);
    assert addrs[..t.pages] == addrs;
  }

  lemma BuildRwDecodes(w: Words, t: Tile, io: Io, list: Address, page: seq<Address>, lists: Lists)
    requires IoOk(io) && JobFits(Rw(t), io) && |page| >= io.pageSize / 8
    requires list in lists && lists[list] == BuildList(page, Rw(t), io)
    ensures Decode(BuildCommand(w, Rw(t), io, list), lists, io.bpp) == Intended(Rw(t), io)
  {
    BuildRwReads(w, t, io, list);
    FieldsPerform(t, io, list, page, lists);
  }

  lemma BuildCid(w: Words, job: Job, io: Io, list: Address)
    requires IoOk(io) && JobFits(job, io)
    ensures Cid(BuildCommand(w, job, io, list)) == Cid(w)
  {
    match job
    case Rw(t) => BuildRwReads(w, t, io, list);
    case Flush =>
      HeaderReads(w, NVM_IO_FLUSH, io.nsid);
      DataPtrReads(Header(w, NVM_IO_FLUSH, io.nsid), ZERO, ZERO);
      RwBlksReads(DataPtr(Header(w, NVM_IO_FLUSH, io.nsid), ZERO, ZERO), ZERO, 0);
  }

  /** Whatever the slot held before, the built command keeps its identifier and decodes to the job. */
  lemma BuildDecodes(w: Words, job: Job, io: Io, list: Address, page: seq<Address>, lists: Lists)
    requires IoOk(io) && JobFits(job, io) && |page| >= io.pageSize / 8
    requires list in lists && lists[list] == BuildList(page, job, io)
    ensures Cid(BuildCommand(w, job, io, list)) == Cid(w)
    ensures Decode(BuildCommand(w, job, io, list), lists, io.bpp) == Intended(job, io)
  {
    match job
    case Rw(t) => BuildRwReads(w, t, io, list); BuildRwDecodes(w, t, io, list, page, lists);
    case Flush =>
      HeaderReads(w, NVM_IO_FLUSH, io.nsid);
      DataPtrReads(Header(w, NVM_IO_FLUSH, io.nsid), ZERO, ZERO);
      RwBlksReads(DataPtr(Header(w, NVM_IO_FLUSH, io.nsid), ZERO, ZERO), ZERO, 0);
  }

  /** Rewriting another list page does not change what a command means. */
  lemma DecodeFrame(w: Words, lists: Lists, bpp: nat, addr: Address, page: seq<Address>)
    requires bpp > 0 && (addr != Prp2(w) || PagesFor(Nlb(w), bpp) <= 2)
    ensures Decode(w, lists[addr := page], bpp) == Decode(w, lists, bpp)
  {}

  predicate NeedsList(job: Job) { job.Rw? && job.tile.pages > 2 }

  /** Written to one list page, the later command's list leaves the earlier command's entries as they are. */
  ghost predicate Agree(earlier: Job, later: Job, io: Io)
    requires JobFits(earlier, io) && JobFits(later, io)
  {
    NeedsList(earlier) && NeedsList(later) ==>
      forall m | 1 <= m < earlier.tile.pages && m < later.tile.pages :: Addresses(earlier, io)[m] == Addresses(later, io)[m]
  }

  /** Then the earlier command still means what it did. */
  lemma AgreeDecodes(w: Words, lists: Lists, job: Job, later: Job, io: Io, addr: Address)
    requires IoOk(io) && JobFits(job, io) && JobFits(later, io) && Agree(job, later, io)
    requires addr in lists && |lists[addr]| >= io.pageSize / 8 && Decode(w, lists, io.bpp) == Intended(job, io)
    requires PagesFor(Nlb(w), io.bpp) > 2 && job.Rw? ==> Prp2(w) == addr
    ensures Decode(w, lists[addr := BuildList(lists[addr], later, io)], io.bpp) == Intended(job, io)
  {
    hide ToQword;
    var page, page' := lists[addr], BuildList(lists[addr], later, io);
    var n := PagesFor(Nlb(w), io.bpp);
    if job.Rw? && n > 2 {
      assert [Prp1(w)] + page[..n - 1] == Addresses(job, io);
      forall m | 0 <= m < n - 1 ensures page'[m] == page[m] { assert page[m] == Addresses(job, io)[m + 1]; }
      assert page'[..n - 1] == page[..n - 1];
    }
  }

  /** transfer.c:108-112: opcode, namespace and block range. */
  method FillBlocks(mem: array<Dword>, off: nat, t: Tile, io: Io)
    requires JobFits(Rw(t), io) && off + 16 <= mem.Length
    modifies mem
    ensures mem[..] == Put(old(mem[..]), off, RwBlks(Header(At(old(mem[..]), off), Op(io), io.nsid), ToQword(t.startBlock), t.nBlocks))
  {
    ghost var m := mem[..];
    ghost var w1 := Header(At(m, off), Op(io), io.nsid);
    CmdHeader(mem, off, if io.write then NVM_IO_WRITE else NVM_IO_READ, io.nsid);
    PutTwice(m, off, w1, RwBlks(w1, ToQword(t.startBlock), t.nBlocks));
    CmdRwBlks(mem, off, ToQword(t.startBlock), t.nBlocks);
  }

  lemma RwOpcode(mem: seq<Dword>, off: nat, t: Tile, io: Io, list: Address)
    requires IoOk(io) && JobFits(Rw(t), io) && off + 16 <= |mem|
    ensures var mem' := Put(mem, off, BuildCommand(At(mem, off), Rw(t), io, list));
            |mem'| == |mem| && Word(mem'[off]) % 0x1_0000 == if io.write then 1 else 2
  {
    hide BuildCommand, Put;
    RwLayout(At(mem, off), t, io, list);
    PutStores(mem, off, BuildCommand(At(mem, off), Rw(t), io, list), off);
  }

  /** transfer.c:108-117 on queue memory and PRP memory: one read or write command. */
  method FillRw(mem: array<Dword>, off: nat, prpMem: array<Address>, prpOff: nat, prpAddr: Address, t: Tile, io: Io)
    requires IoOk(io) && JobFits(Rw(t), io) && off + 16 <= mem.Length && prpOff + io.pageSize / 8 <= prpMem.Length
    modifies mem, prpMem
    ensures mem[..] == Put(old(mem[..]), off, BuildCommand(At(old(mem[..]), off), Rw(t), io, prpAddr))
    ensures prpMem[..] == if t.pages > 2 then Overlay(old(prpMem[..]), prpOff, Addresses(Rw(t), io)[1..]) else old(prpMem[..])
    ensures Word(mem[off]) % 0x1_0000 == if io.write then 1 else 2
  {
    hide Header, RwBlks, DataPtr, ToQword, Put, At, Overlay, SecondPrp;
    ghost var m, w := mem[..], At(mem[..], off);
    var addrs := io.buf[t.first..t.first + t.pages];
    FillBlocks(mem, off, t, io);
    ghost var w2 := RwBlks(Header(w, Op(io), io.nsid), ToQword(t.startBlock), t.nBlocks);
    PutTwice(m, off, w2, BuildCommand(w, Rw(t), io, prpAddr));
    assert prpMem[..] == old(prpMem[..]);
    assert mem[..] == Put(m, off, w2) && At(mem[..], off) == w2;
    var used := CmdData(mem, off, io.pageSize, t.pages, prpMem, Some((prpOff, prpAddr)), addrs);
    assert mem[..] == Put(Put(m, off, w2), off, Data(w2, t.pages, Some(prpAddr), addrs));
    assert used == t.pages && addrs[1..] == addrs[1..t.pages];
    RwOpcode(m, off, t, io, prpAddr);
  }

  /** transfer.c:126-128: the flush after a write. */
  method FillFlush(mem: array<Dword>, off: nat, io: Io)
    requires off + 16 <= mem.Length
    modifies mem
    ensures mem[..] == Put(old(mem[..]), off, BuildCommand(At(old(mem[..]), off), Flush, io, ZERO))
    ensures Word(mem[off]) % 0x1_0000 == 0
  {
    FlushLayout(At(mem[..], off), io, ZERO);
    ghost var m, w := mem[..], At(mem[..], off);
    ghost var w1 := Header(w, NVM_IO_FLUSH, io.nsid);
    CmdHeader(mem, off, NVM_IO_FLUSH, io.nsid);
    PutTwice(m, off, w1, DataPtr(w1, ZERO, ZERO));
    CmdDataPtr(mem, off, ZERO, ZERO);
    PutTwice(m, off, DataPtr(w1, ZERO, ZERO), BuildCommand(w, Flush, io, ZERO));
    CmdRwBlks(mem, off, ZERO, 0);
  }
}
