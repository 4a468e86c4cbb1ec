/**
 * The command layout of include/nvm_cmd.h: the builders, in place on queue memory, and the
 * reading a controller makes of the result (sections 4.2 and 4.3 of NVM Express 1.3).
 * A dword is held as its two halves and a 64-bit value as its two dwords, which is how the builders
 * store them; masks and shifts inside a half are remainders and quotients by powers of two (`Slot`
 * and `Lap` of Modular).
 */
module Command {
  import opened Modular
  import opened Wrappers

  type Half = x: nat | x < 0x1_0000

  datatype Dword = Dword(hi: Half, lo: Half)

  /** A 64-bit value: bus addresses and block numbers. */
  datatype Qword = Qword(hi: Dword, lo: Dword)

  type Address = Qword

  /** A 64-byte submission entry. */
  type Words = w: seq<Dword> | |w| == 16 witness seq(16, _ => Dword(0, 0))

  const NVM_IO_FLUSH := 0
  const NVM_IO_WRITE := 1
  const NVM_IO_READ := 2
  const ZERO := Qword(Dword(0, 0), Dword(0, 0))

  // ---------------------------------------------------------------- what a controller reads

  function Opcode(w: Words): nat { Slot(w[0].lo, 0x100) }
  function Fuse(lo: nat): nat { Slot(Lap(lo, 0x100), 4) }
  function Psdt(lo: nat): nat { Slot(Lap(lo, 0x4000), 4) }
  function Cid(w: Words): nat { w[0].hi }
  function Nsid(w: Words): Dword { w[1] }
  function Prp1(w: Words): Address { Qword(w[7], w[6]) }
  function Prp2(w: Words): Address { Qword(w[9], w[8]) }
  function Slba(w: Words): Qword { Qword(w[11], w[10]) }
  function Nlb(w: Words): nat { w[12].lo + 1 }

  /**
   * The data pages a controller finds for a transfer of n pages starting on a page boundary:
   * PRP1, then PRP2 as a second page or, beyond two pages, as the address of a PRP list.
   */
  function Walk(prp1: Address, prp2: Address, lists: map<Address, seq<Address>>, n: nat): Option<seq<Address>> {
    if n == 0 then Some([])
    else if n == 1 then Some([prp1])
    else if n == 2 then Some([prp1, prp2])
    else if prp2 in lists && n - 1 <= |lists[prp2]| then Some([prp1] + lists[prp2][..n - 1])
    else None
  }

  /** The number a 64-bit value stands for. */
  function Number(q: Qword): nat {
    q.hi.hi * 0x1_0000_0000_0000 + q.hi.lo * 0x1_0000_0000 + q.lo.hi * 0x1_0000 + q.lo.lo
  }

  /** The halves of a 64-bit number: the truncations and shifts of the C stores. */
  function ToQword(n: nat): Qword
    requires n < 0x1_0000_0000_0000_0000
  {
    Decompose(n, 0x1_0000_0000);
    var hi, lo := Lap(n, 0x1_0000_0000), Slot(n, 0x1_0000_0000);
    Decompose(hi, 0x1_0000);
    Decompose(lo, 0x1_0000);
    Qword(Dword(Lap(hi, 0x1_0000), Slot(hi, 0x1_0000)), Dword(Lap(lo, 0x1_0000), Slot(lo, 0x1_0000)))
  }

  lemma NumberReads(n: nat)
    requires n < 0x1_0000_0000_0000_0000
    ensures Number(ToQword(n)) == n
  {
    Decompose(n, 0x1_0000_0000);
    Decompose(Lap(n, 0x1_0000_0000), 0x1_0000);
    Decompose(Slot(n, 0x1_0000_0000), 0x1_0000);
  }

  /** The identifier store of nvm_sq_enqueue: the upper half of dword 0. */
  function WithCid(w: Words, cid: nat): Words
    requires cid < 0x1_0000
  {
    w[0 := Dword(cid, w[0].lo)]
  }

  lemma CidReads(w: Words, cid: nat)
    requires cid < 0x1_0000
    ensures var r := WithCid(w, cid); Cid(r) == cid && Opcode(r) == Opcode(w) && r[1..] == w[1..]
  {}

  // ---------------------------------------------------------------- builders, as functions

  /** nvm_cmd_header: the lower half of dword 0 becomes the opcode, dword 1 the namespace. */
  function Header(w: Words, opcode: nat, nsid: Dword): Words {
    w[0 := Dword(w[0].hi, Slot(opcode, 0x80))][1 := nsid]
  }

  /** Bits 15:14 and 9:8 of the lower half cleared: the bits below 14 less those below 10, and the low byte. */
  function Cleared(lo: Half): Half {
    ClearedReads(lo);
    Slot(lo, 0x4000) - Slot(lo, 0x400) + Slot(lo, 0x100)
  }

  /** It is a half, and the low byte alone is read back. */
  lemma ClearedReads(lo: Half)
    ensures var r := Slot(lo, 0x4000) - Slot(lo, 0x400) + Slot(lo, 0x100);
            0 <= r < 0x1_0000 && Slot(r, 0x100) == Slot(lo, 0x100) && Fuse(r) == 0 && Psdt(r) == 0
  {
    var x, c := Slot(lo, 0x4000), Slot(lo, 0x100);
    var b := Lap(x, 0x400);
    Decompose(lo, 0x4000);
    Decompose(x, 0x400);
    Digits(Lap(lo, 0x4000) * 0x10 + b, 0x400, Slot(x, 0x400));
    assert x - Slot(lo, 0x400) + c == b * 0x400 + c;
    Digits(b * 4, 0x100, c);
    Digits(b, 4, 0);
    Digits(0, 0x4000, b * 0x400 + c);
    Digits(0, 4, 0);
  }

  /** nvm_cmd_data_ptr: no fused operation, PRPs, both pointers stored dword by dword. */
  function DataPtr(w: Words, prp1: Address, prp2: Address): Words {
    w[0 := Dword(w[0].hi, Cleared(w[0].lo))][6 := prp1.lo][7 := prp1.hi][8 := prp2.lo][9 := prp2.hi]
  }

  /** The 0-based count of the 16-bit parameter, masked to 16 bits. */
  function ZeroBased(blocks: nat): Half {
    if Slot(blocks, 0x1_0000) == 0 then 0xffff else Slot(blocks, 0x1_0000) - 1
  }

  /** nvm_cmd_rw_blks; the count parameter is 16 bits wide. */
  function RwBlks(w: Words, slba: Qword, blocks: nat): Words {
    w[10 := slba.lo][11 := slba.hi][12 := Dword(w[12].hi, ZeroBased(blocks))]
  }

  function PrpCount(pageSize: nat, n: nat): nat { if pageSize / 8 < n then pageSize / 8 else n }

  /** How many pages nvm_cmd_data describes: all of them, capped by one list page or by PRP2. */
  function DataCount(pageSize: nat, n: nat, list: bool): nat {
    if n > 2 && list then 1 + PrpCount(pageSize, n - 1) else if n >= 2 then 2 else n
  }

  /** The second pointer nvm_cmd_data chooses. */
  function SecondPrp(n: nat, list: Option<Address>, addrs: seq<Address>): Address
    requires n <= |addrs|
  {
    if n > 2 && list.Some? then list.value else if n >= 2 then addrs[1] else ZERO
  }

  /** The command after nvm_cmd_data, for n >= 1. */
  function Data(w: Words, n: nat, list: Option<Address>, addrs: seq<Address>): Words
    requires 1 <= n <= |addrs|
  {
    DataPtr(w, addrs[0], SecondPrp(n, list, addrs))
  }

  lemma HeaderReads(w: Words, opcode: nat, nsid: Dword)
    requires opcode < 0x80
    ensures var r := Header(w, opcode, nsid);
            Cid(r) == Cid(w) && Opcode(r) == opcode && Nsid(r) == nsid && Fuse(r[0].lo) == 0 && Psdt(r[0].lo) == 0
  {}

  lemma DataPtrReads(w: Words, prp1: Address, prp2: Address)
    ensures var r := DataPtr(w, prp1, prp2);
            Cid(r) == Cid(w) && Opcode(r) == Opcode(w) && Fuse(r[0].lo) == 0 && Psdt(r[0].lo) == 0
            && Prp1(r) == prp1 && Prp2(r) == prp2
            && Nsid(r) == Nsid(w) && Slba(r) == Slba(w) && Nlb(r) == Nlb(w)
  {
    ClearedReads(w[0].lo);
  }

  /** The 16-bit, 0-based count says what was meant exactly for 1 to 65536 blocks. */
  lemma RwBlksReads(w: Words, slba: Qword, blocks: nat)
    ensures var r := RwBlks(w, slba, blocks);
            Slba(r) == slba && Cid(r) == Cid(w) && Opcode(r) == Opcode(w) && Nsid(r) == Nsid(w)
            && Prp1(r) == Prp1(w) && Prp2(r) == Prp2(w)
            && (Nlb(r) == blocks <==> 1 <= blocks <= 0x1_0000)
  {}

  // ---------------------------------------------------------------- the layout, in numbers

  /** A dword as a number. */
  function Word(d: Dword): (n: nat)
    ensures n / 0x1_0000 == d.hi && n % 0x1_0000 == d.lo
  {
    d.hi * 0x1_0000 + d.lo
  }

  /** Where in which dword sections 4.2 and 6.9 of NVM Express 1.3 have each field. */
  lemma FieldsRead(w: Words)
    ensures var lo := Word(w[0]) % 0x1_0000;
            && Opcode(w) == lo % 0x100 && Fuse(w[0].lo) == lo / 0x100 % 4 && Psdt(w[0].lo) == lo / 0x4000 % 4
            && Cid(w) == Word(w[0]) / 0x1_0000 && Word(Nsid(w)) == Word(w[1])
    ensures Number(Prp1(w)) == Word(w[7]) * 0x1_0000_0000 + Word(w[6])
    ensures Number(Prp2(w)) == Word(w[9]) * 0x1_0000_0000 + Word(w[8])
    ensures Number(Slba(w)) == Word(w[11]) * 0x1_0000_0000 + Word(w[10])
    ensures Nlb(w) == Word(w[12]) % 0x1_0000 + 1
  {
    var lo := w[0].lo;
    SlotIsResidue(lo, 0x100);
    LapIsQuotient(lo, 0x100);
    LapIsQuotient(lo, 0x4000);
    SlotIsResidue(lo / 0x100, 4);
    SlotIsResidue(lo / 0x4000, 4);
  }

  /** What nvm_cmd_header stores: the low half of dword 0 is seven bits of the opcode, dword 1 the namespace. */
  lemma HeaderStores(w: Words, opcode: nat, nsid: Dword)
    ensures Header(w, opcode, nsid) == w[0 := Dword(w[0].hi, opcode % 0x80)][1 := nsid]
  {
    SlotIsResidue(opcode, 0x80);
  }

  /** What nvm_cmd_data_ptr stores: bits 15:14 and 9:8 of dword 0 cleared and all others kept, dwords 6 to 9 the pointers. */
  lemma DataPtrStores(w: Words, prp1: Address, prp2: Address)
    ensures var r := DataPtr(w, prp1, prp2); var lo, lo' := w[0].lo, r[0].lo;
            && lo' / 0x4000 == 0 && lo' / 0x400 % 0x10 == lo / 0x400 % 0x10 && lo' / 0x100 % 4 == 0 && lo' % 0x100 == lo % 0x100
            && r[0].hi == w[0].hi && r == w[0 := r[0]][6 := prp1.lo][7 := prp1.hi][8 := prp2.lo][9 := prp2.hi]
  {
    hide Slot;
    BitsCleared(w[0].lo);
  }

  /** A half without its bits 15:14 and 9:8. */
  lemma BitsCleared(lo: Half)
    ensures var r := Slot(lo, 0x4000) - Slot(lo, 0x400) + Slot(lo, 0x100);
            r >= 0 && r / 0x4000 == 0 && r / 0x400 % 0x10 == lo / 0x400 % 0x10 && r / 0x100 % 4 == 0 && r % 0x100 == lo % 0x100
  {
    hide Slot, Lap;
    var x, a, d := Slot(lo, 0x4000), Lap(lo, 0x4000), Slot(lo, 0x100);
    var b, y := Lap(x, 0x400), Slot(x, 0x400);
    Decompose(lo, 0x4000);
    Decompose(x, 0x400);
    Digits(a * 0x10 + b, 0x400, y);
    assert (a * 0x10 + b) * 0x400 + y == lo;
    LapIsQuotient(lo, 0x400);
    SlotIsResidue(lo, 0x100);
    UniqueDivision(a * 0x10 + b, 0x10, a, b);
    UniqueDivision(b * 0x400 + d, 0x400, b, d);
    UniqueDivision(b * 0x400 + d, 0x100, b * 4, d);
    UniqueDivision(b * 4, 4, b, 0);
    UniqueDivision(b * 0x400 + d, 0x4000, 0, b * 0x400 + d);
  }

  /** What nvm_cmd_rw_blks stores: dwords 10 and 11 the block number, the low half of dword 12 the count less one. */
  lemma RwBlksStores(w: Words, slba: Qword, blocks: nat)
    ensures RwBlks(w, slba, blocks)
            == w[10 := slba.lo][11 := slba.hi][12 := Dword(w[12].hi, (blocks + 0xffff) % 0x1_0000)]
  {
    SlotIsResidue(blocks, 0x1_0000);
  }

  /** The pointers nvm_cmd_data stores for n pages: page 0, and page 1 or the list page. */
  lemma DataStores(w: Words, n: nat, list: Option<Address>, addrs: seq<Address>)
    requires 1 <= n <= |addrs|
    ensures var r := Data(w, n, list, addrs);
            && Qword(r[7], r[6]) == addrs[0]
            && (n == 1 ==> Number(Qword(r[9], r[8])) == 0)
            && (n == 2 || (n > 2 && list.None?) ==> Qword(r[9], r[8]) == addrs[1])
            && (n > 2 && list.Some? ==> Qword(r[9], r[8]) == list.value)
  {}

  /** Replacing an entry touches nothing else. */
  lemma PutStores(mem: seq<Dword>, off: nat, w: Words, i: nat)
    requires off + 16 <= |mem| && i < |mem|
    ensures |Put(mem, off, w)| == |mem| && Put(mem, off, w)[i] == if off <= i < off + 16 then w[i - off] else mem[i]
    ensures off <= i < off + 16 ==> At(mem, off)[i - off] == mem[i]
  {}

  /** Nor does writing a list. */
  lemma OverlayStores(mem: seq<Address>, off: nat, part: seq<Address>, i: nat)
    requires off + |part| <= |mem| && i < |mem|
    ensures |Overlay(mem, off, part)| == |mem|
    ensures Overlay(mem, off, part)[i] == if off <= i < off + |part| then part[i - off] else mem[i]
  {}

  /**
   * PRP round trip: the controller's walk over the pointers nvm_cmd_data chose, for as many pages
   * as the call reported, is exactly that prefix of the caller's page addresses.
   */
  lemma PrpRoundTrip(pageSize: nat, n: nat, list: Option<Address>, addrs: seq<Address>,
                     lists: map<Address, seq<Address>>, page: seq<Address>)
    requires pageSize >= 16 && 1 <= n <= |addrs|
    requires list.Some? ==> list.value in lists && lists[list.value] == page
    requires list.Some? && n > 2 ==> addrs[1..1 + PrpCount(pageSize, n - 1)] <= page
    ensures var used := DataCount(pageSize, n, list.Some?);
            && Walk(addrs[0], SecondPrp(n, list, addrs), lists, used) == Some(addrs[..used])
            && used == (if list.None? then (if n <= 2 then n else 2)
                        else if n <= 1 + pageSize / 8 then n else 1 + pageSize / 8)
  {
    var used := DataCount(pageSize, n, list.Some?);
    if n > 2 && list.Some? {
      assert page[..used - 1] == addrs[1..used];
      assert addrs[..used] == [addrs[0]] + addrs[1..used];
    } else if n == 1 {
      assert addrs[..1] == [addrs[0]];
    } else {
      assert addrs[..2] == [addrs[0], addrs[1]];
    }
  }

  // ---------------------------------------------------------------- builders, in place

  function At(mem: seq<Dword>, off: nat): Words
    requires off + 16 <= |mem|
  {
    mem[off..off + 16]
  }

  /** Queue memory with the entry at off replaced. */
  function Put(mem: seq<Dword>, off: nat, w: Words): seq<Dword>
    requires off + 16 <= |mem|
  {
    mem[..off] + w + mem[off + 16..]
  }

  /** Memory with part written over, from off on. */
  function Overlay(mem: seq<Address>, off: nat, part: seq<Address>): seq<Address>
    requires off + |part| <= |mem|
  {
    mem[..off] + part + mem[off + |part|..]
  }

  lemma OverlayStep(mem: seq<Address>, off: nat, part: seq<Address>, x: Address)
    requires off + |part| < |mem|
    ensures Overlay(mem, off, part)[off + |part| := x] == Overlay(mem, off, part + [x])
  {}

  /** Memory that changed only inside one entry. */
  lemma Stored(mem: seq<Dword>, mem': seq<Dword>, off: nat, w: Words)
    requires off + 16 <= |mem| == |mem'| && At(mem', off) == w
    requires mem'[..off] == mem[..off] && mem'[off + 16..] == mem[off + 16..]
    ensures mem' == Put(mem, off, w)
  {
    assert mem' == mem'[..off] + mem'[off..off + 16] + mem'[off + 16..];
  }

  lemma PutTwice(mem: seq<Dword>, off: nat, w: Words, w': Words)
    requires off + 16 <= |mem|
    ensures |Put(mem, off, w)| == |mem| && At(Put(mem, off, w), off) == w
    ensures Put(Put(mem, off, w), off, w') == Put(mem, off, w')
  {}

  method CmdHeader(mem: array<Dword>, off: nat, opcode: nat, nsid: Dword)
    requires off + 16 <= mem.Length
    modifies mem
    ensures mem[..] == Put(old(mem[..]), off, Header(At(old(mem[..]), off), opcode, nsid))
  {
    mem[off] := Dword(mem[off].hi, Slot(opcode, 0x80));
    mem[off + 1] := nsid;
  }

  method CmdDataPtr(mem: array<Dword>, off: nat, prp1: Address, prp2: Address)
    requires off + 16 <= mem.Length
    modifies mem
    ensures mem[..] == Put(old(mem[..]), off, DataPtr(At(old(mem[..]), off), prp1, prp2))
  {
    mem[off] := Dword(mem[off].hi, Cleared(mem[off].lo));
    mem[off + 6] := prp1.lo;
    mem[off + 7] := prp1.hi;
    mem[off + 8] := prp2.lo;
    mem[off + 9] := prp2.hi;
    Stored(old(mem[..]), mem[..], off, DataPtr(At(old(mem[..]), off), prp1, prp2));
  }

  method CmdRwBlks(mem: array<Dword>, off: nat, slba: Qword, blocks: nat)
    requires off + 16 <= mem.Length
    modifies mem
    ensures mem[..] == Put(old(mem[..]), off, RwBlks(At(old(mem[..]), off), slba, blocks))
  {
    mem[off + 10] := slba.lo;
    mem[off + 11] := slba.hi;
    mem[off + 12] := Dword(mem[off + 12].hi, ZeroBased(blocks));
    Stored(old(mem[..]), mem[..], off, RwBlks(At(old(mem[..]), off), slba, blocks));
  }

  /** nvm_prp_list: the loop fills a prefix of one list page and leaves the rest of memory alone. */
  method PrpList(pageSize: nat, n: nat, list: array<Address>, off: nat, addrs: seq<Address>) returns (used: nat)
    requires off + pageSize / 8 <= list.Length && PrpCount(pageSize, n) <= |addrs|
    modifies list
    ensures used == PrpCount(pageSize, n)
    ensures list[..] == Overlay(old(list[..]), off, addrs[..used])
  {
    var max := pageSize / 8;
    var count := if max < n then max else n;
    used := 0;
    while used < count
      invariant used <= count
      invariant list[..] == Overlay(old(list[..]), off, addrs[..used])
    {
      OverlayStep(old(list[..]), off, addrs[..used], addrs[used]);
      ghost var before := list[..];
      list[off + used] := addrs[used];
      assert list[..] == before[off + used := addrs[used]];
      assert addrs[..used] + [addrs[used]] == addrs[..used + 1];
      used := used + 1;
    }
  }

  /** nvm_cmd_data in a debug build; `list` is the PRP page's offset and bus address, or absent. */
  method CmdData(mem: array<Dword>, off: nat, pageSize: nat, n: nat, lists: array<Address>,
                 list: Option<(nat, Address)>, addrs: seq<Address>) returns (used: nat)
    requires off + 16 <= mem.Length && n <= |addrs|
    requires list.Some? ==> list.value.0 + pageSize / 8 <= lists.Length
    modifies mem, lists
    ensures used == DataCount(pageSize, n, list.Some?)
    ensures mem[..] == if n == 0 then old(mem[..]) else
              Put(old(mem[..]), off, Data(At(old(mem[..]), off), n, if list.Some? then Some(list.value.1) else None, addrs))
    ensures lists[..] == if n > 2 && list.Some? then Overlay(old(lists[..]), list.value.0, addrs[1..used]) else old(lists[..])
  {
    if n == 0 { return 0; }
    var dptr0, dptr1 := addrs[0], ZERO;
    used := 1;
    if n > 2 && list.Some? {
      dptr1 := list.value.1;
      var more := PrpList(pageSize, n - 1, lists, list.value.0, addrs[1..]);
      assert addrs[1..][..more] == addrs[1..1 + more];
      used := used + more;
    } else if n >= 2 {
      dptr1 := addrs[1];
      used := used + 1;
    }
    ghost var after := lists[..];
    CmdDataPtr(mem, off, dptr0, dptr1);
    assert lists[..] == after;
  }
}
