/**
 * The read loop of examples/read-blocks/read.c. It advances by the pages nvm_cmd_data described,
 * but names the blocks of the pages it asked for; exactly when the two agree.
 */
module ReadBlocks {
  import opened Wrappers
  import opened Command
  import opened Protocol
  import opened Tiling
  import opened Jobs

  /** One round: the pages asked for, with the blocks the command names, and the pages described. */
  datatype Round = Round(asked: Tile, used: nat)

  /** Pages described by a sequence of rounds. */
  function Described(rs: seq<Round>): nat {
    if rs == [] then 0 else Described(rs[..|rs| - 1]) + rs[|rs| - 1].used
  }

  /** Each round begins where the rounds before it stopped. */
  ghost predicate Chained(rs: seq<Round>) {
    forall k {:trigger rs[k]} | 0 <= k < |rs| :: rs[k].asked.first == Described(rs[..k])
  }

  /** What each round asks for and names, inside the buffer's n pages, and what it describes. */
  ghost predicate Rounds(rs: seq<Round>, d: Disk, bpp: nat, offset: nat, n: nat) {
    Chained(rs) && forall r <- rs :: Reads(r, d, bpp, offset, n)
  }

  ghost predicate Reads(r: Round, d: Disk, bpp: nat, offset: nat, n: nat) {
    var t := r.asked;
    && 1 <= t.pages && t.first + t.pages <= n
    && t.startBlock == offset + bpp * t.first && t.nBlocks == bpp * t.pages
    && r.used == DataCount(d.pageSize, t.pages, true) <= t.pages
  }

  /** As many pages as a command may move, or all that are left. */
  predicate Asks(r: Round, n: nat, max: nat) {
    r.asked.pages == if n - r.asked.first < max then n - r.asked.first else max
  }

  predicate Whole(r: Round) { r.used == r.asked.pages }

  /** What one list page can describe is at least what the loop may ask for. */
  predicate OneListEnough(d: Disk, n: nat)
    requires d.pageSize > 0
  {
    n <= 1 + d.pageSize / 8 || d.maxDataSize / d.pageSize <= 1 + d.pageSize / 8
  }

  lemma RoundsExtend(rs: seq<Round>, r: Round, d: Disk, bpp: nat, offset: nat, n: nat)
    requires Rounds(rs, d, bpp, offset, n)
    requires r.asked.first == Described(rs) && Reads(r, d, bpp, offset, n)
    ensures Rounds(rs + [r], d, bpp, offset, n) && Described(rs + [r]) == Described(rs) + r.used
  {
    forall k | 0 <= k < |rs| ensures (rs + [r])[..k] == rs[..k] {}
    assert (rs + [r])[..|rs|] == rs;
  }

  lemma NoRounds(d: Disk, bpp: nat, offset: nat, n: nat)
    requires Usable(d, bpp)
    ensures Rounds([], d, bpp, offset, n) && Described([]) == 0 && d.blockSize > 0 && d.pageSize > 0 && d.maxDataSize / d.pageSize >= 1
  {
    Conversions(d, bpp, 0);
  }

  lemma RoundReads(d: Disk, bpp: nat, offset: nat, n: nat, page: nat, pages: nat)
    requires Usable(d, bpp) && d.blockSize > 0 && d.pageSize >= 16 && 1 <= pages && page + pages <= n
    ensures var used := DataCount(d.pageSize, pages, true);
            && 1 <= used <= pages && (used == pages <==> pages <= 1 + d.pageSize / 8)
            && Reads(Round(Tile(page, pages, offset + PageToBlock(d, page), PageToBlock(d, pages)), used), d, bpp, offset, n)
  {
    hide PageToBlock;
    Conversions(d, bpp, pages);
    Conversions(d, bpp, page);
  }

  /**
   * The loop. Every round names the blocks of just the pages it describes, if and only if one list
   * page is enough for the first round.
   */
  method CutReads(d: Disk, n: nat, offset: nat, ghost bpp: nat) returns (rs: seq<Round>)
    requires Usable(d, bpp) && d.pageSize >= 16
    ensures Rounds(rs, d, bpp, offset, n) && Described(rs) == n
    ensures (forall r <- rs :: Whole(r)) <==> OneListEnough(d, n)
    ensures forall r <- rs :: Asks(r, n, d.maxDataSize / d.pageSize)
  {
    hide Rounds, Described, DataCount, PageToBlock, Usable;
    NoRounds(d, bpp, offset, n);
    rs := [];
    var page := 0;
    var numPages := d.maxDataSize / d.pageSize;
    ghost var max := numPages;
    while n - page > 0
      invariant page == Described(rs) <= n && 1 <= numPages <= max
      invariant Rounds(rs, d, bpp, offset, n)
      invariant OneListEnough(d, n) ==> forall r <- rs :: Whole(r)
      invariant rs == [] ==> numPages == max
      invariant (numPages == max || n - page <= numPages) && forall r <- rs :: Asks(r, n, max)
      invariant rs != [] && !OneListEnough(d, n) ==> !Whole(rs[0])
      decreases n - page
    {
      if n - page < numPages {
        numPages := n - page;
      }
      RoundReads(d, bpp, offset, n, page, numPages);
      var used := DataCount(d.pageSize, numPages, true);
      var r := Round(Tile(page, numPages, offset + PageToBlock(d, page), PageToBlock(d, numPages)), used);
      RoundsExtend(rs, r, d, bpp, offset, n);
      rs := rs + [r];
      page := page + used;
    }
  }

  /** The rounds describe every page of the buffer, each in one round. */
  lemma RoundOf(rs: seq<Round>, page: nat) returns (k: nat)
    requires Chained(rs) && page < Described(rs)
    ensures k < |rs| && Describes(rs[k], page)
    ensures forall j | 0 <= j < |rs| && j != k :: !Describes(rs[j], page)
  {
    k := SomeRound(rs, page);
    forall j | 0 <= j < |rs| && j != k ensures !Describes(rs[j], page) {
      if j < k { RoundsOrdered(rs, j, k); } else { RoundsOrdered(rs, k, j); }
    }
  }

  predicate Describes(r: Round, page: nat) { r.asked.first <= page < r.asked.first + r.used }

  lemma {:induction false} SomeRound(rs: seq<Round>, page: nat) returns (k: nat)
    requires Chained(rs) && page < Described(rs)
    ensures k < |rs| && Describes(rs[k], page)
  {
    k := |rs| - 1;
    if page < rs[k].asked.first {
      assert forall j | 0 <= j < k :: rs[..k][..j] == rs[..j];
      k := SomeRound(rs[..k], page);
    }
  }

  lemma RoundsOrdered(rs: seq<Round>, i: nat, j: nat)
    requires Chained(rs) && i < j < |rs|
    ensures rs[i].asked.first + rs[i].used <= rs[j].asked.first
  {
    DescribedGrows(rs, i + 1, j);
    assert rs[..i + 1][..i] == rs[..i];
  }

  lemma {:induction false} DescribedGrows(rs: seq<Round>, i: nat, j: nat)
    requires i <= j <= |rs|
    ensures Described(rs[..i]) <= Described(rs[..j])
  {
    if i < j {
      DescribedGrows(rs, i, j - 1);
      assert rs[..j][..j - 1] == rs[..j - 1];
    }
  }

  /** The command a round leaves in its slot: here the block range goes in last. */
  function Built(w: Words, r: Round, nsid: Dword, list: Address, addrs: seq<Address>): Words
    requires r.asked.startBlock < 0x1_0000_0000_0000_0000 && 1 <= r.asked.pages <= |addrs|
  {
    RwBlks(Data(Header(w, NVM_IO_READ, nsid), r.asked.pages, Some(list), addrs), ToQword(r.asked.startBlock), r.asked.nBlocks)
  }

  /** The PRP page beside it. */
  ghost predicate Listed(page: seq<Address>, r: Round, pageSize: nat, addrs: seq<Address>)
    requires 1 <= r.used <= r.asked.pages <= |addrs|
  {
    |page| == pageSize / 8 && (r.asked.pages > 2 ==> addrs[1..r.used] <= page)
  }

  /**
   * A controller executing the command reads the caller's pages from the caller's blocks if the
   * round is whole; otherwise the blocks it names run past the end of the list.
   */
  lemma ReadExecutes(w: Words, r: Round, d: Disk, bpp: nat, nsid: Dword, list: Address, addrs: seq<Address>, lists: Lists)
    requires bpp > 0 && d.pageSize >= 16 && 1 <= r.asked.pages == |addrs| && r.asked.nBlocks == bpp * r.asked.pages <= 0x1_0000
    requires r.asked.startBlock < 0x1_0000_0000_0000_0000 && r.used == DataCount(d.pageSize, r.asked.pages, true) <= |addrs|
    requires list in lists && Listed(lists[list], r, d.pageSize, addrs)
    ensures Decode(Built(w, r, nsid, list, addrs), lists, bpp)
            == if Whole(r) then Moved(false, nsid, ToQword(r.asked.startBlock), r.asked.nBlocks, addrs) else Fault
  {
    hide Header, DataPtr, RwBlks;
    var n := r.asked.pages;
    var w1 := Header(w, NVM_IO_READ, nsid);
    var w2 := Data(w1, n, Some(list), addrs);
    HeaderReads(w, NVM_IO_READ, nsid);
    DataPtrReads(w1, addrs[0], SecondPrp(n, Some(list), addrs));
    MulOrder(1, n, bpp);
    RwBlksReads(w2, ToQword(r.asked.startBlock), r.asked.nBlocks);
    WholePages(n, bpp);
    PrpRoundTrip(d.pageSize, n, Some(list), addrs, lists, lists[list]);
    if Whole(r) { assert addrs[..n] == addrs; }
  }
}
