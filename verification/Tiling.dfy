/**
 * How examples/integrity/transfer.c cuts a transfer: blocks among producers, and each producer's
 * pages into commands of at most max_data_size.
 */
module Tiling {
  import opened Modular

  datatype Disk = Disk(pageSize: nat, maxDataSize: nat, nsid: nat, blockSize: nat)
  datatype Share = Share(startBlock: nat, nBlocks: nat)
  /** One command: `pages` buffer pages from `first`, and the block range named in the command. */
  datatype Tile = Tile(first: nat, pages: nat, startBlock: nat, nBlocks: nat)

  /** NVM_PAGE_ALIGN(size, unit) / unit; the mask rounds up for the powers of two it is used with. */
  function Ceil(size: nat, unit: nat): nat
    requires unit > 0
  {
    (size + unit - 1) / unit
  }

  function PageToBlock(d: Disk, page: nat): nat
    requires d.blockSize > 0
  {
    d.pageSize * page / d.blockSize
  }

  function BlockToPage(d: Disk, block: nat): nat
    requires d.pageSize > 0
  {
    d.blockSize * block / d.pageSize
  }

  /** Blocks divide pages, and a command takes at least one page. */
  ghost predicate Usable(d: Disk, bpp: nat) {
    d.blockSize > 0 && bpp > 0 && d.pageSize == bpp * d.blockSize && d.maxDataSize / d.pageSize >= 1
  }

  lemma MulOrder(a: int, b: int, c: nat)
    requires c > 0
    ensures a <= b <==> a * c <= b * c
    ensures a < b <==> a * c < b * c
  {
    SmallMultiple(a - b, c);
    assert (a - b) * c == a * c - b * c;
  }

  lemma CeilUnique(a: nat, b: nat, c: nat)
    requires b > 0 && a <= c * b && c * b < a + b
    ensures Ceil(a, b) == c
  {
    UniqueDivision(a + b - 1, b, c, a + b - 1 - c * b);
  }

  lemma CeilBounds(a: nat, b: nat)
    requires b > 0
    ensures a <= Ceil(a, b) * b < a + b
  {}

  /** Page and block numbers convert exactly when blocks divide pages. */
  lemma Conversions(d: Disk, bpp: nat, p: nat)
    requires d.blockSize > 0 && bpp > 0 && d.pageSize == bpp * d.blockSize
    ensures d.pageSize > 0
    ensures PageToBlock(d, p) == bpp * p
    ensures BlockToPage(d, bpp * p) == p
  {
    assert d.pageSize * p == (bpp * p) * d.blockSize;
    UniqueDivision(d.pageSize * p, d.blockSize, bpp * p, 0);
    assert d.blockSize * (bpp * p) == p * d.pageSize;
    assert d.pageSize >= 1 by { SmallMultiple(bpp, d.blockSize); }
    UniqueDivision(d.blockSize * (bpp * p), d.pageSize, p, 0);
  }

  /** Whole units in front shift the rounded count. */
  lemma CeilShift(a: nat, k: nat, b: nat)
    requires b > 0 && k * b <= a
    ensures Ceil(a - k * b, b) == Ceil(a, b) - k
  {
    ShiftResidue(a + b - 1 - k * b, k, b);
  }

  /** n blocks of bs bytes fill as many pages as n blocks at bpp a page. */
  lemma CeilScale(n: nat, bs: nat, bpp: nat)
    requires bs > 0 && bpp > 0
    ensures bpp * bs > 0 && Ceil(n * bs, bpp * bs) == Ceil(n, bpp)
  {
    var c := Ceil(n, bpp);
    CeilBounds(n, bpp);
    MulOrder(0, bpp, bs);
    MulOrder(n, c * bpp, bs);
    MulOrder(c * bpp, n + bpp, bs);
    assert (c * bpp) * bs == c * (bpp * bs) && (n + bpp) * bs == n * bs + bpp * bs;
    CeilUnique(n * bs, bpp * bs, c);
  }

  /** Rounding up to blocks and then to pages is rounding up to pages. */
  lemma CeilTwice(size: nat, bs: nat, bpp: nat)
    requires bs > 0 && bpp > 0
    ensures bpp * bs > 0 && Ceil(Ceil(size, bs), bpp) == Ceil(size, bpp * bs)
  {
    MulOrder(0, bpp, bs);
    var n, c := Ceil(size, bs), Ceil(size, bpp * bs);
    CeilBounds(size, bs);
    CeilBounds(size, bpp * bs);
    assert c * (bpp * bs) == (c * bpp) * bs;
    // n is the least number of blocks holding size bytes, and c * bpp blocks hold them
    assert (c * bpp + 1) * bs == (c * bpp) * bs + bs;
    MulOrder(n, c * bpp + 1, bs);
    assert (c * bpp - bpp) * bs == (c * bpp) * bs - bpp * bs;
    MulOrder(c * bpp - bpp, n, bs);
    CeilUnique(n, bpp, c);
  }

  // ---------------------------------------------------------------- blocks among producers

  /** The buffer pages a producer works on: page_base and n_pages of produce_commands. */
  function FirstPage(d: Disk, p: Share): nat
    requires d.pageSize > 0
  {
    BlockToPage(d, p.startBlock)
  }

  function PageCount(d: Disk, p: Share): nat
    requires d.pageSize > 0
  {
    Ceil(p.nBlocks * d.blockSize, d.pageSize)
  }

  /** A producer's page range. */
  datatype Span = Span(lo: nat, n: nat)

  function SpanOf(d: Disk, p: Share): Span
    requires d.pageSize > 0
  {
    Span(FirstPage(d, p), PageCount(d, p))
  }

  /** Spans end to end: the first starts at page 0, the last ends at `pages`. */
  ghost predicate Contiguous(spans: seq<Span>, pages: nat) {
    && |spans| >= 1 && spans[0].lo == 0
    && (forall i, j {:trigger spans[i], spans[j]} | 0 <= i && i + 1 == j < |spans| :: spans[j].lo == spans[i].lo + spans[i].n)
    && spans[|spans| - 1].lo + spans[|spans| - 1].n == pages
  }

  function Spans(d: Disk, shares: seq<Share>): (r: seq<Span>)
    requires d.pageSize > 0
    ensures |r| == |shares|
  {
    seq(|shares|, i requires 0 <= i < |shares| => SpanOf(d, shares[i]))
  }

  /** pages_per_queue. */
  function PerQueue(d: Disk, size: nat, m: nat): nat
    requires d.pageSize > 0 && m > 0
  {
    Ceil(size, d.pageSize) / m
  }

  /** What the loop body of transfer() stores for producer i; C's unsigned subtraction shown not to wrap. */
  function ShareAt(d: Disk, size: nat, m: nat, i: nat): Share
    requires d.blockSize > 0 && d.pageSize > 0 && m > 0
  {
    var start := PageToBlock(d, PerQueue(d, size, m) * i);
    Share(start, if i < m - 1 then PageToBlock(d, PerQueue(d, size, m))
                 else if start <= Ceil(size, d.blockSize) then Ceil(size, d.blockSize) - start else 0)
  }

  lemma ShareStart(d: Disk, bpp: nat, size: nat, m: nat, i: nat)
    requires Usable(d, bpp) && m >= 1 && d.pageSize > 0
    ensures var p, first := ShareAt(d, size, m, i), PerQueue(d, size, m) * i;
            FirstPage(d, p) == first && p.startBlock == bpp * first
  {
    assert d.blockSize > 0;
    hide PerQueue, PageToBlock, BlockToPage, Ceil;
    Conversions(d, bpp, PerQueue(d, size, m) * i);
  }

  lemma PageCountIs(d: Disk, bpp: nat, p: Share)
    requires Usable(d, bpp) && d.pageSize > 0
    ensures PageCount(d, p) == Ceil(p.nBlocks, bpp)
  {
    hide Ceil;
    CeilScale(p.nBlocks, d.blockSize, bpp);
  }

  /** n whole pages of blocks fill n pages. */
  lemma WholeCeil(n: nat, bpp: nat)
    requires bpp > 0
    ensures Ceil(bpp * n, bpp) == n
  {
    hide Ceil;
    assert bpp * n == n * bpp;
    CeilUnique(bpp * n, bpp, n);
  }

  /** What is left of the blocks after whole pages fills what is left of the pages. */
  lemma RestCeil(blocks: nat, n: nat, bpp: nat)
    requires bpp > 0 && bpp * n <= blocks
    ensures Ceil(blocks - bpp * n, bpp) == Ceil(blocks, bpp) - n
  {
    hide Ceil;
    assert bpp * n == n * bpp;
    CeilShift(blocks, n, bpp);
  }

  /** A producer's pages; the last one's block count does not underflow and reaches the end. */
  lemma SharePages(d: Disk, bpp: nat, size: nat, m: nat, i: nat)
    requires Usable(d, bpp) && i < m && d.pageSize > 0
    ensures var pages, per := Ceil(size, d.pageSize), PerQueue(d, size, m);
            && per * m <= pages < per * m + m
            && per * i <= pages && ShareAt(d, size, m, i).startBlock <= Ceil(size, d.blockSize)
            && PageCount(d, ShareAt(d, size, m, i)) == if i < m - 1 then per else pages - per * i
  {
    assert d.blockSize > 0 && bpp > 0;
    PerQueueFits(d, size, m, i);
    CeilTwice(size, d.blockSize, bpp);
    assert bpp * d.blockSize == d.pageSize;
    hide Usable, Ceil, PageToBlock, BlockToPage, PageCount, PerQueue;
    var blocks, p, per := Ceil(size, d.blockSize), ShareAt(d, size, m, i), PerQueue(d, size, m);
    PageCountIs(d, bpp, p);
    Conversions(d, bpp, per);
    ShareStart(d, bpp, size, m, i);
    BlocksReach(blocks, bpp, per * i);
    if i < m - 1 { WholeCeil(per, bpp); } else { RestCeil(blocks, per * i, bpp); }
  }

  lemma PerQueueFits(d: Disk, size: nat, m: nat, i: nat)
    requires i < m && d.pageSize > 0
    ensures var per, pages := PerQueue(d, size, m), Ceil(size, d.pageSize);
            per * i <= pages && (per * i == 0 || per * i < pages) && per * m <= pages < per * m + m
  {
    hide Ceil;
    Quotient(Ceil(size, d.pageSize), m, i);
  }

  lemma Quotient(pages: nat, m: nat, i: nat)
    requires i < m
    ensures pages / m * i <= pages && (pages / m * i == 0 || pages / m * i < pages) && pages / m * m <= pages < pages / m * m + m
  {
    var per := pages / m;
    assert per * m <= pages;
    assert per * m == per * i + per * (m - i);
    SmallMultiple(per, m - i);
  }

  lemma BlocksReach(blocks: nat, bpp: nat, before: nat)
    requires bpp > 0 && (before == 0 || before < Ceil(blocks, bpp))
    ensures bpp * before <= blocks
  {
    CeilBounds(blocks, bpp);
    hide Ceil;
    MulOrder(before + 1, Ceil(blocks, bpp), bpp);
    assert (before + 1) * bpp == before * bpp + bpp && before * bpp == bpp * before;
    if before == 0 { assert bpp * before == 0; }
  }

  lemma ShareFits(d: Disk, bpp: nat, size: nat, m: nat, i: nat)
    requires Usable(d, bpp) && i < m && d.pageSize > 0
    ensures PageToBlock(d, PerQueue(d, size, m) * i) <= Ceil(size, d.blockSize)
  {
    hide PerQueue, Ceil, PageToBlock, PageCount;
    SharePages(d, bpp, size, m, i);
  }

  /** The partition loop of transfer(). */
  method Partition(d: Disk, size: nat, nQueues: nat, ghost bpp: nat) returns (shares: seq<Share>)
    requires Usable(d, bpp) && nQueues >= 1
    ensures d.pageSize > 0 && |shares| == nQueues && Contiguous(Spans(d, shares), Ceil(size, d.pageSize))
    ensures forall i | 0 <= i < nQueues :: shares[i].startBlock == bpp * FirstPage(d, shares[i])
    ensures EvenSpans(Spans(d, shares), Ceil(size, d.pageSize))
    ensures d.blockSize > 0 && forall i | 0 <= i < nQueues ::
              if i < nQueues - 1 then shares[i].nBlocks == bpp * PageCount(d, shares[i])
              else shares[i].startBlock + shares[i].nBlocks == Ceil(size, d.blockSize)
  {
    Conversions(d, bpp, 0);
    assert d.blockSize > 0;
    hide Usable, Ceil, PageToBlock, BlockToPage, Contiguous, Spans, EvenSpans;
    var nBlocks := Ceil(size, d.blockSize);
    var nPages := Ceil(size, d.pageSize);
    var pagesPerQueue := nPages / nQueues;
    assert pagesPerQueue == PerQueue(d, size, nQueues);
    hide PerQueue;
    shares := [];
    var i := 0;
    while i < nQueues
      invariant |shares| == i <= nQueues
      invariant forall k | 0 <= k < i :: shares[k] == ShareAt(d, size, nQueues, k)
    {
      ShareFits(d, bpp, size, nQueues, i);
      var startBlock := PageToBlock(d, pagesPerQueue * i);
      var blocks := PageToBlock(d, pagesPerQueue);
      if i == nQueues - 1 {
        blocks := nBlocks - startBlock;
      }
      shares := shares + [Share(startBlock, blocks)];
      i := i + 1;
    }
    SharesPartition(d, bpp, size, shares);
    SharesEven(d, bpp, size, shares);
  }

  /** Span i of m starts at page i * (pages / m); all but the last are pages / m long. */
  ghost predicate EvenSpans(spans: seq<Span>, pages: nat) {
    forall i {:trigger spans[i]} | 0 <= i < |spans| ::
      var per := pages / |spans|;
      spans[i].lo == per * i && spans[i].n == if i < |spans| - 1 then per else pages - per * i
  }

  /** All shares but the last are whole pages; the last reaches the transfer's last block. */
  lemma ShareBlocks(d: Disk, bpp: nat, size: nat, m: nat, i: nat)
    requires Usable(d, bpp) && i < m && d.pageSize > 0
    ensures var p := ShareAt(d, size, m, i);
            if i < m - 1 then p.nBlocks == bpp * PageCount(d, p) else p.startBlock + p.nBlocks == Ceil(size, d.blockSize)
  {
    assert d.blockSize > 0;
    hide Usable, Ceil, PageToBlock, BlockToPage, PerQueue, FirstPage, PageCount;
    SharePages(d, bpp, size, m, i);
    Conversions(d, bpp, PerQueue(d, size, m));
  }

  lemma SharesEven(d: Disk, bpp: nat, size: nat, shares: seq<Share>)
    requires Usable(d, bpp) && |shares| >= 1 && d.pageSize > 0
    requires forall k | 0 <= k < |shares| :: shares[k] == ShareAt(d, size, |shares|, k)
    ensures EvenSpans(Spans(d, shares), Ceil(size, d.pageSize))
    ensures forall i | 0 <= i < |shares| ::
              if i < |shares| - 1 then shares[i].nBlocks == bpp * PageCount(d, shares[i])
              else shares[i].startBlock + shares[i].nBlocks == Ceil(size, d.blockSize)
  {
    assert d.blockSize > 0;
    var m := |shares|;
    assert PerQueue(d, size, m) == Ceil(size, d.pageSize) / m;
    forall i: nat | i < m
      ensures if i < m - 1 then shares[i].nBlocks == bpp * PageCount(d, shares[i])
              else shares[i].startBlock + shares[i].nBlocks == Ceil(size, d.blockSize)
    {
      ShareBlocks(d, bpp, size, m, i);
    }
    hide Usable, Ceil, PageToBlock, BlockToPage, ShareAt, PerQueue, FirstPage, PageCount;
    forall i: nat | i < m
      ensures var s, per := Spans(d, shares)[i], PerQueue(d, size, m);
              s.lo == per * i && s.n == if i < m - 1 then per else Ceil(size, d.pageSize) - per * i
    {
      ShareStart(d, bpp, size, m, i);
      SharePages(d, bpp, size, m, i);
    }
  }

  lemma SharesPartition(d: Disk, bpp: nat, size: nat, shares: seq<Share>)
    requires Usable(d, bpp) && |shares| >= 1 && d.pageSize > 0
    requires forall k | 0 <= k < |shares| :: shares[k] == ShareAt(d, size, |shares|, k)
    ensures Contiguous(Spans(d, shares), Ceil(size, d.pageSize))
    ensures forall i | 0 <= i < |shares| :: shares[i].startBlock == bpp * FirstPage(d, shares[i])
  {
    assert d.blockSize > 0;
    hide Usable, Ceil, PageToBlock, BlockToPage, ShareAt, PerQueue, FirstPage, PageCount;
    var m := |shares|;
    forall i | 0 <= i < m ensures shares[i].startBlock == bpp * FirstPage(d, shares[i]) {
      ShareStart(d, bpp, size, m, i);
    }
    forall i | 1 <= i < m
      ensures FirstPage(d, shares[i]) == FirstPage(d, shares[i - 1]) + PageCount(d, shares[i - 1])
    {
      ShareStart(d, bpp, size, m, i);
      ShareStart(d, bpp, size, m, i - 1);
      SharePages(d, bpp, size, m, i - 1);
      var per := PerQueue(d, size, m);
      assert per * i == per * (i - 1) + per;
    }
    ShareStart(d, bpp, size, m, 0);
    ShareStart(d, bpp, size, m, m - 1);
    SharePages(d, bpp, size, m, m - 1);
    forall i, j | 0 <= i && i + 1 == j < m
      ensures Spans(d, shares)[j].lo == Spans(d, shares)[i].lo + Spans(d, shares)[i].n
    {
      assert FirstPage(d, shares[j]) == FirstPage(d, shares[j - 1]) + PageCount(d, shares[j - 1]);
    }
  }

  // ---------------------------------------------------------------- pages into commands

  function End(ts: seq<Tile>, lo: nat): nat {
    if ts == [] then lo else ts[|ts| - 1].first + ts[|ts| - 1].pages
  }

  /** The commands take consecutive page ranges from lo on, each of 1 to max pages and its own blocks. */
  ghost predicate Tiles(ts: seq<Tile>, lo: nat, bpp: nat, max: nat) {
    forall k {:trigger ts[k]} | 0 <= k < |ts| ::
      && ts[k].first == End(ts[..k], lo) && 1 <= ts[k].pages <= max
      && ts[k].startBlock == bpp * ts[k].first && ts[k].nBlocks == bpp * ts[k].pages
  }

  /** n pages from lo on cut into as few commands as max allows: all but the last of max pages. */
  ghost predicate Cut(ts: seq<Tile>, lo: nat, n: nat, max: nat)
    requires max > 0
  {
    && |ts| == Ceil(n, max)
    && (forall k {:trigger ts[k]} | 0 <= k < |ts| ::
          ts[k].first == lo + k * max && ts[k].pages == if k + 1 < |ts| then max else n - k * max)
  }

  /** The first |ts| commands are cut, `done` pages in all. */
  ghost predicate CutSoFar(ts: seq<Tile>, lo: nat, n: nat, max: nat, done: nat) {
    && done == (if |ts| * max <= n then |ts| * max else n) && (ts != [] ==> (|ts| - 1) * max < n)
    && (forall k {:trigger ts[k]} | 0 <= k < |ts| ::
          ts[k].first == lo + k * max && ts[k].pages == if (k + 1) * max <= n then max else n - k * max)
  }

  lemma CutExtend(ts: seq<Tile>, t: Tile, lo: nat, n: nat, max: nat, done: nat)
    requires max > 0 && CutSoFar(ts, lo, n, max, done) && done < n && t.first == lo + done
    requires t.pages == if n - done < max then n - done else max
    ensures CutSoFar(ts + [t], lo, n, max, done + t.pages)
  {
    assert (|ts| + 1) * max == |ts| * max + max;
  }

  lemma CutDone(ts: seq<Tile>, lo: nat, n: nat, max: nat)
    requires max > 0 && CutSoFar(ts, lo, n, max, n)
    ensures Cut(ts, lo, n, max)
  {
    hide Ceil;
    var m := |ts|;
    assert m > 0 ==> m * max == (m - 1) * max + max;
    CeilUnique(n, max, m);
    forall k: nat {:trigger ts[k]} | k < m ensures ts[k].pages == if k + 1 < m then max else n - k * max {
      MulOrder(k + 1, m - 1, max);
      assert (k + 1) * max == k * max + max;
    }
  }

  lemma TilesExtend(ts: seq<Tile>, t: Tile, lo: nat, bpp: nat, max: nat)
    requires Tiles(ts, lo, bpp, max) && t.first == End(ts, lo) && 1 <= t.pages <= max
    requires t.startBlock == bpp * t.first && t.nBlocks == bpp * t.pages
    ensures Tiles(ts + [t], lo, bpp, max)
  {
    forall k | 0 <= k < |ts| ensures (ts + [t])[..k] == ts[..k] {}
    assert (ts + [t])[..|ts|] == ts;
  }

  lemma TileBlocks(d: Disk, bpp: nat, start: nat, lo: nat, offset: nat, pages: nat)
    requires d.blockSize > 0 && bpp > 0 && d.pageSize == bpp * d.blockSize && start == bpp * lo
    ensures start + PageToBlock(d, offset) == bpp * (lo + offset)
    ensures PageToBlock(d, pages) == bpp * pages
  {
    Conversions(d, bpp, pages);
    Conversions(d, bpp, offset);
  }

  /** The loop of produce_commands, leaving out the queue: what each round asks for. */
  method CutTiles(d: Disk, p: Share, ghost bpp: nat) returns (ts: seq<Tile>)
    requires Usable(d, bpp) && d.pageSize > 0 && p.startBlock == bpp * FirstPage(d, p)
    ensures Tiles(ts, FirstPage(d, p), bpp, d.maxDataSize / d.pageSize)
    ensures End(ts, FirstPage(d, p)) == FirstPage(d, p) + PageCount(d, p)
    ensures Cut(ts, FirstPage(d, p), PageCount(d, p), d.maxDataSize / d.pageSize)
  {
    hide PageToBlock, FirstPage, PageCount, Ceil, Cut, CutSoFar, Tiles;
    assert Usable(d, bpp) && d.maxDataSize / d.pageSize >= 1;
    var nPages := PageCount(d, p);
    var transferPages := d.maxDataSize / d.pageSize;
    var pageBase := FirstPage(d, p);
    var pageOffset := 0;
    ghost var max := transferPages;
    ts := [];
    CutNone(pageBase, nPages, max);
    TilesNone(pageBase, bpp, max);
    while pageOffset < nPages
      invariant pageOffset <= nPages && 1 <= transferPages <= max && (pageOffset < nPages ==> transferPages == max)
      invariant CutSoFar(ts, pageBase, nPages, max, pageOffset)
      invariant Tiles(ts, pageBase, bpp, max) && End(ts, pageBase) == pageBase + pageOffset
      decreases nPages - pageOffset
    {
      if nPages - pageOffset < transferPages {
        transferPages := nPages - pageOffset;
      }
      var t := TileAt(d, p.startBlock, pageBase, pageOffset, transferPages);
      TileBlocks(d, bpp, p.startBlock, pageBase, pageOffset, transferPages);
      TilesExtend(ts, t, pageBase, bpp, max);
      CutExtend(ts, t, pageBase, nPages, max, pageOffset);
      ts := ts + [t];
      pageOffset := pageOffset + transferPages;
    }
    CutDone(ts, pageBase, nPages, max);
  }

  lemma CutNone(lo: nat, n: nat, max: nat)
    ensures CutSoFar([], lo, n, max, 0)
  {}

  lemma TilesNone(lo: nat, bpp: nat, max: nat)
    ensures Tiles([], lo, bpp, max)
  {}

  function TileAt(d: Disk, startBlock: nat, pageBase: nat, pageOffset: nat, pages: nat): Tile
    requires d.blockSize > 0
  {
    Tile(pageBase + pageOffset, pages, startBlock + PageToBlock(d, pageOffset), PageToBlock(d, pages))
  }

  ghost predicate Holds(t: Tile, page: nat) { t.first <= page < t.first + t.pages }

  /** Consecutive tiles hold every page of their range once, in order. */
  lemma {:induction false} TileOf(ts: seq<Tile>, lo: nat, bpp: nat, max: nat, page: nat) returns (k: nat)
    requires Tiles(ts, lo, bpp, max) && lo <= page < End(ts, lo)
    ensures k < |ts| && Holds(ts[k], page)
  {
    k := |ts| - 1;
    if page < ts[k].first {
      assert forall i | 0 <= i < k :: ts[..k][..i] == ts[..i];
      k := TileOf(ts[..k], lo, bpp, max, page);
    }
  }

  lemma {:induction false} TilesOrdered(ts: seq<Tile>, lo: nat, bpp: nat, max: nat, i: nat, j: nat)
    requires Tiles(ts, lo, bpp, max) && i < j <= |ts|
    ensures lo <= ts[i].first && ts[i].first + ts[i].pages <= End(ts[..j], lo) <= End(ts, lo)
  {
    EndGrows(ts, lo, bpp, max, 0, i);
    EndGrows(ts, lo, bpp, max, i + 1, j);
    EndGrows(ts, lo, bpp, max, j, |ts|);
    assert ts[..|ts|] == ts && ts[i].first == End(ts[..i], lo);
  }

  lemma {:induction false} EndGrows(ts: seq<Tile>, lo: nat, bpp: nat, max: nat, i: nat, j: nat)
    requires Tiles(ts, lo, bpp, max) && i <= j <= |ts|
    ensures lo <= End(ts[..i], lo) <= End(ts[..j], lo)
    decreases j
  {
    if j > 0 {
      assert ts[j - 1].first == End(ts[..j - 1], lo);
      EndGrows(ts, lo, bpp, max, if i < j then i else 0, j - 1);
    }
  }

  /** Some span holds the page. */
  lemma {:induction false} SpanHolding(spans: seq<Span>, pages: nat, page: nat, m: nat) returns (q: nat)
    requires Contiguous(spans, pages) && 1 <= m <= |spans| && page < spans[m - 1].lo + spans[m - 1].n
    ensures q < m && spans[q].lo <= page < spans[q].lo + spans[q].n
  {
    if spans[m - 1].lo <= page { q := m - 1; } else { q := SpanHolding(spans, pages, page, m - 1); }
  }

  lemma {:induction false} SpansOrdered(spans: seq<Span>, pages: nat, q: nat, r: nat)
    requires Contiguous(spans, pages) && q < r < |spans|
    ensures spans[q].lo + spans[q].n <= spans[r].lo
  {
    assert spans[r].lo == spans[r - 1].lo + spans[r - 1].n;
    if q + 1 < r { SpansOrdered(spans, pages, q, r - 1); }
  }
}
