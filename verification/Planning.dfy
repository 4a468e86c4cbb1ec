/**
 * What the producers of a transfer set out to do: jobs that tile contiguous spans of its pages, and
 * which job owns which page.
 */
module Planning {
  import opened Command
  import opened Jobs
  import opened Tiling
  import opened Transfer

  /** Each producer's work tiles its span, and the spans cover the buffer's pages end to end. */
  ghost predicate Plans(prods: seq<Producer>, spans: seq<Span>, io: Io, pages: nat) {
    && |spans| == |prods| && Contiguous(spans, pages) && pages <= |io.buf|
    && (forall q {:trigger prods[q]} | 0 <= q < |prods| :: Plan(prods[q].work, spans[q].lo, spans[q].n, io))
  }

  /** A producer's work: the jobs of consecutive tiles from page lo on, n pages in all. */
  ghost predicate Plan(work: seq<Job>, lo: nat, n: nat, io: Io) {
    exists ts :: work == JobsOf(ts) && Tiles(ts, lo, io.bpp, 1 + io.pageSize / 8) && End(ts, lo) == lo + n
  }

  function JobsOf(ts: seq<Tile>): (work: seq<Job>)
    ensures |work| == |ts|
  {
    seq(|ts|, i requires 0 <= i < |ts| => Rw(ts[i]))
  }

  /**
   * The commands a list page, a 16-bit block count and a 64-bit block number can hold: at most
   * 1 + page_size/8 pages of at most 65536 blocks, inside the buffer.
   */
  ghost predicate Expressible(d: Disk, pages: nat, io: Io)
    requires d.pageSize > 0
  {
    && io.pageSize == d.pageSize && d.maxDataSize / d.pageSize <= 1 + d.pageSize / 8
    && io.bpp * (d.maxDataSize / d.pageSize) <= 0x1_0000
    && pages <= |io.buf| && io.bpp * pages <= 0x1_0000_0000_0000_0000
  }

  /** n pages from page `first` on, within n <= max and first + n <= pages, in blocks. */
  lemma FieldsFit(bpp: nat, first: nat, n: nat, max: nat, pages: nat)
    requires bpp > 0 && 1 <= n <= max && first + n <= pages
    ensures 1 <= bpp * n <= bpp * max && bpp * first < bpp * pages
  {
    MulOrder(1, n, bpp);
    MulOrder(n, max, bpp);
    MulOrder(first, pages, bpp);
    assert bpp * n == n * bpp && bpp * max == max * bpp && bpp * first == first * bpp && bpp * pages == pages * bpp;
  }

  /** Every tile CutTiles makes within the buffer is a command a producer may ask for. */
  lemma TileFits(d: Disk, io: Io, pages: nat, ts: seq<Tile>, lo: nat, k: nat)
    requires Usable(d, io.bpp) && d.pageSize > 0 && Expressible(d, pages, io) && k < |ts| && End(ts, lo) <= pages
    requires Tiles(ts, lo, io.bpp, d.maxDataSize / d.pageSize)
    ensures JobFits(Rw(ts[k]), io)
  {
    assert io.bpp > 0;
    hide PagesFor, Usable;
    var t, max := ts[k], d.maxDataSize / d.pageSize;
    assert ts[..|ts|] == ts;
    TilesOrdered(ts, lo, io.bpp, max, k, |ts|);
    WholePages(t.pages, io.bpp);
    FieldsFit(io.bpp, t.first, t.pages, max, pages);
  }

  /** What CutTiles gives for a share within the buffer is the share's plan. */
  lemma TilesPlan(d: Disk, io: Io, pages: nat, ts: seq<Tile>, lo: nat, n: nat)
    requires Usable(d, io.bpp) && d.pageSize > 0 && Expressible(d, pages, io) && End(ts, lo) == lo + n <= pages
    requires Tiles(ts, lo, io.bpp, d.maxDataSize / d.pageSize)
    ensures Plan(JobsOf(ts), lo, n, io)
    ensures forall k | 0 <= k < |ts| :: JobsOf(ts)[k].Rw? && JobFits(JobsOf(ts)[k], io)
  {
    hide JobFits, Usable;
    forall k | 0 <= k < |ts| ensures JobFits(Rw(ts[k]), io) { TileFits(d, io, pages, ts, lo, k); }
    assert Tiles(ts, lo, io.bpp, 1 + io.pageSize / 8);
  }

  /** The pages of transfer(), partitioned and cut: the works its producers carry out. */
  method PlanTransfer(d: Disk, size: nat, nQueues: nat, io: Io) returns (works: seq<seq<Job>>, ghost spans: seq<Span>)
    requires Usable(d, io.bpp) && d.pageSize > 0 && nQueues >= 1 && Expressible(d, Ceil(size, d.pageSize), io)
    ensures |works| == nQueues == |spans| && Contiguous(spans, Ceil(size, d.pageSize))
    ensures forall q | 0 <= q < nQueues :: Plan(works[q], spans[q].lo, spans[q].n, io)
    ensures forall q, k | 0 <= q < nQueues && 0 <= k < |works[q]| :: works[q][k].Rw? && JobFits(works[q][k], io)
    ensures EvenSpans(spans, Ceil(size, d.pageSize))
    ensures d.maxDataSize / d.pageSize > 0 && forall q | 0 <= q < nQueues :: InFull(works[q], spans[q], d.maxDataSize / d.pageSize)
  {
    var max := d.maxDataSize / d.pageSize;
    assert max > 0;
    hide JobFits, Usable, Expressible, Plan, Tiles, End, Ceil, JobsOf, Contiguous, EvenSpans, Cut, InFull, Assigned, Spans, FirstPage, PageCount;
    var shares := Partition(d, size, nQueues, io.bpp);
    spans := Spans(d, shares);
    forall q | 0 <= q < nQueues ensures spans[q].lo == FirstPage(d, shares[q]) && spans[q].n == PageCount(d, shares[q]) {
      SpanIs(d, shares, q);
    }
    works := [];
    for q := 0 to nQueues
      invariant |works| == q
      invariant forall r | 0 <= r < q :: Assigned(works[r], spans[r], io, max)
    {
      SpanEnds(spans, Ceil(size, d.pageSize), q);
      var work := CutJobs(d, shares[q], io, Ceil(size, d.pageSize), spans[q], max);
      works := works + [work];
    }
    forall q | 0 <= q < nQueues
      ensures Plan(works[q], spans[q].lo, spans[q].n, io) && InFull(works[q], spans[q], max)
      ensures forall k | 0 <= k < |works[q]| :: works[q][k].Rw? && JobFits(works[q][k], io)
    {
      AssignedIs(works[q], spans[q], io, max);
    }
  }

  /** One producer's jobs. */
  method CutJobs(d: Disk, p: Share, io: Io, ghost pages: nat, ghost s: Span, ghost max: nat) returns (work: seq<Job>)
    requires Usable(d, io.bpp) && d.pageSize > 0 && Expressible(d, pages, io) && max == d.maxDataSize / d.pageSize > 0
    requires p.startBlock == io.bpp * FirstPage(d, p) && s.lo == FirstPage(d, p) && s.n == PageCount(d, p) && s.lo + s.n <= pages
    ensures Assigned(work, s, io, max)
  {
    hide JobFits, Usable, Expressible, Plan, Tiles, End, JobsOf, Cut, InFull, Assigned, FirstPage, PageCount;
    var ts := CutTiles(d, p, io.bpp);
    TilesAssigned(d, io, pages, ts, s);
    work := JobsOf(ts);
  }

  /** What a producer is given. */
  ghost predicate Assigned(work: seq<Job>, s: Span, io: Io, max: nat)
    requires max > 0
  {
    && Plan(work, s.lo, s.n, io) && InFull(work, s, max)
    && (forall k | 0 <= k < |work| :: work[k].Rw? && JobFits(work[k], io))
  }

  lemma AssignedIs(work: seq<Job>, s: Span, io: Io, max: nat)
    requires max > 0 && Assigned(work, s, io, max)
    ensures Plan(work, s.lo, s.n, io) && InFull(work, s, max)
    ensures forall k | 0 <= k < |work| :: work[k].Rw? && JobFits(work[k], io)
  {}

  lemma SpanIs(d: Disk, shares: seq<Share>, q: nat)
    requires d.pageSize > 0 && q < |shares|
    ensures Spans(d, shares)[q].lo == FirstPage(d, shares[q]) && Spans(d, shares)[q].n == PageCount(d, shares[q])
  {}

  lemma TilesAssigned(d: Disk, io: Io, pages: nat, ts: seq<Tile>, s: Span)
    requires Usable(d, io.bpp) && d.pageSize > 0 && Expressible(d, pages, io) && End(ts, s.lo) == s.lo + s.n <= pages
    requires d.maxDataSize / d.pageSize > 0 && Cut(ts, s.lo, s.n, d.maxDataSize / d.pageSize)
    requires Tiles(ts, s.lo, io.bpp, d.maxDataSize / d.pageSize)
    ensures Assigned(JobsOf(ts), s, io, d.maxDataSize / d.pageSize)
  {
    hide JobFits, Usable, Expressible, Plan, Tiles, End, Ceil, JobsOf, Cut, InFull;
    TilesPlan(d, io, pages, ts, s.lo, s.n);
    CutInFull(ts, s, d.maxDataSize / d.pageSize);
  }

  /** A producer's jobs are as few as max pages to a command allow, all but the last of max pages. */
  ghost predicate InFull(work: seq<Job>, s: Span, max: nat)
    requires max > 0
  {
    && |work| == Ceil(s.n, max)
    && (forall k {:trigger work[k]} | 0 <= k < |work| ::
          work[k].Rw? && work[k].tile.first == s.lo + k * max && work[k].tile.pages == if k + 1 < |work| then max else s.n - k * max)
  }

  lemma CutInFull(ts: seq<Tile>, s: Span, max: nat)
    requires max > 0 && Cut(ts, s.lo, s.n, max)
    ensures InFull(JobsOf(ts), s, max)
  {
    hide Ceil;
    forall k | 0 <= k < |ts| ensures JobsOf(ts)[k] == Rw(ts[k]) {}
  }

  lemma SpanEnds(spans: seq<Span>, pages: nat, q: nat)
    requires Contiguous(spans, pages) && q < |spans|
    ensures spans[q].lo + spans[q].n <= pages
  {
    if q < |spans| - 1 { SpansOrdered(spans, pages, q, |spans| - 1); }
  }

  /** The effect moves buffer page `page`, to its own blocks in a write and from them in a read. */
  ghost predicate Carries(e: Effect, io: Io, page: nat) {
    && e.Moved? && e.toDisk == io.write && e.nsid == io.nsid && e.blocks == io.bpp * |e.addrs|
    && exists i :: 0 <= i < |e.addrs| && Number(e.block) + io.bpp * i == io.bpp * page && page < |io.buf| && e.addrs[i] == io.buf[page]
  }

  /** The effect names a block of the page, to write it or read it. */
  ghost predicate Touches(e: Effect, io: Io, page: nat) {
    e.Moved? && exists blk: nat :: OfPage(blk, io.bpp, page) && Number(e.block) <= blk < Number(e.block) + e.blocks
  }

  predicate OfPage(blk: nat, bpp: nat, page: nat) { bpp * page <= blk < bpp * page + bpp }

  /** Equal block numbers mean equal page numbers. */
  lemma SamePlace(bpp: nat, first: nat, i: nat, page: nat)
    requires bpp > 0
    ensures bpp * first + bpp * i == bpp * page <==> first + i == page
  {
    MulOrder(first + i, page, bpp);
    MulOrder(page, first + i, bpp);
    assert bpp * first + bpp * i == (first + i) * bpp;
  }

  lemma CarriesItsPages(t: Tile, io: Io, page: nat)
    requires IoOk(io) && JobFits(Rw(t), io) && t.startBlock == io.bpp * t.first && t.nBlocks == io.bpp * t.pages
    ensures Carries(Intended(Rw(t), io), io, page) <==> Holds(t, page)
  {
    hide ToQword, Number, PagesFor;
    var e := Intended(Rw(t), io);
    NumberReads(t.startBlock);
    forall i | 0 <= i < |e.addrs|
      ensures Number(e.block) + io.bpp * i == io.bpp * page <==> t.first + i == page
    {
      SamePlace(io.bpp, t.first, i, page);
    }
    if Holds(t, page) { assert e.addrs[page - t.first] == io.buf[page]; }
  }

  /** A block within n pages from page `first` on is of one of those pages. */
  lemma PageOfBlock(bpp: nat, first: nat, n: nat, page: nat, blk: nat)
    requires bpp > 0 && OfPage(blk, bpp, page) && bpp * first <= blk < bpp * first + bpp * n
    ensures first <= page < first + n
  {
    MulOrder(first, page + 1, bpp);
    MulOrder(page, first + n, bpp);
    assert (page + 1) * bpp == bpp * page + bpp && (first + n) * bpp == bpp * first + bpp * n;
    assert first * bpp == bpp * first && page * bpp == bpp * page;
  }

  /** A job names blocks of its own pages only. */
  lemma TouchesItsPages(t: Tile, io: Io, page: nat)
    requires IoOk(io) && JobFits(Rw(t), io) && t.startBlock == io.bpp * t.first && t.nBlocks == io.bpp * t.pages
    requires Touches(Intended(Rw(t), io), io, page)
    ensures Holds(t, page)
  {
    hide ToQword, Number, PagesFor, OfPage;
    var e := Intended(Rw(t), io);
    NumberReads(t.startBlock);
    var blk: nat :| OfPage(blk, io.bpp, page) && Number(e.block) <= blk < Number(e.block) + e.blocks;
    PageOfBlock(io.bpp, t.first, t.pages, page, blk);
  }

  /** Page `page` is held by job k of producer q. */
  ghost predicate Owns(prods: seq<Producer>, q: nat, k: nat, page: nat) {
    q < |prods| && k < |prods[q].work| && prods[q].work[k].Rw? && Holds(prods[q].work[k].tile, page)
  }

  lemma PlanHolds(t: Producer, lo: nat, n: nat, io: Io, page: nat) returns (k: nat)
    requires Plan(t.work, lo, n, io) && lo <= page < lo + n
    ensures k < |t.work| && t.work[k].Rw? && Holds(t.work[k].tile, page)
  {
    var ts: seq<Tile> :| t.work == JobsOf(ts) && Tiles(ts, lo, io.bpp, 1 + io.pageSize / 8) && End(ts, lo) == lo + n;
    k := TileOf(ts, lo, io.bpp, 1 + io.pageSize / 8, page);
  }

  lemma OwnerExists(prods: seq<Producer>, spans: seq<Span>, io: Io, pages: nat, page: nat) returns (q: nat, k: nat)
    requires Plans(prods, spans, io, pages) && page < pages
    ensures Owns(prods, q, k, page)
  {
    q := SpanHolding(spans, pages, page, |spans|);
    k := PlanHolds(prods[q], spans[q].lo, spans[q].n, io, page);
  }

  /** Where a job of a plan lies, and that its pages are its own. */
  lemma PlanPlace(t: Producer, lo: nat, n: nat, io: Io, k: nat)
    requires Plan(t.work, lo, n, io) && k < |t.work|
    ensures t.work[k].Rw? && t.work[k].tile.startBlock == io.bpp * t.work[k].tile.first
    ensures t.work[k].tile.nBlocks == io.bpp * t.work[k].tile.pages
    ensures lo <= t.work[k].tile.first && t.work[k].tile.first + t.work[k].tile.pages <= lo + n
    ensures forall i, page: nat | 0 <= i < |t.work| && i != k && t.work[i].Rw? ::
              !(Holds(t.work[k].tile, page) && Holds(t.work[i].tile, page))
  {
    var max := 1 + io.pageSize / 8;
    var ts: seq<Tile> :| t.work == JobsOf(ts) && Tiles(ts, lo, io.bpp, max) && End(ts, lo) == lo + n;
    TilesOrdered(ts, lo, io.bpp, max, k, |ts|);
    assert ts[..|ts|] == ts;
    forall i, page: nat | 0 <= i < |ts| && i != k ensures !(Holds(ts[k], page) && Holds(ts[i], page)) {
      if i < k { TilesOrdered(ts, lo, io.bpp, max, i, k); } else { TilesOrdered(ts, lo, io.bpp, max, k, i); }
      assert ts[i].first == End(ts[..i], lo) && ts[k].first == End(ts[..k], lo);
    }
  }

  lemma OwnerUnique(prods: seq<Producer>, spans: seq<Span>, io: Io, pages: nat, page: nat,
                    q: nat, k: nat, q': nat, k': nat)
    requires Plans(prods, spans, io, pages) && Owns(prods, q, k, page) && Owns(prods, q', k', page)
    ensures q == q' && k == k'
  {
    PlanPlace(prods[q], spans[q].lo, spans[q].n, io, k);
    PlanPlace(prods[q'], spans[q'].lo, spans[q'].n, io, k');
    if q < q' { SpansOrdered(spans, pages, q, q'); }
    if q' < q { SpansOrdered(spans, pages, q', q); }
  }
}
