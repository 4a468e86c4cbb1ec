/**
 * What a transfer leaves behind: the disk's blocks and the buffer's pages after all its commands,
 * each carried out in the order of its completion.
 */
module Contents {
  import Modular
  import opened Command
  import opened Protocol
  import opened Jobs
  import opened Tiling
  import opened Planning
  import opened Transfer
  import opened Delivery

  /** The content of each block, and of each block-sized part of each page of memory. */
  datatype Store = Store(disk: nat -> nat, memory: (Address, nat) -> nat)

  ghost predicate SameDisk(s: Store, s': Store) { forall b: nat :: s'.disk(b) == s.disk(b) }

  ghost predicate SamePages(s: Store, s': Store) { forall a, r: nat :: s'.memory(a, r) == s.memory(a, r) }

  /** Part r of the effect's page i belongs with block first + bpp * i + r. */
  function BlockOf(e: Effect, bpp: nat, i: nat, r: nat): nat
    requires e.Moved?
  {
    Number(e.block) + bpp * i + r
  }

  /** A controller carries the effect out (sections 6.9 and 6.15 of NVM Express 1.3). */
  ghost predicate Performs(e: Effect, bpp: nat, s: Store, s': Store) {
    match e
    case Moved(toDisk, _, block, blocks, addrs) =>
      if toDisk then
        && SamePages(s, s')
        && (forall i: nat, r: nat | i < |addrs| && r < bpp :: s'.disk(BlockOf(e, bpp, i, r)) == s.memory(addrs[i], r))
        && (forall b: nat | !(Number(block) <= b < Number(block) + blocks) :: s'.disk(b) == s.disk(b))
      else
        && SameDisk(s, s')
        && (forall i: nat, r: nat | i < |addrs| && r < bpp :: s'.memory(addrs[i], r) == s.disk(BlockOf(e, bpp, i, r)))
        && (forall a, r: nat | a !in addrs :: s'.memory(a, r) == s.memory(a, r))
    case Flushed(_) => SameDisk(s, s') && SamePages(s, s')
    case Fault => true
  }

  /** The stores between the commands of a log. */
  ghost predicate Stores(p: Program, io: Io, stores: seq<Store>) {
    && |stores| == |p.sys.comp.log| + 1
    && (forall k: nat, e {:trigger Does(p, k, io, e)} | Does(p, k, io, e) :: Performs(e, io.bpp, stores[k], stores[k + 1]))
  }

  /** Each command of a transfer moves in the transfer's direction, or flushes. */
  lemma OneDirection(p: Program, io: Io, k: nat) returns (e: Effect)
    requires ProgramInv(p, io) && AllSound(p, io) && k < |p.sys.comp.log|
    ensures Does(p, k, io, e) && (e.Flushed? || (e.Moved? && e.toDisk == io.write))
  {
    hide ProgramInv, AllSound, Does;
    DoesItsJob(p, io, k);
    var x := p.sys.comp.log[k];
    e := Intended(JobAt(p.prods[x.q], x.idx), io);
  }

  /** What a transfer reads from stays as it was. */
  lemma {:induction false} SourceKept(p: Program, io: Io, stores: seq<Store>, k: nat)
    requires ProgramInv(p, io) && AllSound(p, io) && Stores(p, io, stores) && k <= |p.sys.comp.log|
    ensures if io.write then SamePages(stores[0], stores[k]) else SameDisk(stores[0], stores[k])
  {
    hide ProgramInv, AllSound, Does;
    if k > 0 {
      SourceKept(p, io, stores, k - 1);
      var e := OneDirection(p, io, k - 1);
      assert Performs(e, io.bpp, stores[k - 1], stores[k]);
    }
  }

  /** Block r of page `page` is one of the page's. */
  lemma BlockOfPage(bpp: nat, page: nat, r: nat)
    requires r < bpp
    ensures OfPage(bpp * page + r, bpp, page)
  {}

  /** The command that carries the page puts it where it belongs. */
  lemma Arrives(e: Effect, io: Io, page: nat, r: nat, s: Store, s': Store)
    requires Carries(e, io, page) && r < io.bpp && Performs(e, io.bpp, s, s')
    ensures page < |io.buf|
    ensures if io.write then s'.disk(io.bpp * page + r) == s.memory(io.buf[page], r)
            else s'.memory(io.buf[page], r) == s.disk(io.bpp * page + r)
  {
    var i: nat :| i < |e.addrs| && Number(e.block) + io.bpp * i == io.bpp * page && page < |io.buf| && e.addrs[i] == io.buf[page];
    assert BlockOf(e, io.bpp, i, r) == io.bpp * page + r;
  }

  /** A command that names none of the page's blocks leaves them on the disk. */
  lemma BlocksKept(e: Effect, io: Io, page: nat, r: nat, s: Store, s': Store)
    requires !Touches(e, io, page) && r < io.bpp && Performs(e, io.bpp, s, s') && !e.Fault?
    ensures s'.disk(io.bpp * page + r) == s.disk(io.bpp * page + r)
  {
    BlockOfPage(io.bpp, page, r);
  }

  /** A read that does not carry the page leaves it in memory, if no other page has its address. */
  lemma PageKept(p: Program, spans: seq<Span>, io: Io, pages: nat, page: nat, k: nat, r: nat, s: Store, s': Store)
    requires ProgramInv(p, io) && AllSound(p, io) && Plans(p.prods, spans, io, pages) && k < |p.sys.comp.log| && page < pages
    requires OwnAddresses(io)
    requires forall e | Does(p, k, io, e) :: !Carries(e, io, page) && Performs(e, io.bpp, s, s')
    requires !io.write
    ensures page < |io.buf| && s'.memory(io.buf[page], r) == s.memory(io.buf[page], r)
  {
    hide AllSound, Does, Carries;
    DoesItsJob(p, io, k);
    var x := p.sys.comp.log[k];
    var job := JobAt(p.prods[x.q], x.idx);
    var e := Intended(job, io);
    if job.Rw? {
      PlanPlace(p.prods[x.q], spans[x.q].lo, spans[x.q].n, io, x.idx);
      CarriesItsPages(job.tile, io, page);
      forall i | 0 <= i < |e.addrs| ensures e.addrs[i] != io.buf[page] {
        assert e.addrs[i] == io.buf[job.tile.first + i];
      }
    }
  }

  /** Part r of the page is where it belongs: on the disk after a write, in memory after a read. */
  ghost predicate InPlace(io: Io, page: nat, r: nat, first: Store, last: Store)
    requires page < |io.buf|
  {
    if io.write then last.disk(io.bpp * page + r) == first.memory(io.buf[page], r)
    else last.memory(io.buf[page], r) == first.disk(io.bpp * page + r)
  }

  /** No two buffer pages have one address. */
  ghost predicate OwnAddresses(io: Io) { forall a, b | 0 <= a < b < |io.buf| :: io.buf[a] != io.buf[b] }

  /** From its carrier on, the page is where it belongs. */
  lemma {:induction false} Stays(p: Program, spans: seq<Span>, io: Io, pages: nat, page: nat, r: nat, stores: seq<Store>, j: nat, k: nat)
    requires j < k < |stores| && page < pages <= |io.buf| && r < io.bpp && (io.write || OwnAddresses(io))
    requires ProgramInv(p, io) && AllSound(p, io) && Plans(p.prods, spans, io, pages)
    requires Stores(p, io, stores) && OnlyCarrier(p, io, page, j)
    ensures InPlace(io, page, r, stores[0], stores[k])
  {
    hide ProgramInv, AllSound, Does, Carries, Touches, Performs, Plans, OwnAddresses;
    StoresSize(p, io, stores);
    var s, s' := stores[k - 1], stores[k];
    if k == j + 1 {
      SourceKept(p, io, stores, j);
      var e :| Does(p, j, io, e) && Carries(e, io, page);
      Arrives(e, io, page, r, s, s');
    } else {
      Stays(p, spans, io, pages, page, r, stores, j, k - 1);
      var e := OneDirection(p, io, k - 1);
      if io.write { BlocksKept(e, io, page, r, s, s'); }
      else { PageKept(p, spans, io, pages, page, k - 1, r, s, s'); }
    }
  }

  /**
   * When transfer() returns, after any run of a plan without a clash, or any run in which the
   * controller stayed inside the window: a write has left the contents of every buffer page in the
   * page's own blocks and the buffer as it was; a read has left the contents of those blocks in the
   * page, if buffer pages have addresses of their own, and the disk as it was.
   */
  lemma ContentsMoved(ps: seq<Program>, acts: seq<Act>, io: Io, spans: seq<Span>, pages: nat, stores: seq<Store>, page: nat, r: nat)
    requires Behaviour(ps, acts, io) && Returned(ps[|acts|]) && (Windowed(ps) || Peaceful(ps[0], io))
    requires Plans(ps[0].prods, spans, io, pages) && page < pages <= |io.buf| && r < io.bpp
    requires Stores(ps[|acts|], io, stores) && (io.write || OwnAddresses(io))
    ensures |stores| > 0
    ensures var first, last := stores[0], stores[|stores| - 1];
            InPlace(io, page, r, first, last) && if io.write then SamePages(first, last) else SameDisk(first, last)
  {
    hide Behaviour, Returned, Plans, Peaceful, Windowed, Stores, OwnAddresses, InPlace, SamePages, SameDisk, ProgramInv, AllSound, OnlyCarrier;
    BehaviourSizes(ps, acts, io);
    var j := Carried(ps, acts, io, spans, pages, page);
    Delivered(ps[|acts|], spans, io, pages, stores, page, r, j);
  }

  lemma Carried(ps: seq<Program>, acts: seq<Act>, io: Io, spans: seq<Span>, pages: nat, page: nat) returns (j: nat)
    requires Behaviour(ps, acts, io) && Returned(ps[|acts|]) && (Windowed(ps) || Peaceful(ps[0], io))
    requires Plans(ps[0].prods, spans, io, pages) && page < pages
    ensures OnlyCarrier(ps[|acts|], io, page, j) && Plans(ps[|acts|].prods, spans, io, pages)
    ensures ProgramInv(ps[|acts|], io) && AllSound(ps[|acts|], io)
  {
    hide Returned, Plans, OnlyCarrier, Peaceful, Windowed, Undisturbed, ProgramInv, AllSound, Step, Start;
    j := EveryPageOnce(ps, acts, io, spans, pages, page);
    if Windowed(ps) { WindowedUndisturbed(ps, acts, io); } else { PeacefulUndisturbed(ps, acts, io); }
    BehaviourSound(ps, acts, io, |acts|);
    PlansKept(ps, acts, io, spans, pages, |acts|);
  }

  lemma Delivered(p: Program, spans: seq<Span>, io: Io, pages: nat, stores: seq<Store>, page: nat, r: nat, j: nat)
    requires page < pages <= |io.buf| && r < io.bpp && (io.write || OwnAddresses(io))
    requires ProgramInv(p, io) && AllSound(p, io) && Plans(p.prods, spans, io, pages)
    requires Stores(p, io, stores) && OnlyCarrier(p, io, page, j)
    ensures |stores| > 0
    ensures var first, last := stores[0], stores[|stores| - 1];
            InPlace(io, page, r, first, last) && if io.write then SamePages(first, last) else SameDisk(first, last)
  {
    hide ProgramInv, AllSound, Plans, Stores, OnlyCarrier, OwnAddresses, InPlace, SamePages, SameDisk;
    StoresSize(p, io, stores);
    CarrierThere(p, io, page, j);
    Stays(p, spans, io, pages, page, r, stores, j, |stores| - 1);
    SourceKept(p, io, stores, |stores| - 1);
  }

  lemma BehaviourSizes(ps: seq<Program>, acts: seq<Act>, io: Io)
    requires Behaviour(ps, acts, io)
    ensures |ps| == |acts| + 1
  {}

  lemma StoresSize(p: Program, io: Io, stores: seq<Store>)
    requires Stores(p, io, stores)
    ensures |stores| == |p.sys.comp.log| + 1
  {}

  lemma CarrierThere(p: Program, io: Io, page: nat, j: nat)
    requires OnlyCarrier(p, io, page, j)
    ensures j < |p.sys.comp.log|
  {}

  // ---------------------------------------------------------------- every log can be carried out

  /** Where an address first stands, or past the end. */
  function Index(addrs: seq<Address>, a: Address): (i: nat)
    ensures i <= |addrs| && (i < |addrs| ==> addrs[i] == a) && (i == |addrs| ==> a !in addrs)
  {
    if addrs == [] || addrs[0] == a then 0 else 1 + Index(addrs[1..], a)
  }

  function DiskAfter(e: Effect, bpp: nat, s: Store, b: nat): nat {
    if e.Moved? && bpp > 0 && Number(e.block) <= b < Number(e.block) + e.blocks && (b - Number(e.block)) / bpp < |e.addrs|
    then s.memory(e.addrs[(b - Number(e.block)) / bpp], (b - Number(e.block)) % bpp)
    else s.disk(b)
  }

  function MemoryAfter(e: Effect, bpp: nat, s: Store, a: Address, r: nat): nat {
    if e.Moved? && Index(e.addrs, a) < |e.addrs| && r < bpp then s.disk(BlockOf(e, bpp, Index(e.addrs, a), r)) else s.memory(a, r)
  }

  /** The store after the effect. */
  function After(e: Effect, bpp: nat, s: Store): Store {
    if !e.Moved? then s
    else if e.toDisk then s.(disk := b => DiskAfter(e, bpp, s, b))
    else s.(memory := (a, r) => MemoryAfter(e, bpp, s, a, r))
  }

  lemma AfterPerforms(e: Effect, bpp: nat, s: Store)
    requires bpp > 0 && (e.Moved? ==> e.blocks == bpp * |e.addrs|)
    requires e.Moved? && !e.toDisk ==> forall a, b | 0 <= a < b < |e.addrs| :: e.addrs[a] != e.addrs[b]
    ensures Performs(e, bpp, s, After(e, bpp, s))
  {
    if e.Moved? {
      var s' := After(e, bpp, s);
      forall i: nat, r: nat | i < |e.addrs| && r < bpp
        ensures if e.toDisk then s'.disk(BlockOf(e, bpp, i, r)) == s.memory(e.addrs[i], r)
                else s'.memory(e.addrs[i], r) == s.disk(BlockOf(e, bpp, i, r))
      {
        InBlocks(bpp, i, r, |e.addrs|);
        if !e.toDisk { assert Index(e.addrs, e.addrs[i]) == i; }
      }
    }
  }

  lemma InBlocks(bpp: nat, i: nat, r: nat, n: nat)
    requires i < n && r < bpp
    ensures bpp * i + r < bpp * n && (bpp * i + r) / bpp == i && (bpp * i + r) % bpp == r
  {
    MulOrder(i + 1, n, bpp);
    assert (i + 1) * bpp == bpp * i + bpp && n * bpp == bpp * n;
    assert i * bpp == bpp * i;
    Modular.UniqueDivision(bpp * i + r, bpp, i, r);
  }

  /** The commands of a transfer's log can be carried out one after the other, on any disk and memory. */
  lemma {:induction false} StoresExist(p: Program, spans: seq<Span>, io: Io, pages: nat, first: Store, k: nat) returns (stores: seq<Store>)
    requires ProgramInv(p, io) && AllSound(p, io) && Plans(p.prods, spans, io, pages) && k <= |p.sys.comp.log|
    requires io.write || OwnAddresses(io)
    ensures |stores| == k + 1 && stores[0] == first
    ensures forall i: nat, e {:trigger Does(p, i, io, e)} | i < k && Does(p, i, io, e) :: Performs(e, io.bpp, stores[i], stores[i + 1])
  {
    hide ProgramInv, AllSound, Does, Performs, After, OwnAddresses, Plans;
    if k == 0 { stores := [first]; } else {
      var rest := StoresExist(p, spans, io, pages, first, k - 1);
      var e := Doable(p, spans, io, pages, k - 1);
      AfterPerforms(e, io.bpp, rest[k - 1]);
      stores := rest + [After(e, io.bpp, rest[k - 1])];
      forall i: nat, e' {:trigger Does(p, i, io, e')} | i < k && Does(p, i, io, e') ensures Performs(e', io.bpp, stores[i], stores[i + 1]) {
        if i == k - 1 { DoesOne(p, i, io, e, e'); }
      }
    }
  }

  lemma DoesOne(p: Program, k: nat, io: Io, e: Effect, e': Effect)
    requires Does(p, k, io, e) && Does(p, k, io, e')
    ensures e == e'
  {}

  lemma Doable(p: Program, spans: seq<Span>, io: Io, pages: nat, k: nat) returns (e: Effect)
    requires ProgramInv(p, io) && AllSound(p, io) && Plans(p.prods, spans, io, pages) && k < |p.sys.comp.log|
    requires io.write || OwnAddresses(io)
    ensures Does(p, k, io, e) && io.bpp > 0 && (e.Moved? ==> e.blocks == io.bpp * |e.addrs|)
    ensures e.Moved? && !e.toDisk ==> forall a, b | 0 <= a < b < |e.addrs| :: e.addrs[a] != e.addrs[b]
  {
    hide AllSound, Does;
    DoesItsJob(p, io, k);
    var x := p.sys.comp.log[k];
    var job := JobAt(p.prods[x.q], x.idx);
    e := Intended(job, io);
    if job.Rw? { PlanPlace(p.prods[x.q], spans[x.q].lo, spans[x.q].n, io, x.idx); }
  }
}
