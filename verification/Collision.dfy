/**
 * Exactly which transfers can lose a page to the reuse of PRP-list pages: those whose plan clashes.
 * A conforming controller holds the earlier command back until the later one is built, reads the
 * list again, and moves the later command's pages in place of the earlier's.
 */
module Collision {
  import opened Modular
  import opened Wrappers
  import opened Ring
  import opened Command
  import opened Protocol
  import opened Safety
  import opened Jobs
  import opened Tiling
  import opened Planning
  import opened Transfer
  import opened Flushing
  import opened Termination
  import opened Delivery
  import opened Fate

  // ---------------------------------------------------------------- commands as built

  /** The fields of a command are its job's, and its list, if any, is where its number says. */
  ghost predicate Fielded(w: Words, job: Job, io: Io, addr: Address) {
    && JobFits(job, io)
    && match job
       case Rw(t) =>
         var addrs := Addresses(job, io);
         && Opcode(w) == Op(io) && Nsid(w) == io.nsid && Slba(w) == ToQword(t.startBlock) && Nlb(w) == t.nBlocks
         && Prp1(w) == addrs[0] && Prp2(w) == SecondPrp(t.pages, Some(addr), addrs)
       case Flush => Opcode(w) == NVM_IO_FLUSH
  }

  /** The list page at addr begins with the job's entries. */
  ghost predicate ListHolds(lists: Lists, addr: Address, job: Job, io: Io)
  {
    JobFits(job, io) && NeedsList(job) ==>
      addr in lists && job.tile.pages - 1 <= |lists[addr]|
      && forall m | 1 <= m < job.tile.pages :: lists[addr][m - 1] == Addresses(job, io)[m]
  }

  /** Every command of a queue is built as its job says, and the newest one's list is in memory. */
  ghost predicate Built(t: Producer, b: Sub, io: Io) {
    && |t.prp| == b.d.size + 1 && b.d.size > 0
    && (forall k {:trigger b.issued[k]} | 0 <= k < |b.issued| :: Fielded(b.issued[k], JobAt(t, k), io, ListPage(t.prp, b.d.size, k)))
    && (var k := |b.issued| - 1; k >= 0 ==> ListHolds(b.lists, ListPage(t.prp, b.d.size, k), JobAt(t, k), io))
  }

  ghost predicate AllBuilt(p: Program, io: Io) {
    |p.prods| == |p.sys.subs| && forall q {:trigger p.prods[q]} | 0 <= q < |p.prods| :: Built(p.prods[q], p.sys.subs[q], io)
  }

  lemma BuildFielded(w: Words, job: Job, io: Io, addr: Address, page: seq<Address>)
    requires IoOk(io) && JobFits(job, io) && |page| >= io.pageSize / 8
    ensures Fielded(BuildCommand(w, job, io, addr), job, io, addr)
    ensures ListHolds(map[addr := BuildList(page, job, io)], addr, job, io)
  {
    match job
    case Rw(t) => BuildRwReads(w, t, io, addr);
    case Flush =>
      HeaderReads(w, NVM_IO_FLUSH, io.nsid);
      DataPtrReads(Header(w, NVM_IO_FLUSH, io.nsid), ZERO, ZERO);
      RwBlksReads(DataPtr(Header(w, NVM_IO_FLUSH, io.nsid), ZERO, ZERO), ZERO, 0);
  }

  lemma GrowsBuilt(t: Producer, t': Producer, b: Sub, b': Sub, job: Job, io: Io, w: Words)
    requires Built(t, b, io) && job == JobAt(t, |b.issued|) && t'.work == t.work && t'.prp == t.prp
    requires Grows(b, b', job, ListPage(t.prp, b.d.size, |b.issued|), io, w)
    ensures Built(t', b', io)
  {
    hide BuildCommand, BuildList, Fielded, JobFits, Cid;
    var addr := ListPage(t.prp, b.d.size, |b.issued|);
    BuildFielded(w, job, io, addr, b.lists[addr]);
    forall k | 0 <= k < |b'.issued| ensures Fielded(b'.issued[k], JobAt(t', k), io, ListPage(t'.prp, b'.d.size, k)) {
      if k < |b.issued| { assert b'.issued[k] == b.issued[k]; }
    }
    assert b'.lists[addr] == map[addr := BuildList(b.lists[addr], job, io)][addr];
  }

  lemma SameBuilt(t: Producer, t': Producer, b: Sub, b': Sub, io: Io)
    requires Built(t, b, io) && t'.work == t.work && t'.prp == t.prp
    requires b'.issued == b.issued && b'.lists == b.lists && b'.d.size == b.d.size
    ensures Built(t', b', io)
  {}

  lemma IssuedBuilt(p: Program, q: nat, io: Io, p': Program)
    requires ProgramInv(p, io) && AllBuilt(p, io) && q < |p.prods| && |p'.prods| == |p.prods| && q < |p'.sys.subs|
    requires Issues(p.sys, q, JobAt(p.prods[q], |p.sys.subs[q].issued|), p.prods[q].prp, io, p'.sys)
    requires p'.prods[q].work == p.prods[q].work && p'.prods[q].prp == p.prods[q].prp
    ensures Built(p'.prods[q], p'.sys.subs[q], io)
  {
    hide BuildCommand, BuildList, Built;
    var t, b := p.prods[q], p.sys.subs[q];
    assert ProducerInv(t, b, p.sys.comp, p.cons, q, io);
    var job := JobAt(t, |b.issued|);
    var w := IssueEffect(p.sys, q, job, t.prp, io, p'.sys);
    GrowsBuilt(t, p'.prods[q], b, p'.sys.subs[q], job, io, w);
  }

  lemma QueueBuilt(p: Program, a: Act, io: Io, p': Program, q: nat)
    requires ProgramInv(p, io) && AllBuilt(p, io) && Step(p, a, io, p') && q < |p.prods|
    requires |p'.prods| == |p.prods| == |p'.sys.subs|
    ensures Built(p'.prods[q], p'.sys.subs[q], io)
  {
    hide BuildCommand, BuildList, Inv, ProducerInv, Built, Issues;
    var t, b := p.prods[q], p.sys.subs[q];
    assert Built(t, b, io);
    match a
    case Produce(r) =>
      ProducerEffect(p, r, io, p');
      if r == q && !SameMemory(b, p'.sys.subs[q]) { IssuedBuilt(p, q, io, p'); } else { SameBuilt(t, p'.prods[q], b, p'.sys.subs[q], io); }
    case Consume =>
      ConsumerMemory(p, p', q);
      ConsumerShape(p, p');
      SameBuilt(t, p'.prods[q], b, p'.sys.subs[q], io);
    case Controller(e) =>
      ControllerEffect(p.sys, e, p'.sys, q);
      SameBuilt(t, p'.prods[q], b, p'.sys.subs[q], io);
  }

  lemma StepBuilt(p: Program, a: Act, io: Io, p': Program)
    requires ProgramInv(p, io) && AllBuilt(p, io) && Step(p, a, io, p')
    ensures AllBuilt(p', io)
  {
    hide ProgramInv, Step, Built;
    SameQueues(p, a, io, p');
    forall q | 0 <= q < |p'.prods| ensures Built(p'.prods[q], p'.sys.subs[q], io) { QueueBuilt(p, a, io, p', q); }
  }

  lemma {:induction false} BehaviourBuilt(ps: seq<Program>, acts: seq<Act>, io: Io, i: nat)
    requires Behaviour(ps, acts, io) && i < |ps|
    ensures AllBuilt(ps[i], io)
  {
    hide ProgramInv, Step, Built;
    if i == 0 { StartBuilt(ps[0], io); } else {
      BehaviourBuilt(ps, acts, io, i - 1);
      BehaviourKeeps(ps, acts, io, i - 1);
      assert Step(ps[i - 1], acts[i - 1], io, ps[i]);
      StepBuilt(ps[i - 1], acts[i - 1], io, ps[i]);
    }
  }

  lemma StartBuilt(p: Program, io: Io)
    requires Start(p, io)
    ensures AllBuilt(p, io)
  {
    forall q | 0 <= q < |p.prods| ensures Built(p.prods[q], p.sys.subs[q], io) {
      assert StartProducer(p.prods[q], p.sys.subs[q], io);
      assert FreshSub(p.sys.subs[q]);
    }
  }

  lemma ReachedBuilt(p0: Program, p: Program, io: Io)
    requires Reach(p0, p, io)
    ensures AllBuilt(p, io)
  {
    hide Step, Start, Built;
    var ps: seq<Program>, acts: seq<Act> :| Behaviour(ps, acts, io) && ps[0] == p0 && ps[|acts|] == p;
    BehaviourBuilt(ps, acts, io, |acts|);
  }

  // ---------------------------------------------------------------- a page no command moves

  /** No executed command carries the page. */
  ghost predicate Unmoved(p: Program, io: Io, page: nat) {
    forall j: nat, e | Does(p, j, io, e) :: !Carries(e, io, page)
  }

  /** Record j executed the command that owns the page, and did not carry it. */
  ghost predicate Spoilt(p: Program, io: Io, page: nat, j: nat) {
    && j < |p.sys.comp.log| && Owns(p.prods, p.sys.comp.log[j].q, p.sys.comp.log[j].idx, page)
    && exists e :: Does(p, j, io, e) && !Carries(e, io, page)
  }

  /** The page's command has completed without moving it. */
  ghost predicate Lost(p: Program, io: Io, page: nat) { exists j: nat :: Spoilt(p, io, page, j) }

  /** Whatever its list says, a command moves pages of its own blocks only. */
  lemma CarriesOwn(w: Words, lists: Lists, job: Job, io: Io, addr: Address, page: nat)
    requires IoOk(io) && Fielded(w, job, io, addr) && Carries(Decode(w, lists, io.bpp), io, page)
    requires job.Rw? ==> job.tile.startBlock == io.bpp * job.tile.first
    ensures job.Rw? && Holds(job.tile, page)
  {
    hide ToQword, Number;
    var t, e := job.tile, Decode(w, lists, io.bpp);
    NumberReads(t.startBlock);
    var i :| 0 <= i < |e.addrs| && Number(e.block) + io.bpp * i == io.bpp * page && page < |io.buf| && e.addrs[i] == io.buf[page];
    SamePlace(io.bpp, t.first, i, page);
  }

  /** So only the owner's record can carry the page. */
  lemma OnlyOwner(p: Program, spans: seq<Span>, io: Io, pages: nat, page: nat, j: nat, e: Effect)
    requires ProgramInv(p, io) && AllBuilt(p, io) && Plans(p.prods, spans, io, pages) && Does(p, j, io, e) && Carries(e, io, page)
    ensures Owns(p.prods, p.sys.comp.log[j].q, p.sys.comp.log[j].idx, page)
  {
    hide Inv, Carries, Decode, Plans, Fielded;
    var x := p.sys.comp.log[j];
    var t, b := p.prods[x.q], p.sys.subs[x.q];
    LogPlace(p, io, j);
    assert Built(t, b, io);
    assert Fielded(b.issued[x.idx], JobAt(t, x.idx), io, ListPage(t.prp, b.d.size, x.idx));
    JobPlace(p.prods, spans, io, pages, x.q, x.idx);
    CarriesOwn(b.issued[x.idx], x.lists, JobAt(t, x.idx), io, ListPage(t.prp, b.d.size, x.idx), page);
  }

  /** A record is of a command issued and fetched as it was built. */
  lemma LogPlace(p: Program, io: Io, j: nat)
    requires ProgramInv(p, io) && j < |p.sys.comp.log|
    ensures var x := p.sys.comp.log[j];
            && x.q < |p.prods| == |p.sys.subs| && x.idx < |p.sys.subs[x.q].fetched| <= |p.sys.subs[x.q].issued|
            && p.sys.subs[x.q].fetched[x.idx] == p.sys.subs[x.q].issued[x.idx]
  {
    var x := p.sys.comp.log[j];
    assert Reports(p.sys.subs, p.sys.comp.posted[j], x);
    assert Fits(p.sys.subs[x.q], p.sys.comp, x.q);
    assert p.sys.subs[x.q].fetched <= p.sys.subs[x.q].issued;
  }

  lemma JobPlace(prods: seq<Producer>, spans: seq<Span>, io: Io, pages: nat, q: nat, k: nat)
    requires Plans(prods, spans, io, pages) && q < |prods|
    ensures JobAt(prods[q], k).Rw? ==>
              var t := JobAt(prods[q], k).tile; k < |prods[q].work| && t.startBlock == io.bpp * t.first && t.first + t.pages <= pages
  {
    if k < |prods[q].work| {
      PlanPlace(prods[q], spans[q].lo, spans[q].n, io, k);
      SpanEnds(spans, pages, q);
    }
  }

  /** A page lost is a page no command moves. */
  lemma LostUnmoved(p: Program, spans: seq<Span>, io: Io, pages: nat, page: nat)
    requires ProgramInv(p, io) && AllBuilt(p, io) && Plans(p.prods, spans, io, pages) && Lost(p, io, page)
    ensures Unmoved(p, io, page)
  {
    hide Carries, Owns, Built, Plans;
    var i: nat :| Spoilt(p, io, page, i);
    assert Distinct(p.sys.comp.log);
    forall j: nat, e | Does(p, j, io, e) ensures !Carries(e, io, page) {
      if Carries(e, io, page) {
        OnlyOwner(p, spans, io, pages, page, j, e);
        var x, y := p.sys.comp.log[i], p.sys.comp.log[j];
        OwnerUnique(p.prods, spans, io, pages, page, x.q, x.idx, y.q, y.idx);
      }
    }
  }

  /** And it stays lost. */
  lemma LostLater(p: Program, p': Program, io: Io, page: nat)
    requires Later(p, p') && Lost(p, io, page)
    ensures Lost(p', io, page)
  {
    hide Carries;
    var j: nat :| Spoilt(p, io, page, j);
    var x := p.sys.comp.log[j];
    assert p'.sys.comp.log[j] == x && p'.prods[x.q].work == p.prods[x.q].work;
    var e :| Does(p, j, io, e) && !Carries(e, io, page);
    assert p.sys.subs[x.q].fetched <= p'.sys.subs[x.q].fetched;
    assert Does(p', j, io, e);
    assert Spoilt(p', io, page, j);
  }

  // ---------------------------------------------------------------- holding a command back

  /** Producer q still has command k to issue, and its command i is not completed. */
  ghost predicate Holding(p: Program, q: nat, i: nat, k: nat) {
    && q < |p.prods| == |p.sys.subs| && p.sys.subs[q].d.size >= 4 && i < k < |p.prods[q].work|
    && |p.sys.subs[q].issued| <= k + 1 && !Completed(p.sys.comp.log, q, i)
  }

  /** A step that brings producer q closer to command k without completing command i. */
  lemma HoldChoice(p: Program, io: Io, q: nat, i: nat, k: nat) returns (a: Act)
    requires ProgramInv(p, io) && Holding(p, q, i, k) && |p.sys.subs[q].issued| <= k
    ensures CanTake(p, a, io) && a != Controller(Post(q, i)) && (a == Consume ==> forall r :: !Fatal(p, io, r))
  {
    hide Inv, Built, BuildCommand, BuildList, Fatal;
    var c := p.sys.comp;
    if p.cons != Waiting || c.deq < |c.posted| {
      a := ConsumeOrEvade(p, io);
    } else {
      Idle(p, io);
      if r, x :| 0 <= r < |p.sys.subs| && x in p.sys.subs[r].open && (r != q || x != i) {
        EventAdvances(p, io, Post(r, x));
        a := Controller(Post(r, x));
      } else if |p.sys.subs[q].fetched| < p.sys.subs[q].sub {
        EventAdvances(p, io, Fetch(q));
        a := Controller(Fetch(q));
      } else {
        HeldProducer(p, io, q, i, k);
        a := Produce(q);
      }
    }
  }

  lemma Idle(p: Program, io: Io)
    requires ProgramInv(p, io) && p.cons == Waiting && p.sys.comp.deq >= |p.sys.comp.posted|
    ensures var c := p.sys.comp; c.deq == |c.posted| == c.ack && c.d.size >= 2
  {}

  /** With nothing but command i in the controller's hands, the producer can go on: two slots of its ring are free of it. */
  lemma HeldProducer(p: Program, io: Io, q: nat, i: nat, k: nat)
    requires ProgramInv(p, io) && Holding(p, q, i, k) && |p.sys.subs[q].issued| <= k
    requires p.cons == Waiting && p.sys.comp.deq == |p.sys.comp.posted|
    requires p.sys.subs[q].open.Keys <= {i} && |p.sys.subs[q].fetched| >= p.sys.subs[q].sub
    ensures CanTake(p, Produce(q), io)
  {
    hide BuildCommand, BuildList, CompInv, Logged, Distinct, Pending, Numbered;
    var t, b, c := p.prods[q], p.sys.subs[q], p.sys.comp;
    assert ProducerInv(t, b, c, p.cons, q, io);
    assert Fits(b, c, q);
    assert c.posted[..c.deq] == c.posted;
    OneKey(b.open, i);
    FullIs(p, io, q);
    if Full(b.d) { SubmitAdvances(p, q, io); } else { IssueAdvances(p, q, io); }
  }

  lemma OneKey(open: map<nat, Lists>, i: nat)
    requires open.Keys <= {i}
    ensures |open| <= 1
  {
    assert open.Keys == {} || open.Keys == {i};
    assert |open.Keys| == |open|;
  }

  /** One step issues at most one command of a queue, and only its post completes a command. */
  lemma HoldingStep(p: Program, a: Act, io: Io, p': Program, q: nat, i: nat, k: nat)
    requires ProgramInv(p, io) && Step(p, a, io, p') && Holding(p, q, i, k) && |p.sys.subs[q].issued| <= k
    requires a != Controller(Post(q, i))
    ensures Holding(p', q, i, k)
  {
    hide BuildCommand, BuildList, Inv, Completed;
    SameQueues(p, a, io, p');
    match a
    case Produce(r) =>
      ProducerMoves(p, r, io, p');
      ProducerEffect(p, r, io, p');
      PlanStays(p, r, io, p', q);
    case Consume => ConsumerShape(p, p'); ConsumerMemory(p, p', q);
    case Controller(e) =>
      ControllerEffect(p.sys, e, p'.sys, q);
      if e.Post? { CompletedStep(p.sys.comp.log, Exec(e.q, e.i, p.sys.subs[e.q].open[e.i]), q, i); }
  }

  lemma PlanStays(p: Program, r: nat, io: Io, p': Program, q: nat)
    requires ProgramInv(p, io) && r < |p.prods| && ProducerStep(p, r, io, p') && q < |p.prods|
    ensures |p'.prods| == |p.prods| && |p'.sys.subs| == |p.sys.subs| && p'.sys.comp == p.sys.comp
    ensures p'.prods[q].work == p.prods[q].work && p'.sys.subs[q].d.size == p.sys.subs[q].d.size
    ensures |p'.sys.subs[q].issued| <= |p.sys.subs[q].issued| + 1
  {
    hide BuildCommand, BuildList, Inv;
    ProducerEffect(p, r, io, p');
    ProducerMoves(p, r, io, p');
  }

  /** Producer q gets to issue command k while the controller holds command i. */
  lemma {:induction false} HoldUntil(p0: Program, p: Program, io: Io, q: nat, i: nat, k: nat) returns (p': Program)
    requires Reach(p0, p, io) && Hopeful(p, io) && Holding(p, q, i, k)
    requires |p.prods| == |p.sys.subs| && Measure(p) <= Bound(p0.prods, io)
    ensures Reach(p0, p', io) && Hopeful(p', io) && Holding(p', q, i, k) && |p'.sys.subs[q].issued| == k + 1
    decreases Bound(p0.prods, io) - Measure(p)
  {
    hide Reach, ProgramInv, Hopeful, Measure, Fatal, Later, Completed, Step;
    Reached(p0, p, io);
    if |p.sys.subs[q].issued| == k + 1 { p' := p; } else {
      var a := HoldChoice(p, io, q, i, k);
      var p1 := StepOn(p0, p, a, io);
      HoldingStep(p, a, io, p1, q, i, k);
      Reached(p0, p1, io);
      p' := HoldUntil(p0, p1, io, q, i, k);
    }
  }

  // ---------------------------------------------------------------- rereading and completing it

  /** Having issued k with i a ring or more behind, the ring has let i be fetched. */
  lemma HeldOpen(p: Program, io: Io, q: nat, i: nat, k: nat)
    requires ProgramInv(p, io) && Holding(p, q, i, k) && |p.sys.subs[q].issued| == k + 1
    requires Slot(i, p.sys.subs[q].d.size) == Slot(k, p.sys.subs[q].d.size)
    ensures i in p.sys.subs[q].open
  {
    hide Pending, Numbered, Logged, Distinct;
    var b := p.sys.subs[q];
    assert Fits(b, p.sys.comp, q);
    if k < i + b.d.size { SlotDistance(i, k, b.d.size); }
  }

  /** The controller reads the lists of command i again. */
  lemma RereadStep(p0: Program, p: Program, io: Io, q: nat, i: nat) returns (p': Program)
    requires Reach(p0, p, io) && Hopeful(p, io) && q < |p.sys.subs| && i in p.sys.subs[q].open
    ensures Reach(p0, p', io) && Hopeful(p', io) && Later(p, p')
    ensures q < |p'.sys.subs| && i in p'.sys.subs[q].open && p'.sys.subs[q].open[i] == p.sys.subs[q].lists
  {
    hide Start, Hopeful, Later;
    Reached(p0, p, io);
    GuardsByCounters(p.sys, Reread(q, i));
    p' := p.(sys := Apply(p.sys, Reread(q, i)));
    ReachStep(p0, p, Controller(Reread(q, i)), io, p');
    HopefulStep(p, Controller(Reread(q, i)), io, p');
    StepLater(p, Controller(Reread(q, i)), io, p');
  }

  /** Record j is of command i of queue q, executed with these lists. */
  ghost predicate RecordOf(p: Program, q: nat, i: nat, lists: Lists) {
    exists j :: 0 <= j < |p.sys.comp.log| && p.sys.comp.log[j] == Exec(q, i, lists)
  }

  lemma OpenStays(p: Program, a: Act, io: Io, p': Program, q: nat)
    requires ProgramInv(p, io) && Step(p, a, io, p') && !a.Controller? && q < |p.sys.subs|
    ensures q < |p'.sys.subs| && p'.sys.subs[q].open == p.sys.subs[q].open
  {
    hide BuildCommand, BuildList, Inv;
    match a
    case Produce(r) => ProducerEffect(p, r, io, p');
    case Consume => ConsumerMemory(p, p', q);
  }

  /** Sooner or later there is room to post the completion of an open command. */
  lemma {:induction false} PostIt(p0: Program, p: Program, io: Io, q: nat, i: nat, lists: Lists) returns (p': Program)
    requires Reach(p0, p, io) && Hopeful(p, io) && q < |p.sys.subs| && i in p.sys.subs[q].open && p.sys.subs[q].open[i] == lists
    requires |p.prods| == |p.sys.subs| && Measure(p) <= Bound(p0.prods, io)
    ensures Reach(p0, p', io) && Hopeful(p', io) && RecordOf(p', q, i, lists)
    decreases Bound(p0.prods, io) - Measure(p)
  {
    hide Reach, ProgramInv, Hopeful, Measure, Fatal, Later, Step;
    Reached(p0, p, io);
    if p.cons != Waiting || p.sys.comp.deq < |p.sys.comp.posted| {
      var a := ConsumeOrEvade(p, io);
      var p1 := StepOn(p0, p, a, io);
      OpenStays(p, a, io, p1, q);
      Reached(p0, p1, io);
      p' := PostIt(p0, p1, io, q, i, lists);
    } else {
      Idle(p, io);
      EventAdvances(p, io, Post(q, i));
      p' := StepOn(p0, p, Controller(Post(q, i)), io);
      Recorded(p, io, q, i, p');
    }
  }

  lemma Recorded(p: Program, io: Io, q: nat, i: nat, p': Program)
    requires Step(p, Controller(Post(q, i)), io, p')
    ensures q < |p.sys.subs| && i in p.sys.subs[q].open && RecordOf(p', q, i, p.sys.subs[q].open[i])
  {
    assert p'.sys.comp.log[|p.sys.comp.log|] == Exec(q, i, p.sys.subs[q].open[i]);
  }

  // ---------------------------------------------------------------- the page is lost

  /** A command whose list page holds another entry m does not carry its page m. */
  lemma WrongEntry(w: Words, lists: Lists, job: Job, io: Io, addr: Address, m: nat)
    requires IoOk(io) && Fielded(w, job, io, addr) && NeedsList(job) && 1 <= m < job.tile.pages
    requires job.tile.startBlock == io.bpp * job.tile.first
    requires addr in lists && m - 1 < |lists[addr]| && lists[addr][m - 1] != Addresses(job, io)[m]
    ensures !Carries(Decode(w, lists, io.bpp), io, job.tile.first + m)
  {
    hide ToQword, Number;
    var t, e, page := job.tile, Decode(w, lists, io.bpp), job.tile.first + m;
    NumberReads(t.startBlock);
    if e.Moved? {
      assert e.addrs[m] == lists[addr][m - 1];
      forall i | 0 <= i < |e.addrs| ensures Number(e.block) + io.bpp * i == io.bpp * page <==> i == m {
        SamePlace(io.bpp, t.first, i, page);
      }
    }
  }

  lemma RecordSpoils(p: Program, spans: seq<Span>, io: Io, pages: nat, q: nat, i: nat, lists: Lists, m: nat)
    requires ProgramInv(p, io) && AllBuilt(p, io) && Plans(p.prods, spans, io, pages) && RecordOf(p, q, i, lists)
    requires q < |p.prods| == |p.sys.subs| && i < |p.prods[q].work| && JobFits(p.prods[q].work[i], io)
    requires var t, job := p.prods[q], p.prods[q].work[i];
             && |t.prp| == p.sys.subs[q].d.size + 1 && p.sys.subs[q].d.size > 0
             && var addr := ListPage(t.prp, p.sys.subs[q].d.size, i);
             && NeedsList(job) && 1 <= m < job.tile.pages
             && addr in lists && m - 1 < |lists[addr]| && lists[addr][m - 1] != Addresses(job, io)[m]
    ensures p.prods[q].work[i].tile.first + m < pages && Lost(p, io, p.prods[q].work[i].tile.first + m)
  {
    hide Inv, Carries, Decode, Plans, Fielded;
    var j: nat :| j < |p.sys.comp.log| && p.sys.comp.log[j] == Exec(q, i, lists);
    var t, b, job := p.prods[q], p.sys.subs[q], p.prods[q].work[i];
    var addr, page := ListPage(t.prp, b.d.size, i), job.tile.first + m;
    LogPlace(p, io, j);
    assert Built(t, b, io);
    assert Fielded(b.issued[i], JobAt(t, i), io, addr);
    JobPlace(p.prods, spans, io, pages, q, i);
    WrongEntry(b.issued[i], lists, job, io, addr, m);
    assert Does(p, j, io, Decode(b.issued[i], lists, io.bpp));
    assert Spoilt(p, io, page, j);
  }

  lemma ClashEntry(work: seq<Job>, n: nat, io: Io, i: nat, k: nat) returns (m: nat)
    requires Clash(work, n, io, i, k)
    ensures NeedsList(work[i]) && NeedsList(work[k]) && 1 <= m < work[i].tile.pages && m < work[k].tile.pages
    ensures Addresses(work[i], io)[m] != Addresses(work[k], io)[m]
  {
    m :| 1 <= m < work[i].tile.pages && m < work[k].tile.pages && Addresses(work[i], io)[m] != Addresses(work[k], io)[m];
  }

  lemma StartHolds(p: Program, io: Io, q: nat, i: nat, k: nat)
    requires Start(p, io) && q < |p.prods| && q < |p.sys.subs| && Clash(p.prods[q].work, p.sys.subs[q].d.size, io, i, k)
    ensures Holding(p, q, i, k)
  {
    assert StartProducer(p.prods[q], p.sys.subs[q], io);
    assert FreshSub(p.sys.subs[q]);
  }

  /** Right after command k is issued, the list page of command i holds k's entries. */
  lemma NewestList(p: Program, io: Io, q: nat, i: nat, k: nat, m: nat)
    requires ProgramInv(p, io) && AllBuilt(p, io) && Holding(p, q, i, k) && |p.sys.subs[q].issued| == k + 1
    requires Clash(p.prods[q].work, p.sys.subs[q].d.size, io, i, k)
    requires var work := p.prods[q].work;
             && NeedsList(work[k]) && 1 <= m < work[i].tile.pages && m < work[k].tile.pages && work[i].Rw?
             && Addresses(work[i], io)[m] != Addresses(work[k], io)[m]
    ensures var t, b := p.prods[q], p.sys.subs[q];
            && |t.prp| == b.d.size + 1 && b.d.size > 0
            && var addr := ListPage(t.prp, b.d.size, i);
               addr in b.lists && m - 1 < |b.lists[addr]| && b.lists[addr][m - 1] != Addresses(t.work[i], io)[m]
  {
    hide Inv, Fielded, Agree;
    var t, b := p.prods[q], p.sys.subs[q];
    assert ProducerInv(t, b, p.sys.comp, p.cons, q, io);
    assert Built(t, b, io);
    SamePage(t.prp, b, io, i, k);
  }

  /** From the start of a transfer that clashes, a run of a conforming controller that loses a page. */
  lemma LosingRun(p0: Program, spans: seq<Span>, io: Io, pages: nat, q: nat, i: nat, k: nat) returns (p: Program, page: nat)
    requires Start(p0, io) && Plans(p0.prods, spans, io, pages) && q < |p0.prods| && q < |p0.sys.subs|
    requires Clash(p0.prods[q].work, p0.sys.subs[q].d.size, io, i, k)
    ensures Reach(p0, p, io) && Hopeful(p, io) && page < pages && Lost(p, io, page)
  {
    hide Start, Reach, Hopeful, Plans, ProgramInv, Measure, Lost, AllBuilt, Holding, Agree, JobFits, RecordOf;
    StartHolds(p0, io, q, i, k);
    ReachStart(p0, io);
    StartHopeful(p0, io);
    Reached(p0, p0, io);
    var p1 := HoldUntil(p0, p0, io, q, i, k);
    Reached(p0, p1, io);
    ReachedBuilt(p0, p1, io);
    HeldOpen(p1, io, q, i, k);
    var m := ClashEntry(p0.prods[q].work, p0.sys.subs[q].d.size, io, i, k);
    assert p1.prods[q].work == p0.prods[q].work;
    NewestList(p1, io, q, i, k, m);
    var p2 := RereadStep(p0, p1, io, q, i);
    Reached(p0, p2, io);
    p := PostIt(p0, p2, io, q, i, p1.sys.subs[q].lists);
    Reached(p0, p, io);
    ReachedBuilt(p0, p, io);
    assert p.prods[q].work == p0.prods[q].work && p.prods[q].prp == p0.prods[q].prp;
    PlansLater(p0, p, spans, io, pages);
    RecordSpoils(p, spans, io, pages, q, i, p1.sys.subs[q].lists, m);
    page := p.prods[q].work[i].tile.first + m;
  }

  lemma PlansLater(p: Program, p': Program, spans: seq<Span>, io: Io, pages: nat)
    requires Later(p, p') && Plans(p.prods, spans, io, pages)
    ensures Plans(p'.prods, spans, io, pages)
  {
    hide Plan;
    forall q | 0 <= q < |p'.prods| ensures Plan(p'.prods[q].work, spans[q].lo, spans[q].n, io) {
      assert p'.prods[q].work == p.prods[q].work;
    }
  }

  // ---------------------------------------------------------------- exactly when

  /** With no clash, every executed command carries the pages it owns. */
  lemma PeacefulKeeps(p0: Program, p: Program, spans: seq<Span>, io: Io, pages: nat, page: nat)
    requires Reach(p0, p, io) && Peaceful(p0, io) && Plans(p0.prods, spans, io, pages)
    ensures !Lost(p, io, page)
  {
    hide Start, Step, Peaceful, Plans, Carries, Undisturbed, AllSound, ProgramInv, Owns;
    var ps: seq<Program>, acts: seq<Act> :| Behaviour(ps, acts, io) && ps[0] == p0 && ps[|acts|] == p;
    PeacefulUndisturbed(ps, acts, io);
    BehaviourSound(ps, acts, io, |acts|);
    PlansKept(ps, acts, io, spans, pages, |acts|);
    forall j: nat, e | Does(p, j, io, e) ensures Carries(e, io, page) <==> Owns(p.prods, p.sys.comp.log[j].q, p.sys.comp.log[j].idx, page) {
      CarrierOwns(p, spans, io, pages, page, j, e);
    }
  }

  /**
   * Exactly which transfers can lose a page: some run of a started transfer completes a command
   * without moving a page it owns, so that no command ever moves it, if and only if two jobs of a
   * producer, a multiple of its ring size of 4 or more apart, both need a PRP list and disagree
   * about an entry.
   */
  lemma LosesExactly(p0: Program, spans: seq<Span>, io: Io, pages: nat)
    requires Start(p0, io) && Plans(p0.prods, spans, io, pages)
    ensures (exists p, page: nat :: page < pages && Reach(p0, p, io) && Lost(p, io, page)) <==> !Peaceful(p0, io)
  {
    hide Start, Reach, Plans, Lost, Clash;
    if !Peaceful(p0, io) {
      var q, i, k :| 0 <= q < |p0.prods| && q < |p0.sys.subs| && Clash(p0.prods[q].work, p0.sys.subs[q].d.size, io, i, k);
      var p, page := LosingRun(p0, spans, io, pages, q, i, k);
    }
    forall p, page: nat | Reach(p0, p, io) && Lost(p, io, page) ensures !Peaceful(p0, io) {
      if Peaceful(p0, io) { PeacefulKeeps(p0, p, spans, io, pages, page); }
    }
  }

  /** Of a transfer that has returned: no command moved the page. */
  ghost predicate ReturnedWithout(p: Program, io: Io, page: nat) { Returned(p) && Unmoved(p, io, page) }

  /**
   * And which can return without having moved a page: those that can return at all and clash. For
   * every other transfer and every conforming controller each page has moved exactly once.
   */
  lemma ReturnsWithLossExactly(p0: Program, spans: seq<Span>, io: Io, pages: nat)
    requires Start(p0, io) && Plans(p0.prods, spans, io, pages)
    ensures (exists p, page: nat :: page < pages && Reach(p0, p, io) && ReturnedWithout(p, io, page))
            <==> MayReturn(p0, io) && !Peaceful(p0, io)
  {
    hide Start, Reach, Plans, Lost, Clash, MayReturn, Unmoved, Returned;
    if MayReturn(p0, io) && !Peaceful(p0, io) {
      var q, i, k :| 0 <= q < |p0.prods| && q < |p0.sys.subs| && Clash(p0.prods[q].work, p0.sys.subs[q].d.size, io, i, k);
      var p1, page := LosingRun(p0, spans, io, pages, q, i, k);
      var p := ReturnAfter(p0, p1, spans, io, pages, page);
    }
    ReturnsExactly(p0, io);
    forall p, page: nat | page < pages && Reach(p0, p, io) && ReturnedWithout(p, io, page) ensures !Peaceful(p0, io) {
      if Peaceful(p0, io) { PeacefulMoves(p0, p, spans, io, pages, page); }
    }
  }

  lemma ReturnAfter(p0: Program, p1: Program, spans: seq<Span>, io: Io, pages: nat, page: nat) returns (p: Program)
    requires Reach(p0, p1, io) && Hopeful(p1, io) && Lost(p1, io, page) && MayReturn(p0, io) && Plans(p0.prods, spans, io, pages)
    ensures Reach(p0, p, io) && ReturnedWithout(p, io, page)
  {
    hide Reach, Hopeful, Lost, MayReturn, Plans, ProgramInv, AllBuilt, Returned, Unmoved, Start, Measure, Later;
    Reached(p0, p1, io);
    LaterReturn(p0, p1, io);
    p := RunOn(p0, p1, io);
    Reached(p0, p, io);
    ReachedBuilt(p0, p, io);
    PlansLater(p0, p, spans, io, pages);
    LostLater(p1, p, io, page);
    LostUnmoved(p, spans, io, pages, page);
  }

  lemma PeacefulMoves(p0: Program, p: Program, spans: seq<Span>, io: Io, pages: nat, page: nat)
    requires Reach(p0, p, io) && Peaceful(p0, io) && Plans(p0.prods, spans, io, pages) && page < pages && Returned(p)
    ensures !Unmoved(p, io, page)
  {
    hide Start, Step, Peaceful, Plans, Carries, Returned, Does;
    var ps: seq<Program>, acts: seq<Act> :| Behaviour(ps, acts, io) && ps[0] == p0 && ps[|acts|] == p;
    var j := EveryPageOnce(ps, acts, io, spans, pages, page);
  }

  // ---------------------------------------------------------------- clashes, in a caller's terms

  /** Two jobs a multiple of n apart that both need a list. */
  ghost predicate Meet(work: seq<Job>, n: nat, i: nat, k: nat) {
    4 <= n && i < k < |work| && Slot(i, n) == Slot(k, n) && NeedsList(work[i]) && NeedsList(work[k])
  }

  /** When the buffer's pages have different addresses, jobs of one plan clash exactly when they meet. */
  lemma ClashIsMeeting(t: Producer, lo: nat, n: nat, io: Io, size: nat, i: nat, k: nat)
    requires Plan(t.work, lo, n, io) && (forall job <- t.work :: JobFits(job, io))
    requires forall x, y | 0 <= x < y < |io.buf| :: io.buf[x] != io.buf[y]
    ensures Clash(t.work, size, io, i, k) <==> Meet(t.work, size, i, k)
  {
    hide PagesFor, Slot, Plan;
    if Meet(t.work, size, i, k) {
      PlanPlace(t, lo, n, io, i);
      assert JobFits(t.work[i], io) && JobFits(t.work[k], io);
      var a, b := t.work[i].tile, t.work[k].tile;
      assert !(Holds(a, a.first + 1) && Holds(b, a.first + 1));
      assert Addresses(t.work[i], io)[1] == io.buf[a.first + 1] && Addresses(t.work[k], io)[1] == io.buf[b.first + 1];
      assert !Agree(t.work[i], t.work[k], io);
    }
  }

  /** In particular a transfer whose producers have no more jobs than their rings have entries does not clash. */
  lemma FewJobsArePeaceful(p: Program, io: Io)
    requires forall q | 0 <= q < |p.prods| && q < |p.sys.subs| :: |p.prods[q].work| <= p.sys.subs[q].d.size
    ensures Peaceful(p, io)
  {
    forall q, i: nat, k: nat | 0 <= q < |p.prods| && q < |p.sys.subs| ensures !Clash(p.prods[q].work, p.sys.subs[q].d.size, io, i, k) {
      var n := p.sys.subs[q].d.size;
      if n >= 4 && i < k < |p.prods[q].work| { SlotDistance(i, k, n); }
    }
  }

  /** Five reads of three pages each, a page to a block, from page 0 on. */
  function FiveReads(): (ts: seq<Tile>)
    ensures Tiles(ts, 0, 1, 513) && End(ts, 0) == 15 && |ts| == 5
    ensures forall k | 0 <= k < 5 :: ts[k] == Tile(3 * k, 3, 3 * k, 3)
  {
    var ts := [Tile(0, 3, 0, 3), Tile(3, 3, 3, 3), Tile(6, 3, 6, 3), Tile(9, 3, 9, 3), Tile(12, 3, 12, 3)];
    assert forall k | 1 <= k < 5 :: ts[..k][k - 1] == ts[k - 1];
    ts
  }

  /** Fifteen buffer pages, 512 entries to a list page, a block to a page. */
  function FiveIo(): Io { Io(false, Dword(0, 1), 4096, 1, PageAddresses(15)) }

  lemma FiveFit(k: nat)
    requires k < 5
    ensures JobsOf(FiveReads())[k].Rw? && JobFits(JobsOf(FiveReads())[k], FiveIo())
  {
    assert JobsOf(FiveReads())[k] == Rw(Tile(3 * k, 3, 3 * k, 3));
    WholePages(3, 1);
  }

  /** The first and the last get one list page and have different pages to put in it. */
  lemma FiveClash()
    ensures Clash(JobsOf(FiveReads()), 4, FiveIo(), 0, 4)
  {
    hide JobFits;
    var work, io := JobsOf(FiveReads()), FiveIo();
    FiveFit(0);
    FiveFit(4);
    assert work[0] == Rw(Tile(0, 3, 0, 3)) && work[4] == Rw(Tile(12, 3, 12, 3));
    assert Addresses(work[0], io)[1] == io.buf[1] && Addresses(work[4], io)[1] == io.buf[13];
  }

  /** Fifteen pages read by one producer, three to a command, on a ring of four: it may return with a page never moved. */
  lemma FiveReadsLose() returns (p0: Program, p: Program, page: nat)
    ensures Start(p0, FiveIo()) && Plans(p0.prods, [Span(0, 15)], FiveIo(), 15) && page < 15
    ensures Reach(p0, p, FiveIo()) && ReturnedWithout(p, FiveIo(), page)
  {
    hide JobFits, Start, ReturnedWithout, Reach, Clash, Tiles, JobsOf, FiveReads;
    var work, io := JobsOf(FiveReads()), FiveIo();
    forall k | 0 <= k < 5 ensures work[k].Rw? && JobFits(work[k], io) { FiveFit(k); }
    DividesWordIs(4);
    p0 := StartExists([work], [4], 4, io);
    assert Plan(work, 0, 15, io);
    FiveClash();
    assert Clash(p0.prods[0].work, p0.sys.subs[0].d.size, io, 0, 4);
    ReturnsWithLossExactly(p0, [Span(0, 15)], io, 15);
    p, page :| page < 15 && Reach(p0, p, io) && ReturnedWithout(p, io, page);
  }
}
