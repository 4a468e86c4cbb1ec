/**
 * What a transfer moves: while no command in flight has its list written over, every command
 * executes as meant, and when transfer() returns every page has moved exactly once.
 */
module Delivery {
  import opened Modular
  import opened Ring
  import opened Command
  import opened Protocol
  import opened Safety
  import opened Jobs
  import opened Tiling
  import opened Planning
  import opened Transfer
  import opened Flushing
  import opened Termination
  import Reordering

  // ---------------------------------------------------------------- commands in flight

  /** The controller never holds a command while the driver is a whole ring past it. */
  ghost predicate InWindow(b: Sub) {
    forall k <- b.open.Keys :: |b.issued| <= k + b.d.size
  }

  /** Command w does what the job says, and if it points to a list page, to its own. */
  ghost predicate Means(w: Words, lists: Lists, job: Job, io: Io, addr: Address) {
    && IoOk(io) && JobFits(job, io)
    && Decode(w, lists, io.bpp) == Intended(job, io)
    && (PagesFor(Nlb(w), io.bpp) > 2 && job.Rw? ==> Prp2(w) == addr)
  }

  ghost predicate InFlight(b: Sub, k: nat) { k < |b.issued| && (|b.fetched| <= k || k in b.open) }

  /** Command k, while in flight, means its job with the lists now in memory and as last read. */
  ghost predicate Ready(t: Producer, b: Sub, io: Io, k: nat)
    requires |t.prp| == b.d.size + 1 && b.d.size > 0
  {
    var addr := ListPage(t.prp, b.d.size, k);
    && (InFlight(b, k) ==> Means(b.issued[k], b.lists, JobAt(t, k), io, addr))
    && (k in b.open ==> k < |b.issued| && Means(b.issued[k], b.open[k], JobAt(t, k), io, addr))
  }

  ghost predicate Sound(t: Producer, b: Sub, io: Io) {
    && |t.prp| == b.d.size + 1 && b.d.size > 0
    && (forall k: nat {:trigger Ready(t, b, io, k)} :: Ready(t, b, io, k))
  }

  /** Log record x executed the command its producer meant. */
  ghost predicate Executed(prods: seq<Producer>, subs: seq<Sub>, x: Exec, io: Io) {
    && x.q < |prods| == |subs| && x.idx < |subs[x.q].issued| && IoOk(io)
    && JobFits(JobAt(prods[x.q], x.idx), io)
    && Decode(subs[x.q].issued[x.idx], x.lists, io.bpp) == Intended(JobAt(prods[x.q], x.idx), io)
  }

  ghost predicate AllSound(p: Program, io: Io) {
    && |p.prods| == |p.sys.subs|
    && (forall q {:trigger p.prods[q]} | 0 <= q < |p.prods| :: Sound(p.prods[q], p.sys.subs[q], io))
    && (forall j {:trigger p.sys.comp.log[j]} | 0 <= j < |p.sys.comp.log| ::
          Executed(p.prods, p.sys.subs, p.sys.comp.log[j], io))
  }

  // ---------------------------------------------------------------- preservation

  lemma MeansFrame(w: Words, lists: Lists, job: Job, io: Io, addr: Address, other: Address, page: seq<Address>)
    requires Means(w, lists, job, io, addr) && other != addr
    ensures Means(w, lists[other := page], job, io, addr)
  {
    if job.Rw? && (other != Prp2(w) || PagesFor(Nlb(w), io.bpp) <= 2) { DecodeFrame(w, lists, io.bpp, other, page); }
  }

  lemma MeansKept(w: Words, lists: Lists, job: Job, io: Io, addr: Address, later: Job)
    requires Means(w, lists, job, io, addr) && JobFits(later, io) && Agree(job, later, io)
    requires addr in lists && |lists[addr]| >= io.pageSize / 8
    ensures Means(w, lists[addr := BuildList(lists[addr], later, io)], job, io, addr)
  {
    AgreeDecodes(w, lists, job, later, io, addr);
  }

  /** A newest command, not yet fetched, that shares its list page with one in flight leaves that one's entries alone. */
  ghost predicate Harmless(t: Producer, b: Sub, io: Io) {
    |t.prp| == b.d.size + 1 && b.d.size > 0 && |b.fetched| < |b.issued| ==>
      var k := |b.issued| - 1;
      forall i: nat {:trigger InFlight(b, i)} | i < k && InFlight(b, i) && ListPage(t.prp, b.d.size, i) == ListPage(t.prp, b.d.size, k) ::
        JobFits(JobAt(t, i), io) && JobFits(JobAt(t, k), io) ==> Agree(JobAt(t, i), JobAt(t, k), io)
  }

  lemma BuildMeans(w: Words, job: Job, io: Io, addr: Address, page: seq<Address>, lists: Lists)
    requires IoOk(io) && JobFits(job, io) && |page| >= io.pageSize / 8
    requires addr in lists && lists[addr] == BuildList(page, job, io)
    ensures Means(BuildCommand(w, job, io, addr), lists, job, io, addr)
  {
    BuildDecodes(w, job, io, addr, page, lists);
    if job.Rw? {
      BuildRwReads(w, job.tile, io, addr);
    }
  }

  /** Commands less than a ring apart have different list pages. */
  lemma OwnPages(prp: seq<Address>, b: Sub, io: Io, i: nat, k: nat)
    requires PrpMemory(prp, b, io) && b.d.size > 0 && i < k < i + b.d.size
    ensures ListPage(prp, b.d.size, i) != ListPage(prp, b.d.size, k)
  {
    SlotDistance(i + 1, k + 1, b.d.size);
  }

  lemma IssueSound(t: Producer, t': Producer, b: Sub, b': Sub, c: Comp, q: nat, io: Io, job: Job, w: Words)
    requires Sound(t, b, io) && PrpMemory(t.prp, b, io) && Fits(b, c, q) && |b.issued| < b.upd + b.d.size - 1
    requires Grows(b, b', job, ListPage(t.prp, b.d.size, |b.issued|), io, w)
    requires t'.work == t.work && t'.prp == t.prp && job == JobAt(t, |b.issued|) && Harmless(t', b', io)
    ensures Sound(t', b', io)
  {
    hide Means, BuildCommand, BuildList, Agree;
    var addr := ListPage(t.prp, b.d.size, |b.issued|);
    BuildMeans(w, job, io, addr, b.lists[addr], b'.lists);
    forall i: nat ensures Ready(t', b', io, i) {
      assert Ready(t, b, io, i);
      if i < |b.issued| && InFlight(b', i) {
        EarlierKept(t, b, b', io, job, i, addr);
      }
    }
  }

  /** An earlier command in flight means what it did after the list page of the newest was written. */
  lemma EarlierKept(t: Producer, b: Sub, b': Sub, io: Io, job: Job, i: nat, addr: Address)
    requires |t.prp| == b.d.size + 1 && b.d.size > 0 && i < |b.issued| && addr in b.lists && |b.lists[addr]| >= io.pageSize / 8
    requires JobFits(job, io) && Means(b.issued[i], b.lists, JobAt(t, i), io, ListPage(t.prp, b.d.size, i))
    requires addr == ListPage(t.prp, b.d.size, i) && JobFits(JobAt(t, i), io) ==> Agree(JobAt(t, i), job, io)
    ensures Means(b.issued[i], b.lists[addr := BuildList(b.lists[addr], job, io)], JobAt(t, i), io, ListPage(t.prp, b.d.size, i))
  {
    hide BuildList, Agree, Decode, Intended;
    var mine := ListPage(t.prp, b.d.size, i);
    if addr == mine {
      MeansKept(b.issued[i], b.lists, JobAt(t, i), io, addr, job);
    } else {
      MeansFrame(b.issued[i], b.lists, JobAt(t, i), io, mine, addr, BuildList(b.lists[addr], job, io));
    }
  }

  /** Controller steps on queue r: fetching and rereading take the lists as they are. */
  lemma ControllerSound(t: Producer, b: Sub, b': Sub, io: Io, i: nat)
    requires Sound(t, b, io) && SubInv(b) && (forall k <- b.open.Keys :: k < |b.fetched|)
    requires || (b.devHead != b.db && b' == SubFetch(b))
             || (i in b.open && b' == b.(open := b.open[i := b.lists]))
             || b' == SubPost(b, i)
    ensures Sound(t, b', io)
  {
    hide Means;
    FetchGuard(b);
    forall k: nat ensures Ready(t, b', io, k) {
      assert Ready(t, b, io, k);
      assert InFlight(b', k) ==> InFlight(b, k);
      assert k in b'.open ==> InFlight(b, k) && (b'.open[k] == b.lists || (k in b.open && b'.open[k] == b.open[k]));
    }
  }

  /** Producers keep their plans and queues only grow. */
  ghost predicate Grown(p: Program, p': Program) {
    && |p'.prods| == |p.prods| == |p.sys.subs| == |p'.sys.subs|
    && (forall q {:trigger p.prods[q]} | 0 <= q < |p.prods| ::
          p'.prods[q].work == p.prods[q].work && p'.prods[q].prp == p.prods[q].prp
          && p.sys.subs[q].issued <= p'.sys.subs[q].issued)
  }

  lemma LogKeeps(p: Program, p': Program, io: Io)
    requires AllSound(p, io) && Grown(p, p') && p'.sys.comp.log == p.sys.comp.log
    ensures forall j {:trigger p'.sys.comp.log[j]} | 0 <= j < |p'.sys.comp.log| ::
              Executed(p'.prods, p'.sys.subs, p'.sys.comp.log[j], io)
  {
    forall j | 0 <= j < |p'.sys.comp.log| ensures Executed(p'.prods, p'.sys.subs, p'.sys.comp.log[j], io) {
      var x := p.sys.comp.log[j];
      assert Executed(p.prods, p.sys.subs, x, io);
      assert p.prods[x.q].work == p'.prods[x.q].work && p.sys.subs[x.q].issued <= p'.sys.subs[x.q].issued;
    }
  }

  /** A step that changes queue q (if any) soundly and completes nothing keeps everything sound. */
  lemma QuietSound(p: Program, io: Io, p': Program)
    requires AllSound(p, io) && Grown(p, p') && p'.sys.comp.log == p.sys.comp.log
    requires forall r | 0 <= r < |p.prods| :: SameMemory(p.sys.subs[r], p'.sys.subs[r]) || Sound(p'.prods[r], p'.sys.subs[r], io)
    ensures AllSound(p', io)
  {
    hide Ready;
    LogKeeps(p, p', io);
    forall r | 0 <= r < |p'.prods| ensures Sound(p'.prods[r], p'.sys.subs[r], io) {
      assert Sound(p.prods[r], p.sys.subs[r], io);
      if SameMemory(p.sys.subs[r], p'.sys.subs[r]) { SameSound(p.prods[r], p'.prods[r], p.sys.subs[r], p'.sys.subs[r], io); }
    }
  }

  ghost predicate SameMemory(b: Sub, b': Sub) {
    b'.issued == b.issued && b'.fetched == b.fetched && b'.open == b.open && b'.lists == b.lists && b'.d.size == b.d.size
  }

  lemma SameSound(t: Producer, t': Producer, b: Sub, b': Sub, io: Io)
    requires Sound(t, b, io) && SameMemory(b, b') && t'.work == t.work && t'.prp == t.prp
    ensures Sound(t', b', io)
  {
    forall k: nat ensures Ready(t', b', io, k) { assert Ready(t, b, io, k); }
  }

  lemma IssuedSound(p: Program, q: nat, io: Io, p': Program, job: Job)
    requires ProgramInv(p, io) && AllSound(p, io) && q < |p.prods| && Issues(p.sys, q, job, p.prods[q].prp, io, p'.sys)
    requires job == JobAt(p.prods[q], |p.sys.subs[q].issued|) && |p'.prods| == |p.prods|
    requires p'.prods[q].work == p.prods[q].work && p'.prods[q].prp == p.prods[q].prp
    requires q < |p'.sys.subs| && Harmless(p'.prods[q], p'.sys.subs[q], io)
    ensures p'.sys == p.sys.(subs := p.sys.subs[q := p'.sys.subs[q]])
    ensures Sound(p'.prods[q], p'.sys.subs[q], io) && p.sys.subs[q].issued <= p'.sys.subs[q].issued
  {
    hide Means, BuildCommand, BuildList;
    var t, b := p.prods[q], p.sys.subs[q];
    assert ProducerInv(t, b, p.sys.comp, p.cons, q, io);
    assert Fits(b, p.sys.comp, q);
    assert Sound(t, b, io);
    GuardsByCounters(p.sys, Enqueue(q));
    var w := IssueEffect(p.sys, q, job, t.prp, io, p'.sys);
    IssueSound(t, p'.prods[q], b, p'.sys.subs[q], p.sys.comp, q, io, job, w);
  }

  /** A producer step either issues its next job or leaves the queue's commands and memory alone. */
  lemma ProducerEffect(p: Program, q: nat, io: Io, p': Program)
    requires ProgramInv(p, io) && q < |p.prods| == |p.sys.subs| && ProducerStep(p, q, io, p')
    ensures |p'.sys.subs| == |p.sys.subs| && p'.sys == p.sys.(subs := p.sys.subs[q := p'.sys.subs[q]])
    ensures |p'.prods| == |p.prods| && p'.prods == p.prods[q := p'.prods[q]]
    ensures p'.prods[q].work == p.prods[q].work && p'.prods[q].prp == p.prods[q].prp
    ensures p'.sys.subs[q].open == p.sys.subs[q].open
    ensures || SameMemory(p.sys.subs[q], p'.sys.subs[q])
            || Issues(p.sys, q, JobAt(p.prods[q], |p.sys.subs[q].issued|), p.prods[q].prp, io, p'.sys)
  {
    var t, b := p.prods[q], p.sys.subs[q];
    assert ProducerInv(t, b, p.sys.comp, p.cons, q, io);
    assert p.sys.subs[q := b] == p.sys.subs && p.prods[q := t] == p.prods;
    if t.stage == Looping && t.pc < |t.work| && !Full(b.d) { var w := IssueEffect(p.sys, q, t.work[t.pc], t.prp, io, p'.sys); }
    if t.stage == Flushing && !Full(b.d) { var w := IssueEffect(p.sys, q, Flush, t.prp, io, p'.sys); }
  }

  lemma ProducerSound(p: Program, q: nat, io: Io, p': Program)
    requires ProgramInv(p, io) && AllSound(p, io) && q < |p.prods| == |p.sys.subs| && ProducerStep(p, q, io, p')
    requires q < |p'.sys.subs| && Harmless(p'.prods[q], p'.sys.subs[q], io)
    ensures AllSound(p', io)
  {
    hide ProducerStep, Sound, Executed, Harmless, ProgramInv;
    ProducerEffect(p, q, io, p');
    if !SameMemory(p.sys.subs[q], p'.sys.subs[q]) {
      IssuedSound(p, q, io, p', JobAt(p.prods[q], |p.sys.subs[q].issued|));
    }
    QuietSound(p, io, p');
  }

  lemma PostSound(p: Program, q: nat, i: nat, io: Io, p': Program)
    requires ProgramInv(p, io) && AllSound(p, io) && Takes(p.sys, Post(q, i), p'.sys) && p' == p.(sys := p'.sys)
    ensures AllSound(p', io)
  {
    hide Decode, Intended, ProducerInv;
    var b := p.sys.subs[q];
    assert Fits(b, p.sys.comp, q);
    assert Sound(p.prods[q], b, io);
    assert Ready(p.prods[q], b, io, i);
    ControllerSound(p.prods[q], b, p'.sys.subs[q], io, i);
    var before := p.(sys := p.sys.(subs := p'.sys.subs));
    QuietSound(p, io, before);
    assert Executed(p'.prods, p'.sys.subs, Exec(q, i, b.open[i]), io);
    forall j | 0 <= j < |p'.sys.comp.log| ensures Executed(p'.prods, p'.sys.subs, p'.sys.comp.log[j], io) {
      if j < |p.sys.comp.log| { assert Executed(before.prods, before.sys.subs, before.sys.comp.log[j], io); }
    }
    forall r | 0 <= r < |p'.prods| ensures Sound(p'.prods[r], p'.sys.subs[r], io) {
      assert Sound(before.prods[r], before.sys.subs[r], io);
    }
  }

  lemma FetchSound(p: Program, e: Event, io: Io, p': Program)
    requires ProgramInv(p, io) && AllSound(p, io) && (e.Fetch? || e.Reread?)
    requires Takes(p.sys, e, p'.sys) && p' == p.(sys := p'.sys)
    ensures AllSound(p', io)
  {
    hide Ready, CompInv, Logged, Distinct, PrpMemory;
    var b := p.sys.subs[e.q];
    assert Fits(b, p.sys.comp, e.q);
    assert Sound(p.prods[e.q], b, io);
    ControllerSound(p.prods[e.q], b, p'.sys.subs[e.q], io, if e.Reread? then e.i else 0);
    QuietSound(p, io, p');
  }

  lemma ConsumerMemory(p: Program, p': Program, r: nat)
    requires ConsumerStep(p, p') && r < |p.sys.subs|
    ensures |p'.sys.subs| == |p.sys.subs| && SameMemory(p.sys.subs[r], p'.sys.subs[r])
  {}

  lemma ConsumerShape(p: Program, p': Program)
    requires ConsumerStep(p, p')
    ensures |p'.sys.subs| == |p.sys.subs| && p'.prods == p.prods && p'.sys.comp.log == p.sys.comp.log
  {}

  lemma ConsumerSound(p: Program, io: Io, p': Program)
    requires ProgramInv(p, io) && AllSound(p, io) && ConsumerStep(p, p')
    ensures AllSound(p', io)
  {
    ConsumerShape(p, p');
    forall r | 0 <= r < |p.prods| ensures SameMemory(p.sys.subs[r], p'.sys.subs[r]) { ConsumerMemory(p, p', r); }
    QuietSound(p, io, p');
  }

  lemma StepSound(p: Program, a: Act, io: Io, p': Program)
    requires ProgramInv(p, io) && AllSound(p, io) && Step(p, a, io, p')
    requires forall q | 0 <= q < |p'.prods| && q < |p'.sys.subs| :: Harmless(p'.prods[q], p'.sys.subs[q], io)
    ensures AllSound(p', io)
  {
    match a
    case Produce(q) => StepKeepsProgram(p, a, io, p'); ProducerSound(p, q, io, p');
    case Consume => ConsumerSound(p, io, p');
    case Controller(e) => if e.Post? { PostSound(p, e.q, e.i, io, p'); } else { FetchSound(p, e, io, p'); }
  }

  // ---------------------------------------------------------------- every run

  /** No command is ever written over while in flight. */
  ghost predicate Undisturbed(ps: seq<Program>, io: Io) {
    forall i, q | 0 <= i < |ps| && 0 <= q < |ps[i].prods| && q < |ps[i].sys.subs| :: Harmless(ps[i].prods[q], ps[i].sys.subs[q], io)
  }

  lemma {:induction false} BehaviourSound(ps: seq<Program>, acts: seq<Act>, io: Io, i: nat)
    requires Behaviour(ps, acts, io) && Undisturbed(ps, io) && i < |ps|
    ensures ProgramInv(ps[i], io) && AllSound(ps[i], io)
  {
    hide Harmless, ProgramInv, AllSound, Step, Start;
    BehaviourKeeps(ps, acts, io, i);
    if i == 0 {
      StartSound(ps[0], io);
    } else {
      BehaviourSound(ps, acts, io, i - 1);
      StepSound(ps[i - 1], acts[i - 1], io, ps[i]);
    }
  }

  lemma StartSound(p: Program, io: Io)
    requires Start(p, io)
    ensures AllSound(p, io)
  {
    forall q | 0 <= q < |p.prods| ensures Sound(p.prods[q], p.sys.subs[q], io) {
      assert StartProducer(p.prods[q], p.sys.subs[q], io);
      assert FreshSub(p.sys.subs[q]);
    }
  }

  // ---------------------------------------------------------------- when nothing is written over

  /** The controller stays inside the window in every state of the run. */
  ghost predicate Windowed(ps: seq<Program>) {
    forall i, q | 0 <= i < |ps| && 0 <= q < |ps[i].sys.subs| :: InWindow(ps[i].sys.subs[q])
  }

  /** Commands of two jobs of a plan that get one list page and disagree about an entry. */
  ghost predicate Clash(work: seq<Job>, n: nat, io: Io, i: nat, k: nat) {
    && 4 <= n && i < k < |work| && Slot(i, n) == Slot(k, n)
    && JobFits(work[i], io) && JobFits(work[k], io) && !Agree(work[i], work[k], io)
  }

  /** Checked on a started transfer: no producer's jobs a multiple of its ring size apart clash. */
  ghost predicate Peaceful(p: Program, io: Io) {
    forall q, i, k | 0 <= q < |p.prods| && q < |p.sys.subs| :: !Clash(p.prods[q].work, p.sys.subs[q].d.size, io, i, k)
  }

  /** Inside the window, or with no clash in the plan, what a queue holds in flight is not written over. */
  lemma WindowHarmless(t: Producer, b: Sub, c: Comp, q: nat, io: Io)
    requires PrpMemory(t.prp, b, io) && Fits(b, c, q) && InWindow(b)
    ensures Harmless(t, b, io)
  {
    var k := |b.issued| - 1;
    forall i: nat | i < k && InFlight(b, i) ensures ListPage(t.prp, b.d.size, i) != ListPage(t.prp, b.d.size, k) {
      OwnPages(t.prp, b, io, i, k);
    }
  }

  lemma PeacefulHarmless(t: Producer, b: Sub, c: Comp, cons: Consumer, q: nat, io: Io)
    requires ProducerInv(t, b, c, cons, q, io) && Fits(b, c, q)
    requires forall i, k :: !Clash(t.work, b.d.size, io, i, k)
    ensures Harmless(t, b, io)
  {
    hide Agree, JobFits;
    var k := |b.issued| - 1;
    if |b.fetched| <= k {
      forall i: nat | i < k && InFlight(b, i) && ListPage(t.prp, b.d.size, i) == ListPage(t.prp, b.d.size, k)
        && JobFits(JobAt(t, i), io) && JobFits(JobAt(t, k), io)
        ensures Agree(JobAt(t, i), JobAt(t, k), io)
      {
        TwoInFlight(b, c, q, i);
        SamePage(t.prp, b, io, i, k);
        if k < |t.work| { assert !Clash(t.work, b.d.size, io, i, k); } else { FlushAgrees(JobAt(t, i), io); }
      }
    }
  }

  lemma FlushAgrees(job: Job, io: Io)
    requires JobFits(job, io)
    ensures Agree(job, Flush, io)
  {}

  /** With an older command in flight beside the newest, the ring has more than one usable slot. */
  lemma TwoInFlight(b: Sub, c: Comp, q: nat, i: nat)
    requires Fits(b, c, q) && |b.fetched| < |b.issued| && i < |b.issued| - 1 && InFlight(b, i)
    ensures b.d.size >= 4
  {
    CountPrefix(c.posted, c.deq, q);
    if i in b.open { assert b.open.Keys != {} && |b.open.Keys| == |b.open|; }
    if b.d.size < 4 { Reordering.NotThree(b.d.size); }
  }

  /** Two commands have one list page exactly when their numbers are on one slot. */
  lemma SamePage(prp: seq<Address>, b: Sub, io: Io, i: nat, k: nat)
    requires PrpMemory(prp, b, io) && b.d.size > 0
    ensures ListPage(prp, b.d.size, i) == ListPage(prp, b.d.size, k) <==> Slot(i, b.d.size) == Slot(k, b.d.size)
  {
    hide Slot, EvenLap;
    NextSlot(i, b.d.size);
    NextSlot(k, b.d.size);
  }

  lemma WindowedUndisturbed(ps: seq<Program>, acts: seq<Act>, io: Io)
    requires Behaviour(ps, acts, io) && Windowed(ps)
    ensures Undisturbed(ps, io)
  {
    hide Harmless, InWindow;
    forall i, q | 0 <= i < |ps| && 0 <= q < |ps[i].prods| && q < |ps[i].sys.subs|
      ensures Harmless(ps[i].prods[q], ps[i].sys.subs[q], io)
    {
      BehaviourKeeps(ps, acts, io, i);
      assert ProducerInv(ps[i].prods[q], ps[i].sys.subs[q], ps[i].sys.comp, ps[i].cons, q, io);
      WindowHarmless(ps[i].prods[q], ps[i].sys.subs[q], ps[i].sys.comp, q, io);
    }
  }

  lemma PeacefulUndisturbed(ps: seq<Program>, acts: seq<Act>, io: Io)
    requires Behaviour(ps, acts, io) && Peaceful(ps[0], io)
    ensures Undisturbed(ps, io)
  {
    hide Harmless, Clash;
    forall i, q | 0 <= i < |ps| && 0 <= q < |ps[i].prods| && q < |ps[i].sys.subs|
      ensures Harmless(ps[i].prods[q], ps[i].sys.subs[q], io)
    {
      BehaviourKeeps(ps, acts, io, i);
      SameCount(ps, acts, io, i);
      PlanKept(ps, acts, io, i, q);
      assert ProducerInv(ps[i].prods[q], ps[i].sys.subs[q], ps[i].sys.comp, ps[i].cons, q, io);
      PeacefulHarmless(ps[i].prods[q], ps[i].sys.subs[q], ps[i].sys.comp, ps[i].cons, q, io);
    }
  }

  // ---------------------------------------------------------------- completing in order

  /** Completing commands of a queue oldest first. */
  ghost predicate Oldest(p: Program, a: Act) {
    a.Controller? && a.e.Post? && a.e.q < |p.sys.subs| ==> forall k <- p.sys.subs[a.e.q].open.Keys :: a.e.i <= k
  }

  ghost predicate Fifo(s: State) {
    forall q, k | 0 <= q < |s.subs| && k in s.subs[q].open :: Count(s.comp.posted, q) <= k
  }

  lemma FifoStep(p: Program, a: Act, io: Io, p': Program)
    requires ProgramInv(p, io) && Step(p, a, io, p') && Oldest(p, a) && Fifo(p.sys)
    ensures Fifo(p'.sys)
  {
    hide CompInv, Fits, Logged, Distinct;
    match a
    case Produce(q) => ProducerEffect(p, q, io, p');
    case Consume =>
    case Controller(e) => FifoController(p.sys, e, p'.sys);
  }

  lemma FifoController(s: State, e: Event, s': State)
    requires Inv(s) && ControllerEvent(e) && Takes(s, e, s') && Fifo(s)
    requires e.Post? ==> forall k <- s.subs[e.q].open.Keys :: e.i <= k
    ensures Fifo(s')
  {
    hide SubInv, CompInv, Logged, Distinct;
    forall q, k | 0 <= q < |s'.subs| && k in s'.subs[q].open ensures Count(s'.comp.posted, q) <= k {
      assert Fits(s.subs[q], s.comp, q);
      if e.Post? { CountStep(s.comp.posted, Completion(e.q, Cid(s.subs[e.q].fetched[e.i]), s.comp.devPhase), q); }
    }
  }

  /** Oldest-first completion keeps every open command within a ring of the newest. */
  lemma FifoWindow(p: Program, io: Io, q: nat)
    requires ProgramInv(p, io) && Fifo(p.sys) && q < |p.sys.subs|
    ensures InWindow(p.sys.subs[q])
  {
    assert Fits(p.sys.subs[q], p.sys.comp, q);
    CountPrefix(p.sys.comp.posted, p.sys.comp.deq, q);
  }

  ghost predicate InOrder(ps: seq<Program>, acts: seq<Act>)
    requires |ps| == |acts| + 1
  {
    forall j {:trigger acts[j]} | 0 <= j < |acts| :: Oldest(ps[j], acts[j])
  }

  lemma FreshFifo(p: Program, io: Io)
    requires Start(p, io)
    ensures Fifo(p.sys)
  {
    forall q, k | 0 <= q < |p.sys.subs| && k in p.sys.subs[q].open ensures Count(p.sys.comp.posted, q) <= k {
      assert FreshSub(p.sys.subs[q]);
    }
  }

  lemma {:induction false} InOrderFifo(ps: seq<Program>, acts: seq<Act>, io: Io, i: nat)
    requires Behaviour(ps, acts, io) && i < |ps| && InOrder(ps, acts)
    ensures Fifo(ps[i].sys)
  {
    if i == 0 {
      FreshFifo(ps[0], io);
    } else {
      InOrderFifo(ps, acts, io, i - 1);
      BehaviourKeeps(ps, acts, io, i - 1);
      var p, a, p' := ps[i - 1], acts[i - 1], ps[i];
      assert Step(p, a, io, p') && Oldest(p, a);
      FifoStep(p, a, io, p');
    }
  }

  /** A controller that completes each queue's commands in order stays inside the window. */
  lemma InOrderIsWindowed(ps: seq<Program>, acts: seq<Act>, io: Io)
    requires Behaviour(ps, acts, io) && InOrder(ps, acts)
    ensures Windowed(ps)
  {
    forall i, q | 0 <= i < |ps| && 0 <= q < |ps[i].sys.subs| ensures InWindow(ps[i].sys.subs[q]) {
      BehaviourKeeps(ps, acts, io, i);
      InOrderFifo(ps, acts, io, i);
      FifoWindow(ps[i], io, q);
    }
  }

  // ---------------------------------------------------------------- every page once

  /** What log record x did: the command as fetched, decoded with the list as read. */
  ghost predicate Does(p: Program, j: nat, io: Io, e: Effect) {
    && j < |p.sys.comp.log| && io.bpp > 0
    && var x := p.sys.comp.log[j];
    && x.q < |p.sys.subs| && x.idx < |p.sys.subs[x.q].fetched|
    && e == Decode(p.sys.subs[x.q].fetched[x.idx], x.lists, io.bpp)
  }

  lemma DoesItsJob(p: Program, io: Io, j: nat)
    requires ProgramInv(p, io) && AllSound(p, io) && j < |p.sys.comp.log|
    ensures var x := p.sys.comp.log[j];
            && x.q < |p.prods| && x.idx < Planned(p.prods[x.q], io) && JobFits(JobAt(p.prods[x.q], x.idx), io)
            && Does(p, j, io, Intended(JobAt(p.prods[x.q], x.idx), io))
  {
    var x := p.sys.comp.log[j];
    assert Executed(p.prods, p.sys.subs, x, io);
    assert Reports(p.sys.subs, p.sys.comp.posted[j], x);
    assert Fits(p.sys.subs[x.q], p.sys.comp, x.q);
    assert ProducerInv(p.prods[x.q], p.sys.subs[x.q], p.sys.comp, p.cons, x.q, io);
    assert p.sys.subs[x.q].fetched <= p.sys.subs[x.q].issued;
  }

  /** Record j moves the page if and only if its job owns the page. */
  lemma CarrierOwns(p: Program, spans: seq<Span>, io: Io, pages: nat, page: nat, j: nat, e: Effect)
    requires ProgramInv(p, io) && AllSound(p, io) && Plans(p.prods, spans, io, pages)
    requires Does(p, j, io, e)
    ensures Carries(e, io, page) <==> Owns(p.prods, p.sys.comp.log[j].q, p.sys.comp.log[j].idx, page)
    ensures Touches(e, io, page) ==> Owns(p.prods, p.sys.comp.log[j].q, p.sys.comp.log[j].idx, page)
  {
    hide Inv, Carries, Touches, Decode, AllSound;
    DoesItsJob(p, io, j);
    var x := p.sys.comp.log[j];
    var job := JobAt(p.prods[x.q], x.idx);
    if job.Rw? {
      PlanPlace(p.prods[x.q], spans[x.q].lo, spans[x.q].n, io, x.idx);
      CarriesItsPages(job.tile, io, page);
      if Touches(e, io, page) { TouchesItsPages(job.tile, io, page); }
    } else {
      NoMove(e, io, page);
    }
  }

  lemma NoMove(e: Effect, io: Io, page: nat)
    requires !e.Moved?
    ensures !Carries(e, io, page) && !Touches(e, io, page)
  {}

  /** Record j is the one that moves the page; no other names any of its blocks. */
  ghost predicate OnlyCarrier(p: Program, io: Io, page: nat, j: nat) {
    && j < |p.sys.comp.log|
    && (exists e :: Does(p, j, io, e) && Carries(e, io, page))
    && (forall i, e | i != j && Does(p, i, io, e) :: !Carries(e, io, page) && !Touches(e, io, page))
  }

  lemma CarrierIsOnly(p: Program, spans: seq<Span>, io: Io, pages: nat, page: nat, j: nat)
    requires ProgramInv(p, io) && AllSound(p, io) && Plans(p.prods, spans, io, pages)
    requires j < |p.sys.comp.log| && Owns(p.prods, p.sys.comp.log[j].q, p.sys.comp.log[j].idx, page)
    ensures OnlyCarrier(p, io, page, j)
  {
    var x := p.sys.comp.log[j];
    DoesItsJob(p, io, j);
    var mine := Intended(JobAt(p.prods[x.q], x.idx), io);
    CarrierOwns(p, spans, io, pages, page, j, mine);
    assert Does(p, j, io, mine) && Carries(mine, io, page);
    forall i, e | i != j && Does(p, i, io, e) ensures !Carries(e, io, page) && !Touches(e, io, page) {
      CarrierOwns(p, spans, io, pages, page, i, e);
      OtherDoesNotOwn(p, spans, io, pages, page, j, i);
    }
  }

  lemma OtherDoesNotOwn(p: Program, spans: seq<Span>, io: Io, pages: nat, page: nat, j: nat, i: nat)
    requires Distinct(p.sys.comp.log) && Plans(p.prods, spans, io, pages) && i < |p.sys.comp.log| && i != j
    requires j < |p.sys.comp.log| && Owns(p.prods, p.sys.comp.log[j].q, p.sys.comp.log[j].idx, page)
    ensures !Owns(p.prods, p.sys.comp.log[i].q, p.sys.comp.log[i].idx, page)
  {
    var x, y := p.sys.comp.log[j], p.sys.comp.log[i];
    if Owns(p.prods, y.q, y.idx, page) { OwnerUnique(p.prods, spans, io, pages, page, x.q, x.idx, y.q, y.idx); }
  }

  /** No step changes what a producer set out to do. */
  lemma {:induction false} PlansKept(ps: seq<Program>, acts: seq<Act>, io: Io, spans: seq<Span>, pages: nat, i: nat)
    requires Behaviour(ps, acts, io) && i < |ps| && Plans(ps[0].prods, spans, io, pages)
    ensures Plans(ps[i].prods, spans, io, pages)
  {
    hide Inv, Plan, ProducerInv;
    if i > 0 {
      PlansKept(ps, acts, io, spans, pages, i - 1);
      BehaviourKeeps(ps, acts, io, i - 1);
      var p, a, p' := ps[i - 1], acts[i - 1], ps[i];
      assert Step(p, a, io, p');
      if a.Produce? { ProducerEffect(p, a.q, io, p'); }
      if a.Consume? { ConsumerShape(p, p'); }
    }
  }

  /**
   * End to end: when transfer() returns, after any run of a plan without a clash, or any run in which
   * the controller stayed inside the window, every page of the transfer was moved between its buffer
   * page and its own blocks by exactly one executed command, and no other names any of its blocks.
   */
  lemma EveryPageOnce(ps: seq<Program>, acts: seq<Act>, io: Io, spans: seq<Span>, pages: nat, page: nat) returns (j: nat)
    requires Behaviour(ps, acts, io) && Returned(ps[|acts|]) && (Windowed(ps) || Peaceful(ps[0], io))
    requires Plans(ps[0].prods, spans, io, pages) && page < pages
    ensures OnlyCarrier(ps[|acts|], io, page, j)
  {
    hide Peaceful, Windowed, Undisturbed;
    if Windowed(ps) { WindowedUndisturbed(ps, acts, io); } else { PeacefulUndisturbed(ps, acts, io); }
    PlansKept(ps, acts, io, spans, pages, |acts|);
    BehaviourSound(ps, acts, io, |acts|);
    j := CarrierFound(ps[|acts|], spans, io, pages, page);
    CarrierIsOnly(ps[|acts|], spans, io, pages, page, j);
  }

  lemma CarrierFound(p: Program, spans: seq<Span>, io: Io, pages: nat, page: nat) returns (j: nat)
    requires ProgramInv(p, io) && Returned(p) && Plans(p.prods, spans, io, pages) && page < pages
    ensures j < |p.sys.comp.log| && Owns(p.prods, p.sys.comp.log[j].q, p.sys.comp.log[j].idx, page)
  {
    var q, k := OwnerExists(p.prods, spans, io, pages, page);
    AllComplete(p, io, q);
    assert Completed(p.sys.comp.log, q, k);
    j :| 0 <= j < |p.sys.comp.log| && p.sys.comp.log[j].q == q && p.sys.comp.log[j].idx == k;
  }
}
