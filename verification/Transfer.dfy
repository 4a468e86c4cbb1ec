/**
 * The transfer program of examples/integrity/transfer.c as threads over the ring protocol:
 * one producer per submission queue, one consumer on the shared completion queue, a controller,
 * and the main thread that waits for the counters to meet.
 */
module Transfer {
  import Modular
  import opened Ring
  import opened Command
  import opened Protocol
  import opened Safety
  import opened Jobs

  // ---------------------------------------------------------------- the threads

  /** Where produce_commands is: its while loop, the flush retry, the last submit, returned. */
  datatype Stage = Looping | Flushing | Finishing | Done

  /** One producer thread; `pc` counts loop rounds, `counter` is its queue's counter. */
  datatype Producer = Producer(work: seq<Job>, prp: seq<Address>, pc: nat, stage: Stage, counter: nat)

  /** Where consume_completions is in its loop body. */
  datatype Consumer = Waiting | Updating(q: nat) | Wrapping(q: nat) | Acknowledging

  datatype Program = Program(sys: State, prods: seq<Producer>, cons: Consumer, counter: nat)

  datatype Act = Produce(q: nat) | Consume | Controller(e: Event)

  /** A successful nvm_sq_enqueue and the command built in the slot it returned. */
  ghost predicate Issues(s: State, q: nat, job: Job, prp: seq<Address>, io: Io, s': State) {
    Shaped(s) && Enabled(s, Enqueue(q)) && Builds(Apply(s, Enqueue(q)), q, job, prp, io, s')
  }

  /** The newest command of queue q is built in place, its list page chosen by its identifier. */
  ghost predicate Builds(s: State, q: nat, job: Job, prp: seq<Address>, io: Io, s': State) {
    && Shaped(s) && q < |s.subs| && IoOk(io) && JobFits(job, io)
    && var b := s.subs[q];
    && SubShaped(b) && |b.issued| > 0
    && var k := |b.issued| - 1;
    && var page := PrpPage(Cid(b.issued[k]), b.d.size);
    && page < |prp| && prp[page] in b.lists && io.pageSize / 8 <= |b.lists[prp[page]]|
    && Takes(s, Build(q, k, BuildCommand(b.issued[k], job, io, prp[page]), prp[page], BuildList(b.lists[prp[page]], job, io)), s')
  }

  ghost predicate Takes(s: State, e: Event, s': State) {
    Shaped(s) && Enabled(s, e) && s' == Apply(s, e)
  }

  ghost predicate ProducerStep(p: Program, q: nat, io: Io, p': Program)
    requires q < |p.prods| == |p.sys.subs|
  {
    var t := p.prods[q];
    var full := p.sys.subs[q].d.size > 0 && Full(p.sys.subs[q].d);
    match t.stage
    case Looping =>
      if t.pc < |t.work| then
        if full then Takes(p.sys, Submit(q), p'.sys) && p' == p.(sys := p'.sys)
        else
          && Issues(p.sys, q, t.work[t.pc], t.prp, io, p'.sys)
          && p' == p.(sys := p'.sys, prods := p.prods[q := t.(pc := t.pc + 1, counter := t.counter + 1)])
      else p' == p.(prods := p.prods[q := t.(stage := if io.write then Flushing else Finishing)])
    case Flushing =>
      if full then p' == p
      else
        && Issues(p.sys, q, Flush, t.prp, io, p'.sys)
        && p' == p.(sys := p'.sys, prods := p.prods[q := t.(stage := Finishing, counter := t.counter + 1)])
    case Finishing =>
      Takes(p.sys, Submit(q), p'.sys) && p' == p.(sys := p'.sys, prods := p.prods[q := t.(stage := Done)])
    case Done => false
  }

  ghost predicate ConsumerStep(p: Program, p': Program) {
    match p.cons
    case Waiting =>
      && Takes(p.sys, Dequeue, p'.sys)
      && p' == p.(sys := p'.sys, cons := Updating(p.sys.comp.slots[p.sys.comp.d.head].sqid))
    case Updating(q) => Takes(p.sys, HeadUp(q), p'.sys) && p' == p.(sys := p'.sys, cons := Wrapping(q))
    case Wrapping(q) =>
      && q < |p.sys.subs|
      && (if p.sys.subs[q].d.head == p.sys.subs[q].d.size then Takes(p.sys, HeadWrap(q), p'.sys) else p'.sys == p.sys)
      && p' == p.(sys := p'.sys, cons := Acknowledging)
    case Acknowledging =>
      Takes(p.sys, Ack, p'.sys) && p' == p.(sys := p'.sys, cons := Waiting, counter := p.counter + 1)
  }

  predicate ControllerEvent(e: Event) { e.Fetch? || e.Reread? || e.Post? }

  ghost predicate Step(p: Program, a: Act, io: Io, p': Program) {
    match a
    case Produce(q) => q < |p.prods| == |p.sys.subs| && ProducerStep(p, q, io, p')
    case Consume => ConsumerStep(p, p')
    case Controller(e) => ControllerEvent(e) && Takes(p.sys, e, p'.sys) && p' == p.(sys := p'.sys)
  }

  function Total(prods: seq<Producer>): nat {
    if prods == [] then 0 else Total(prods[..|prods| - 1]) + prods[|prods| - 1].counter
  }

  /** The main thread has joined every producer and sees the completion counter reach the sum. */
  predicate Returned(p: Program) {
    (forall t <- p.prods :: t.stage == Done) && p.counter >= Total(p.prods)
  }

  ghost predicate Start(p: Program, io: Io) {
    && Fresh(p.sys) && IoOk(io) && |p.prods| == |p.sys.subs|
    && p.cons == Waiting && p.counter == 0
    && (forall q {:trigger p.prods[q]} | 0 <= q < |p.prods| :: StartProducer(p.prods[q], p.sys.subs[q], io))
  }

  ghost predicate StartProducer(t: Producer, b: Sub, io: Io) {
    && t.stage == Looping && t.pc == 0 && t.counter == 0
    && (forall job <- t.work :: job.Rw? && JobFits(job, io))
    && PrpMemory(t.prp, b, io)
  }

  /** A list page for every slot (examples/integrity/util.c:49-56), at distinct addresses. */
  ghost predicate PrpMemory(prp: seq<Address>, b: Sub, io: Io) {
    && b.d.size <= 0x8000 && |prp| == b.d.size + 1
    && (forall i, j | 0 <= i < j < |prp| :: prp[i] != prp[j])
    && (forall i | 0 <= i < |prp| :: prp[i] in b.lists && io.pageSize / 8 <= |b.lists[prp[i]]|)
  }

  // ---------------------------------------------------------------- invariant

  /** Job k of a producer: its work, then the flush. */
  function JobAt(t: Producer, k: nat): Job { if k < |t.work| then t.work[k] else Flush }

  /** The producer's place, its counters, and the consumer's head updates, tied to the queue's counters. */
  ghost predicate ProducerInv(t: Producer, b: Sub, c: Comp, cons: Consumer, q: nat, io: Io) {
    && t.counter == |b.issued| && t.pc <= |t.work|
    && (t.stage == Looping || t.stage == Flushing ==> |b.issued| == t.pc)
    && (t.stage != Looping ==> t.pc == |t.work|)
    && (t.stage == Flushing ==> io.write)
    && (t.stage == Finishing || t.stage == Done ==> |b.issued| == t.pc + (if io.write then 1 else 0))
    && (t.stage == Done ==> b.sub == |b.issued|)
    && (t.stage == Looping || t.stage == Flushing ==> b.sub == 0 || b.sub >= b.d.size - 1)
    && (b.d.head < b.d.size || cons == Wrapping(q))
    && c.deq <= |c.posted|
    && b.upd + (if cons == Updating(q) then 1 else 0) == Count(c.posted[..c.deq], q)
    && (forall job <- t.work :: job.Rw? && JobFits(job, io))
    && PrpMemory(t.prp, b, io)
  }

  ghost predicate ConsumerInv(p: Program) {
    && p.counter + (if p.cons == Waiting then 0 else 1) == p.sys.comp.deq
    && (p.cons == Waiting ==> p.sys.comp.ack == p.sys.comp.deq)
    && (p.cons.Updating? || p.cons.Wrapping? ==> p.cons.q < |p.sys.subs|)
  }

  ghost predicate ProgramInv(p: Program, io: Io) {
    && Inv(p.sys) && IoOk(io) && |p.prods| == |p.sys.subs| && ConsumerInv(p)
    && (forall q {:trigger p.prods[q]} | 0 <= q < |p.prods| ::
          ProducerInv(p.prods[q], p.sys.subs[q], p.sys.comp, p.cons, q, io))
  }

  lemma StartInv(p: Program, io: Io)
    requires Start(p, io)
    ensures ProgramInv(p, io)
  {
    FreshInv(p.sys);
    forall q | 0 <= q < |p.prods|
      ensures ProducerInv(p.prods[q], p.sys.subs[q], p.sys.comp, p.cons, q, io)
    {
      assert FreshSub(p.sys.subs[q]);
      assert StartProducer(p.prods[q], p.sys.subs[q], io);
    }
  }

  /** Queue b after one more command: built in place of w, with its own list page rewritten. */
  ghost predicate Grows(b: Sub, b': Sub, job: Job, addr: Address, io: Io, w: Words) {
    && IoOk(io) && JobFits(job, io) && addr in b.lists && |b.lists[addr]| >= io.pageSize / 8
    && b'.issued == b.issued + [BuildCommand(w, job, io, addr)]
    && b'.lists == b.lists[addr := BuildList(b.lists[addr], job, io)]
    && b'.sub == b.sub && b'.upd == b.upd && b'.fetched == b.fetched && b'.open == b.open
    && b'.d.size == b.d.size && b'.d.head == b.d.head
  }

  /** The list page of a queue's k-th command. */
  function ListPage(prp: seq<Address>, size: nat, k: nat): Address
    requires |prp| == size + 1 && size > 0
  {
    prp[Modular.Slot(k + 1, size) + 1]
  }

  lemma EnqueueEffect(s: State, q: nat)
    requires Inv(s) && Shaped(s) && Enabled(s, Enqueue(q)) && s.subs[q].d.size <= 0x8000
    ensures var s1, b := Apply(s, Enqueue(q)), SubEnqueue(s.subs[q]);
            && Inv(s1) && Shaped(s1) && s1 == s.(subs := s.subs[q := b]) && |b.issued| == |s.subs[q].issued| + 1
            && b.d.size == s.subs[q].d.size
            && PrpPage(Cid(b.issued[|b.issued| - 1]), b.d.size) == Modular.Slot(|b.issued|, b.d.size) + 1
  {
    StepKeeps(s, Enqueue(q));
    ShapedByInv(Apply(s, Enqueue(q)));
    assert Fits(s.subs[q], s.comp, q);
    EnqueuePage(s.subs[q]);
  }

  lemma EnqueuePage(b: Sub)
    requires SubInv(b) && !Full(b.d) && b.d.size <= 0x8000
    ensures var b' := SubEnqueue(b); b'.d.size == b.d.size && PrpPage(Cid(b'.issued[|b.issued|]), b.d.size) == Modular.Slot(|b'.issued|, b.d.size) + 1
  {
    hide Pending, Full;
    EnqueueKeeps(b);
    CidOf(SubEnqueue(b), |b.issued|);
  }

  /** Building in the slot just taken, seen from the queue as it was before the enqueue. */
  lemma BuildsEffect(b: Sub, s1: State, q: nat, job: Job, prp: seq<Address>, io: Io, s': State, addr: Address)
    requires SubShaped(b) && q < |s1.subs| && s1.subs[q] == SubEnqueue(b) && Builds(s1, q, job, prp, io, s')
    requires PrpPage(Cid(s1.subs[q].issued[|b.issued|]), b.d.size) < |prp|
    requires addr == prp[PrpPage(Cid(s1.subs[q].issued[|b.issued|]), b.d.size)]
    ensures |s'.subs| == |s1.subs| && s' == s1.(subs := s1.subs[q := s'.subs[q]])
    ensures Grows(b, s'.subs[q], job, addr, io, s1.subs[q].issued[|b.issued|])
  {
    hide BuildCommand, BuildList;
  }

  /** What issuing a command changes: one more command in queue q, one list page, nothing else. */
  lemma IssueEffect(s: State, q: nat, job: Job, prp: seq<Address>, io: Io, s': State) returns (w: Words)
    requires Inv(s) && Issues(s, q, job, prp, io, s') && q < |s.subs| && PrpMemory(prp, s.subs[q], io)
    ensures Inv(s') && |s'.subs| == |s.subs| && s' == s.(subs := s.subs[q := s'.subs[q]])
    ensures Grows(s.subs[q], s'.subs[q], job, ListPage(prp, s.subs[q].d.size, |s.subs[q].issued|), io, w)
  {
    hide BuildCommand, BuildList;
    EnqueueEffect(s, q);
    var s1, b := Apply(s, Enqueue(q)), s.subs[q];
    w := s1.subs[q].issued[|b.issued|];
    var k := |b.issued|;
    var addr := prp[PrpPage(Cid(w), b.d.size)];
    StepKeeps(s1, Build(q, k, BuildCommand(w, job, io, addr), addr, BuildList(b.lists[addr], job, io)));
    BuildsEffect(b, s1, q, job, prp, io, s', ListPage(prp, b.d.size, |b.issued|));
  }

  lemma OneProducerMoved(p: Program, q: nat, io: Io, t': Producer, b': Sub)
    requires ProgramInv(p, io) && q < |p.prods| && Inv(p.sys.(subs := p.sys.subs[q := b']))
    requires ProducerInv(t', b', p.sys.comp, p.cons, q, io)
    ensures ProgramInv(p.(sys := p.sys.(subs := p.sys.subs[q := b']), prods := p.prods[q := t']), io)
  {
    var p' := p.(sys := p.sys.(subs := p.sys.subs[q := b']), prods := p.prods[q := t']);
    forall r | 0 <= r < |p'.prods|
      ensures ProducerInv(p'.prods[r], p'.sys.subs[r], p'.sys.comp, p'.cons, r, io)
    {
      assert ProducerInv(p.prods[r], p.sys.subs[r], p.sys.comp, p.cons, r, io);
    }
  }

  /** A producer that just issued a command, seen from its own queue. */
  lemma IssuedProducer(t: Producer, b: Sub, b': Sub, c: Comp, cons: Consumer, q: nat, io: Io, job: Job, addr: Address, w: Words)
    requires ProducerInv(t, b, c, cons, q, io) && Grows(b, b', job, addr, io, w)
    ensures t.stage == Looping && t.pc < |t.work| ==>
              ProducerInv(t.(pc := t.pc + 1, counter := t.counter + 1), b', c, cons, q, io)
    ensures t.stage == Flushing ==>
              ProducerInv(t.(stage := Finishing, counter := t.counter + 1), b', c, cons, q, io)
  {}

  lemma SubmitEffect(s: State, q: nat, s': State)
    requires Inv(s) && Takes(s, Submit(q), s')
    ensures q < |s.subs| && Inv(s') && s' == s.(subs := s.subs[q := SubSubmit(s.subs[q])])
    ensures SubSubmit(s.subs[q]).sub == |s.subs[q].issued|
    ensures s.subs[q].d.size > 0 && Full(s.subs[q].d) ==> |s.subs[q].issued| == s.subs[q].upd + s.subs[q].d.size - 1
  {
    hide BuildCommand, BuildList;
    StepKeeps(s, Submit(q));
    GuardsByCounters(s, Enqueue(q));
    assert Fits(s.subs[q], s.comp, q);
    SubmitKeeps(s.subs[q]);
  }

  lemma SubmitProducer(p: Program, q: nat, io: Io, p': Program, t': Producer)
    requires ProgramInv(p, io) && q < |p.prods| && Takes(p.sys, Submit(q), p'.sys)
    requires p' == p.(sys := p'.sys, prods := p.prods[q := t'])
    requires var t, d := p.prods[q], p.sys.subs[q].d;
             || (t.stage == Looping && t' == t && d.size > 0 && Full(d))
             || (t.stage == Finishing && t' == t.(stage := Done))
    ensures ProgramInv(p', io)
  {
    var t, b := p.prods[q], p.sys.subs[q];
    assert ProducerInv(t, b, p.sys.comp, p.cons, q, io);
    SubmitEffect(p.sys, q, p'.sys);
    OneProducerMoved(p, q, io, t', SubSubmit(b));
  }

  lemma IssueProducer(p: Program, q: nat, io: Io, p': Program, job: Job, t': Producer)
    requires ProgramInv(p, io) && q < |p.prods| && Issues(p.sys, q, job, p.prods[q].prp, io, p'.sys)
    requires p' == p.(sys := p'.sys, prods := p.prods[q := t'])
    requires var t := p.prods[q];
             || (t.stage == Looping && t.pc < |t.work| && t' == t.(pc := t.pc + 1, counter := t.counter + 1))
             || (t.stage == Flushing && t' == t.(stage := Finishing, counter := t.counter + 1))
    ensures ProgramInv(p', io)
  {
    hide BuildCommand, BuildList;
    var t, b := p.prods[q], p.sys.subs[q];
    assert ProducerInv(t, b, p.sys.comp, p.cons, q, io);
    var w := IssueEffect(p.sys, q, job, t.prp, io, p'.sys);
    IssuedProducer(t, b, p'.sys.subs[q], p.sys.comp, p.cons, q, io, job, ListPage(t.prp, b.d.size, |b.issued|), w);
    OneProducerMoved(p, q, io, t', p'.sys.subs[q]);
  }

  lemma ProducerKeeps(p: Program, q: nat, io: Io, p': Program)
    requires ProgramInv(p, io) && q < |p.prods| == |p.sys.subs| && ProducerStep(p, q, io, p')
    ensures ProgramInv(p', io)
  {
    var t, b := p.prods[q], p.sys.subs[q];
    assert ProducerInv(t, b, p.sys.comp, p.cons, q, io);
    var t' := p'.prods[q];
    assert p.prods[q := t] == p.prods && p.sys.subs[q := b] == p.sys.subs;
    if t.stage == Looping && t.pc < |t.work| && Full(b.d) {
      SubmitProducer(p, q, io, p', t);
    } else if t.stage == Looping && t.pc < |t.work| {
      IssueProducer(p, q, io, p', t.work[t.pc], t');
    } else if t.stage == Looping {
      OneProducerMoved(p, q, io, t', b);
    } else if t.stage == Flushing && !Full(b.d) {
      IssueProducer(p, q, io, p', Flush, t');
    } else if t.stage == Finishing {
      SubmitProducer(p, q, io, p', t');
    }
  }

  // ---------------------------------------------------------------- consumer and controller

  lemma ConsumerKeeps(p: Program, io: Io, p': Program)
    requires ProgramInv(p, io) && ConsumerStep(p, p')
    ensures ProgramInv(p', io)
  {
    match p.cons
    case Waiting => DequeueStep(p, io, p');
    case Updating(q) => UpdateStep(p, io, p');
    case Wrapping(q) => WrapStep(p, io, p');
    case Acknowledging => AckStep(p, io, p');
  }

  lemma DequeueEffect(s: State, s': State)
    requires Inv(s) && Takes(s, Dequeue, s')
    ensures var c, e := s.comp, s.comp.slots[s.comp.d.head];
            && Inv(s') && s' == s.(comp := CompDequeue(c)) && e.sqid < |s.subs|
            && c.deq < |c.posted| && c.posted[..c.deq + 1] == c.posted[..c.deq] + [e]
  {
    var c := s.comp;
    StepKeeps(s, Dequeue);
    DequeueKeeps(c);
    assert Reports(s.subs, c.posted[c.deq], c.log[c.deq]);
  }

  lemma DequeueStep(p: Program, io: Io, p': Program)
    requires ProgramInv(p, io) && p.cons == Waiting && ConsumerStep(p, p')
    ensures ProgramInv(p', io)
  {
    hide CompInv, SubInv, Link, Logged, Distinct, PrpMemory, JobFits;
    var c := p.sys.comp;
    DequeueEffect(p.sys, p'.sys);
    forall r | 0 <= r < |p.prods|
      ensures ProducerInv(p'.prods[r], p'.sys.subs[r], p'.sys.comp, p'.cons, r, io)
    {
      assert ProducerInv(p.prods[r], p.sys.subs[r], c, p.cons, r, io);
      CountStep(c.posted[..c.deq], c.slots[c.d.head], r);
    }
  }

  lemma UpdateStep(p: Program, io: Io, p': Program)
    requires ProgramInv(p, io) && p.cons.Updating? && ConsumerStep(p, p')
    ensures ProgramInv(p', io)
  {
    StepKeeps(p.sys, HeadUp(p.cons.q));
    forall r | 0 <= r < |p.prods|
      ensures ProducerInv(p'.prods[r], p'.sys.subs[r], p'.sys.comp, p'.cons, r, io)
    {
      assert ProducerInv(p.prods[r], p.sys.subs[r], p.sys.comp, p.cons, r, io);
    }
  }

  lemma WrapStep(p: Program, io: Io, p': Program)
    requires ProgramInv(p, io) && p.cons.Wrapping? && ConsumerStep(p, p')
    ensures ProgramInv(p', io)
  {
    hide CompInv, Logged, Distinct, Link, Pending, Numbered;
    var q := p.cons.q;
    assert Fits(p.sys.subs[q], p.sys.comp, q);
    if p.sys.subs[q].d.head == p.sys.subs[q].d.size { StepKeeps(p.sys, HeadWrap(q)); }
    forall r | 0 <= r < |p.prods|
      ensures ProducerInv(p'.prods[r], p'.sys.subs[r], p'.sys.comp, p'.cons, r, io)
    {
      assert ProducerInv(p.prods[r], p.sys.subs[r], p.sys.comp, p.cons, r, io);
    }
  }

  lemma AckStep(p: Program, io: Io, p': Program)
    requires ProgramInv(p, io) && p.cons == Acknowledging && ConsumerStep(p, p')
    ensures ProgramInv(p', io)
  {
    StepKeeps(p.sys, Ack);
    AckKeeps(p.sys.comp);
    forall r | 0 <= r < |p.prods|
      ensures ProducerInv(p'.prods[r], p'.sys.subs[r], p'.sys.comp, p'.cons, r, io)
    {
      assert ProducerInv(p.prods[r], p.sys.subs[r], p.sys.comp, p.cons, r, io);
    }
  }

  /** A controller step leaves the driver's fields, memory and dequeued entries alone. */
  lemma ControllerEffect(s: State, e: Event, s': State, r: nat)
    requires Inv(s) && ControllerEvent(e) && Takes(s, e, s') && r < |s.subs|
    ensures |s'.subs| == |s.subs|
    ensures var b, b' := s.subs[r], s'.subs[r];
            b'.d == b.d && b'.issued == b.issued && b'.lists == b.lists && b'.sub == b.sub && b'.upd == b.upd
    ensures s'.comp.deq == s.comp.deq && s'.comp.ack == s.comp.ack && s.comp.posted <= s'.comp.posted
    ensures s'.comp.posted[..s.comp.deq] == s.comp.posted[..s.comp.deq]
  {}

  lemma ControllerKeeps(p: Program, e: Event, io: Io, p': Program)
    requires ProgramInv(p, io) && ControllerEvent(e) && Takes(p.sys, e, p'.sys) && p' == p.(sys := p'.sys)
    ensures ProgramInv(p', io)
  {
    hide Fits, CompInv, Logged, Distinct;
    StepKeeps(p.sys, e);
    forall r | 0 <= r < |p'.prods|
      ensures ProducerInv(p'.prods[r], p'.sys.subs[r], p'.sys.comp, p'.cons, r, io)
    {
      assert ProducerInv(p.prods[r], p.sys.subs[r], p.sys.comp, p.cons, r, io);
      ControllerEffect(p.sys, e, p'.sys, r);
    }
  }

  lemma StepKeepsProgram(p: Program, a: Act, io: Io, p': Program)
    requires ProgramInv(p, io) && Step(p, a, io, p')
    ensures ProgramInv(p', io)
  {
    match a
    case Produce(q) => ProducerKeeps(p, q, io, p');
    case Consume => ConsumerKeeps(p, io, p');
    case Controller(e) => ControllerKeeps(p, e, io, p');
  }

  // ---------------------------------------------------------------- every run

  /** A finite run of the program: ps[0] is a start, and each act leads from one program state to the next. */
  ghost predicate Behaviour(ps: seq<Program>, acts: seq<Act>, io: Io) {
    && |ps| == |acts| + 1 && Start(ps[0], io)
    && (forall i {:trigger acts[i]} | 0 <= i < |acts| :: Step(ps[i], acts[i], io, ps[i + 1]))
  }

  lemma {:induction false} BehaviourKeeps(ps: seq<Program>, acts: seq<Act>, io: Io, i: nat)
    requires Behaviour(ps, acts, io) && i < |ps|
    ensures ProgramInv(ps[i], io)
  {
    if i == 0 {
      StartInv(ps[0], io);
    } else {
      BehaviourKeeps(ps, acts, io, i - 1);
      StepKeepsProgram(ps[i - 1], acts[i - 1], io, ps[i]);
    }
  }

  // ---------------------------------------------------------------- returning

  /** Completions of the first m queues. */
  function CountAll(s: seq<Completion>, m: nat): nat { if m == 0 then 0 else CountAll(s, m - 1) + Count(s, m - 1) }

  lemma {:induction false} CountAllStep(s: seq<Completion>, e: Completion, m: nat)
    ensures CountAll(s + [e], m) == CountAll(s, m) + (if e.sqid < m then 1 else 0)
  {
    if m > 0 { CountStep(s, e, m - 1); CountAllStep(s, e, m - 1); }
  }

  lemma {:induction false} CountAllIsLength(s: seq<Completion>, m: nat)
    requires forall e <- s :: e.sqid < m
    ensures CountAll(s, m) == |s|
  {
    if s != [] {
      var i := |s| - 1;
      CountAllIsLength(s[..i], m);
      CountAllStep(s[..i], s[i], m);
      assert s[..i] + [s[i]] == s;
    } else {
      CountAllEmpty(m);
    }
  }

  lemma {:induction false} CountAllEmpty(m: nat)
    ensures CountAll([], m) == 0
  {
    if m > 0 { CountAllEmpty(m - 1); }
  }

  lemma TotalStep(prods: seq<Producer>, m: nat)
    requires 0 < m <= |prods|
    ensures Total(prods[..m]) == Total(prods[..m - 1]) + prods[m - 1].counter
  {
    assert prods[..m][..m - 1] == prods[..m - 1];
  }

  /** If no queue has more completions than commands, equal sums mean equal counts. */
  lemma {:induction false} SumsAgree(s: seq<Completion>, prods: seq<Producer>, m: nat)
    requires m <= |prods| && (forall q | 0 <= q < m :: Count(s, q) <= prods[q].counter)
    ensures CountAll(s, m) <= Total(prods[..m])
    ensures CountAll(s, m) == Total(prods[..m]) <==> forall q | 0 <= q < m :: Count(s, q) == prods[q].counter
  {
    if m > 0 {
      SumsAgree(s, prods, m - 1);
      TotalStep(prods, m);
    }
  }

  /** Every posted entry belongs to some queue, so the completions of all queues are all completions. */
  lemma PostedSum(p: Program, io: Io)
    requires ProgramInv(p, io)
    ensures CountAll(p.sys.comp.posted, |p.prods|) == |p.sys.comp.posted|
    ensures forall q | 0 <= q < |p.prods| :: Count(p.sys.comp.posted, q) <= p.prods[q].counter
  {
    var m, c := |p.prods|, p.sys.comp;
    forall e <- c.posted ensures e.sqid < m {
      var j :| 0 <= j < |c.posted| && c.posted[j] == e;
      assert Reports(p.sys.subs, c.posted[j], c.log[j]);
    }
    CountAllIsLength(c.posted, m);
    forall q | 0 <= q < m ensures Count(c.posted, q) <= p.prods[q].counter {
      assert ProducerInv(p.prods[q], p.sys.subs[q], c, p.cons, q, io);
      assert Fits(p.sys.subs[q], c, q);
    }
  }

  /** How many commands a producer means to issue. */
  function Planned(t: Producer, io: Io): nat { |t.work| + (if io.write then 1 else 0) }

  /**
   * transfer() returns only when every producer has issued its whole plan and every one of those
   * commands has completed exactly once and been acknowledged.
   */
  lemma ReturnsWhenComplete(ps: seq<Program>, acts: seq<Act>, io: Io, q: nat, k: nat)
    requires Behaviour(ps, acts, io) && Returned(ps[|acts|])
    requires q < |ps[|acts|].prods| && k < Planned(ps[|acts|].prods[q], io)
    ensures var p := ps[|acts|];
            && |p.prods| == |p.sys.subs|
            && |p.sys.subs[q].issued| == Planned(p.prods[q], io)
            && Completed(p.sys.comp.log, q, k) && Distinct(p.sys.comp.log)
            && p.sys.comp.ack == p.sys.comp.deq == |p.sys.comp.posted| == Total(p.prods)
  {
    BehaviourKeeps(ps, acts, io, |acts|);
    var p := ps[|acts|];
    AllComplete(p, io, q);
  }

  lemma AllComplete(p: Program, io: Io, q: nat)
    requires ProgramInv(p, io) && Returned(p) && q < |p.prods|
    ensures var b, c := p.sys.subs[q], p.sys.comp;
            && |b.issued| == Planned(p.prods[q], io) && |b.fetched| == |b.issued| && b.open.Keys == {}
            && (forall k | 0 <= k < |b.issued| :: Completed(c.log, q, k))
            && c.ack == c.deq == |c.posted| == Total(p.prods)
  {
    var m, b, c := |p.prods|, p.sys.subs[q], p.sys.comp;
    PostedSum(p, io);
    SumsAgree(c.posted, p.prods, m);
    assert p.prods[..m] == p.prods;
    assert ProducerInv(p.prods[q], b, c, p.cons, q, io);
    assert Fits(b, c, q);
    assert |b.open| == 0;
  }

  // ---------------------------------------------------------------- progress

  /** The flush retry does not submit: a producer waiting there behind nothing but its own unsubmitted commands. */
  ghost predicate Stuck(p: Program, q: nat) {
    && q < |p.prods| == |p.sys.subs| && p.prods[q].stage == Flushing
    && |p.sys.subs[q].issued| - p.sys.subs[q].sub == p.sys.subs[q].d.size - 1
  }

  /** A step that moves some counter or place forward, as opposed to a retry. */
  ghost predicate Advances(p: Program, a: Act, io: Io, p': Program) {
    Step(p, a, io, p') && p' != p && (a.Controller? ==> !a.e.Reread?)
  }

  ghost predicate CanTake(p: Program, a: Act, io: Io) { exists p' :: Advances(p, a, io, p') }

  ghost predicate CanAdvance(p: Program, io: Io) { exists a :: CanTake(p, a, io) }

  lemma EventAdvances(p: Program, io: Io, e: Event)
    requires ProgramInv(p, io) && (e.Fetch? || e.Post?) && CounterGuard(p.sys, e)
    ensures CanTake(p, Controller(e), io)
  {
    GuardsByCounters(p.sys, e);
    var p' := p.(sys := Apply(p.sys, e));
    assert e.Fetch? ==> |p'.sys.subs[e.q].fetched| == |p.sys.subs[e.q].fetched| + 1;
    assert e.Post? ==> |p'.sys.comp.posted| == |p.sys.comp.posted| + 1;
    assert Advances(p, Controller(e), io, p');
  }

  lemma ConsumerAdvances(p: Program, io: Io)
    requires ProgramInv(p, io) && (p.cons != Waiting || p.sys.comp.deq < |p.sys.comp.posted|)
    ensures CanTake(p, Consume, io)
  {
    ShapedByInv(p.sys);
    match p.cons
    case Waiting =>
      GuardsByCounters(p.sys, Dequeue);
      var e := p.sys.comp.slots[p.sys.comp.d.head];
      assert Advances(p, Consume, io, p.(sys := Apply(p.sys, Dequeue), cons := Updating(e.sqid)));
    case Updating(q) =>
      assert ProducerInv(p.prods[q], p.sys.subs[q], p.sys.comp, p.cons, q, io);
      GuardsByCounters(p.sys, HeadUp(q));
      assert Advances(p, Consume, io, p.(sys := Apply(p.sys, HeadUp(q)), cons := Wrapping(q)));
    case Wrapping(q) =>
      var sys := if p.sys.subs[q].d.head == p.sys.subs[q].d.size then Apply(p.sys, HeadWrap(q)) else p.sys;
      assert Advances(p, Consume, io, p.(sys := sys, cons := Acknowledging));
    case Acknowledging =>
      assert Advances(p, Consume, io, p.(sys := Apply(p.sys, Ack), cons := Waiting, counter := p.counter + 1));
  }

  /** The slot just taken can be built: the builders keep its identifier. */
  lemma BuildPossible(s: State, q: nat, job: Job, prp: seq<Address>, io: Io, page: nat) returns (s': State)
    requires Inv(s) && Shaped(s) && q < |s.subs| && IoOk(io) && JobFits(job, io)
    requires var b := s.subs[q]; b.sub < |b.issued| && b.d.size > 0 && PrpPage(Cid(b.issued[|b.issued| - 1]), b.d.size) == page
    requires page < |prp| && prp[page] in s.subs[q].lists && io.pageSize / 8 <= |s.subs[q].lists[prp[page]]|
    ensures Builds(s, q, job, prp, io, s')
  {
    hide BuildCommand, BuildList;
    var b := s.subs[q];
    var w, addr, list := b.issued[|b.issued| - 1], prp[page], BuildList(b.lists[prp[page]], job, io);
    BuildCid(w, job, io, addr);
    s' := Apply(s, Build(q, |b.issued| - 1, BuildCommand(w, job, io, addr), addr, list));
  }

  lemma IssuePossible(p: Program, q: nat, io: Io, job: Job) returns (s': State)
    requires ProgramInv(p, io) && q < |p.prods| && JobFits(job, io)
    requires |p.sys.subs[q].issued| < p.sys.subs[q].upd + p.sys.subs[q].d.size - 1
    ensures Issues(p.sys, q, job, p.prods[q].prp, io, s')
  {
    hide BuildCommand, BuildList, CompInv, Logged, Distinct, Pending, Numbered;
    var b, t := p.sys.subs[q], p.prods[q];
    assert ProducerInv(t, b, p.sys.comp, p.cons, q, io);
    assert Fits(b, p.sys.comp, q);
    GuardsByCounters(p.sys, Enqueue(q));
    EnqueueEffect(p.sys, q);
    s' := BuildPossible(Apply(p.sys, Enqueue(q)), q, job, t.prp, io, Modular.Slot(|b.issued| + 1, b.d.size) + 1);
  }

  lemma SubmitAdvances(p: Program, q: nat, io: Io)
    requires ProgramInv(p, io) && q < |p.prods|
    requires var t, b := p.prods[q], p.sys.subs[q];
             || t.stage == Finishing
             || (t.stage == Looping && t.pc < |t.work| && b.d.size > 0 && Full(b.d) && b.sub < |b.issued|)
    ensures CanTake(p, Produce(q), io)
  {
    hide CompInv, Logged, Distinct, Link, Pending, Numbered;
    var t, b := p.prods[q], p.sys.subs[q];
    ShapedByInv(p.sys);
    assert Fits(b, p.sys.comp, q);
    SubmitKeeps(b);
    var t' := if t.stage == Finishing then t.(stage := Done) else t;
    var p' := p.(sys := Apply(p.sys, Submit(q)), prods := p.prods[q := t']);
    assert p'.prods[q] == t' && p'.sys.subs[q].sub == |b.issued|;
    assert p.prods[q := t] == p.prods;
    assert Advances(p, Produce(q), io, p');
  }

  lemma IssueIsStep(p: Program, q: nat, io: Io, job: Job, p': Program)
    requires q < |p.prods| == |p.sys.subs| && p.sys.subs[q].d.size > 0 && !Full(p.sys.subs[q].d)
    requires Issues(p.sys, q, job, p.prods[q].prp, io, p'.sys)
    requires var t := p.prods[q];
             || (t.stage == Flushing && job == Flush
                 && p' == p.(sys := p'.sys, prods := p.prods[q := t.(stage := Finishing, counter := t.counter + 1)]))
             || (t.stage == Looping && t.pc < |t.work| && job == t.work[t.pc]
                 && p' == p.(sys := p'.sys, prods := p.prods[q := t.(pc := t.pc + 1, counter := t.counter + 1)]))
    ensures Advances(p, Produce(q), io, p')
  {
    hide BuildCommand, BuildList;
    assert p'.prods[q].counter == p.prods[q].counter + 1;
  }

  lemma NextJobFits(p: Program, q: nat, io: Io, job: Job)
    requires ProgramInv(p, io) && q < |p.prods| && (job == Flush || job in p.prods[q].work)
    ensures JobFits(job, io)
  {
    assert ProducerInv(p.prods[q], p.sys.subs[q], p.sys.comp, p.cons, q, io);
  }

  lemma NotFull(p: Program, q: nat, io: Io)
    requires ProgramInv(p, io) && q < |p.prods|
    requires |p.sys.subs[q].issued| < p.sys.subs[q].upd + p.sys.subs[q].d.size - 1
    ensures p.sys.subs[q].d.size > 0 && !Full(p.sys.subs[q].d)
  {
    assert Fits(p.sys.subs[q], p.sys.comp, q);
    GuardsByCounters(p.sys, Enqueue(q));
  }

  lemma IssueAdvances(p: Program, q: nat, io: Io)
    requires ProgramInv(p, io) && q < |p.prods|
    requires p.prods[q].stage == Flushing || (p.prods[q].stage == Looping && p.prods[q].pc < |p.prods[q].work|)
    requires |p.sys.subs[q].issued| < p.sys.subs[q].upd + p.sys.subs[q].d.size - 1
    ensures CanTake(p, Produce(q), io)
  {
    hide BuildCommand, BuildList;
    var t := p.prods[q];
    var job := if t.stage == Flushing then Flush else t.work[t.pc];
    NextJobFits(p, q, io, job);
    var s' := IssuePossible(p, q, io, job);
    NotFull(p, q, io);
    var t' := if t.stage == Flushing then t.(stage := Finishing, counter := t.counter + 1)
              else t.(pc := t.pc + 1, counter := t.counter + 1);
    var p' := p.(sys := s', prods := p.prods[q := t']);
    IssueIsStep(p, q, io, job, p');
  }

  /** A producer that has not returned and is not stuck can advance once the controller and consumer are done. */
  lemma ProducerAdvances(p: Program, q: nat, io: Io)
    requires ProgramInv(p, io) && q < |p.prods| && p.prods[q].stage != Done && !Stuck(p, q)
    requires p.sys.subs[q].sub == p.sys.subs[q].upd
    ensures CanTake(p, Produce(q), io)
  {
    var t, b := p.prods[q], p.sys.subs[q];
    assert ProducerInv(t, b, p.sys.comp, p.cons, q, io);
    assert Fits(b, p.sys.comp, q);
    GuardsByCounters(p.sys, Enqueue(q));
    if t.stage == Looping && t.pc == |t.work| {
      var p' := p.(prods := p.prods[q := t.(stage := if io.write then Flushing else Finishing)]);
      assert p'.prods[q].stage != t.stage;
      assert Advances(p, Produce(q), io, p');
    } else if t.stage == Finishing || Full(b.d) {
      SubmitAdvances(p, q, io);
    } else {
      IssueAdvances(p, q, io);
    }
  }

  /**
   * No deadlock: unless transfer() can return, or some producer is stuck at its flush, some thread
   * or the controller can take a step that advances.
   */
  lemma Progress(p: Program, io: Io)
    requires ProgramInv(p, io) && !Returned(p) && (forall q | 0 <= q < |p.prods| :: !Stuck(p, q))
    ensures CanAdvance(p, io)
  {
    var c := p.sys.comp;
    if p.cons != Waiting || c.deq < |c.posted| {
      ConsumerAdvances(p, io);
    } else if q, i :| 0 <= q < |p.sys.subs| && i in p.sys.subs[q].open {
      EventAdvances(p, io, Post(q, i));
    } else if q :| 0 <= q < |p.sys.subs| && |p.sys.subs[q].fetched| < p.sys.subs[q].sub {
      EventAdvances(p, io, Fetch(q));
    } else {
      DrainedQueues(p, io);
      if q :| 0 <= q < |p.prods| && p.prods[q].stage != Done {
        ProducerAdvances(p, q, io);
      } else {
        AllReturned(p, io);
      }
    }
  }

  lemma DrainedQueues(p: Program, io: Io)
    requires ProgramInv(p, io) && p.cons == Waiting && p.sys.comp.deq == |p.sys.comp.posted|
    requires forall q | 0 <= q < |p.sys.subs| :: p.sys.subs[q].open.Keys == {} && |p.sys.subs[q].fetched| >= p.sys.subs[q].sub
    ensures forall q | 0 <= q < |p.sys.subs| ::
              p.sys.subs[q].sub == p.sys.subs[q].upd == Count(p.sys.comp.posted, q)
  {
    var c := p.sys.comp;
    assert c.posted[..c.deq] == c.posted;
    forall q | 0 <= q < |p.sys.subs| ensures p.sys.subs[q].sub == p.sys.subs[q].upd == Count(c.posted, q) {
      assert ProducerInv(p.prods[q], p.sys.subs[q], c, p.cons, q, io);
      assert Fits(p.sys.subs[q], c, q);
      assert |p.sys.subs[q].open.Keys| == 0;
    }
  }

  lemma AllReturned(p: Program, io: Io)
    requires ProgramInv(p, io) && p.cons == Waiting && p.sys.comp.deq == |p.sys.comp.posted|
    requires forall q | 0 <= q < |p.prods| :: p.prods[q].stage == Done
    requires forall q | 0 <= q < |p.sys.subs| :: p.sys.subs[q].sub == Count(p.sys.comp.posted, q)
    ensures Returned(p)
  {
    var m, c := |p.prods|, p.sys.comp;
    PostedSum(p, io);
    forall q | 0 <= q < m ensures Count(c.posted, q) == p.prods[q].counter {
      assert ProducerInv(p.prods[q], p.sys.subs[q], c, p.cons, q, io);
    }
    SumsAgree(c.posted, p.prods, m);
    assert p.prods[..m] == p.prods;
  }

  // ---------------------------------------------------------------- a transfer can start

  /** Distinct pages to use as queue memory. */
  function PageAddresses(n: nat): (prp: seq<Address>)
    requires n <= 0x1_0000
    ensures |prp| == n && forall i, j | 0 <= i < j < n :: prp[i] != prp[j]
  {
    seq(n, i requires 0 <= i < n => Qword(Dword(0, 0), Dword(0, i)))
  }

  /** Zeroed list pages of the given number of entries. */
  function Pages(prp: seq<Address>, entries: nat): (lists: Lists)
    ensures forall i | 0 <= i < |prp| :: prp[i] in lists && |lists[prp[i]]| == entries
  {
    map a | a in prp :: seq(entries, _ => ZERO)
  }

  /** For every choice of works and ring sizes, and any completion ring, a transfer can start. */
  lemma StartExists(works: seq<seq<Job>>, sizes: seq<nat>, cqSize: nat, io: Io) returns (p: Program)
    requires IoOk(io) && |works| == |sizes| && cqSize >= 2
    requires forall q | 0 <= q < |sizes| :: GoodSize(sizes[q]) && sizes[q] <= 0x8000
    requires forall q, k | 0 <= q < |works| && 0 <= k < |works[q]| :: works[q][k].Rw? && JobFits(works[q][k], io)
    ensures Start(p, io) && p.sys.comp.d.size == cqSize && |p.prods| == |works| == |p.sys.subs|
    ensures forall q | 0 <= q < |works| :: p.prods[q].work == works[q] && p.sys.subs[q].d.size == sizes[q]
  {
    hide JobFits, GoodSize;
    var m := |works|;
    var subs := seq(m, q requires 0 <= q < m => ClearedSub(sizes[q], Pages(PageAddresses(sizes[q] + 1), io.pageSize / 8)));
    var prods := seq(m, q requires 0 <= q < m => Producer(works[q], PageAddresses(sizes[q] + 1), 0, Looping, 0));
    p := Program(State(subs, ClearedComp(cqSize)), prods, Waiting, 0);
    forall q | 0 <= q < m ensures FreshSub(subs[q]) && StartProducer(prods[q], subs[q], io) {}
  }
}
