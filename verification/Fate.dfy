/**
 * Which started transfers can return at all. A producer at its flush is lost once nothing of its
 * ring is left to process and just a full ring of commands is unsubmitted; every run of some
 * transfers comes to that, and every other transfer has a schedule that avoids it.
 */
module Fate {
  import opened Ring
  import opened Protocol
  import opened Safety
  import opened Jobs
  import opened Transfer
  import opened Flushing
  import opened Termination
  import opened Delivery

  /** Commands of a producer and entries of its ring with which a write never returns. */
  predicate Doomed(commands: nat, size: nat) {
    commands == size - 1 || (size == 2 && commands >= 1)
  }

  /** A caller can check this before starting: every read, and the writes without a doomed producer. */
  ghost predicate MayReturn(p: Program, io: Io) {
    io.write ==> forall q | 0 <= q < |p.prods| && q < |p.sys.subs| :: !Doomed(|p.prods[q].work|, p.sys.subs[q].d.size)
  }

  /** What a producer's step does to its queue's counters, by where it is. */
  ghost predicate Moves(t: Producer, b: Sub, t': Producer, b': Sub, io: Io) {
    var full := |b.issued| == b.upd + b.d.size - 1;
    && b'.upd == b.upd && b'.d.size == b.d.size && t'.work == t.work
    && match t.stage
       case Looping =>
         if t.pc == |t.work| then
           b' == b && t' == t.(stage := if io.write then Flushing else Finishing)
         else if full then t' == t && |b'.issued| == |b.issued| == b'.sub
         else t' == t.(pc := t.pc + 1, counter := t.counter + 1) && |b'.issued| == |b.issued| + 1 && b'.sub == b.sub
       case Flushing =>
         if full then b' == b && t' == t
         else t'.stage == Finishing && |b'.issued| == |b.issued| + 1 && b'.sub == b.sub
       case Finishing => t'.stage == Done && |b'.issued| == |b.issued| == b'.sub
       case Done => false
  }

  lemma FullIs(p: Program, io: Io, q: nat)
    requires ProgramInv(p, io) && q < |p.prods|
    ensures var b := p.sys.subs[q]; b.d.size >= 2 && (Full(b.d) <==> |b.issued| == b.upd + b.d.size - 1)
  {
    var b := p.sys.subs[q];
    assert Fits(b, p.sys.comp, q);
    SqByCounters(b.d, |b.issued|, b.sub, b.upd);
  }

  lemma ProducerMoves(p: Program, q: nat, io: Io, p': Program)
    requires ProgramInv(p, io) && q < |p.prods| == |p.sys.subs| && ProducerStep(p, q, io, p')
    ensures |p'.prods| == |p.prods| && |p'.sys.subs| == |p.sys.subs|
    ensures Moves(p.prods[q], p.sys.subs[q], p'.prods[q], p'.sys.subs[q], io)
  {
    hide BuildCommand, BuildList, Link, Logged, Distinct, Pending, Numbered;
    var t, b := p.prods[q], p.sys.subs[q];
    FullIs(p, io, q);
    assert ProducerInv(t, b, p.sys.comp, p.cons, q, io);
    assert p.prods[q := t] == p.prods && p.sys.subs[q := b] == p.sys.subs;
    if t.stage == Looping && t.pc < |t.work| && !Full(b.d) { var w := IssueEffect(p.sys, q, t.work[t.pc], t.prp, io, p'.sys); }
    if t.stage == Flushing && !Full(b.d) { var w := IssueEffect(p.sys, q, Flush, t.prp, io, p'.sys); }
    if (t.stage == Looping && t.pc < |t.work| && Full(b.d)) || t.stage == Finishing { SubmitEffect(p.sys, q, p'.sys); }
  }

  // ---------------------------------------------------------------- doomed producers never finish

  /** A doomed producer of a write before its last submit. */
  ghost predicate Waits(t: Producer, b: Sub) { (t.stage == Looping || t.stage == Flushing) && b.sub < |t.work| }

  lemma DoomedStep(p: Program, a: Act, io: Io, p': Program, q: nat)
    requires ProgramInv(p, io) && Step(p, a, io, p') && io.write && q < |p.prods|
    requires Doomed(|p.prods[q].work|, p.sys.subs[q].d.size) && Waits(p.prods[q], p.sys.subs[q])
    ensures q < |p'.prods| && q < |p'.sys.subs| && Waits(p'.prods[q], p'.sys.subs[q])
  {
    hide BuildCommand, BuildList, Logged, Distinct, Pending, Numbered, Link;
    assert ProducerInv(p.prods[q], p.sys.subs[q], p.sys.comp, p.cons, q, io);
    assert Fits(p.sys.subs[q], p.sys.comp, q);
    match a
    case Produce(r) => if r == q { ProducerMoves(p, q, io, p'); } else { OtherProducer(p, r, io, p', q); }
    case Consume =>
    case Controller(e) => ControllerEffect(p.sys, e, p'.sys, q);
  }

  lemma {:induction false} DoomedWaits(ps: seq<Program>, acts: seq<Act>, io: Io, i: nat, q: nat)
    requires Behaviour(ps, acts, io) && i < |ps| && io.write && q < |ps[0].prods| && q < |ps[0].sys.subs|
    requires Doomed(|ps[0].prods[q].work|, ps[0].sys.subs[q].d.size)
    ensures q < |ps[i].prods| && q < |ps[i].sys.subs| && Waits(ps[i].prods[q], ps[i].sys.subs[q])
  {
    hide Step, ProgramInv, Waits;
    if i == 0 { DoomedStart(ps[0], io, q); } else {
      DoomedWaits(ps, acts, io, i - 1, q);
      BehaviourKeeps(ps, acts, io, i - 1);
      PlanKept(ps, acts, io, i - 1, q);
      assert Step(ps[i - 1], acts[i - 1], io, ps[i]);
      DoomedStep(ps[i - 1], acts[i - 1], io, ps[i], q);
    }
  }

  lemma DoomedStart(p: Program, io: Io, q: nat)
    requires Start(p, io) && q < |p.prods| && Doomed(|p.prods[q].work|, p.sys.subs[q].d.size)
    ensures Waits(p.prods[q], p.sys.subs[q])
  {
    assert StartProducer(p.prods[q], p.sys.subs[q], io);
    assert FreshSub(p.sys.subs[q]);
  }

  // ---------------------------------------------------------------- the others can keep clear of it

  /** Everything submitted is processed and just a full ring of commands is still to come: the flush will find the ring full. */
  ghost predicate Fated(t: Producer, b: Sub, io: Io) {
    && io.write && (t.stage == Looping || t.stage == Flushing)
    && b.upd == b.sub && |t.work| == b.sub + b.d.size - 1
  }

  ghost predicate Hopeful(p: Program, io: Io) {
    forall q | 0 <= q < |p.prods| && q < |p.sys.subs| ::
      Doomed(|p.prods[q].work|, p.sys.subs[q].d.size) || !Fated(p.prods[q], p.sys.subs[q], io)
  }

  /** The consumer is about to count the last submitted command of queue q processed, and that would seal its fate. */
  ghost predicate Fatal(p: Program, io: Io, q: nat) {
    && io.write && q < |p.prods| && q < |p.sys.subs| && p.cons == Updating(q)
    && var t, b := p.prods[q], p.sys.subs[q];
    && !Doomed(|t.work|, b.d.size) && (t.stage == Looping || t.stage == Flushing)
    && b.upd + 1 == b.sub && |t.work| == b.sub + b.d.size - 1
  }

  lemma ConsumerMoves(p: Program, io: Io, p': Program, q: nat)
    requires ProgramInv(p, io) && ConsumerStep(p, p') && q < |p.prods|
    ensures p'.prods == p.prods && |p'.sys.subs| == |p.sys.subs|
    ensures var b, b' := p.sys.subs[q], p'.sys.subs[q];
            b'.sub == b.sub && b'.d.size == b.d.size && b'.upd == b.upd + (if p.cons == Updating(q) then 1 else 0)
  {}

  lemma HopefulStep(p: Program, a: Act, io: Io, p': Program)
    requires ProgramInv(p, io) && Hopeful(p, io) && Step(p, a, io, p') && (a == Consume ==> forall q :: !Fatal(p, io, q))
    ensures Hopeful(p', io)
  {
    hide Doomed;
    forall q | 0 <= q < |p'.prods| && q < |p'.sys.subs|
      ensures Doomed(|p'.prods[q].work|, p'.sys.subs[q].d.size) || !Fated(p'.prods[q], p'.sys.subs[q], io)
    {
      HopefulQueue(p, a, io, p', q);
    }
  }

  lemma HopefulQueue(p: Program, a: Act, io: Io, p': Program, q: nat)
    requires ProgramInv(p, io) && Hopeful(p, io) && Step(p, a, io, p') && (a == Consume ==> !Fatal(p, io, q))
    requires q < |p'.prods| && q < |p'.sys.subs|
    ensures Doomed(|p'.prods[q].work|, p'.sys.subs[q].d.size) || !Fated(p'.prods[q], p'.sys.subs[q], io)
  {
    hide BuildCommand, BuildList, Inv, Doomed;
    SameQueues(p, a, io, p');
    assert ProducerInv(p.prods[q], p.sys.subs[q], p.sys.comp, p.cons, q, io);
    match a
    case Produce(r) => if r == q { ProducerMoves(p, q, io, p'); FullIs(p, io, q); } else { OtherProducer(p, r, io, p', q); }
    case Consume => ConsumerMoves(p, io, p', q);
    case Controller(e) => ControllerEffect(p.sys, e, p'.sys, q);
  }

  lemma SameQueues(p: Program, a: Act, io: Io, p': Program)
    requires ProgramInv(p, io) && Step(p, a, io, p')
    ensures |p'.prods| == |p.prods| == |p.sys.subs| == |p'.sys.subs|
  {
    match a
    case Produce(q) => ProducerMoves(p, q, io, p');
    case Consume => ConsumerShape(p, p');
    case Controller(e) =>
  }

  /** In that moment the producer has something better to do first. */
  lemma Evade(p: Program, io: Io, q: nat)
    requires ProgramInv(p, io) && Fatal(p, io, q)
    ensures CanTake(p, Produce(q), io)
  {
    hide BuildCommand, BuildList, Link, Logged, Distinct, Pending, Numbered, CompInv;
    var t, b := p.prods[q], p.sys.subs[q];
    assert ProducerInv(t, b, p.sys.comp, p.cons, q, io);
    assert Fits(b, p.sys.comp, q);
    FullIs(p, io, q);
    if Full(b.d) { SubmitAdvances(p, q, io); } else { IssueAdvances(p, q, io); }
  }

  /** The consumer's step, unless it is fatal: then the producer's. */
  lemma ConsumeOrEvade(p: Program, io: Io) returns (a: Act)
    requires ProgramInv(p, io) && (p.cons != Waiting || p.sys.comp.deq < |p.sys.comp.posted|)
    ensures CanTake(p, a, io) && !a.Controller? && (a == Consume ==> forall q :: !Fatal(p, io, q))
  {
    if q :| Fatal(p, io, q) {
      Evade(p, io, q);
      a := Produce(q);
    } else {
      ConsumerAdvances(p, io);
      a := Consume;
    }
  }

  // ---------------------------------------------------------------- running on

  /** p' is p or comes after it: plans and sizes are as they were, histories only grew. */
  ghost predicate Later(p: Program, p': Program) {
    && |p'.prods| == |p.prods| == |p.sys.subs| == |p'.sys.subs|
    && p.sys.comp.log <= p'.sys.comp.log
    && (forall q {:trigger p.prods[q]} | 0 <= q < |p.prods| ::
          p'.prods[q].work == p.prods[q].work && p'.prods[q].prp == p.prods[q].prp
          && p'.sys.subs[q].d.size == p.sys.subs[q].d.size && p.sys.subs[q].fetched <= p'.sys.subs[q].fetched)
  }

  lemma StepLater(p: Program, a: Act, io: Io, p': Program)
    requires ProgramInv(p, io) && Step(p, a, io, p')
    ensures Later(p, p')
  {
    hide BuildCommand, BuildList, Inv;
    SameQueues(p, a, io, p');
    match a
    case Produce(r) => ProducerEffect(p, r, io, p'); ProducerFetched(p, r, io, p');
    case Consume => forall q | 0 <= q < |p.prods| ensures SameMemory(p.sys.subs[q], p'.sys.subs[q]) { ConsumerMemory(p, p', q); } ConsumerShape(p, p');
    case Controller(e) =>
  }

  lemma ProducerFetched(p: Program, q: nat, io: Io, p': Program)
    requires ProgramInv(p, io) && q < |p.prods| == |p.sys.subs| && ProducerStep(p, q, io, p')
    ensures |p'.sys.subs| == |p.sys.subs| && p'.sys.subs[q].fetched == p.sys.subs[q].fetched
    ensures p'.sys.subs[q].d.size == p.sys.subs[q].d.size
  {
    hide BuildCommand, BuildList, Link, Logged, Distinct, Pending, Numbered;
    var t, b := p.prods[q], p.sys.subs[q];
    assert ProducerInv(t, b, p.sys.comp, p.cons, q, io);
    if t.stage == Looping && t.pc < |t.work| && !Full(b.d) { var w := IssueEffect(p.sys, q, t.work[t.pc], t.prp, io, p'.sys); }
    if t.stage == Flushing && !Full(b.d) { var w := IssueEffect(p.sys, q, Flush, t.prp, io, p'.sys); }
  }

  /** What holds of every state a started transfer reaches. */
  lemma Reached(p0: Program, p: Program, io: Io)
    requires Reach(p0, p, io)
    ensures ProgramInv(p, io) && Start(p0, io) && |p.prods| == |p0.prods| == |p0.sys.subs| == |p.sys.subs|
    ensures Measure(p) <= Bound(p0.prods, io)
    ensures Later(p0, p)
  {
    hide Step, Start, ProgramInv, Later;
    var ps: seq<Program>, acts: seq<Act> :| Behaviour(ps, acts, io) && ps[0] == p0 && ps[|acts|] == p;
    BehaviourKeeps(ps, acts, io, |acts|);
    BehaviourKeeps(ps, acts, io, 0);
    InvShape(p, io);
    InvShape(p0, io);
    MeasureBounded(p, io);
    SameCount(ps, acts, io, |acts|);
    BoundKept(ps, acts, io, |p.prods|);
    assert p.prods[..|p.prods|] == p.prods && p0.prods[..|p.prods|] == p0.prods;
    BehaviourLater(ps, acts, io, |acts|);
  }

  lemma {:induction false} BehaviourLater(ps: seq<Program>, acts: seq<Act>, io: Io, i: nat)
    requires Behaviour(ps, acts, io) && i < |ps|
    ensures Later(ps[0], ps[i])
  {
    hide Step, Start, ProgramInv, Later;
    BehaviourKeeps(ps, acts, io, 0);
    if i == 0 { LaterSelf(ps[0], io); } else {
      BehaviourLater(ps, acts, io, i - 1);
      BehaviourKeeps(ps, acts, io, i - 1);
      assert Step(ps[i - 1], acts[i - 1], io, ps[i]);
      StepLater(ps[i - 1], acts[i - 1], io, ps[i]);
      LaterTrans(ps[0], ps[i - 1], ps[i]);
    }
  }

  lemma LaterSelf(p: Program, io: Io)
    requires ProgramInv(p, io)
    ensures Later(p, p)
  {}

  /** One advancing step further, staying hopeful. */
  lemma StepOn(p0: Program, p: Program, a: Act, io: Io) returns (p': Program)
    requires Reach(p0, p, io) && Hopeful(p, io) && CanTake(p, a, io) && (a == Consume ==> forall q :: !Fatal(p, io, q))
    ensures Reach(p0, p', io) && Hopeful(p', io) && Later(p, p') && Advances(p, a, io, p')
    ensures |p.prods| == |p.sys.subs| && |p'.prods| == |p'.sys.subs| && Measure(p') > Measure(p)
  {
    hide Step, ProgramInv, Hopeful, Fatal, Start, Later, Measure;
    Reached(p0, p, io);
    p' :| Advances(p, a, io, p');
    ReachStep(p0, p, a, io, p');
    HopefulStep(p, a, io, p');
    StepLater(p, a, io, p');
    AdvancingGrows(p, a, io, p');
  }

  lemma NotStuck(p: Program, io: Io)
    requires ProgramInv(p, io) && Hopeful(p, io) && MayReturn(p, io)
    ensures forall q | 0 <= q < |p.prods| :: !Stuck(p, q)
  {
    forall q | 0 <= q < |p.prods| ensures !Stuck(p, q) {
      assert ProducerInv(p.prods[q], p.sys.subs[q], p.sys.comp, p.cons, q, io);
      assert Fits(p.sys.subs[q], p.sys.comp, q);
    }
  }

  /** While the transfer cannot return, some step other than a fatal one advances. */
  lemma HopefulProgress(p: Program, io: Io) returns (a: Act)
    requires ProgramInv(p, io) && Hopeful(p, io) && MayReturn(p, io) && !Returned(p)
    ensures CanTake(p, a, io) && (a == Consume ==> forall q :: !Fatal(p, io, q))
  {
    hide ProgramInv, Hopeful, MayReturn, Stuck;
    if p.cons != Waiting || p.sys.comp.deq < |p.sys.comp.posted| {
      a := ConsumeOrEvade(p, io);
    } else {
      NotStuck(p, io);
      Progress(p, io);
      a :| CanTake(p, a, io);
    }
  }

  lemma LaterReturn(p: Program, p': Program, io: Io)
    requires Later(p, p') && MayReturn(p, io)
    ensures MayReturn(p', io)
  {
    forall q | io.write && 0 <= q < |p'.prods| ensures !Doomed(|p'.prods[q].work|, p'.sys.subs[q].d.size) {
      assert p'.prods[q].work == p.prods[q].work;
    }
  }

  lemma LaterTrans(p: Program, p': Program, p'': Program)
    requires Later(p, p') && Later(p', p'')
    ensures Later(p, p'')
  {}

  /** From every hopeful state of such a transfer some run goes on until transfer() can return. */
  lemma {:induction false} RunOn(p0: Program, p: Program, io: Io) returns (p': Program)
    requires Reach(p0, p, io) && Hopeful(p, io) && MayReturn(p, io)
    requires |p.prods| == |p.sys.subs| && Measure(p) <= Bound(p0.prods, io)
    ensures Reach(p0, p', io) && Returned(p') && Later(p, p')
    decreases Bound(p0.prods, io) - Measure(p)
  {
    hide Reach, ProgramInv, Hopeful, MayReturn, Later, Returned, Measure, Fatal;
    Reached(p0, p, io);
    if Returned(p) { p' := p; LaterSelf(p, io); } else {
      var a := HopefulProgress(p, io);
      var p1 := StepOn(p0, p, a, io);
      Reached(p0, p1, io);
      LaterReturn(p, p1, io);
      p' := RunOn(p0, p1, io);
      LaterTrans(p, p1, p');
    }
  }

  lemma StartHopeful(p: Program, io: Io)
    requires Start(p, io)
    ensures Hopeful(p, io)
  {
    forall q | 0 <= q < |p.prods| && q < |p.sys.subs|
      ensures Doomed(|p.prods[q].work|, p.sys.subs[q].d.size) || !Fated(p.prods[q], p.sys.subs[q], io)
    {
      assert StartProducer(p.prods[q], p.sys.subs[q], io);
      assert FreshSub(p.sys.subs[q]);
    }
  }

  /**
   * Which transfers can return: some run of a started transfer does if and only if it is a read, or
   * no producer has exactly size - 1 commands, or any at all on a ring of two entries.
   */
  lemma ReturnsExactly(p0: Program, io: Io)
    requires Start(p0, io)
    ensures (exists p :: Reach(p0, p, io) && Returned(p)) <==> MayReturn(p0, io)
  {
    hide Start, Reach, Returned, Measure;
    if MayReturn(p0, io) {
      ReachStart(p0, io);
      StartHopeful(p0, io);
      Reached(p0, p0, io);
      var p := RunOn(p0, p0, io);
    }
    forall p | Reach(p0, p, io) && Returned(p) ensures MayReturn(p0, io) {
      if !MayReturn(p0, io) { CannotReturn(p0, p, io); }
    }
  }

  lemma CannotReturn(p0: Program, p: Program, io: Io)
    requires Reach(p0, p, io) && !MayReturn(p0, io)
    ensures !Returned(p)
  {
    hide Step, Start;
    var ps: seq<Program>, acts: seq<Act> :| Behaviour(ps, acts, io) && ps[0] == p0 && ps[|acts|] == p;
    var q :| 0 <= q < |p0.prods| && q < |p0.sys.subs| && Doomed(|p0.prods[q].work|, p0.sys.subs[q].d.size);
    DoomedWaits(ps, acts, io, |acts|, q);
  }
}
