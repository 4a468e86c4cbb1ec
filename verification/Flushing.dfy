/**
 * The flush after a write retries without submitting (examples/integrity/transfer.c:125). Exactly
 * which transfers can hang there, by the number of commands and the ring size.
 */
module Flushing {
  import opened Protocol
  import opened Safety
  import opened Jobs
  import opened Transfer

  /** A caller can check this before starting: commands of the producer, entries of its ring. */
  predicate MayStick(commands: nat, size: nat) {
    commands == size - 1 || commands >= 2 * (size - 1)
  }

  /** Program states some run of p0 reaches. */
  ghost predicate Reach(p0: Program, p: Program, io: Io) {
    exists ps, acts :: Behaviour(ps, acts, io) && ps[0] == p0 && ps[|acts|] == p
  }

  lemma ReachStart(p0: Program, io: Io)
    requires Start(p0, io)
    ensures Reach(p0, p0, io)
  {
    var ps: seq<Program>, acts: seq<Act> := [p0], [];
    assert Behaviour(ps, acts, io);
  }

  lemma ReachStep(p0: Program, p: Program, a: Act, io: Io, p': Program)
    requires Reach(p0, p, io) && Step(p, a, io, p')
    ensures Reach(p0, p', io)
  {
    hide Step, Start;
    var ps: seq<Program>, acts: seq<Act> :| Behaviour(ps, acts, io) && ps[0] == p0 && ps[|acts|] == p;
    var ps', acts' := ps + [p'], acts + [a];
    forall i | 0 <= i < |acts'| ensures Step(ps'[i], acts'[i], io, ps'[i + 1]) {
      if i < |acts| { assert acts'[i] == acts[i] && Step(ps[i], acts[i], io, ps[i + 1]); }
    }
    assert Behaviour(ps', acts', io) && ps'[|acts'|] == p';
  }

  // ---------------------------------------------------------------- never stuck outside the condition

  lemma NeverStuck(p: Program, io: Io, q: nat)
    requires ProgramInv(p, io) && q < |p.prods| && !MayStick(|p.prods[q].work|, p.sys.subs[q].d.size)
    ensures !Stuck(p, q)
  {
    assert ProducerInv(p.prods[q], p.sys.subs[q], p.sys.comp, p.cons, q, io);
  }

  /** A stuck producer stays stuck whatever the other threads and the controller do. */
  lemma StuckForever(p: Program, a: Act, io: Io, p': Program, q: nat)
    requires ProgramInv(p, io) && Step(p, a, io, p') && Stuck(p, q)
    ensures Stuck(p', q)
  {
    hide BuildCommand, BuildList, CompInv, Logged, Distinct, Pending, Numbered, Issues;
    assert ProducerInv(p.prods[q], p.sys.subs[q], p.sys.comp, p.cons, q, io);
    assert Fits(p.sys.subs[q], p.sys.comp, q);
    GuardsByCounters(p.sys, Enqueue(q));
    match a
    case Produce(r) =>
      if r != q { OtherProducer(p, r, io, p', q); }
    case Consume =>
    case Controller(e) => ControllerEffect(p.sys, e, p'.sys, q);
  }

  lemma OtherProducer(p: Program, r: nat, io: Io, p': Program, q: nat)
    requires ProgramInv(p, io) && r < |p.prods| && ProducerStep(p, r, io, p') && q < |p.prods| && r != q
    ensures |p'.prods| == |p.prods| == |p'.sys.subs| && p'.prods[q] == p.prods[q] && p'.sys.subs[q] == p.sys.subs[q]
  {
    hide BuildCommand, BuildList, Inv, ProducerInv;
  }

  // ---------------------------------------------------------------- a run that sticks

  /**
   * Producer q has issued k of its commands w into a ring of n, s of them submitted and u of them
   * processed from fetch to acknowledgement; nothing is in the controller's or consumer's hands.
   */
  ghost predicate Calm(p: Program, io: Io, q: nat, w: seq<Job>, n: nat, k: nat, u: nat, s: nat) {
    && ProgramInv(p, io) && q < |p.prods|
    && p.prods[q].stage == Looping && p.prods[q].pc == k && p.prods[q].work == w
    && var b := p.sys.subs[q];
    && b.d.size == n && b.sub == s && b.upd == u == |b.fetched| && b.open.Keys == {}
    && p.cons == Waiting && p.sys.comp.deq == |p.sys.comp.posted|
  }

  lemma IssueCalm(p: Program, io: Io, q: nat, w: seq<Job>, n: nat, k: nat, u: nat, s: nat) returns (p': Program)
    requires Calm(p, io, q, w, n, k, u, s) && k < |w| && k < u + n - 1
    ensures Calm(p', io, q, w, n, k + 1, u, s) && Step(p, Produce(q), io, p')
  {
    hide BuildCommand, BuildList, CompInv, Logged, Distinct, Pending, Numbered;
    var t := p.prods[q];
    assert ProducerInv(t, p.sys.subs[q], p.sys.comp, p.cons, q, io);
    NextJobFits(p, q, io, w[k]);
    NotFull(p, q, io);
    var s' := IssuePossible(p, q, io, w[k]);
    p' := p.(sys := s', prods := p.prods[q := t.(pc := k + 1, counter := t.counter + 1)]);
    IssueIsStep(p, q, io, w[k], p');
    StepKeepsProgram(p, Produce(q), io, p');
    var _ := IssueEffect(p.sys, q, w[k], t.prp, io, s');
  }

  lemma SubmitCalm(p: Program, io: Io, q: nat, w: seq<Job>, n: nat, k: nat, u: nat, s: nat) returns (p': Program)
    requires Calm(p, io, q, w, n, k, u, s) && k < |w| && k == u + n - 1
    ensures Calm(p', io, q, w, n, k, u, k) && Step(p, Produce(q), io, p')
  {
    hide BuildCommand, BuildList, CompInv, Logged, Distinct, Pending, Numbered;
    assert ProducerInv(p.prods[q], p.sys.subs[q], p.sys.comp, p.cons, q, io);
    assert Fits(p.sys.subs[q], p.sys.comp, q);
    GuardsByCounters(p.sys, Enqueue(q));
    SubmitKeeps(p.sys.subs[q]);
    p' := p.(sys := Apply(p.sys, Submit(q)));
    StepKeepsProgram(p, Produce(q), io, p');
  }

  /** Producer q as in Calm but with the system elsewhere: it waits while others move. */
  ghost predicate Holding(p: Program, io: Io, q: nat, w: seq<Job>, n: nat, k: nat, s: nat) {
    && ProgramInv(p, io) && q < |p.prods|
    && p.prods[q].stage == Looping && p.prods[q].pc == k && p.prods[q].work == w
    && p.sys.subs[q].d.size == n && p.sys.subs[q].sub == s
  }

  lemma FetchPost(p0: Program, p: Program, io: Io, q: nat, w: seq<Job>, n: nat, k: nat, u: nat, s: nat) returns (p': Program)
    requires Reach(p0, p, io) && Calm(p, io, q, w, n, k, u, s) && u < s
    ensures Reach(p0, p', io) && Holding(p', io, q, w, n, k, s) && p'.cons == Waiting
    ensures var b, c := p'.sys.subs[q], p'.sys.comp;
            b.upd == u && |b.fetched| == u + 1 && b.open.Keys == {} && |c.posted| == c.deq + 1 && c.posted[c.deq].sqid == q
  {
    hide BuildCommand, BuildList, Logged, Distinct, Pending, Numbered;
    GuardsByCounters(p.sys, Fetch(q));
    var p1 := p.(sys := Apply(p.sys, Fetch(q)));
    ReachStep(p0, p, Controller(Fetch(q)), io, p1);
    StepKeepsProgram(p, Controller(Fetch(q)), io, p1);
    assert p1.sys.subs[q].open.Keys == {u};
    GuardsByCounters(p1.sys, Post(q, u));
    p' := p1.(sys := Apply(p1.sys, Post(q, u)));
    ReachStep(p0, p1, Controller(Post(q, u)), io, p');
    StepKeepsProgram(p1, Controller(Post(q, u)), io, p');
  }

  /** The consumer takes the one posted entry and updates q's head. */
  lemma ConsumeFront(p0: Program, p: Program, io: Io, q: nat, w: seq<Job>, n: nat, k: nat, u: nat, s: nat) returns (p': Program)
    requires Reach(p0, p, io) && Holding(p, io, q, w, n, k, s) && p.cons == Waiting
    requires var b, c := p.sys.subs[q], p.sys.comp;
             b.upd == u && |b.fetched| == u + 1 && b.open.Keys == {} && |c.posted| == c.deq + 1 && c.posted[c.deq].sqid == q
    ensures Reach(p0, p', io) && Holding(p', io, q, w, n, k, s) && p'.cons == Wrapping(q)
    ensures var b, c := p'.sys.subs[q], p'.sys.comp;
            b.upd == u + 1 == |b.fetched| && b.open.Keys == {} && |c.posted| == c.deq
  {
    hide BuildCommand, BuildList, Logged, Distinct, Pending, Numbered;
    GuardsByCounters(p.sys, Dequeue);
    DequeueKeeps(p.sys.comp);
    var p1 := p.(sys := Apply(p.sys, Dequeue), cons := Updating(q));
    ReachStep(p0, p, Consume, io, p1);
    StepKeepsProgram(p, Consume, io, p1);
    assert ProducerInv(p1.prods[q], p1.sys.subs[q], p1.sys.comp, p1.cons, q, io);
    GuardsByCounters(p1.sys, HeadUp(q));
    p' := p1.(sys := Apply(p1.sys, HeadUp(q)), cons := Wrapping(q));
    ReachStep(p0, p1, Consume, io, p');
    StepKeepsProgram(p1, Consume, io, p');
  }

  /** The wrap test of nvm_sq_update. */
  lemma WrapHead(p0: Program, p: Program, io: Io, q: nat, w: seq<Job>, n: nat, k: nat, u: nat, s: nat) returns (p': Program)
    requires Reach(p0, p, io) && Holding(p, io, q, w, n, k, s) && p.cons == Wrapping(q)
    requires var b, c := p.sys.subs[q], p.sys.comp; b.upd == u == |b.fetched| && b.open.Keys == {} && |c.posted| == c.deq
    ensures Reach(p0, p', io) && Holding(p', io, q, w, n, k, s) && p'.cons == Acknowledging
    ensures var b, c := p'.sys.subs[q], p'.sys.comp; b.upd == u == |b.fetched| && b.open.Keys == {} && |c.posted| == c.deq
  {
    hide BuildCommand, BuildList, Logged, Distinct, Pending, Numbered;
    ShapedByInv(p.sys);
    p' := p.(sys := if p.sys.subs[q].d.head == n then Apply(p.sys, HeadWrap(q)) else p.sys, cons := Acknowledging);
    ReachStep(p0, p, Consume, io, p');
    StepKeepsProgram(p, Consume, io, p');
  }

  lemma ConsumeOne(p0: Program, p: Program, io: Io, q: nat, w: seq<Job>, n: nat, k: nat, u: nat, s: nat) returns (p': Program)
    requires Reach(p0, p, io) && Holding(p, io, q, w, n, k, s) && p.cons == Waiting
    requires var b, c := p.sys.subs[q], p.sys.comp;
             b.upd == u && |b.fetched| == u + 1 && b.open.Keys == {} && |c.posted| == c.deq + 1 && c.posted[c.deq].sqid == q
    ensures Reach(p0, p', io) && Calm(p', io, q, w, n, k, u + 1, s)
  {
    hide BuildCommand, BuildList, Logged, Distinct, Pending, Numbered;
    var p2 := ConsumeFront(p0, p, io, q, w, n, k, u, s);
    var p3 := WrapHead(p0, p2, io, q, w, n, k, u + 1, s);
    ShapedByInv(p3.sys);
    p' := p3.(sys := Apply(p3.sys, Ack), cons := Waiting, counter := p3.counter + 1);
    ReachStep(p0, p3, Consume, io, p');
    StepKeepsProgram(p3, Consume, io, p');
  }

  /** From k issued to k' issued, without submitting. */
  lemma {:induction false} Fill(p0: Program, p: Program, io: Io, q: nat, w: seq<Job>, n: nat, k: nat, u: nat, s: nat, k': nat)
    returns (p': Program)
    requires Reach(p0, p, io) && Calm(p, io, q, w, n, k, u, s) && k <= k' <= |w| && k' <= u + n - 1
    ensures Reach(p0, p', io) && Calm(p', io, q, w, n, k', u, s)
    decreases k' - k
  {
    if k == k' { p' := p; } else {
      var p1 := IssueCalm(p, io, q, w, n, k, u, s);
      ReachStep(p0, p, Produce(q), io, p1);
      p' := Fill(p0, p1, io, q, w, n, k + 1, u, s, k');
    }
  }

  /** Everything submitted gets processed. */
  lemma {:induction false} Drain(p0: Program, p: Program, io: Io, q: nat, w: seq<Job>, n: nat, k: nat, u: nat, s: nat)
    returns (p': Program)
    requires Reach(p0, p, io) && Calm(p, io, q, w, n, k, u, s) && u <= s
    ensures Reach(p0, p', io) && Calm(p', io, q, w, n, k, s, s)
    decreases s - u
  {
    if u == s { p' := p; } else {
      var p1 := FetchPost(p0, p, io, q, w, n, k, u, s);
      var p2 := ConsumeOne(p0, p1, io, q, w, n, k, u, s);
      p' := Drain(p0, p2, io, q, w, n, k, u + 1, s);
    }
  }

  /** A full, just submitted ring at any k' >= k: process one, issue one, submit, and again. */
  lemma {:induction false} Slide(p0: Program, p: Program, io: Io, q: nat, w: seq<Job>, n: nat, k: nat, k': nat)
    returns (p': Program)
    requires k >= n - 1 >= 1 && Reach(p0, p, io) && Calm(p, io, q, w, n, k, k - (n - 1), k) && k <= k' < |w|
    ensures Reach(p0, p', io) && Calm(p', io, q, w, n, k', k' - (n - 1), k')
    decreases k' - k
  {
    var u := k - (n - 1);
    if k == k' { p' := p; } else {
      var p1 := FetchPost(p0, p, io, q, w, n, k, u, k);
      var p2 := ConsumeOne(p0, p1, io, q, w, n, k, u, k);
      var p3 := IssueCalm(p2, io, q, w, n, k, u + 1, k);
      ReachStep(p0, p2, Produce(q), io, p3);
      var p4 := SubmitCalm(p3, io, q, w, n, k + 1, u + 1, k);
      ReachStep(p0, p3, Produce(q), io, p4);
      p' := Slide(p0, p4, io, q, w, n, k + 1, k');
    }
  }

  lemma StartCalm(p: Program, io: Io, q: nat)
    requires Start(p, io) && q < |p.prods|
    ensures Calm(p, io, q, p.prods[q].work, p.sys.subs[q].d.size, 0, 0, 0) && p.sys.subs[q].d.size >= 2
  {
    StartInv(p, io);
    assert StartProducer(p.prods[q], p.sys.subs[q], io);
    assert FreshSub(p.sys.subs[q]);
  }

  /** All issued, none of the last n - 1 submitted: the producer reaches its flush and is stuck. */
  lemma ReachFlush(p0: Program, p: Program, io: Io, q: nat, w: seq<Job>, n: nat, u: nat) returns (p': Program)
    requires io.write && Reach(p0, p, io) && Calm(p, io, q, w, n, |w|, u, u) && |w| == u + n - 1
    ensures Reach(p0, p', io) && Stuck(p', q)
  {
    assert ProducerInv(p.prods[q], p.sys.subs[q], p.sys.comp, p.cons, q, io);
    p' := p.(prods := p.prods[q := p.prods[q].(stage := Flushing)]);
    ReachStep(p0, p, Produce(q), io, p');
  }

  lemma CanStick(p0: Program, io: Io, q: nat) returns (p': Program)
    requires Start(p0, io) && io.write && q < |p0.prods|
    requires MayStick(|p0.prods[q].work|, p0.sys.subs[q].d.size)
    ensures Reach(p0, p', io) && Stuck(p', q)
  {
    var w, n := p0.prods[q].work, p0.sys.subs[q].d.size;
    StartCalm(p0, io, q);
    ReachStart(p0, io);
    var p1 := Fill(p0, p0, io, q, w, n, 0, 0, 0, n - 1);
    if |w| == n - 1 {
      p' := ReachFlush(p0, p1, io, q, w, n, 0);
    } else {
      var p2 := SubmitCalm(p1, io, q, w, n, n - 1, 0, 0);
      ReachStep(p0, p1, Produce(q), io, p2);
      var k := |w| - (n - 1);
      var p3 := Slide(p0, p2, io, q, w, n, n - 1, k);
      var p4 := Drain(p0, p3, io, q, w, n, k, k - (n - 1), k);
      var p5 := Fill(p0, p4, io, q, w, n, k, k, k, |w|);
      p' := ReachFlush(p0, p5, io, q, w, n, k);
    }
  }

  lemma {:induction false} PlanKept(ps: seq<Program>, acts: seq<Act>, io: Io, i: nat, q: nat)
    requires Behaviour(ps, acts, io) && i < |ps| && q < |ps[0].prods|
    ensures q < |ps[i].prods| == |ps[i].sys.subs| && q < |ps[0].sys.subs|
    ensures ps[i].prods[q].work == ps[0].prods[q].work && ps[i].sys.subs[q].d.size == ps[0].sys.subs[q].d.size
  {
    if i > 0 {
      PlanKept(ps, acts, io, i - 1, q);
      BehaviourKeeps(ps, acts, io, i - 1);
      var p, a, p' := ps[i - 1], acts[i - 1], ps[i];
      assert Step(p, a, io, p');
      StepKeepsPlan(p, a, io, p', q);
    }
  }

  lemma StepKeepsPlan(p: Program, a: Act, io: Io, p': Program, q: nat)
    requires ProgramInv(p, io) && Step(p, a, io, p') && q < |p.prods|
    ensures q < |p'.prods| == |p'.sys.subs|
    ensures p'.prods[q].work == p.prods[q].work && p'.sys.subs[q].d.size == p.sys.subs[q].d.size
  {
    hide BuildCommand, BuildList, Fits, CompInv, Logged, Distinct;
    StepKeepsProgram(p, a, io, p');
    match a
    case Produce(r) => if r == q { SameProducer(p, q, io, p'); } else { OtherProducer(p, r, io, p', q); }
    case Consume =>
    case Controller(e) => ControllerEffect(p.sys, e, p'.sys, q);
  }

  lemma SameProducer(p: Program, q: nat, io: Io, p': Program)
    requires ProgramInv(p, io) && q < |p.prods| && ProducerStep(p, q, io, p')
    ensures |p'.prods| == |p.prods| == |p'.sys.subs|
    ensures p'.prods[q].work == p.prods[q].work && p'.sys.subs[q].d.size == p.sys.subs[q].d.size
  {
    hide BuildCommand, BuildList, Inv;
  }

  /**
   * Exactly which writes can hang: some run of a started write transfer sticks producer q at its
   * flush if and only if its commands number size - 1 or at least 2 * (size - 1).
   */
  lemma FlushSticksExactly(p0: Program, io: Io, q: nat)
    requires Start(p0, io) && io.write && q < |p0.prods|
    ensures q < |p0.sys.subs|
    ensures (exists p :: Reach(p0, p, io) && Stuck(p, q)) <==> MayStick(|p0.prods[q].work|, p0.sys.subs[q].d.size)
  {
    if MayStick(|p0.prods[q].work|, p0.sys.subs[q].d.size) {
      var p := CanStick(p0, io, q);
    }
    forall p | Reach(p0, p, io) && Stuck(p, q)
      ensures MayStick(|p0.prods[q].work|, p0.sys.subs[q].d.size)
    {
      var ps: seq<Program>, acts: seq<Act> :| Behaviour(ps, acts, io) && ps[0] == p0 && ps[|acts|] == p;
      BehaviourKeeps(ps, acts, io, |acts|);
      PlanKept(ps, acts, io, |acts|, q);
      if !MayStick(|p0.prods[q].work|, p0.sys.subs[q].d.size) { NeverStuck(p, io, q); }
    }
  }
}
