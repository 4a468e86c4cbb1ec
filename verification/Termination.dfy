/** A transfer outside the flush condition cannot hang: it never deadlocks and its work is bounded. */
module Termination {
  import opened Ring
  import opened Protocol
  import opened Safety
  import opened Jobs
  import opened Transfer
  import opened Flushing

  function StageRank(g: Stage): nat {
    match g case Looping => 0 case Flushing => 1 case Finishing => 2 case Done => 3
  }

  function ConsumerRank(c: Consumer): nat {
    match c case Waiting => 0 case Updating(_) => 1 case Wrapping(_) => 2 case Acknowledging => 3
  }

  /** How far one producer and its queue have come, and how far they can. */
  function Weight(t: Producer, b: Sub): nat { t.counter + StageRank(t.stage) + b.sub + |b.fetched| }

  function MaxWeight(t: Producer, io: Io): nat { 3 * Planned(t, io) + 3 }

  function Weights(prods: seq<Producer>, subs: seq<Sub>): nat
    requires |prods| == |subs|
  {
    if prods == [] then 0 else Weights(prods[..|prods| - 1], subs[..|prods| - 1]) + Weight(prods[|prods| - 1], subs[|prods| - 1])
  }

  function MaxWeights(prods: seq<Producer>, io: Io): nat {
    if prods == [] then 0 else MaxWeights(prods[..|prods| - 1], io) + MaxWeight(prods[|prods| - 1], io)
  }

  function PlannedAll(prods: seq<Producer>, io: Io): nat {
    if prods == [] then 0 else PlannedAll(prods[..|prods| - 1], io) + Planned(prods[|prods| - 1], io)
  }

  function Measure(p: Program): nat
    requires |p.prods| == |p.sys.subs|
  {
    Weights(p.prods, p.sys.subs) + |p.sys.comp.posted| + 4 * p.counter + ConsumerRank(p.cons)
  }

  /** The bound depends on the plans alone. */
  function Bound(prods: seq<Producer>, io: Io): nat { MaxWeights(prods, io) + 5 * PlannedAll(prods, io) + 3 }

  // ---------------------------------------------------------------- the measure is bounded

  lemma {:induction false} WeightsBounded(p: Program, io: Io, m: nat)
    requires ProgramInv(p, io) && m <= |p.prods|
    ensures Weights(p.prods[..m], p.sys.subs[..m]) <= MaxWeights(p.prods[..m], io)
    ensures Total(p.prods[..m]) <= PlannedAll(p.prods[..m], io)
  {
    hide BuildCommand, BuildList, CompInv, Logged, Distinct;
    if m > 0 {
      WeightsBounded(p, io, m - 1);
      assert p.prods[..m][..m - 1] == p.prods[..m - 1] && p.sys.subs[..m][..m - 1] == p.sys.subs[..m - 1];
      assert ProducerInv(p.prods[m - 1], p.sys.subs[m - 1], p.sys.comp, p.cons, m - 1, io);
      assert Fits(p.sys.subs[m - 1], p.sys.comp, m - 1);
    }
  }

  lemma MeasureBounded(p: Program, io: Io)
    requires ProgramInv(p, io)
    ensures Measure(p) <= Bound(p.prods, io)
  {
    hide BuildCommand, BuildList, Fits, Logged, Distinct;
    var m := |p.prods|;
    WeightsBounded(p, io, m);
    PostedSum(p, io);
    SumsAgree(p.sys.comp.posted, p.prods, m);
    assert p.prods[..m] == p.prods && p.sys.subs[..m] == p.sys.subs;
  }

  // ---------------------------------------------------------------- and grows with every advancing step

  /** Weights of two program states that agree but for queue q. */
  lemma {:induction false} WeightsUpdate(prods: seq<Producer>, subs: seq<Sub>, q: nat, t: Producer, b: Sub)
    requires q < |prods| == |subs|
    ensures Weights(prods[q := t], subs[q := b]) == Weights(prods, subs) - Weight(prods[q], subs[q]) + Weight(t, b)
  {
    var i := |prods| - 1;
    if q == i {
      assert prods[q := t][..i] == prods[..i] && subs[q := b][..i] == subs[..i];
    } else {
      WeightsUpdate(prods[..i], subs[..i], q, t, b);
      assert prods[q := t][..i] == prods[..i][q := t] && subs[q := b][..i] == subs[..i][q := b];
    }
  }

  lemma ProducerGrows(p: Program, q: nat, io: Io, p': Program)
    requires ProgramInv(p, io) && q < |p.prods| && ProducerStep(p, q, io, p') && p' != p
    ensures |p'.prods| == |p'.sys.subs| && Measure(p') > Measure(p)
  {
    hide BuildCommand, BuildList, Link, Logged, Distinct, Pending, Numbered, Weights;
    ProducerChange(p, q, io, p');
    WeightsUpdate(p.prods, p.sys.subs, q, p'.prods[q], p'.sys.subs[q]);
  }

  /** A producer step that changes anything moves its own weight up and touches nothing else. */
  lemma ProducerChange(p: Program, q: nat, io: Io, p': Program)
    requires ProgramInv(p, io) && q < |p.prods| && ProducerStep(p, q, io, p') && p' != p
    ensures |p'.prods| == |p.prods| && |p'.sys.subs| == |p.sys.subs|
    ensures p'.sys.subs == p.sys.subs[q := p'.sys.subs[q]] && p'.prods == p.prods[q := p'.prods[q]]
    ensures p'.sys.comp == p.sys.comp && p'.counter == p.counter && p'.cons == p.cons
    ensures Weight(p'.prods[q], p'.sys.subs[q]) > Weight(p.prods[q], p.sys.subs[q])
  {
    hide BuildCommand, BuildList, Link, Logged, Distinct, Pending, Numbered;
    var t, b := p.prods[q], p.sys.subs[q];
    assert ProducerInv(t, b, p.sys.comp, p.cons, q, io);
    assert Fits(b, p.sys.comp, q);
    assert p.sys.subs[q := b] == p.sys.subs && p.prods[q := t] == p.prods;
    if t.stage == Looping && t.pc < |t.work| && !Full(b.d) { var _ := IssueEffect(p.sys, q, t.work[t.pc], t.prp, io, p'.sys); }
    if t.stage == Flushing && !Full(b.d) { var _ := IssueEffect(p.sys, q, Flush, t.prp, io, p'.sys); }
    if (t.stage == Looping && t.pc < |t.work| && Full(b.d)) || t.stage == Finishing { SubmitGrows(b); }
  }

  lemma SubmitGrows(b: Sub)
    requires SubInv(b)
    ensures SubSubmit(b) == b || SubSubmit(b).sub > b.sub
    ensures SubSubmit(b).sub >= b.sub && SubSubmit(b).fetched == b.fetched
  {
    SqByCounters(b.d, |b.issued|, b.sub, b.upd);
  }

  lemma ControllerGrows(p: Program, e: Event, io: Io, p': Program)
    requires ProgramInv(p, io) && (e.Fetch? || e.Post?) && Takes(p.sys, e, p'.sys) && p' == p.(sys := p'.sys)
    ensures |p'.prods| == |p'.sys.subs| && Measure(p') > Measure(p)
  {
    hide Fits, CompInv, Logged, Distinct;
    assert p.prods[e.q := p.prods[e.q]] == p.prods;
    WeightsUpdate(p.prods, p.sys.subs, e.q, p.prods[e.q], p'.sys.subs[e.q]);
  }

  /** Updating a head moves no weight. */
  lemma HeadWeights(p: Program, q: nat, d: Desc, upd: nat)
    requires q < |p.sys.subs| == |p.prods|
    ensures Weights(p.prods, p.sys.subs[q := p.sys.subs[q].(d := d, upd := upd)]) == Weights(p.prods, p.sys.subs)
  {
    assert p.prods[q := p.prods[q]] == p.prods;
    WeightsUpdate(p.prods, p.sys.subs, q, p.prods[q], p.sys.subs[q].(d := d, upd := upd));
  }

  lemma ConsumerGrows(p: Program, io: Io, p': Program)
    requires ProgramInv(p, io) && ConsumerStep(p, p')
    ensures |p'.prods| == |p'.sys.subs| && Measure(p') > Measure(p)
  {
    hide Fits, CompInv, Logged, Distinct, Weights, Count;
    match p.cons
    case Waiting =>
    case Updating(q) => var b := p.sys.subs[q]; HeadWeights(p, q, HeadIncrement(b.d), b.upd + 1);
    case Wrapping(q) => var b := p.sys.subs[q]; HeadWeights(p, q, Ring.HeadWrap(b.d), b.upd);
    case Acknowledging =>
  }

  lemma AdvancingGrows(p: Program, a: Act, io: Io, p': Program)
    requires ProgramInv(p, io) && Advances(p, a, io, p')
    ensures |p'.prods| == |p'.sys.subs| && Measure(p') > Measure(p)
  {
    match a
    case Produce(q) => ProducerGrows(p, q, io, p');
    case Consume => ConsumerGrows(p, io, p');
    case Controller(e) => ControllerGrows(p, e, io, p');
  }

  /** Steps that do not advance are retries and rereads; they do not lower the measure. */
  lemma OtherStepKeepsMeasure(p: Program, a: Act, io: Io, p': Program)
    requires ProgramInv(p, io) && Step(p, a, io, p') && !Advances(p, a, io, p')
    ensures |p'.prods| == |p'.sys.subs| && Measure(p') == Measure(p)
  {
    if p' != p {
      var e := a.e;
      assert p.prods[e.q := p.prods[e.q]] == p.prods;
      WeightsUpdate(p.prods, p.sys.subs, e.q, p.prods[e.q], p'.sys.subs[e.q]);
    }
  }

  // ---------------------------------------------------------------- every run

  /** Advancing steps of a run. */
  ghost function Advancing(ps: seq<Program>, acts: seq<Act>, io: Io, n: nat): nat
    requires n <= |acts| < |ps|
  {
    if n == 0 then 0 else Advancing(ps, acts, io, n - 1) + (if Advances(ps[n - 1], acts[n - 1], io, ps[n]) then 1 else 0)
  }

  lemma {:induction false} AdvancingMeasured(ps: seq<Program>, acts: seq<Act>, io: Io, n: nat)
    requires Behaviour(ps, acts, io) && n <= |acts|
    ensures |ps[n].prods| == |ps[n].sys.subs| && Advancing(ps, acts, io, n) <= Measure(ps[n])
  {
    hide Step, Start, ProgramInv, Advances;
    BehaviourKeeps(ps, acts, io, n);
    InvShape(ps[n], io);
    if n > 0 {
      AdvancingMeasured(ps, acts, io, n - 1);
      BehaviourKeeps(ps, acts, io, n - 1);
      var p, a, p' := ps[n - 1], acts[n - 1], ps[n];
      assert Step(p, a, io, p');
      if Advances(p, a, io, p') { AdvancingGrows(p, a, io, p'); } else { OtherStepKeepsMeasure(p, a, io, p'); }
    }
  }

  lemma InvShape(p: Program, io: Io)
    requires ProgramInv(p, io)
    ensures |p.prods| == |p.sys.subs|
  {}

  lemma {:induction false} BoundKept(ps: seq<Program>, acts: seq<Act>, io: Io, m: nat)
    requires Behaviour(ps, acts, io) && m <= |ps[0].prods|
    ensures m <= |ps[|acts|].prods|
    ensures MaxWeights(ps[|acts|].prods[..m], io) == MaxWeights(ps[0].prods[..m], io)
    ensures PlannedAll(ps[|acts|].prods[..m], io) == PlannedAll(ps[0].prods[..m], io)
  {
    hide Step, Start, ProgramInv;
    if m > 0 {
      BoundKept(ps, acts, io, m - 1);
      PlanKept(ps, acts, io, |acts|, m - 1);
      assert ps[|acts|].prods[..m][..m - 1] == ps[|acts|].prods[..m - 1];
      assert ps[0].prods[..m][..m - 1] == ps[0].prods[..m - 1];
    }
  }

  lemma {:induction false} SameCount(ps: seq<Program>, acts: seq<Act>, io: Io, i: nat)
    requires Behaviour(ps, acts, io) && i < |ps|
    ensures |ps[i].prods| == |ps[0].prods|
  {
    hide Start, BuildCommand, BuildList;
    if i > 0 {
      SameCount(ps, acts, io, i - 1);
      assert Step(ps[i - 1], acts[i - 1], io, ps[i]);
    }
  }

  /**
   * Total progress: in every run of every started transfer at most Bound(plans) steps advance, and
   * as long as transfer() cannot return, some step can advance - provided no write has a number of
   * commands that may stick.
   */
  lemma TransferTerminates(ps: seq<Program>, acts: seq<Act>, io: Io)
    requires Behaviour(ps, acts, io)
    ensures Advancing(ps, acts, io, |acts|) <= Bound(ps[0].prods, io)
    ensures |ps[0].sys.subs| == |ps[0].prods|
    ensures (!io.write || forall q | 0 <= q < |ps[0].prods| :: !MayStick(|ps[0].prods[q].work|, ps[0].sys.subs[q].d.size)) ==>
              Returned(ps[|acts|]) || CanAdvance(ps[|acts|], io)
  {
    hide Step, Start, ProgramInv, MayStick;
    var n, p := |acts|, ps[|acts|];
    BehaviourKeeps(ps, acts, io, n);
    BehaviourKeeps(ps, acts, io, 0);
    InvShape(ps[0], io);
    AdvancingMeasured(ps, acts, io, n);
    MeasureBounded(p, io);
    SameCount(ps, acts, io, n);
    BoundKept(ps, acts, io, |p.prods|);
    assert p.prods[..|p.prods|] == p.prods && ps[0].prods[..|p.prods|] == ps[0].prods;
    if !Returned(p) && (!io.write || forall q | 0 <= q < |ps[0].prods| :: !MayStick(|ps[0].prods[q].work|, ps[0].sys.subs[q].d.size)) {
      forall q | 0 <= q < |p.prods| ensures !Stuck(p, q) {
        PlanKept(ps, acts, io, n, q);
        if io.write { NeverStuck(p, io, q); } else { ReadNeverFlushes(p, io, q); }
      }
      Progress(p, io);
    }
  }

  lemma ReadNeverFlushes(p: Program, io: Io, q: nat)
    requires ProgramInv(p, io) && !io.write && q < |p.prods|
    ensures !Stuck(p, q)
  {
    assert ProducerInv(p.prods[q], p.sys.subs[q], p.sys.comp, p.cons, q, io);
  }
}
