/**
 * The threads of benchmarks/latency/main.cu together: one windowed sender per queue, each calling
 * wait() on the barrier they share between filling a window and submitting it.
 */
module Bench {
  import opened Ring
  import opened Protocol
  import opened WindowJobs
  import Barrier
  import Safety
  import Tiling
  import Transfer
  import Window

  /** Queue t's thread is senders[t]; while in wait() it is also barrier.threads[t]. */
  datatype Bench = Bench(senders: seq<Window.Sender>, barrier: Barrier.State)

  /** A step of a thread, or of the controller on its queue. */
  datatype Act = Act(thread: nat, what: Window.Act)

  /** The window is filled: the next thing the thread does is to call wait(), or to go on in it. */
  predicate AtBarrier(w: Window.Sender, j: Load) {
    w.at == Window.Filling && !(w.num < j.depth && w.from != j.total)
  }

  /** A step of wait(). */
  predicate Waits(b: Bench, a: Act, js: seq<Load>)
    requires a.thread < |js| == |b.senders|
  {
    a.what == Window.Driver && AtBarrier(b.senders[a.thread], js[a.thread])
  }

  /** A thread at the barrier takes the steps of wait(), and is past it when the call returns. */
  ghost predicate Step(b: Bench, a: Act, js: seq<Load>, b': Bench) {
    && a.thread < |js| == |b.senders| == |b'.senders| == |b.barrier.threads|
    && var t := a.thread;
    && b'.senders == b.senders[t := b'.senders[t]]
    && if Waits(b, a, js) then
         && b'.barrier == Barrier.Step(b.barrier, t)
         && if b'.barrier.threads[t].at == Barrier.Outside then Window.Step(b.senders[t], a.what, js[t], b'.senders[t])
            else b'.senders[t] == b.senders[t]
       else b'.barrier == b.barrier && Window.Step(b.senders[t], a.what, js[t], b'.senders[t])
  }

  ghost predicate Start(b: Bench, js: seq<Load>) {
    && |js| == |b.senders| == |b.barrier.threads| && Barrier.Start(b.barrier)
    && (forall t: nat | t < |js| :: Window.Start(b.senders[t], js[t]))
  }

  ghost predicate Behaviour(bs: seq<Bench>, acts: seq<Act>, js: seq<Load>) {
    && |bs| == |acts| + 1 && Start(bs[0], js)
    && (forall i {:trigger acts[i]} | 0 <= i < |acts| :: Step(bs[i], acts[i], js, bs[i + 1]))
  }

  /** Checked before starting: no queue's window can outgrow its ring. */
  ghost predicate AllFit(b: Bench, js: seq<Load>) {
    |js| == |b.senders| && forall t: nat | t < |js| :: FitsOn(b.senders[t], js[t])
  }

  ghost predicate FitsOn(w: Window.Sender, j: Load) {
    |w.sys.subs| == 1 && Window.Fits(j, w.sys.subs[0].d.size)
  }

  predicate Done(b: Bench) { forall w <- b.senders :: w.at == Window.Finished }

  // ---------------------------------------------------------------- windows

  /** The windows of one repetition. */
  function Windows(total: nat, depth: nat): nat {
    if depth == 0 then 0 else Tiling.Ceil(total, depth)
  }

  /** The calls of wait() a thread makes. */
  function Calls(j: Load): nat { j.reps * Windows(j.total, j.depth) }

  predicate AllAble(js: seq<Load>) { forall j <- js :: Window.Able(j) }

  /** Every thread calls wait() as often as the first. */
  predicate SameCalls(js: seq<Load>) { forall j <- js :: Calls(j) == Calls(js[0]) }

  /** The last window takes the rest, any other a full depth. */
  lemma NextWindow(total: nat, depth: nat)
    ensures total == 0 || depth == 0 ==> Windows(total, depth) == 0
    ensures 0 < total <= depth ==> Windows(total, depth) == 1
    ensures total >= depth > 0 ==> Windows(total, depth) == 1 + Windows(total - depth, depth)
  {
    if depth == 0 {}
    else if total >= depth { Tiling.CeilShift(total, 1, depth); }
    else if total > 0 { Tiling.CeilUnique(total, depth, 1); }
    else { Tiling.CeilUnique(total, depth, 0); }
  }

  /** Windows this repetition still has to take through the barrier. */
  function Left(w: Window.Sender, j: Load): nat {
    match w.at
    case Filling => Windows(if w.num <= w.from <= j.total then j.total - w.from + w.num else 0, j.depth)
    case Submitting => Windows(if w.from <= j.total then j.total - w.from else 0, j.depth)
    case Collecting => Windows(if w.from <= j.total then j.total - w.from else 0, j.depth)
    case Freeing => Windows(if w.from <= j.total then j.total - w.from else 0, j.depth)
    case _ => 0
  }

  /** Repetitions after this one. */
  function RepsLeft(w: Window.Sender, j: Load): nat { if w.rep < j.reps then j.reps - w.rep - 1 else 0 }

  function ToGo(w: Window.Sender, j: Load): nat { Left(w, j) + RepsLeft(w, j) * Windows(j.total, j.depth) }

  // ---------------------------------------------------------------- invariant

  ghost predicate SenderInv(w: Window.Sender, j: Load) {
    Window.WindowInv(w, j) && FitsOn(w, j) && Window.Busy(w, j)
  }

  /** A thread is inside wait() only at the barrier, and has returned once for each window past it. */
  ghost predicate Linked(w: Window.Sender, x: Barrier.Thread, j: Load) {
    (x.at != Barrier.Outside ==> AtBarrier(w, j)) && x.returned + ToGo(w, j) == Calls(j)
  }

  ghost predicate BenchInv(b: Bench, js: seq<Load>) {
    && |js| == |b.senders| == |b.barrier.threads| && Barrier.Inv(b.barrier)
    && (forall t: nat | t < |js| :: SenderInv(b.senders[t], js[t]))
    && (forall t: nat | t < |js| :: Linked(b.senders[t], b.barrier.threads[t], js[t]))
  }

  /** What windows left depend on. */
  ghost predicate Counts(w: Window.Sender, j: Load) {
    && w.num <= w.from <= j.total && w.num <= j.depth && w.at != Window.Thrown
    && (if w.at == Window.Finished then w.rep == j.reps else w.rep < j.reps)
    && (w.at == Window.Filling ==> w.num > 0 || w.from != j.total)
    && (w.at == Window.Submitting || w.at == Window.Collecting || w.at == Window.Freeing ==> w.num >= 1)
    && (w.at == Window.FlushFreeing ==> w.num == 0)
  }

  lemma CountsOf(w: Window.Sender, j: Load)
    requires SenderInv(w, j)
    ensures Counts(w, j)
  {
    hide Safety.Inv, Window.Sent, PrpPages;
  }

  /** Place and counts after a step of the driver, whatever happens to the rings. */
  ghost predicate Moved(w: Window.Sender, j: Load, w': Window.Sender) {
    match w.at
    case Filling =>
      if AtBarrier(w, j) then w'.at == Window.Submitting && w'.rep == w.rep && w'.from == w.from && w'.num == w.num
      else w'.at == Window.Thrown || (w'.at == w.at && w'.rep == w.rep && w'.from == w.from + 1 && w'.num == w.num + 1)
    case Submitting => w'.at == Window.Collecting && w'.rep == w.rep && w'.from == w.from && w'.num == w.num
    case Collecting =>
      && w'.rep == w.rep && w'.from == w.from
      && ((w'.at == Window.Freeing && w'.num == w.num)
          || (w'.num == 0 && w'.at == if w.from != j.total then Window.Filling else Window.FlushFilling))
    case Freeing => w'.at == Window.Collecting && w'.rep == w.rep && w'.from == w.from && w'.num == w.num
    case FlushFilling => w'.at == Window.Thrown || (w'.at == Window.FlushSubmitting && w'.rep == w.rep)
    case FlushSubmitting => w'.at == Window.FlushCollecting && w'.rep == w.rep
    case FlushCollecting => w'.at == Window.FlushFreeing && w'.rep == w.rep
    case FlushFreeing => w'.at == Window.NextRepetition(w, j).at && w'.rep == w.rep + 1 && w'.from == 0 && w'.num == w.num
    case _ => false
  }

  lemma DriverMoves(w: Window.Sender, j: Load, w': Window.Sender)
    requires Window.DriverStep(w, j, w')
    ensures Moved(w, j, w')
  {
    hide Window.Takes, Window.Frees, Makes, Full, Shaped;
  }

  /** A step of a sender apart from the barrier leaves what it has to go alone. */
  lemma ToGoSame(w: Window.Sender, j: Load, w': Window.Sender)
    requires Counts(w, j) && Moved(w, j, w') && Counts(w', j) && w.num <= j.depth && !AtBarrier(w, j)
    ensures ToGo(w', j) == ToGo(w, j)
  {
    hide Windows;
    NextWindow(0, j.depth);
    if w.at == Window.FlushFreeing { RepetitionDone(w, j, w'); }
  }

  /** Past the barrier there is one window less to go. */
  lemma ToGoPassed(w: Window.Sender, j: Load, w': Window.Sender)
    requires Counts(w, j) && Moved(w, j, w') && AtBarrier(w, j) && Window.Able(j)
    ensures ToGo(w, j) == 1 + ToGo(w', j)
  {
    hide Windows;
    NextWindow(j.total - w.from + w.num, j.depth);
    NextWindow(j.total - w.from, j.depth);
  }

  /** The next repetition's windows are the first of those left. */
  lemma RepetitionDone(w: Window.Sender, j: Load, w': Window.Sender)
    requires Counts(w, j) && Moved(w, j, w') && Counts(w', j) && w.at == Window.FlushFreeing
    ensures ToGo(w', j) == ToGo(w, j)
  {
    hide Windows;
    var k, n := j.reps - w.rep - 1, Windows(j.total, j.depth);
    assert k * n == (k - 1) * n + n;
    NextWindow(0, j.depth);
  }

  // ---------------------------------------------------------------- every step keeps it

  lemma SenderKeeps(w: Window.Sender, a: Window.Act, j: Load, w': Window.Sender)
    requires SenderInv(w, j) && Window.Able(j) && Window.Step(w, a, j, w')
    ensures SenderInv(w', j) && Window.Measure(w') >= Window.Measure(w) + (if Window.Rereads(a) then 0 else 1)
  {
    hide Window.WindowInv, Window.Busy, Window.Step, Window.Measure;
    Window.StepKeepsWindow(w, a, j, w');
    Window.StepGrows(w, a, j, w');
    Window.InvOneQueue(w', j);
  }

  /** A step apart from the barrier, of a thread that is not in wait(). */
  lemma ApartKeeps(w: Window.Sender, a: Window.Act, j: Load, w': Window.Sender, x: Barrier.Thread)
    requires SenderInv(w, j) && SenderInv(w', j) && Linked(w, x, j) && Window.Step(w, a, j, w')
    requires a == Window.Driver ==> !AtBarrier(w, j)
    ensures Linked(w', x, j)
  {
    hide SenderInv, Windows, Window.DriverStep, Window.Takes;
    if a == Window.Driver {
      CountsOf(w, j);
      CountsOf(w', j);
      DriverMoves(w, j, w');
      ToGoSame(w, j, w');
    }
  }

  /** The step of wait() that returns. */
  lemma PassedKeeps(w: Window.Sender, j: Load, w': Window.Sender, x: Barrier.Thread, x': Barrier.Thread)
    requires SenderInv(w, j) && Window.Able(j) && Linked(w, x, j) && AtBarrier(w, j) && Window.Step(w, Window.Driver, j, w')
    requires x'.at == Barrier.Outside && x'.returned == x.returned + 1
    ensures Linked(w', x', j)
  {
    hide SenderInv, Windows, Window.DriverStep;
    CountsOf(w, j);
    DriverMoves(w, j, w');
    ToGoPassed(w, j, w');
  }

  /** What a step of wait() does to its thread. */
  lemma BarrierMoves(s: Barrier.State, t: nat)
    requires t < |s.threads|
    ensures var x, s' := s.threads[t], Barrier.Step(s, t);
            && |s'.threads| == |s.threads| && s'.threads == s.threads[t := s'.threads[t]]
            && var x' := s'.threads[t];
            && x'.returned == x.returned + (if x'.at == Barrier.Outside then 1 else 0)
            && (s' == s || 8 * x'.returned + Barrier.Rank(x'.at) > 8 * x.returned + Barrier.Rank(x.at))
  {}

  /** How far thread t and its controller have come, in sending and through the barrier. */
  function Share(w: Window.Sender, x: Barrier.Thread): int {
    (if |w.sys.subs| == 1 then Window.Measure(w) else 0) + 8 * x.returned + Barrier.Rank(x.at)
  }

  function Total(b: Bench, k: nat): int
    requires k <= |b.senders| == |b.barrier.threads|
  {
    if k == 0 then 0 else Total(b, k - 1) + Share(b.senders[k - 1], b.barrier.threads[k - 1])
  }

  lemma {:induction false} TotalStep(b: Bench, b': Bench, t: nat, k: nat)
    requires t < |b.senders| == |b.barrier.threads| && k <= |b.senders|
    requires |b'.senders| == |b.senders| && b'.senders == b.senders[t := b'.senders[t]]
    requires |b'.barrier.threads| == |b.senders| && b'.barrier.threads == b.barrier.threads[t := b'.barrier.threads[t]]
    ensures Total(b', k) == Total(b, k) + if t >= k then 0 else
              Share(b'.senders[t], b'.barrier.threads[t]) - Share(b.senders[t], b.barrier.threads[t])
  {
    hide Share;
    if k > 0 { TotalStep(b, b', t, k - 1); }
  }

  /** A step that changes nothing, or only reads a list again. */
  predicate Idle(b: Bench, a: Act, b': Bench) { b' == b || Window.Rereads(a.what) }

  /** The thread that steps. */
  ghost predicate KeepsThread(b: Bench, a: Act, js: seq<Load>, b': Bench) {
    && a.thread < |js| == |b'.senders| == |b'.barrier.threads| && |b.senders| == |js| == |b.barrier.threads|
    && var t := a.thread;
    && Barrier.Inv(b'.barrier)
    && b'.senders == b.senders[t := b'.senders[t]] && b'.barrier.threads == b.barrier.threads[t := b'.barrier.threads[t]]
    && SenderInv(b'.senders[t], js[t]) && Linked(b'.senders[t], b'.barrier.threads[t], js[t])
    && Share(b'.senders[t], b'.barrier.threads[t]) >= Share(b.senders[t], b.barrier.threads[t]) + (if Idle(b, a, b') then 0 else 1)
  }

  lemma ApartThread(b: Bench, a: Act, js: seq<Load>, b': Bench)
    requires a.thread < |js| == |b.senders| && Window.Able(js[a.thread]) && !Waits(b, a, js)
    requires BenchInv(b, js) && Step(b, a, js, b')
    ensures KeepsThread(b, a, js, b')
  {
    hide Barrier.Inv, SenderInv, Linked, AtBarrier, Window.Step, Window.Measure, Window.Able, Window.Rereads;
    var t := a.thread;
    var w, w', j, x := b.senders[t], b'.senders[t], js[t], b.barrier.threads[t];
    SenderKeeps(w, a.what, j, w');
    ApartKeeps(w, a.what, j, w', x);
    OneQueue(w, j);
    OneQueue(w', j);
  }

  lemma OneQueue(w: Window.Sender, j: Load)
    requires SenderInv(w, j)
    ensures |w.sys.subs| == 1
  {}

  lemma BarrierThread(b: Bench, a: Act, js: seq<Load>, b': Bench)
    requires a.thread < |js| == |b.senders| && Window.Able(js[a.thread]) && Waits(b, a, js)
    requires BenchInv(b, js) && Step(b, a, js, b')
    ensures KeepsThread(b, a, js, b')
  {
    hide Barrier.Inv, Barrier.Step, SenderInv, AtBarrier, ToGo, Calls, Window.Step, Window.Measure, Window.Able, Window.Rereads;
    var t := a.thread;
    Barrier.StepKeeps(b.barrier, t);
    BarrierMoves(b.barrier, t);
    var w, w', j, x, x' := b.senders[t], b'.senders[t], js[t], b.barrier.threads[t], b'.barrier.threads[t];
    OneQueue(w, j);
    if x'.at == Barrier.Outside {
      SenderKeeps(w, a.what, j, w');
      OneQueue(w', j);
      PassedKeeps(w, j, w', x, x');
    } else {
      assert b'.senders == b.senders;
    }
  }

  lemma StepKeeps(b: Bench, a: Act, js: seq<Load>, b': Bench)
    requires BenchInv(b, js) && AllAble(js) && Step(b, a, js, b')
    ensures BenchInv(b', js) && Total(b', |js|) >= Total(b, |js|) + (if Idle(b, a, b') then 0 else 1)
  {
    hide Barrier.Inv, Barrier.Step, SenderInv, Linked, AtBarrier, Window.Step, Share, Idle;
    var t := a.thread;
    assert js[t] in js;
    BarrierMoves(b.barrier, t);
    if Waits(b, a, js) { BarrierThread(b, a, js, b'); }
    else { ApartThread(b, a, js, b'); }
    TotalStep(b, b', t, |js|);
  }

  // ---------------------------------------------------------------- every run

  lemma StartLinked(w: Window.Sender, j: Load)
    requires Window.Start(w, j) && FitsOn(w, j)
    ensures SenderInv(w, j) && ToGo(w, j) == Calls(j) && Window.Measure(w) == 0
  {
    hide Windows, Window.WindowInv, Window.Busy, PrpPages, Safety.Fresh;
    Window.StartInv(w, j);
    Window.StartBusy(w, j);
    NextWindow(j.total, j.depth);
    var n := Windows(j.total, j.depth);
    assert j.reps > 0 ==> j.reps * n == (j.reps - 1) * n + n;
    assert n == 0 ==> j.reps * n == 0;
  }

  lemma {:induction false} TotalZero(b: Bench, k: nat)
    requires k <= |b.senders| == |b.barrier.threads|
    requires forall t: nat | t < k :: Share(b.senders[t], b.barrier.threads[t]) == 0
    ensures Total(b, k) == 0
  {
    hide Share;
    if k > 0 { TotalZero(b, k - 1); }
  }

  lemma StartInv(b: Bench, js: seq<Load>)
    requires Start(b, js) && AllFit(b, js)
    ensures BenchInv(b, js) && Total(b, |js|) == 0
  {
    hide Barrier.Inv, SenderInv, Window.Start, FitsOn, ToGo, Calls, Window.Measure;
    Barrier.StartInv(b.barrier);
    forall t: nat | t < |js|
      ensures SenderInv(b.senders[t], js[t]) && Linked(b.senders[t], b.barrier.threads[t], js[t])
              && Share(b.senders[t], b.barrier.threads[t]) == 0
    {
      StartLinked(b.senders[t], js[t]);
    }
    TotalZero(b, |js|);
  }

  /** Steps of the run's first k that are not idle. */
  function Moves(bs: seq<Bench>, acts: seq<Act>, k: nat): nat
    requires |bs| == |acts| + 1 && k <= |acts|
  {
    if k == 0 then 0 else Moves(bs, acts, k - 1) + (if Idle(bs[k - 1], acts[k - 1], bs[k]) then 0 else 1)
  }

  lemma {:induction false} BehaviourKeeps(bs: seq<Bench>, acts: seq<Act>, js: seq<Load>, i: nat)
    requires Behaviour(bs, acts, js) && AllFit(bs[0], js) && AllAble(js) && i < |bs|
    ensures BenchInv(bs[i], js) && Moves(bs, acts, i) <= Total(bs[i], |js|)
  {
    hide BenchInv, Step, Start, Total, AllFit;
    if i == 0 {
      StartInv(bs[0], js);
    } else {
      BehaviourKeeps(bs, acts, js, i - 1);
      assert Step(bs[i - 1], acts[i - 1], js, bs[i]);
      StepKeeps(bs[i - 1], acts[i - 1], js, bs[i]);
    }
  }

  /** The windows a thread has taken through the barrier. */
  function Passed(w: Window.Sender, j: Load): int { Calls(j) - ToGo(w, j) }

  /**
   * The barrier keeps the threads in step: in every run nobody submits its k-th window before every
   * other thread has filled its own k-th and called wait() for it.
   */
  lemma SubmitTogether(bs: seq<Bench>, acts: seq<Act>, js: seq<Load>, t: nat, u: nat)
    requires Behaviour(bs, acts, js) && AllFit(bs[0], js) && AllAble(js) && t < |js| && u < |js|
    ensures |bs[|acts|].senders| == |js|
    ensures var w, v := bs[|acts|].senders[t], bs[|acts|].senders[u];
            Passed(w, js[t]) <= Passed(v, js[u]) + (if AtBarrier(v, js[u]) then 1 else 0)
  {
    hide Step, Start, SenderInv, ToGo, Calls, AtBarrier, Barrier.Count, Barrier.Somebody;
    BehaviourKeeps(bs, acts, js, |acts|);
    var b := bs[|acts|];
    assert Barrier.ThreadInv(b.barrier, t) && Barrier.ThreadInv(b.barrier, u);
  }

  // ---------------------------------------------------------------- the benchmark finishes

  /** Some step that is not idle is possible. */
  ghost predicate CanMove(b: Bench, js: seq<Load>) {
    exists a, b' :: Step(b, a, js, b') && !Idle(b, a, b')
  }

  lemma AtBarrierToGo(w: Window.Sender, j: Load)
    requires SenderInv(w, j) && AtBarrier(w, j) && Window.Able(j)
    ensures ToGo(w, j) >= 1
  {
    hide SenderInv, Windows;
    CountsOf(w, j);
    NextWindow(j.total - w.from + w.num, j.depth);
  }

  lemma FinishedToGo(w: Window.Sender, j: Load)
    requires SenderInv(w, j) && w.at == Window.Finished
    ensures ToGo(w, j) == 0
  {
    hide SenderInv, Windows;
    CountsOf(w, j);
  }

  function BoundAll(js: seq<Load>, k: nat): nat
    requires k <= |js|
  {
    if k == 0 then 0 else BoundAll(js, k - 1) + Window.Bound(js[k - 1]) + 8 * Calls(js[k - 1])
  }

  lemma ShareBound(s: Barrier.State, t: nat, w: Window.Sender, j: Load)
    requires t < |s.threads| && Barrier.ThreadInv(s, t) && SenderInv(w, j) && Linked(w, s.threads[t], j) && Window.Able(j)
    ensures Share(w, s.threads[t]) <= Window.Bound(j) + 8 * Calls(j)
  {
    hide Window.Measure, Window.Bound, Window.WindowInv, Window.Busy, AtBarrier, ToGo, Calls, Window.Able;
    Window.MeasureBounded(w, j);
    if AtBarrier(w, j) { AtBarrierToGo(w, j); }
  }

  lemma {:induction false} TotalBound(b: Bench, js: seq<Load>, k: nat)
    requires BenchInv(b, js) && AllAble(js) && k <= |js|
    ensures Total(b, k) <= BoundAll(js, k)
  {
    hide SenderInv, Linked, Share, Window.Bound, Calls, Barrier.ThreadInv, Barrier.Count, Barrier.Somebody;
    if k > 0 {
      TotalBound(b, js, k - 1);
      assert js[k - 1] in js && Barrier.ThreadInv(b.barrier, k - 1);
      ShareBound(b.barrier, k - 1, b.senders[k - 1], js[k - 1]);
    }
  }

  /** A sender that is not at the barrier moves, or its controller does. */
  lemma ApartMoves(b: Bench, js: seq<Load>, t: nat)
    requires BenchInv(b, js) && t < |js| && Window.Able(js[t])
    requires b.senders[t].at != Window.Finished && !AtBarrier(b.senders[t], js[t])
    ensures CanMove(b, js)
  {
    hide Barrier.Inv, SenderInv, Linked, AtBarrier, Window.Step, Window.Measure, Window.Able;
    var w, j := b.senders[t], js[t];
    SenderMoves(w, j);
    var what, w' :| Window.Step(w, what, j, w') && (what.Controller? ==> !what.e.Reread?);
    SenderKeeps(w, what, j, w');
    OneQueue(w, j);
    var b' := b.(senders := b.senders[t := w']);
    assert b'.senders[t] == w' != b.senders[t];
    assert Step(b, Act(t, what), js, b') && !Idle(b, Act(t, what), b');
  }

  lemma SenderMoves(w: Window.Sender, j: Load)
    requires SenderInv(w, j) && w.at != Window.Finished
    ensures Window.CanMove(w, j)
  {
    hide Window.WindowInv, Window.Busy, Window.CanMove;
    Window.SomeStep(w, j);
  }

  /** A thread at the barrier moves if its next step of wait() changes anything. */
  lemma BarrierStepMoves(b: Bench, js: seq<Load>, t: nat)
    requires BenchInv(b, js) && t < |js| && AtBarrier(b.senders[t], js[t])
    requires Barrier.Step(b.barrier, t) != b.barrier
    ensures CanMove(b, js)
  {
    hide Barrier.Inv, Barrier.Step, SenderInv, Linked;
    BarrierMoves(b.barrier, t);
    var barrier' := Barrier.Step(b.barrier, t);
    var w := b.senders[t];
    var w' := if barrier'.threads[t].at == Barrier.Outside then w.(at := Window.Submitting) else w;
    var b' := Bench(b.senders[t := w'], barrier');
    assert b'.barrier != b.barrier;
    assert Step(b, Act(t, Window.Driver), js, b');
  }

  /** Every thread that is not finished stands at the barrier. */
  ghost predicate AllWait(b: Bench, js: seq<Load>)
    requires |js| == |b.senders|
  {
    forall t: nat | t < |js| && b.senders[t].at != Window.Finished :: AtBarrier(b.senders[t], js[t])
  }

  /** With the same number of calls to make, a thread inside wait() is not kept there by one that is finished. */
  lemma NotKept(b: Bench, js: seq<Load>, t: nat, o: nat)
    requires BenchInv(b, js) && AllAble(js) && SameCalls(js) && t < |js| && o < |js|
    requires b.senders[o].at == Window.Finished && AtBarrier(b.senders[t], js[t]) && b.barrier.threads[t].at != Barrier.Outside
    ensures Barrier.Step(b.barrier, t) != b.barrier
  {
    hide SenderInv, Calls, ToGo, Window.Able, Barrier.Step, Barrier.Count, Barrier.Somebody;
    var x, y := b.barrier.threads[t], b.barrier.threads[o];
    assert js[t] in js && js[o] in js;
    assert Barrier.ThreadInv(b.barrier, t) && Barrier.ThreadInv(b.barrier, o);
    AtBarrierToGo(b.senders[t], js[t]);
    FinishedToGo(b.senders[o], js[o]);
    assert y.at == Barrier.Outside;
    assert x.at == Barrier.Spinning && x.entered == b.barrier.round;
    Barrier.Changes(b.barrier, t);
  }

  lemma WaitersMove(b: Bench, js: seq<Load>)
    requires BenchInv(b, js) && AllAble(js) && SameCalls(js) && AllWait(b, js) && !Done(b)
    ensures CanMove(b, js)
  {
    hide BenchInv, CanMove, AtBarrier, AllAble, SameCalls, Barrier.Inv, Barrier.Step;
    Sizes(b, js);
    var w :| w in b.senders && w.at != Window.Finished;
    var t: nat :| t < |js| && b.senders[t] == w;
    if b.barrier.threads[t].at == Barrier.Outside {
      Barrier.Calls(b.barrier, t);
      BarrierStepMoves(b, js, t);
    } else if o: nat :| o < |js| && b.senders[o].at == Window.Finished {
      NotKept(b, js, t, o);
      BarrierStepMoves(b, js, t);
    } else if o: nat :| o < |js| && b.barrier.threads[o].at == Barrier.Outside {
      Barrier.Calls(b.barrier, o);
      BarrierStepMoves(b, js, o);
    } else {
      assert forall x <- b.barrier.threads :: x.at != Barrier.Outside;
      var i := Barrier.InsideAdvances(b.barrier);
      BarrierStepMoves(b, js, i);
    }
  }

  lemma Sizes(b: Bench, js: seq<Load>)
    requires BenchInv(b, js)
    ensures |js| == |b.senders| == |b.barrier.threads| && Barrier.Inv(b.barrier)
  {}

  lemma SomeoneMoves(b: Bench, js: seq<Load>)
    requires BenchInv(b, js) && AllAble(js) && SameCalls(js)
    ensures Done(b) || CanMove(b, js)
  {
    hide BenchInv, CanMove, AtBarrier, SameCalls, Window.Able;
    Sizes(b, js);
    if t: nat :| t < |js| && b.senders[t].at != Window.Finished && !AtBarrier(b.senders[t], js[t]) {
      assert js[t] in js;
      ApartMoves(b, js, t);
    } else if !Done(b) {
      WaitersMove(b, js);
    }
  }

  /**
   * With N threads on one barrier: whatever the window counts, in every run of loads that fit at
   * most BoundAll steps are not idle. If the threads have the same number of windows, somebody has
   * such a step to take until all of them are finished.
   */
  lemma BenchTerminates(bs: seq<Bench>, acts: seq<Act>, js: seq<Load>)
    requires Behaviour(bs, acts, js) && AllFit(bs[0], js) && AllAble(js)
    ensures Moves(bs, acts, |acts|) <= BoundAll(js, |js|)
    ensures SameCalls(js) ==> Done(bs[|acts|]) || CanMove(bs[|acts|], js)
  {
    hide Behaviour, BenchInv, CanMove, SameCalls, AllAble, AllFit, Total, Moves, BoundAll;
    RunSizes(bs, acts, js);
    BehaviourKeeps(bs, acts, js, |acts|);
    var b := bs[|acts|];
    Sizes(b, js);
    TotalBound(b, js, |js|);
    if SameCalls(js) { SomeoneMoves(b, js); }
  }

  lemma RunSizes(bs: seq<Bench>, acts: seq<Act>, js: seq<Load>)
    requires Behaviour(bs, acts, js)
    ensures |bs| == |acts| + 1
  {}

  lemma Extend(bs: seq<Bench>, acts: seq<Act>, js: seq<Load>, a: Act, b': Bench)
    requires Behaviour(bs, acts, js) && Step(bs[|acts|], a, js, b')
    ensures Behaviour(bs + [b'], acts + [a], js)
  {
    hide Step, Start;
    forall i | 0 <= i < |acts| + 1 ensures Step((bs + [b'])[i], (acts + [a])[i], js, (bs + [b'])[i + 1]) {
      if i < |acts| { assert acts[i] == (acts + [a])[i] && Step(bs[i], acts[i], js, bs[i + 1]); }
    }
  }

  lemma {:induction false} MovesPrefix(bs: seq<Bench>, acts: seq<Act>, b': Bench, a: Act, k: nat)
    requires |bs| == |acts| + 1 && k <= |acts|
    ensures Moves(bs + [b'], acts + [a], k) == Moves(bs, acts, k)
  {
    hide Idle;
    if k > 0 {
      assert (acts + [a])[k - 1] == acts[k - 1] && (bs + [b'])[k - 1] == bs[k - 1] && (bs + [b'])[k] == bs[k];
      MovesPrefix(bs, acts, b', a, k - 1);
    }
  }

  /** From any point of a run on, moves lead to the end. */
  lemma {:induction false} Finish(bs: seq<Bench>, acts: seq<Act>, js: seq<Load>) returns (bs': seq<Bench>, acts': seq<Act>)
    requires Behaviour(bs, acts, js) && AllFit(bs[0], js) && AllAble(js) && SameCalls(js)
    ensures Behaviour(bs', acts', js) && bs'[0] == bs[0] && Done(bs'[|acts'|])
    decreases BoundAll(js, |js|) - Moves(bs, acts, |acts|)
  {
    hide Step, Idle, Start, AllFit, AllAble, SameCalls, BoundAll;
    BenchTerminates(bs, acts, js);
    if Done(bs[|acts|]) { bs', acts' := bs, acts; } else {
      var a, b' :| Step(bs[|acts|], a, js, b') && !Idle(bs[|acts|], a, b');
      Extend(bs, acts, js, a, b');
      MovesPrefix(bs, acts, b', a, |acts|);
      BenchTerminates(bs + [b'], acts + [a], js);
      bs', acts' := Finish(bs + [b'], acts + [a], js);
    }
  }

  /** When all are finished they have made the same number of calls. */
  lemma DoneSame(b: Bench, js: seq<Load>)
    requires BenchInv(b, js) && Done(b)
    ensures SameCalls(js)
  {
    hide SenderInv, Calls, ToGo, Barrier.Count, Barrier.Somebody;
    forall t: nat | t < |js| ensures Calls(js[t]) == b.barrier.round {
      assert b.senders[t] in b.senders && Barrier.ThreadInv(b.barrier, t);
      FinishedToGo(b.senders[t], js[t]);
    }
  }

  // ---------------------------------------------------------------- one thread of many

  /**
   * What a thread does of a run is a run of a lone sender: what holds of every run of one sender
   * holds of each thread.
   */
  lemma {:induction false} Alone(bs: seq<Bench>, acts: seq<Act>, js: seq<Load>, t: nat, k: nat) returns (ws: seq<Window.Sender>, whats: seq<Window.Act>)
    requires Behaviour(bs, acts, js) && t < |js| && k <= |acts|
    ensures |bs[k].senders| == |js| == |bs[0].senders|
    ensures Window.Behaviour(ws, whats, js[t]) && ws[0] == bs[0].senders[t] && ws[|whats|] == bs[k].senders[t]
  {
    hide Window.Step, Window.Start;
    if k == 0 {
      ws, whats := [bs[0].senders[t]], [];
    } else {
      ws, whats := Alone(bs, acts, js, t, k - 1);
      var b, a, b' := bs[k - 1], acts[k - 1], bs[k];
      assert Step(b, a, js, b');
      if b'.senders[t] != b.senders[t] {
        Window.Extend(ws, whats, js[t], a.what, b'.senders[t]);
        ws, whats := ws + [b'.senders[t]], whats + [a.what];
      }
    }
  }

  /** So each thread of a bench that fits sends what a lone sender does, and never throws. */
  lemma EachSends(bs: seq<Bench>, acts: seq<Act>, js: seq<Load>, t: nat)
    requires Behaviour(bs, acts, js) && AllFit(bs[0], js) && t < |js|
    ensures |bs[|acts|].senders| == |js|
    ensures var w, j := bs[|acts|].senders[t], js[t];
            && w.at != Window.Thrown && (Window.Boundary(w) ==> Window.Quiet(w.sys))
            && w.sent == Window.Sent(w.rep, w.from, j.total)
            && (w.at == Window.Finished ==> w.sent == Window.Sent(j.reps, 0, j.total))
  {
    hide Step, Window.Behaviour, Window.Sent, Window.Quiet, Window.Boundary;
    var ws, whats := Alone(bs, acts, js, t, |acts|);
    Window.WindowsSend(ws, whats, js[t]);
  }

  /** Some run from b0 finishes. */
  ghost predicate MayFinish(b0: Bench, js: seq<Load>) {
    exists bs: seq<Bench>, acts: seq<Act> :: Behaviour(bs, acts, js) && bs[0] == b0 && Done(bs[|acts|])
  }

  /**
   * The exact condition: some run of loads that fit finishes if and only if every depth is at least
   * 1, or there is nothing to send, and all threads have the same number of windows.
   */
  lemma BenchFinishesExactly(b0: Bench, js: seq<Load>)
    requires Start(b0, js) && AllFit(b0, js)
    ensures MayFinish(b0, js) <==> AllAble(js) && SameCalls(js)
  {
    hide Step, Start, AllFit, SameCalls, Window.Able;
    if AllAble(js) && SameCalls(js) {
      var bs0: seq<Bench>, acts0: seq<Act> := [b0], [];
      assert Behaviour(bs0, acts0, js);
      var bs, acts := Finish(bs0, acts0, js);
    }
    forall bs: seq<Bench>, acts: seq<Act> | Behaviour(bs, acts, js) && bs[0] == b0 && Done(bs[|acts|])
      ensures AllAble(js) && SameCalls(js)
    {
      forall j <- js ensures Window.Able(j) {
        var t: nat :| t < |js| && js[t] == j;
        AbleIfDone(bs, acts, js, t);
      }
      BehaviourKeeps(bs, acts, js, |acts|);
      DoneSame(bs[|acts|], js);
    }
  }

  lemma AbleIfDone(bs: seq<Bench>, acts: seq<Act>, js: seq<Load>, t: nat)
    requires Behaviour(bs, acts, js) && Done(bs[|acts|]) && t < |js|
    ensures Window.Able(js[t])
  {
    hide Behaviour, Window.Behaviour;
    RunSizes(bs, acts, js);
    var ws, whats := Alone(bs, acts, js, t, |acts|);
    assert bs[|acts|].senders[t] in bs[|acts|].senders;
    if !Window.Able(js[t]) { NeverFinished(ws, whats, js[t]); }
  }

  lemma NeverFinished(ws: seq<Window.Sender>, whats: seq<Window.Act>, j: Load)
    requires Window.Behaviour(ws, whats, j) && !Window.Able(j)
    ensures ws[|whats|].at != Window.Finished
  {
    Window.NothingSent(ws, whats, j, |whats|);
  }

  // ---------------------------------------------------------------- the linear pattern

  /** Pages of queue i of n in the linear pattern: the last queue takes what does not divide. */
  function LinearPages(pages: nat, n: nat, i: nat): nat
    requires n > 0
  {
    if i + 1 == n then RestPages(pages, n) else pages / n
  }

  function RestPages(pages: nat, n: nat): (r: nat)
    requires n > 0
    ensures r == pages - (n - 1) * (pages / n) >= pages / n
  {
    assert n * (pages / n) <= pages;
    assert n * (pages / n) == (n - 1) * (pages / n) + pages / n;
    pages - (n - 1) * (pages / n)
  }

  /** Every queue sends its pages, at most `most` to a command, at one depth and as often. */
  ghost predicate Linear(js: seq<Load>, pages: nat, most: nat, depth: nat, reps: nat) {
    && most > 0 && |js| > 0
    && (forall i: nat | i < |js| ::
          js[i].depth == depth && js[i].reps == reps && js[i].total == Tiling.Ceil(LinearPages(pages, |js|, i), most))
  }

  /** The windows that k pages take. */
  function PageWindows(k: nat, most: nat, depth: nat): nat
    requires most > 0
  {
    Windows(Tiling.Ceil(k, most), depth)
  }

  /**
   * The linear pattern on two or more queues: the benchmark can finish if and only if the last
   * queue's larger share takes no more windows than another's.
   */
  lemma LinearFinishesExactly(b0: Bench, js: seq<Load>, pages: nat, most: nat, depth: nat, reps: nat)
    requires Start(b0, js) && AllFit(b0, js) && Linear(js, pages, most, depth, reps) && |js| >= 2 && depth > 0 && reps > 0
    ensures MayFinish(b0, js) <==> PageWindows(RestPages(pages, |js|), most, depth) == PageWindows(pages / |js|, most, depth)
  {
    hide MayFinish, Start, AllFit, Windows;
    BenchFinishesExactly(b0, js);
    var n := |js|;
    var first, last := PageWindows(pages / n, most, depth), PageWindows(RestPages(pages, n), most, depth);
    forall i: nat | i < n ensures Calls(js[i]) == reps * (if i + 1 == n then last else first) {}
    assert Calls(js[0]) == reps * first && Calls(js[n - 1]) == reps * last && js[n - 1] in js;
    SameProduct(reps, first, last);
  }

  lemma SameProduct(reps: nat, a: nat, b: nat)
    requires reps > 0
    ensures reps * a == reps * b <==> a == b
  {
    Tiling.MulOrder(a, b, reps);
    Tiling.MulOrder(b, a, reps);
  }

  /** Three pages on two queues, a page to a command and one command to a window: 1 window against 2. */
  lemma LinearHangs(b0: Bench, js: seq<Load>)
    requires Start(b0, js) && AllFit(b0, js) && Linear(js, 3, 1, 1, 1) && |js| == 2
    ensures !MayFinish(b0, js)
  {
    hide MayFinish, Start, AllFit;
    LinearFinishesExactly(b0, js, 3, 1, 1, 1);
  }

  // ---------------------------------------------------------------- the benchmark can start

  /** For any loads with queue memory laid out, and any ring sizes, the benchmark can start. */
  lemma StartExists(js: seq<Load>, sizes: seq<nat>) returns (b: Bench)
    requires |js| == |sizes| >= 1 && (forall t: nat | t < |js| :: Laid(js[t]) && Safety.GoodSize(sizes[t]))
    ensures Start(b, js) && forall t: nat | t < |js| :: |b.senders[t].sys.subs| == 1 && b.senders[t].sys.subs[0].d.size == sizes[t]
  {
    hide Safety.GoodSize;
    var n := |js|;
    var senders := seq(n, t requires 0 <= t < n => Cleared(js[t], sizes[t]));
    var threads := seq(n, _ => Barrier.Thread(Barrier.Outside, false, 0, 0, 0));
    b := Bench(senders, Barrier.State(0, false, Barrier.FREE, threads, 0));
    forall t: nat | t < n ensures Window.Start(senders[t], js[t]) && senders[t].sys.subs[0].d.size == sizes[t] {
      assert senders[t] == Cleared(js[t], sizes[t]);
    }
  }

  /** A sender about to begin, its queue and list pages just cleared. */
  function Cleared(j: Load, size: nat): Window.Sender {
    Window.Sender(
      State([Safety.ClearedSub(size, Transfer.Pages(j.prp, j.io.pageSize / 8))], Safety.ClearedComp(2)),
      if j.reps == 0 then Window.Finished else if j.total == 0 then Window.FlushFilling else Window.Filling,
      0, 0, 0, 0, [], [])
  }
}
