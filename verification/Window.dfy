/**
 * The windowed sender of benchmarks/latency/main.cu: measure() sends its transfers in windows of at
 * most `depth` commands, waits for every completion of a window, and flushes after each repetition.
 * Here the barrier between filling and submitting lets the sender straight through; `Bench` puts the
 * senders of all queues behind the barrier they share.
 */
module Window {
  import opened Modular
  import opened Wrappers
  import opened Ring
  import opened Protocol
  import opened Safety
  import opened WindowJobs
  import Transfer

  /** measure() and sendWindow()/flush() flattened: where the thread is. */
  datatype Place =
    | Filling      // the for loop of sendWindow
    | Submitting   // past barrier->wait(), about to submit
    | Collecting   // waiting for completions of the window
    | Freeing      // one dequeued: nvm_sq_update, nvm_cq_update
    | FlushFilling | FlushSubmitting | FlushCollecting | FlushFreeing
    | Finished
    | Thrown       // "Queue is full, should not happen!"

  datatype Sender = Sender(
    sys: State, at: Place,
    rep: nat, from: nat,       // repetition and position in the transfer list
    num: nat, got: nat,        // commands in this window, completions seen
    sent: seq<(nat, nat)>,     // history: (repetition, transfer) of each transfer command
    made: seq<Option<nat>>)    // history: the transfer of each command, None for a flush

  datatype Act = Driver | Controller(e: Event)

  ghost predicate Takes(s: State, e: Event, s': State) { Transfer.Takes(s, e, s') }

  /** nvm_sq_enqueue succeeds and the command is built, or the sender throws. */
  ghost predicate TriesEnqueue(w: Sender, j: Load, what: Option<nat>, ok: Sender, w': Sender) {
    && |w.sys.subs| == 1 && Shaped(w.sys) && w.sys.subs[0].d.size > 0
    && if Full(w.sys.subs[0].d) then w' == w.(at := Thrown)
       else Makes(w.sys, j, what, w.num, w'.sys) && w' == ok.(sys := w'.sys, made := w.made + [what])
  }

  /** nvm_sq_update and nvm_cq_update. */
  ghost predicate Frees(s: State, s': State) {
    && Shaped(s) && Enabled(s, HeadUp(0))
    && var s1 := Apply(s, HeadUp(0));
    && Shaped(s1) && |s1.subs| == 1
    && var s2 := if s1.subs[0].d.head == s1.subs[0].d.size then Apply(s1, HeadWrap(0)) else s1;
    && Takes(s2, Ack, s')
  }

  ghost predicate DriverStep(w: Sender, j: Load, w': Sender) {
    match w.at
    case Filling =>
      if w.num < j.depth && w.from != j.total then
        TriesEnqueue(w, j, Some(w.from), w.(num := w.num + 1, from := w.from + 1, sent := w.sent + [(w.rep, w.from)]), w')
      else w' == w.(at := Submitting)
    case Submitting => Takes(w.sys, Submit(0), w'.sys) && w' == w.(sys := w'.sys, at := Collecting)
    case Collecting =>
      if w.got < w.num then Takes(w.sys, Dequeue, w'.sys) && w' == w.(sys := w'.sys, at := Freeing)
      else w' == w.(at := if w.from != j.total then Filling else FlushFilling, num := 0, got := 0)
    case Freeing => Frees(w.sys, w'.sys) && w' == w.(sys := w'.sys, at := Collecting, got := w.got + 1)
    case FlushFilling => TriesEnqueue(w, j, None, w.(at := FlushSubmitting), w')
    case FlushSubmitting => Takes(w.sys, Submit(0), w'.sys) && w' == w.(sys := w'.sys, at := FlushCollecting)
    case FlushCollecting => Takes(w.sys, Dequeue, w'.sys) && w' == w.(sys := w'.sys, at := FlushFreeing)
    case FlushFreeing => Frees(w.sys, w'.sys) && w' == NextRepetition(w, j).(sys := w'.sys)
    case Finished => false
    case Thrown => false
  }

  /** The for loop of measure(); an empty transfer list goes straight to its flush. */
  function NextRepetition(w: Sender, j: Load): Sender {
    if w.rep + 1 == j.reps then w.(at := Finished, rep := w.rep + 1, from := 0)
    else w.(at := if j.total == 0 then FlushFilling else Filling, rep := w.rep + 1, from := 0)
  }

  ghost predicate Step(w: Sender, a: Act, j: Load, w': Sender) {
    match a
    case Driver => DriverStep(w, j, w')
    case Controller(e) => (e.Fetch? || e.Reread? || e.Post?) && Takes(w.sys, e, w'.sys) && w' == w.(sys := w'.sys)
  }

  ghost predicate Start(w: Sender, j: Load) {
    && Fresh(w.sys) && |w.sys.subs| == 1 && w.rep == 0 == w.from && w.num == 0 == w.got && w.sent == [] && w.made == []
    && Laid(j) && PrpPages(j, w.sys.subs[0].lists)
    && w.at == if j.reps == 0 then Finished else if j.total == 0 then FlushFilling else Filling
  }

  // ---------------------------------------------------------------- invariant

  /** Every transfer of the repetitions before `rep`, then the first `from` of this one, in order. */
  function Sent(rep: nat, from: nat, total: nat): seq<(nat, nat)> {
    if from > 0 then Sent(rep, from - 1, total) + [(rep, from - 1)]
    else if rep > 0 then Sent(rep - 1, total, total)
    else []
  }

  /** Commands issued whose slot has not been counted free. */
  function Outstanding(w: Sender): int {
    match w.at
    case Filling => w.num
    case Submitting => w.num
    case Collecting => w.num - w.got
    case Freeing => w.num - w.got
    case FlushSubmitting => 1
    case FlushCollecting => 1
    case FlushFreeing => 1
    case _ => 0
  }

  predicate Midway(g: Place) { g == Freeing || g == FlushFreeing }

  ghost predicate WindowInv(w: Sender, j: Load) {
    && Inv(w.sys) && |w.sys.subs| == 1 && Laid(j) && PrpPages(j, w.sys.subs[0].lists)
    && var b, c := w.sys.subs[0], w.sys.comp;
    && |w.made| == |b.issued|
    && w.num <= j.depth && w.got <= w.num && w.num <= w.from <= j.total && w.at != Thrown
    && (w.at == Freeing ==> w.got < w.num)
    && (w.at == Filling || w.at == Submitting ==> w.got == 0)
    && (w.at != Filling && w.at != Submitting && w.at != Collecting && w.at != Freeing ==> w.num == 0 == w.got)
    && |b.issued| == b.upd + Outstanding(w)
    && b.d.head < b.d.size
    && (w.at != Filling && w.at != Submitting && w.at != FlushSubmitting ==> b.sub == |b.issued|)
    && (w.at == Filling ==> b.sub == b.upd)
    && b.upd + (if Midway(w.at) then 1 else 0) == Count(c.posted[..c.deq], 0) == c.deq
    && (!Midway(w.at) ==> c.ack == c.deq)
    && (w.at == FlushFilling || w.at == FlushSubmitting || w.at == FlushCollecting || w.at == FlushFreeing ==> w.from == j.total)
    && w.sent == Sent(w.rep, w.from, j.total)
    && (w.at == Finished ==> w.rep == j.reps && w.from == 0)
  }

  /** All rings empty, driver and controller in step. */
  ghost predicate Quiet(s: State) {
    && |s.subs| == 1
    && var b, c := s.subs[0], s.comp;
    && |b.issued| == b.sub == |b.fetched| == b.upd == |c.posted| == c.deq == c.ack && b.open.Keys == {}
  }

  /** The window cannot outgrow the ring: checked before starting. */
  predicate Fits(j: Load, size: nat) { j.depth < size || j.total < size }

  lemma SentStep(rep: nat, from: nat, total: nat)
    ensures Sent(rep, from, total) + [(rep, from)] == Sent(rep, from + 1, total)
    ensures Sent(rep + 1, 0, total) == Sent(rep, total, total)
  {}

  lemma StartInv(w: Sender, j: Load)
    requires Start(w, j)
    ensures WindowInv(w, j)
  {
    FreshInv(w.sys);
    assert FreshSub(w.sys.subs[0]);
    assert j.reps == 0 ==> w.rep == j.reps;
  }

  /** What the ring arithmetic needs to know of a single queue pair. */
  lemma OneQueue(s: State)
    requires Inv(s) && |s.subs| == 1
    ensures var b, c := s.subs[0], s.comp;
            && b.d.size >= 2 && Shaped(s)
            && (Enabled(s, Enqueue(0)) <==> |b.issued| < b.upd + b.d.size - 1)
            && (Full(b.d) <==> |b.issued| >= b.upd + b.d.size - 1)
  {
    assert Safety.Fits(s.subs[0], s.comp, 0);
    GuardsByCounters(s, Enqueue(0));
  }

  lemma EnqueueEffect(s: State, j: Load, what: Option<nat>, num: nat, s': State)
    requires Inv(s) && |s.subs| == 1 && Makes(s, j, what, num, s') && PrpPages(j, s.subs[0].lists)
    ensures Inv(s') && |s'.subs| == 1 && s'.comp == s.comp && PrpPages(j, s'.subs[0].lists)
    ensures var b, b' := s.subs[0], s'.subs[0];
            && |b'.issued| == |b.issued| + 1 && b'.fetched == b.fetched && b'.sub == b.sub && b'.upd == b.upd
            && b'.d.head == b.d.head && b'.d.size == b.d.size
  {
    hide Inv, Leaves, PrpPages, Makes;
    var w, cmd, list := MakesEffect(s, j, what, num, s');
    MadePages(s.subs[0], s'.subs[0], j, what, num, w, cmd, list);
  }

  lemma EnqueueKeepsWindow(w: Sender, j: Load, w': Sender)
    requires WindowInv(w, j) && Fits(j, w.sys.subs[0].d.size) && DriverStep(w, j, w')
    requires (w.at == Filling && w.num < j.depth && w.from != j.total) || w.at == FlushFilling
    ensures WindowInv(w', j) && w'.sys.subs[0].d.size == w.sys.subs[0].d.size
  {
    hide Inv, Makes, Sent, Full, Count, Shaped, PrpPages;
    OneQueue(w.sys);
    EnqueueEffect(w.sys, j, if w.at == Filling then Some(w.from) else None, w.num, w'.sys);
    SentStep(w.rep, w.from, j.total);
  }

  lemma SubmitKeepsWindow(w: Sender, j: Load, w': Sender)
    requires WindowInv(w, j) && DriverStep(w, j, w') && (w.at == Submitting || w.at == FlushSubmitting)
    ensures WindowInv(w', j) && w'.sys.subs[0].d.size == w.sys.subs[0].d.size
  {
    hide Inv, Takes, SubSubmit, Sent;
    SubmitSame(w.sys, w'.sys);
  }

  lemma SubmitSame(s: State, s': State)
    requires Inv(s) && |s.subs| == 1 && Takes(s, Submit(0), s')
    ensures Inv(s') && |s'.subs| == 1 && s'.comp == s.comp
    ensures var b, b' := s.subs[0], s'.subs[0];
            b'.issued == b.issued && b'.lists == b.lists && b'.sub == |b.issued| && b'.upd == b.upd && b'.d.head == b.d.head && b'.d.size == b.d.size
  {
    Transfer.SubmitEffect(s, 0, s');
  }

  /** Of a single queue's completions all belong to queue 0. */
  lemma {:induction false} CountAllOfOne(s: seq<Completion>)
    requires forall e <- s :: e.sqid == 0
    ensures Count(s, 0) == |s|
  {
    if s != [] { CountAllOfOne(s[..|s| - 1]); }
  }

  lemma DequeueKeepsWindow(w: Sender, j: Load, w': Sender)
    requires WindowInv(w, j) && DriverStep(w, j, w') && ((w.at == Collecting && w.got < w.num) || w.at == FlushCollecting)
    ensures WindowInv(w', j) && w'.sys.subs[0].d.size == w.sys.subs[0].d.size
  {
    hide Inv, Takes, Sent;
    DequeueOne(w.sys, w'.sys);
  }

  lemma DequeueOne(s: State, s': State)
    requires Inv(s) && |s.subs| == 1 && Takes(s, Dequeue, s')
    ensures Inv(s') && s'.subs == s.subs && s'.comp.deq == s.comp.deq + 1 <= |s'.comp.posted| && s.comp.deq <= |s.comp.posted|
    ensures s'.comp.posted == s.comp.posted
    ensures Count(s'.comp.posted[..s'.comp.deq], 0) == Count(s.comp.posted[..s.comp.deq], 0) + 1
  {
    hide CompInv, SubInv, Logged, Distinct;
    Transfer.DequeueEffect(s, s');
    CountStep(s.comp.posted[..s.comp.deq], s.comp.slots[s.comp.d.head], 0);
  }

  /** nvm_sq_update counts one slot free and touches nothing else. */
  lemma HeadMoved(s: State)
    requires Inv(s) && |s.subs| == 1 && Shaped(s) && Enabled(s, HeadUp(0))
    ensures var s1 := Apply(s, HeadUp(0));
            && Inv(s1) && s1.comp == s.comp && |s1.subs| == 1 && s1.subs[0].d.head <= s1.subs[0].d.size == s.subs[0].d.size
            && s1.subs[0] == s.subs[0].(d := s1.subs[0].d, upd := s.subs[0].upd + 1)
  {
    hide Inv;
    StepKeeps(s, HeadUp(0));
  }

  lemma HeadWrapped(s: State)
    requires Inv(s) && |s.subs| == 1 && Shaped(s) && Enabled(s, HeadWrap(0))
    ensures var s1 := Apply(s, HeadWrap(0));
            && Inv(s1) && s1.comp == s.comp && |s1.subs| == 1 && s1.subs[0].d.size == s.subs[0].d.size > 0 == s1.subs[0].d.head
            && s1.subs[0] == s.subs[0].(d := s1.subs[0].d)
  {
    hide Inv;
    assert SubShaped(s.subs[0]);
    StepKeeps(s, HeadWrap(0));
  }

  lemma Acknowledged(s: State, s': State)
    requires Inv(s) && Takes(s, Ack, s')
    ensures Inv(s') && s'.subs == s.subs && s'.comp == CompAck(s.comp) && s'.comp.ack == s.comp.deq
  {
    hide SubInv, Link, Logged, Distinct, CompInv;
    StepKeeps(s, Ack);
    AckKeeps(s.comp);
  }

  /** One slot freed, everything dequeued acknowledged. */
  lemma FreesEffect(s: State, s': State)
    requires Inv(s) && |s.subs| == 1 && Frees(s, s')
    ensures Inv(s') && |s'.subs| == 1 && s'.comp == CompAck(s.comp) && s'.comp.ack == s.comp.deq
    ensures var b, b' := s.subs[0], s'.subs[0];
            b' == b.(d := b'.d, upd := b.upd + 1) && b'.d.size == b.d.size && b'.d.head < b'.d.size
  {
    hide Inv, CompAck, Takes, Count;
    HeadMoved(s);
    var s1 := Apply(s, HeadUp(0));
    if s1.subs[0].d.head == s1.subs[0].d.size {
      HeadWrapped(s1);
      Acknowledged(Apply(s1, HeadWrap(0)), s');
    } else {
      Acknowledged(s1, s');
    }
  }

  lemma FreeKeepsWindow(w: Sender, j: Load, w': Sender)
    requires WindowInv(w, j) && DriverStep(w, j, w') && Midway(w.at)
    ensures WindowInv(w', j) && w'.sys.subs[0].d.size == w.sys.subs[0].d.size
  {
    hide Inv, Frees;
    FreesEffect(w.sys, w'.sys);
    SentStep(w.rep, w.from, j.total);
  }

  lemma PlainKeepsWindow(w: Sender, j: Load, w': Sender)
    requires WindowInv(w, j) && DriverStep(w, j, w')
    requires (w.at == Filling && !(w.num < j.depth && w.from != j.total)) || (w.at == Collecting && w.got == w.num)
    ensures WindowInv(w', j) && w'.sys.subs[0].d.size == w.sys.subs[0].d.size
  {
    hide Inv;
  }

  lemma ControllerKeepsWindow(w: Sender, e: Event, j: Load, w': Sender)
    requires WindowInv(w, j) && Step(w, Controller(e), j, w')
    ensures WindowInv(w', j) && w'.sys.subs[0].d.size == w.sys.subs[0].d.size
  {
    hide Inv, Apply, Sent;
    StepKeeps(w.sys, e);
    Transfer.ControllerEffect(w.sys, e, w'.sys, 0);
  }

  lemma StepKeepsWindow(w: Sender, a: Act, j: Load, w': Sender)
    requires WindowInv(w, j) && Fits(j, w.sys.subs[0].d.size) && Step(w, a, j, w')
    ensures WindowInv(w', j) && |w.sys.subs| == 1 && w'.sys.subs[0].d.size == w.sys.subs[0].d.size
  {
    hide Inv, Sent, Frees, Takes, TriesEnqueue, NextRepetition;
    match a
    case Controller(e) => ControllerKeepsWindow(w, e, j, w');
    case Driver =>
      match w.at
      case Filling => if w.num < j.depth && w.from != j.total { EnqueueKeepsWindow(w, j, w'); } else { PlainKeepsWindow(w, j, w'); }
      case FlushFilling => EnqueueKeepsWindow(w, j, w');
      case Submitting => SubmitKeepsWindow(w, j, w');
      case FlushSubmitting => SubmitKeepsWindow(w, j, w');
      case Collecting => if w.got < w.num { DequeueKeepsWindow(w, j, w'); } else { PlainKeepsWindow(w, j, w'); }
      case FlushCollecting => DequeueKeepsWindow(w, j, w');
      case Freeing => FreeKeepsWindow(w, j, w');
      case FlushFreeing => FreeKeepsWindow(w, j, w');
  }

  // ---------------------------------------------------------------- every run

  ghost predicate Behaviour(ws: seq<Sender>, acts: seq<Act>, j: Load) {
    && |ws| == |acts| + 1 && Start(ws[0], j)
    && (forall i {:trigger acts[i]} | 0 <= i < |acts| :: Step(ws[i], acts[i], j, ws[i + 1]))
  }

  lemma {:induction false} BehaviourKeepsWindow(ws: seq<Sender>, acts: seq<Act>, j: Load, i: nat)
    requires Behaviour(ws, acts, j) && i < |ws| && Fits(j, ws[0].sys.subs[0].d.size)
    ensures WindowInv(ws[i], j) && ws[i].sys.subs[0].d.size == ws[0].sys.subs[0].d.size
  {
    hide WindowInv, Step;
    if i == 0 { StartInv(ws[0], j); InvOneQueue(ws[0], j); } else {
      BehaviourKeepsWindow(ws, acts, j, i - 1);
      var w, a, w' := ws[i - 1], acts[i - 1], ws[i];
      assert Step(w, a, j, w');
      InvOneQueue(w, j);
      StepKeepsWindow(w, a, j, w');
      InvOneQueue(w', j);
    }
  }

  lemma InvOneQueue(w: Sender, j: Load)
    requires WindowInv(w, j)
    ensures |w.sys.subs| == 1
  {}

  /** Between windows, before each flush and at the end. */
  predicate Boundary(w: Sender) {
    || (w.at == Filling && w.num == 0) || (w.at == Collecting && w.got == w.num) || w.at == FlushFilling || w.at == Finished
  }

  lemma BoundaryQuiet(w: Sender, j: Load)
    requires WindowInv(w, j) && Boundary(w)
    ensures Quiet(w.sys)
  {
    var b, c := w.sys.subs[0], w.sys.comp;
    assert Safety.Fits(b, c, 0);
    CountPrefix(c.posted, c.deq, 0);
    forall e <- c.posted ensures e.sqid == 0 {
      var k :| 0 <= k < |c.posted| && c.posted[k] == e;
      assert Reports(w.sys.subs, c.posted[k], c.log[k]);
    }
    CountAllOfOne(c.posted);
    assert |b.open.Keys| == 0;
  }

  /**
   * For any transfer list and any number of repetitions, if the window fits the ring: the "queue is
   * full" exceptions are never thrown, every window and flush ends with all rings empty and both
   * sides in step, and what has been sent is every transfer once per repetition, in order.
   */
  lemma WindowsSend(ws: seq<Sender>, acts: seq<Act>, j: Load)
    requires Behaviour(ws, acts, j) && Fits(j, ws[0].sys.subs[0].d.size)
    ensures var w := ws[|acts|];
            && w.at != Thrown && (Boundary(w) ==> Quiet(w.sys))
            && w.sent == Sent(w.rep, w.from, j.total)
            && (w.at == Finished ==> w.sent == Sent(j.reps, 0, j.total))
  {
    BehaviourKeepsWindow(ws, acts, j, |acts|);
    if Boundary(ws[|acts|]) { BoundaryQuiet(ws[|acts|], j); }
  }

  /** Some step other than rereading a list is possible. */
  ghost predicate CanMove(w: Sender, j: Load) {
    exists a, w' :: Step(w, a, j, w') && (a.Controller? ==> !a.e.Reread?)
  }

  lemma SomeStep(w: Sender, j: Load)
    requires WindowInv(w, j) && Fits(j, w.sys.subs[0].d.size) && w.at != Finished
    ensures CanMove(w, j)
  {
    hide Inv, Sent;
    OneQueue(w.sys);
    if (w.at == Collecting && w.got < w.num) || w.at == FlushCollecting {
      Awaits(w, j);
    } else if Midway(w.at) {
      var s' := CanFree(w, j);
      var w' := if w.at == Freeing then w.(sys := s', at := Collecting, got := w.got + 1) else NextRepetition(w, j).(sys := s');
      FreeIsStep(w, j, s', w');
    } else if w.at == Submitting || w.at == FlushSubmitting {
      var s' := Apply(w.sys, Submit(0));
      assert Step(w, Driver, j, w.(sys := s', at := if w.at == Submitting then Collecting else FlushCollecting));
    } else if w.at == FlushFilling || (w.at == Filling && w.num < j.depth && w.from != j.total) {
      EnqueueIsStep(w, j);
    } else if w.at == Collecting {
      assert Step(w, Driver, j, w.(at := if w.from != j.total then Filling else FlushFilling, num := 0, got := 0));
    } else {
      assert Step(w, Driver, j, w.(at := Submitting));
    }
  }

  lemma FreeIsStep(w: Sender, j: Load, s': State, w': Sender)
    requires Midway(w.at) && Frees(w.sys, s')
    requires w' == if w.at == Freeing then w.(sys := s', at := Collecting, got := w.got + 1) else NextRepetition(w, j).(sys := s')
    ensures CanMove(w, j)
  {
    hide Frees;
    assert Step(w, Driver, j, w');
  }

  lemma EnqueueIsStep(w: Sender, j: Load)
    requires WindowInv(w, j) && Shaped(w.sys) && Enabled(w.sys, Enqueue(0))
    requires w.at == FlushFilling || (w.at == Filling && w.num < j.depth && w.from != j.total)
    ensures CanMove(w, j)
  {
    hide Inv, Sent, Makes, PrpPages;
    var what := if w.at == Filling then Some(w.from) else None;
    var s' := MakesPossible(w.sys, j, what, w.num);
    var w' := if w.at == FlushFilling then w.(sys := s', at := FlushSubmitting, made := w.made + [what])
              else w.(sys := s', num := w.num + 1, from := w.from + 1, sent := w.sent + [(w.rep, w.from)], made := w.made + [what]);
    assert SubShaped(w.sys.subs[0]);
    assert Step(w, Driver, j, w');
  }

  lemma CanFree(w: Sender, j: Load) returns (s': State)
    requires WindowInv(w, j) && Midway(w.at)
    ensures Frees(w.sys, s')
  {
    var s := w.sys;
    GuardsByCounters(s, HeadUp(0));
    StepKeeps(s, HeadUp(0));
    var s1 := Apply(s, HeadUp(0));
    ShapedByInv(s1);
    if s1.subs[0].d.head == s1.subs[0].d.size { StepKeeps(s1, HeadWrap(0)); ShapedByInv(Apply(s1, HeadWrap(0))); }
    var s2 := if s1.subs[0].d.head == s1.subs[0].d.size then Apply(s1, HeadWrap(0)) else s1;
    s' := Apply(s2, Ack);
  }

  /** Waiting for a completion: it is there, or the controller can bring it closer. */
  lemma Awaits(w: Sender, j: Load)
    requires WindowInv(w, j) && ((w.at == Collecting && w.got < w.num) || w.at == FlushCollecting)
    ensures CanMove(w, j)
  {
    hide Sent, CompInv, SubInv, Logged, Distinct, PrpPages;
    var b, c := w.sys.subs[0], w.sys.comp;
    assert Safety.Fits(b, c, 0);
    if c.deq < |c.posted| {
      GuardsByCounters(w.sys, Dequeue);
      assert Step(w, Driver, j, w.(sys := Apply(w.sys, Dequeue), at := if w.at == Collecting then Freeing else FlushFreeing));
    } else {
      var e := NextControllerStep(w.sys);
      assert Step(w, Controller(e), j, w.(sys := Apply(w.sys, e)));
    }
  }

  /** A submitted command not yet completed: it can be posted or fetched. */
  lemma NextControllerStep(s: State) returns (e: Event)
    requires Inv(s) && |s.subs| == 1 && s.comp.deq == |s.comp.posted| == s.comp.ack
    requires var b := s.subs[0]; b.sub == |b.issued| > b.upd == Count(s.comp.posted[..s.comp.deq], 0)
    ensures (e.Fetch? || e.Post?) && Shaped(s) && Enabled(s, e)
  {
    var b, c := s.subs[0], s.comp;
    assert Safety.Fits(b, c, 0);
    if i :| i in b.open {
      e := Post(0, i);
    } else {
      assert c.posted[..c.deq] == c.posted;
      assert |b.open.Keys| == 0;
      e := Fetch(0);
    }
    GuardsByCounters(s, e);
  }

  // ---------------------------------------------------------------- the job finishes

  /** With a depth of 0 a window sends nothing. */
  predicate Able(j: Load) { j.depth >= 1 || j.total == 0 || j.reps == 0 }

  function FlushIssued(g: Place): nat { if g == FlushSubmitting || g == FlushCollecting || g == FlushFreeing then 1 else 0 }

  /** No window is empty, and every command issued is a transfer sent or a flush. */
  ghost predicate Busy(w: Sender, j: Load) {
    && |w.sys.subs| == 1
    && (w.at == Filling ==> w.num > 0 || w.from != j.total)
    && (w.at == Submitting || w.at == Collecting || w.at == Freeing ==> w.num >= 1)
    && |w.sys.subs[0].issued| == |w.sent| + w.rep + FlushIssued(w.at)
    && w.rep <= j.reps && (w.at != Finished && w.at != Thrown ==> w.rep < j.reps)
  }

  function PlaceRank(g: Place): nat {
    match g
    case Submitting => 1
    case Collecting => 2
    case Freeing => 2
    case FlushSubmitting => 1
    case FlushCollecting => 2
    case FlushFreeing => 2
    case _ => 0
  }

  /** How far the sender and the controller have come; upd - got counts the commands of finished windows. */
  function Measure(w: Sender): int
    requires |w.sys.subs| == 1
  {
    var b, c := w.sys.subs[0], w.sys.comp;
    |b.issued| + |b.fetched| + |c.posted| + c.deq + b.upd + 3 * (b.upd - w.got) + PlaceRank(w.at)
  }

  function Bound(j: Load): nat { 8 * (j.reps * (j.total + 1)) + 2 }

  lemma {:induction false} SentLength(rep: nat, from: nat, total: nat)
    ensures |Sent(rep, from, total)| == rep * total + from
    decreases rep, from
  {
    if from > 0 { SentLength(rep, from - 1, total); }
    else if rep > 0 { SentLength(rep - 1, total, total); assert rep * total == (rep - 1) * total + total; }
  }

  lemma StartBusy(w: Sender, j: Load)
    requires Start(w, j)
    ensures Busy(w, j) && Measure(w) == 0
  {
    assert FreshSub(w.sys.subs[0]);
  }

  /** Of one queue, completions are no more than fetches. */
  lemma PostedBound(s: State)
    requires Inv(s) && |s.subs| == 1
    ensures s.comp.deq <= |s.comp.posted| <= |s.subs[0].fetched| <= |s.subs[0].issued| && s.subs[0].upd <= |s.subs[0].fetched|
  {
    var b, c := s.subs[0], s.comp;
    assert Safety.Fits(b, c, 0);
    forall e <- c.posted ensures e.sqid == 0 {
      var k :| 0 <= k < |c.posted| && c.posted[k] == e;
      assert Reports(s.subs, c.posted[k], c.log[k]);
    }
    CountAllOfOne(c.posted);
  }

  lemma CommandsBound(rep: nat, from: nat, j: Load, flush: nat)
    requires from <= j.total && flush <= 1 && rep <= j.reps && (rep == j.reps ==> from == 0 && flush == 0)
    ensures rep * j.total + from + rep + flush <= j.reps * (j.total + 1)
  {
    var left := j.reps - rep;
    assert j.reps * (j.total + 1) == rep * (j.total + 1) + left * (j.total + 1);
    assert rep * (j.total + 1) == rep * j.total + rep;
    if left > 0 { SmallMultiple(left, j.total + 1); }
  }

  lemma MeasureBounded(w: Sender, j: Load)
    requires WindowInv(w, j) && Busy(w, j)
    ensures Measure(w) <= Bound(j)
  {
    hide Inv, Sent;
    PostedBound(w.sys);
    SentLength(w.rep, w.from, j.total);
    CommandsBound(w.rep, w.from, j, FlushIssued(w.at));
  }

  lemma EnqueueGrows(w: Sender, j: Load, w': Sender)
    requires WindowInv(w, j) && Busy(w, j) && Fits(j, w.sys.subs[0].d.size) && DriverStep(w, j, w')
    requires (w.at == Filling && w.num < j.depth && w.from != j.total) || w.at == FlushFilling
    ensures Busy(w', j) && Measure(w') > Measure(w)
  {
    hide Inv, Makes, Sent, PrpPages, Full, Count, Shaped;
    OneQueue(w.sys);
    EnqueueEffect(w.sys, j, if w.at == Filling then Some(w.from) else None, w.num, w'.sys);
  }

  lemma SubmitGrows(w: Sender, j: Load, w': Sender)
    requires WindowInv(w, j) && Busy(w, j) && DriverStep(w, j, w') && (w.at == Submitting || w.at == FlushSubmitting)
    ensures Busy(w', j) && Measure(w') > Measure(w)
  {
    hide Inv, Takes, Sent, PrpPages;
    SubmitSame(w.sys, w'.sys);
    SubmitFetched(w.sys, w'.sys);
  }

  lemma DequeueGrows(w: Sender, j: Load, w': Sender)
    requires WindowInv(w, j) && Busy(w, j) && DriverStep(w, j, w') && ((w.at == Collecting && w.got < w.num) || w.at == FlushCollecting)
    ensures Busy(w', j) && Measure(w') > Measure(w)
  {
    hide Inv, Takes, Sent, PrpPages, Count;
    DequeueOne(w.sys, w'.sys);
  }

  lemma FreeGrows(w: Sender, j: Load, w': Sender)
    requires WindowInv(w, j) && Busy(w, j) && DriverStep(w, j, w') && Midway(w.at)
    ensures Busy(w', j) && Measure(w') > Measure(w)
  {
    hide Inv, Frees, Sent, PrpPages, CompAck, Count;
    FreesEffect(w.sys, w'.sys);
    AckPosted(w.sys.comp);
  }

  lemma PlainGrows(w: Sender, j: Load, w': Sender)
    requires WindowInv(w, j) && Busy(w, j) && Able(j) && DriverStep(w, j, w')
    requires (w.at == Filling && !(w.num < j.depth && w.from != j.total)) || (w.at == Collecting && w.got == w.num)
    ensures Busy(w', j) && Measure(w') > Measure(w)
  {
    hide Inv, Sent, PrpPages, Count;
  }

  lemma OtherGrows(w: Sender, j: Load, w': Sender)
    requires WindowInv(w, j) && Busy(w, j) && Able(j) && DriverStep(w, j, w')
    requires !((w.at == Filling && w.num < j.depth && w.from != j.total) || w.at == FlushFilling)
    ensures Busy(w', j) && Measure(w') > Measure(w)
  {
    hide Busy, Takes, Frees, Measure, Able, NextRepetition;
    GotBound(w, j);
    if w.at == Submitting || w.at == FlushSubmitting { SubmitGrows(w, j, w'); }
    else if Midway(w.at) { FreeGrows(w, j, w'); }
    else if (w.at == Collecting && w.got < w.num) || w.at == FlushCollecting { DequeueGrows(w, j, w'); }
    else { PlainGrows(w, j, w'); }
  }

  lemma GotBound(w: Sender, j: Load)
    requires WindowInv(w, j)
    ensures w.got <= w.num
  {}

  lemma AckPosted(c: Comp)
    ensures CompAck(c).posted == c.posted && CompAck(c).deq == c.deq
  {}

  lemma SubmitFetched(s: State, s': State)
    requires |s.subs| == 1 && Takes(s, Submit(0), s')
    ensures |s'.subs| == 1 && s'.subs[0].fetched == s.subs[0].fetched
  {}

  lemma ControllerGrows(w: Sender, e: Event, j: Load, w': Sender)
    requires WindowInv(w, j) && Busy(w, j) && Step(w, Controller(e), j, w')
    ensures Busy(w', j) && if e.Reread? then Measure(w') == Measure(w) else Measure(w') > Measure(w)
  {
    hide Inv, Sent;
    Transfer.ControllerEffect(w.sys, e, w'.sys, 0);
  }

  lemma StepGrows(w: Sender, a: Act, j: Load, w': Sender)
    requires WindowInv(w, j) && Busy(w, j) && Fits(j, w.sys.subs[0].d.size) && Able(j) && Step(w, a, j, w')
    ensures Busy(w', j) && if Rereads(a) then Measure(w') == Measure(w) else Measure(w') > Measure(w)
  {
    hide WindowInv, Busy, DriverStep, Takes, Measure;
    match a
    case Controller(e) => ControllerGrows(w, e, j, w');
    case Driver =>
      if (w.at == Filling && w.num < j.depth && w.from != j.total) || w.at == FlushFilling { EnqueueGrows(w, j, w'); }
      else { OtherGrows(w, j, w'); }
  }

  predicate Rereads(a: Act) { a.Controller? && a.e.Reread? }

  /** Steps that are not rereads of a list. */
  function Moves(acts: seq<Act>): nat {
    if acts == [] then 0 else Moves(acts[..|acts| - 1]) + (if Rereads(acts[|acts| - 1]) then 0 else 1)
  }

  lemma {:induction false} MovesMeasured(ws: seq<Sender>, acts: seq<Act>, j: Load, i: nat)
    requires Behaviour(ws, acts, j) && Fits(j, ws[0].sys.subs[0].d.size) && Able(j) && i <= |acts|
    ensures Busy(ws[i], j) && Moves(acts[..i]) <= Measure(ws[i])
  {
    hide WindowInv, Busy, Step, Measure, Start;
    if i == 0 { StartBusy(ws[0], j); } else {
      MovesMeasured(ws, acts, j, i - 1);
      BehaviourKeepsWindow(ws, acts, j, i - 1);
      var w, a, w' := ws[i - 1], acts[i - 1], ws[i];
      assert Step(w, a, j, w');
      StepGrows(w, a, j, w');
      assert acts[..i][..i - 1] == acts[..i - 1];
    }
  }

  /**
   * Nothing in the job of one queue, apart from the barrier, keeps it from finishing if a window can
   * hold a command: in every run at most Bound(j) steps are not rereads, and until the job is
   * finished the sender or the controller has one to take.
   */
  lemma SenderTerminates(ws: seq<Sender>, acts: seq<Act>, j: Load)
    requires Behaviour(ws, acts, j) && Fits(j, ws[0].sys.subs[0].d.size) && Able(j)
    ensures Moves(acts) <= Bound(j)
    ensures ws[|acts|].at == Finished || CanMove(ws[|acts|], j)
  {
    hide WindowInv, Busy, Step, Measure, Start;
    BehaviourKeepsWindow(ws, acts, j, |acts|);
    MovesMeasured(ws, acts, j, |acts|);
    MeasureBounded(ws[|acts|], j);
    assert acts[..|acts|] == acts;
    if ws[|acts|].at != Finished { InvOneQueue(ws[|acts|], j); SomeStep(ws[|acts|], j); }
  }

  /** From any point of a run on, moves lead to the end. */
  lemma {:induction false} Finish(ws: seq<Sender>, acts: seq<Act>, j: Load) returns (ws': seq<Sender>, acts': seq<Act>)
    requires Behaviour(ws, acts, j) && Fits(j, ws[0].sys.subs[0].d.size) && Able(j) && Moves(acts) <= Bound(j)
    ensures Behaviour(ws', acts', j) && ws'[0] == ws[0] && ws'[|acts'|].at == Finished
    decreases Bound(j) - Moves(acts)
  {
    hide WindowInv, Step, Start, Bound;
    SenderTerminates(ws, acts, j);
    if ws[|acts|].at == Finished { ws', acts' := ws, acts; } else {
      var a, w' :| Step(ws[|acts|], a, j, w') && (a.Controller? ==> !a.e.Reread?);
      Extend(ws, acts, j, a, w');
      assert (acts + [a])[..|acts|] == acts;
      SenderTerminates(ws + [w'], acts + [a], j);
      ws', acts' := Finish(ws + [w'], acts + [a], j);
    }
  }

  lemma {:induction false} NothingSent(ws: seq<Sender>, acts: seq<Act>, j: Load, i: nat)
    requires Behaviour(ws, acts, j) && j.depth == 0 && j.total > 0 && j.reps > 0 && i < |ws|
    ensures ws[i].at == Filling || ws[i].at == Submitting || ws[i].at == Collecting
    ensures ws[i].num == 0 == ws[i].got && ws[i].from == 0 && ws[i].sent == []
  {
    if i > 0 {
      NothingSent(ws, acts, j, i - 1);
      assert Step(ws[i - 1], acts[i - 1], j, ws[i]);
    }
  }

  /**
   * Of one queue, apart from the barrier: some run of a job that fits the ring finishes exactly when
   * its depth is at least 1 or there is nothing to send.
   */
  lemma FinishesExactly(w0: Sender, j: Load)
    requires Start(w0, j) && |w0.sys.subs| == 1 && Fits(j, w0.sys.subs[0].d.size)
    ensures (exists ws: seq<Sender>, acts: seq<Act> :: Behaviour(ws, acts, j) && ws[0] == w0 && ws[|acts|].at == Finished)
            <==> Able(j)
  {
    if Able(j) {
      var ws0: seq<Sender>, acts0: seq<Act> := [w0], [];
      assert Behaviour(ws0, acts0, j);
      var ws, acts := Finish(ws0, acts0, j);
    } else {
      forall ws: seq<Sender>, acts: seq<Act> | Behaviour(ws, acts, j) && ws[0] == w0 ensures ws[|acts|].at != Finished {
        NothingSent(ws, acts, j, |acts|);
      }
    }
  }

  // ---------------------------------------------------------------- a window as deep as the ring

  /** k commands of the first window enqueued, nothing else has happened. */
  ghost predicate Filled(w: Sender, j: Load, n: nat, k: nat) {
    && w.at == Filling && w.num == k == w.from && w.got == 0 && Inv(w.sys) && |w.sys.subs| == 1
    && Laid(j) && PrpPages(j, w.sys.subs[0].lists)
    && var b := w.sys.subs[0];
    && b.d.size == n && |b.issued| == k && b.upd == 0
  }

  lemma {:induction false} FillWindow(ws: seq<Sender>, acts: seq<Act>, j: Load, n: nat, k: nat) returns (ws': seq<Sender>, acts': seq<Act>)
    requires Behaviour(ws, acts, j) && Filled(ws[|acts|], j, n, k) && k <= n - 1 && j.depth >= n && j.total >= n
    ensures Behaviour(ws', acts', j) && ws'[0] == ws[0] && Filled(ws'[|acts'|], j, n, n - 1)
    decreases n - k
  {
    if k == n - 1 { ws', acts' := ws, acts; } else {
      var w := ws[|acts|];
      GuardsByCounters(w.sys, Enqueue(0));
      var s' := MakesPossible(w.sys, j, Some(k), k);
      EnqueueEffect(w.sys, j, Some(k), k, s');
      var w' := w.(sys := s', num := k + 1, from := k + 1, sent := w.sent + [(w.rep, w.from)], made := w.made + [Some(k)]);
      assert SubShaped(w.sys.subs[0]);
      Extend(ws, acts, j, Driver, w');
      ws', acts' := FillWindow(ws + [w'], acts + [Driver], j, n, k + 1);
    }
  }

  lemma Extend(ws: seq<Sender>, acts: seq<Act>, j: Load, a: Act, w': Sender)
    requires Behaviour(ws, acts, j) && Step(ws[|acts|], a, j, w')
    ensures Behaviour(ws + [w'], acts + [a], j)
  {
    hide Step, Start;
    forall i | 0 <= i < |acts| + 1 ensures Step((ws + [w'])[i], (acts + [a])[i], j, (ws + [w'])[i + 1]) {
      if i < |acts| { assert acts[i] == (acts + [a])[i] && Step(ws[i], acts[i], j, ws[i + 1]); }
    }
  }

  /**
   * The exact condition: the sender throws in some run from a start if and only if there is
   * something to send and neither the depth nor the transfer list is shorter than the ring.
   */
  lemma ThrowsExactly(w0: Sender, j: Load)
    requires Start(w0, j)
    ensures (exists ws: seq<Sender>, acts: seq<Act> :: Behaviour(ws, acts, j) && ws[0] == w0 && ws[|acts|].at == Thrown)
            <==> j.reps > 0 && !Fits(j, w0.sys.subs[0].d.size)
  {
    var n := w0.sys.subs[0].d.size;
    FreshInv(w0.sys);
    assert FreshSub(w0.sys.subs[0]);
    if j.reps > 0 && !Fits(j, n) {
      var ws0: seq<Sender>, acts0: seq<Act> := [w0], [];
      assert Behaviour(ws0, acts0, j);
      var ws, acts := FillWindow(ws0, acts0, j, n, 0);
      var w := ws[|acts|];
      GuardsByCounters(w.sys, Enqueue(0));
      Extend(ws, acts, j, Driver, w.(at := Thrown));
      var ws', acts' := ws + [w.(at := Thrown)], acts + [Driver];
      assert Behaviour(ws', acts', j) && ws'[0] == w0 && ws'[|acts'|].at == Thrown;
    }
    forall ws: seq<Sender>, acts: seq<Act> | Behaviour(ws, acts, j) && ws[0] == w0 && ws[|acts|].at == Thrown
      ensures j.reps > 0 && !Fits(j, n)
    {
      if Fits(j, n) { BehaviourKeepsWindow(ws, acts, j, |acts|); }
      if j.reps == 0 { NothingToDo(ws, acts, j, |acts|); }
    }
  }

  lemma {:induction false} NothingToDo(ws: seq<Sender>, acts: seq<Act>, j: Load, i: nat)
    requires Behaviour(ws, acts, j) && j.reps == 0 && i < |ws|
    ensures ws[i].at == Finished
  {
    if i > 0 {
      NothingToDo(ws, acts, j, i - 1);
      assert Step(ws[i - 1], acts[i - 1], j, ws[i]);
    }
  }
}
