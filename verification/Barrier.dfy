/**
 * The sense-reversing barrier of benchmarks/latency/barrier.cc: every read and write of `arrived`
 * and `flag` is a step of its own, and any interleaving of N threads is a run.
 */
module Barrier {

  /** Where a thread is in wait(); the mutex is held from Locked to Stored. */
  datatype Place =
    | Outside      // between calls
    | Entering     // mtx.lock() not yet granted
    | Locked       // about to read flag
    | HasFlag      // about to read arrived
    | HasCount     // about to store arrived + 1
    | Stored       // compared with reset, about to unlock
    | Resetting    // last thread, unlocked, about to store arrived = 0
    | Flipping     // about to store flag
    | Spinning     // while (flag != localFlag)

  /** `entered` and `returned` count calls of wait(): history. */
  datatype Thread = Thread(at: Place, localFlag: bool, seen: nat, entered: nat, returned: nat)

  /** `round` counts the stores to flag: history. */
  datatype State = State(arrived: nat, flag: bool, holder: int, threads: seq<Thread>, round: nat)

  const FREE := -1

  /** Thread t's next instruction; a blocked or spinning thread leaves the state as it is. */
  function Step(s: State, t: nat): State
    requires t < |s.threads|
  {
    var x := s.threads[t];
    match x.at
    case Outside => s.(threads := s.threads[t := x.(at := Entering, entered := x.entered + 1)])
    case Entering =>
      if s.holder == FREE then s.(holder := t, threads := s.threads[t := x.(at := Locked)]) else s
    case Locked => s.(threads := s.threads[t := x.(at := HasFlag, localFlag := !s.flag)])
    case HasFlag => s.(threads := s.threads[t := x.(at := HasCount, seen := s.arrived)])
    case HasCount => s.(arrived := x.seen + 1, threads := s.threads[t := x.(at := Stored)])
    case Stored =>
      s.(holder := FREE, threads := s.threads[t := x.(at := if x.seen + 1 == |s.threads| then Resetting else Spinning)])
    case Resetting => s.(arrived := 0, threads := s.threads[t := x.(at := Flipping)])
    case Flipping =>
      s.(flag := x.localFlag, round := s.round + 1,
         threads := s.threads[t := x.(at := Outside, returned := x.returned + 1)])
    case Spinning =>
      if s.flag == x.localFlag then s.(threads := s.threads[t := x.(at := Outside, returned := x.returned + 1)]) else s
  }

  /** A schedule: the threads in the order they take steps. */
  function Run(s: State, schedule: seq<nat>): State
    decreases |schedule|
  {
    if schedule == [] then s
    else Run(if schedule[0] < |s.threads| then Step(s, schedule[0]) else s, schedule[1..])
  }

  ghost predicate Start(s: State) {
    && |s.threads| >= 1 && s.arrived == 0 && !s.flag && s.holder == FREE && s.round == 0
    && (forall t | 0 <= t < |s.threads| :: s.threads[t].at == Outside && s.threads[t].entered == 0 == s.threads[t].returned)
  }

  // ---------------------------------------------------------------- invariant

  predicate Holds(g: Place) { g == Locked || g == HasFlag || g == HasCount || g == Stored }

  /** A thread that has added itself to `arrived` in the round under way. */
  predicate Counted(x: Thread, round: nat) {
    x.entered == round + 1 && (x.at == Stored || x.at == Resetting || x.at == Flipping || x.at == Spinning)
  }

  /** The thread that found itself last. */
  predicate Last(x: Thread, n: nat) {
    x.seen + 1 == n && (x.at == Stored || x.at == Resetting || x.at == Flipping)
  }

  function Count(s: State, k: nat): nat
    requires k <= |s.threads|
  {
    if k == 0 then 0 else Count(s, k - 1) + (if Counted(s.threads[k - 1], s.round) then 1 else 0)
  }

  function Odd(n: nat): bool { n % 2 == 1 }

  ghost predicate ThreadInv(s: State, t: nat)
    requires t < |s.threads|
  {
    var x := s.threads[t];
    && (Holds(x.at) <==> s.holder == t)
    && x.entered == x.returned + (if x.at == Outside then 0 else 1)
    && (x.at == Outside ==> x.entered == s.round)
    && (x.at == Spinning ==> (x.entered == s.round && x.localFlag == s.flag) || (x.entered == s.round + 1 && x.localFlag != s.flag))
    && (x.at != Outside && x.at != Spinning ==> x.entered == s.round + 1)
    && (x.at == HasFlag || x.at == HasCount || x.at == Stored || x.at == Resetting || x.at == Flipping ==> x.localFlag != s.flag)
    && (x.at == HasCount ==> x.seen == s.arrived)
    && (x.at == Stored ==> x.seen + 1 == s.arrived)
    && (x.at == Resetting || x.at == Flipping ==> Last(x, |s.threads|))
  }

  ghost predicate Somebody(s: State, flipping: bool) {
    exists t :: 0 <= t < |s.threads| && (if flipping then s.threads[t].at == Flipping else Last(s.threads[t], |s.threads|))
  }

  ghost predicate Inv(s: State) {
    var n := |s.threads|;
    && n >= 1 && s.flag == Odd(s.round)
    && (s.holder == FREE || 0 <= s.holder < n)
    && (forall t | 0 <= t < n :: ThreadInv(s, t))
    && (forall t, u | 0 <= t < u < n :: !(Last(s.threads[t], n) && Last(s.threads[u], n)))
    && (Count(s, n) == n <==> Somebody(s, false))
    && s.arrived == if Somebody(s, true) then 0 else Count(s, n)
  }

  // ---------------------------------------------------------------- counting

  lemma {:induction false} CountBound(s: State, k: nat)
    requires k <= |s.threads|
    ensures Count(s, k) <= k
    ensures Count(s, k) == k ==> forall t | 0 <= t < k :: Counted(s.threads[t], s.round)
  {
    if k > 0 { CountBound(s, k - 1); }
  }

  lemma {:induction false} CountFull(s: State, k: nat)
    requires k <= |s.threads| && (forall t | 0 <= t < k :: Counted(s.threads[t], s.round))
    ensures Count(s, k) == k
  {
    if k > 0 { CountFull(s, k - 1); }
  }

  /** One thread changes, the round does not. */
  lemma {:induction false} CountStep(s: State, s': State, t: nat, k: nat)
    requires t < |s.threads| == |s'.threads| && k <= |s.threads| && s'.round == s.round
    requires s'.threads == s.threads[t := s'.threads[t]]
    ensures Count(s', k) == Count(s, k) + (if t >= k then 0 else
              (if Counted(s'.threads[t], s.round) then 1 else 0) - (if Counted(s.threads[t], s.round) then 1 else 0))
  {
    if k > 0 { CountStep(s, s', t, k - 1); }
  }

  /** After the flip nobody is counted yet: everyone entered the round just finished. */
  lemma {:induction false} CountNone(s: State, k: nat)
    requires k <= |s.threads| && (forall t | 0 <= t < k :: s.threads[t].entered <= s.round)
    ensures Count(s, k) == 0
  {
    if k > 0 { CountNone(s, k - 1); }
  }

  // ---------------------------------------------------------------- every step keeps the invariant

  /** Until the flip all other threads spin in the same call. */
  lemma FlipOther(s: State, t: nat, u: nat)
    requires Inv(s) && t < |s.threads| && s.threads[t].at == Flipping && u < |s.threads| && u != t
    ensures s.threads[u].at == Spinning && s.threads[u].entered == s.round + 1 && ThreadInv(Step(s, t), u)
  {
    hide Count, Odd;
    assert ThreadInv(s, t) && ThreadInv(s, u) && Somebody(s, true);
    LastMeansAll(s, t);
    assert !(Last(s.threads[if u < t then u else t], |s.threads|) && Last(s.threads[if u < t then t else u], |s.threads|));
  }

  lemma FlipKeeps(s: State, t: nat)
    requires Inv(s) && t < |s.threads| && s.threads[t].at == Flipping
    ensures Inv(Step(s, t))
  {
    var n, s' := |s.threads|, Step(s, t);
    assert ThreadInv(s, t);
    forall u | 0 <= u < n && u != t
      ensures s'.threads[u] == s.threads[u] && s.threads[u].at == Spinning && s.threads[u].entered == s'.round && ThreadInv(s', u)
    {
      FlipOther(s, t, u);
    }
    assert ThreadInv(s', t);
    CountNone(s', n);
  }

  /** While a last thread is on its way to the flip, everybody has arrived. */
  lemma LastMeansAll(s: State, t: nat)
    requires Inv(s) && t < |s.threads| && Last(s.threads[t], |s.threads|)
    ensures forall u | 0 <= u < |s.threads| :: Counted(s.threads[u], s.round)
  {
    assert Somebody(s, false);
    CountBound(s, |s.threads|);
  }

  /** A thread still to be counted: nobody is last, and arrived is the count. */
  lemma Uncounted(s: State, t: nat)
    requires Inv(s) && t < |s.threads| && !Counted(s.threads[t], s.round)
    ensures !Somebody(s, false) && !Somebody(s, true) && s.arrived == Count(s, |s.threads|) < |s.threads|
  {
    CountBound(s, |s.threads|);
    forall u | 0 <= u < |s.threads| ensures s.threads[u].at != Flipping { assert ThreadInv(s, u); }
  }

  /** What a step does to another thread's invariant. */
  lemma OtherThread(s: State, t: nat, u: nat)
    requires Inv(s) && t < |s.threads| && s.threads[t].at != Flipping && u < |s.threads| && u != t
    ensures ThreadInv(Step(s, t), u)
  {
    hide Count, Odd;
    assert ThreadInv(s, t) && ThreadInv(s, u);
    if s.threads[t].at == Resetting { LastMeansAll(s, t); }
  }

  /** And to the thread's own. */
  lemma OwnThread(s: State, t: nat)
    requires Inv(s) && t < |s.threads| && s.threads[t].at != Flipping
    ensures ThreadInv(Step(s, t), t)
  {
    hide Count, Odd, Somebody;
    assert ThreadInv(s, t);
    if s.threads[t].at == HasCount { Uncounted(s, t); }
  }

  lemma ThreadsKeep(s: State, t: nat)
    requires Inv(s) && t < |s.threads| && s.threads[t].at != Flipping
    ensures forall u | 0 <= u < |s.threads| :: ThreadInv(Step(s, t), u)
  {
    hide Inv, ThreadInv;
    forall u | 0 <= u < |s.threads| ensures ThreadInv(Step(s, t), u) {
      if u == t { OwnThread(s, t); } else { OtherThread(s, t, u); }
    }
  }

  lemma StoreKeeps(s: State, t: nat)
    requires Inv(s) && t < |s.threads| && s.threads[t].at == HasCount
    ensures Inv(Step(s, t))
  {
    var n, s' := |s.threads|, Step(s, t);
    assert ThreadInv(s, t);
    Uncounted(s, t);
    ThreadsKeep(s, t);
    CountStep(s, s', t, n);
    assert forall u | 0 <= u < n && u != t :: s'.threads[u] == s.threads[u] && !Last(s.threads[u], n) && s.threads[u].at != Flipping;
    assert s'.threads[t].at == Stored;
    if Count(s', n) == n { assert Last(s'.threads[t], n); }
  }

  lemma LastsKeep(s: State, t: nat)
    requires Inv(s) && t < |s.threads| && s.threads[t].at != HasCount && s.threads[t].at != Flipping
    ensures Somebody(Step(s, t), false) == Somebody(s, false)
    ensures forall u | 0 <= u < |s.threads| :: Last(Step(s, t).threads[u], |s.threads|) == Last(s.threads[u], |s.threads|)
  {
    hide Count, Odd, Holds, Counted, Somebody;
    assert ThreadInv(s, t);
    SameLasts(s, Step(s, t));
  }

  lemma SameLasts(s: State, s': State)
    requires |s'.threads| == |s.threads|
    requires forall u | 0 <= u < |s.threads| :: Last(s'.threads[u], |s.threads|) == Last(s.threads[u], |s.threads|)
    ensures Somebody(s', false) == Somebody(s, false)
  {
    if u :| 0 <= u < |s.threads| && Last(s.threads[u], |s.threads|) { assert Last(s'.threads[u], |s.threads|); }
  }

  /** Steps that change neither who is counted nor who is last. */
  lemma PlainKeeps(s: State, t: nat)
    requires Inv(s) && t < |s.threads| && s.threads[t].at != HasCount && s.threads[t].at != Flipping
    ensures Inv(Step(s, t))
  {
    hide Holds, Count, Odd;
    assert ThreadInv(s, t);
    ThreadsKeep(s, t);
    CountStep(s, Step(s, t), t, |s.threads|);
    assert Step(s, t).threads == s.threads[t := Step(s, t).threads[t]];
    LastsKeep(s, t);
    FlippersKeep(s, t);
  }

  lemma FlippersKeep(s: State, t: nat)
    requires Inv(s) && t < |s.threads| && s.threads[t].at != HasCount && s.threads[t].at != Flipping
    ensures Somebody(Step(s, t), true) == (Somebody(s, true) || s.threads[t].at == Resetting)
  {
    var n, s' := |s.threads|, Step(s, t);
    if Somebody(s, true) {
      var u :| 0 <= u < n && s.threads[u].at == Flipping;
      assert s'.threads[u].at == Flipping;
    }
    if s.threads[t].at == Resetting { assert s'.threads[t].at == Flipping; }
    if Somebody(s', true) {
      var u :| 0 <= u < n && s'.threads[u].at == Flipping;
      assert u != t ==> s.threads[u].at == Flipping;
    }
  }

  lemma StepKeeps(s: State, t: nat)
    requires Inv(s) && t < |s.threads|
    ensures Inv(Step(s, t))
  {
    if s.threads[t].at == Flipping { FlipKeeps(s, t); }
    else if s.threads[t].at == HasCount { StoreKeeps(s, t); }
    else { PlainKeeps(s, t); }
  }

  lemma {:induction false} RunKeeps(s: State, schedule: seq<nat>)
    requires Inv(s)
    ensures Inv(Run(s, schedule))
    decreases |schedule|
  {
    if schedule != [] {
      if schedule[0] < |s.threads| {
        StepKeeps(s, schedule[0]);
        RunKeeps(Step(s, schedule[0]), schedule[1..]);
      } else {
        RunKeeps(s, schedule[1..]);
      }
    }
  }

  lemma StartInv(s: State)
    requires Start(s)
    ensures Inv(s)
  {
    CountNone(s, |s.threads|);
  }

  // ---------------------------------------------------------------- every schedule

  /**
   * Phases are separated: under every schedule, whoever has returned from r calls, everybody has
   * entered at least r; threads are at most one call apart; `arrived` never exceeds N.
   */
  lemma PhaseSeparation(s0: State, schedule: seq<nat>, t: nat, u: nat)
    requires Start(s0) && t < |Run(s0, schedule).threads| && u < |Run(s0, schedule).threads|
    ensures var s := Run(s0, schedule);
            && s.threads[t].returned <= s.threads[u].entered
            && s.threads[t].entered <= s.threads[u].entered + 1
            && s.arrived <= |s.threads|
  {
    StartInv(s0);
    RunKeeps(s0, schedule);
    var s := Run(s0, schedule);
    assert ThreadInv(s, t) && ThreadInv(s, u);
    CountBound(s, |s.threads|);
  }

  /** The flag is flipped only when all N calls of the round have arrived, and arrived is 0 again by then. */
  lemma FlipsWhenAllArrived(s0: State, schedule: seq<nat>, t: nat, u: nat)
    requires Start(s0) && t < |Run(s0, schedule).threads| && u < |Run(s0, schedule).threads|
    requires Run(s0, schedule).threads[t].at == Flipping
    ensures var s := Run(s0, schedule);
            && s.arrived == 0 && (u != t ==> s.threads[u].at == Spinning)
            && s.threads[u].entered == s.threads[t].entered && s.threads[u].returned < s.threads[u].entered
  {
    StartInv(s0);
    RunKeeps(s0, schedule);
    var s := Run(s0, schedule);
    assert ThreadInv(s, t) && ThreadInv(s, u);
    LastMeansAll(s, t);
    var a, b := if t < u then t else u, if t < u then u else t;
    assert a < b ==> !(Last(s.threads[a], |s.threads|) && Last(s.threads[b], |s.threads|));
  }

  /** No deadlock: when every thread is inside wait(), some thread's next step changes the state. */
  lemma SomeoneAdvances(s0: State, schedule: seq<nat>) returns (t: nat)
    requires Start(s0) && (forall x <- Run(s0, schedule).threads :: x.at != Outside)
    ensures var s := Run(s0, schedule); t < |s.threads| && Step(s, t) != s
  {
    StartInv(s0);
    RunKeeps(s0, schedule);
    t := InsideAdvances(Run(s0, schedule));
  }

  lemma InsideAdvances(s: State) returns (t: nat)
    requires Inv(s) && (forall x <- s.threads :: x.at != Outside)
    ensures t < |s.threads| && Step(s, t) != s
  {
    var n := |s.threads|;
    if s.holder != FREE {
      t := s.holder;
    } else if u :| 0 <= u < n && Last(s.threads[u], n) {
      t := u;
    } else {
      SomeoneUncounted(s);
      t :| 0 <= t < n && !Counted(s.threads[t], s.round);
    }
    assert ThreadInv(s, t);
    Changes(s, t);
  }

  /** With nobody last, somebody is not yet counted. */
  lemma SomeoneUncounted(s: State)
    requires Inv(s) && !Somebody(s, false)
    ensures exists t :: 0 <= t < |s.threads| && !Counted(s.threads[t], s.round)
  {
    if forall t | 0 <= t < |s.threads| :: Counted(s.threads[t], s.round) { CountFull(s, |s.threads|); }
  }

  lemma Changes(s: State, t: nat)
    requires t < |s.threads| && ThreadInv(s, t)
    requires s.threads[t].at != Entering || s.holder == FREE
    requires s.threads[t].at == Spinning ==> s.threads[t].entered == s.round
    ensures Step(s, t) != s
  {
    assert Step(s, t).threads[t].at != s.threads[t].at;
  }

  // ---------------------------------------------------------------- every call returns

  /** How far a thread is into its call. */
  function Rank(g: Place): nat {
    match g
    case Outside => 0
    case Entering => 1
    case Locked => 2
    case HasFlag => 3
    case HasCount => 4
    case Stored => 5
    case Resetting => 6
    case Flipping => 7
    case Spinning => 6
  }

  /** How far the first k threads have come. */
  function Work(threads: seq<Thread>, k: nat): nat
    requires k <= |threads|
  {
    if k == 0 then 0 else Work(threads, k - 1) + 8 * threads[k - 1].returned + Rank(threads[k - 1].at)
  }

  lemma {:induction false} WorkStep(threads: seq<Thread>, t: nat, x: Thread, k: nat)
    requires t < |threads| && k <= |threads|
    requires 8 * x.returned + Rank(x.at) > 8 * threads[t].returned + Rank(threads[t].at)
    ensures Work(threads[t := x], k) >= Work(threads, k) + (if t < k then 1 else 0)
  {
    if k > 0 { WorkStep(threads, t, x, k - 1); }
  }

  /** Steps of the schedule that change the state: all but waiting for the lock and spinning. */
  function Moves(s: State, schedule: seq<nat>): nat
    decreases |schedule|
  {
    if schedule == [] then 0
    else
      var s' := if schedule[0] < |s.threads| then Step(s, schedule[0]) else s;
      (if s' != s then 1 else 0) + Moves(s', schedule[1..])
  }

  lemma {:induction false} MovesWork(s: State, schedule: seq<nat>)
    ensures var s' := Run(s, schedule);
            |s'.threads| == |s.threads| && Work(s.threads, |s.threads|) + Moves(s, schedule) <= Work(s'.threads, |s'.threads|)
    decreases |schedule|
  {
    if schedule != [] {
      var t := schedule[0];
      var s' := if t < |s.threads| then Step(s, t) else s;
      if s' != s { WorkStep(s.threads, t, s'.threads[t], |s.threads|); }
      MovesWork(s', schedule[1..]);
    }
  }

  lemma {:induction false} WorkBound(s: State, r: nat, k: nat)
    requires Inv(s) && k <= |s.threads| && (forall x <- s.threads :: x.entered <= r)
    ensures Work(s.threads, k) <= 8 * r * k
  {
    if k > 0 {
      WorkBound(s, r, k - 1);
      assert ThreadInv(s, k - 1) && s.threads[k - 1] in s.threads;
      assert 8 * r * k == 8 * r * (k - 1) + 8 * r;
    }
  }

  /** Threads that call wait() r times each have all returned from all of them. */
  ghost predicate AllReturned(s: State, r: nat) { forall x <- s.threads :: x.returned == r }

  /** Thread t may take its next step when no thread makes more than r calls. */
  ghost predicate MayMove(s: State, r: nat, t: nat) {
    t < |s.threads| && (s.threads[t].at == Outside ==> s.threads[t].entered < r) && Step(s, t) != s
  }

  /**
   * Every call returns. When each of N threads makes r calls, then under every schedule at most
   * 8 * r * N steps change the state, and until all have returned from all their calls some thread
   * has such a step to take.
   */
  lemma CallsReturn(s0: State, schedule: seq<nat>, r: nat)
    requires Start(s0) && (forall x <- Run(s0, schedule).threads :: x.entered <= r)
    ensures Moves(s0, schedule) <= 8 * r * |s0.threads|
    ensures var s := Run(s0, schedule); AllReturned(s, r) || exists t :: MayMove(s, r, t)
  {
    StartInv(s0);
    RunKeeps(s0, schedule);
    var s := Run(s0, schedule);
    MovesWork(s0, schedule);
    WorkBound(s, r, |s.threads|);
    if !AllReturned(s, r) { SomeoneMoves(s0, schedule, r); }
  }

  lemma SomeoneMoves(s0: State, schedule: seq<nat>, r: nat)
    requires Start(s0) && Inv(Run(s0, schedule)) && !AllReturned(Run(s0, schedule), r)
    requires forall x <- Run(s0, schedule).threads :: x.entered <= r
    ensures exists t :: MayMove(Run(s0, schedule), r, t)
  {
    var s := Run(s0, schedule);
    if t :| 0 <= t < |s.threads| && s.threads[t].at == Outside && s.threads[t].entered < r {
      Calls(s, t);
      assert MayMove(s, r, t);
    } else if o :| 0 <= o < |s.threads| && s.threads[o].at == Outside {
      assert ThreadInv(s, o) && s.threads[o] in s.threads;
      var x :| x in s.threads && x.returned != r;
      var t :| 0 <= t < |s.threads| && s.threads[t] == x;
      assert ThreadInv(s, t);
      Changes(s, t);
      assert MayMove(s, r, t);
    } else {
      var t := SomeoneAdvances(s0, schedule);
      assert s.threads[t] in s.threads;
      assert MayMove(s, r, t);
    }
  }

  /** Calling wait() is a step. */
  lemma Calls(s: State, t: nat)
    requires t < |s.threads| && s.threads[t].at == Outside
    ensures Step(s, t) != s
  {
    assert Step(s, t).threads[t].at == Entering;
  }
}
