/**
 * Admin commands (src/rpc.c: execute_command under the reference lock) on the rings that
 * nvm_raw_ctrl_reset sets up (src/ctrl.c).
 */
module Admin {
  import opened Modular
  import opened Wrappers
  import opened Ring

  const EAGAIN := 11
  const ETIME := 62

  // ---------------------------------------------------------------- one call

  /** An admin command or completion, reduced to its identifier and the rest. */
  datatype Message = Message(cid: nat, body: nat)

  /** struct local_admin: both descriptors; the counters are history. */
  class LocalAdmin {
    var asq: Desc
    var acq: Desc
    var slots: seq<Message>  // submission memory
    var db: nat              // value last stored to the submission doorbell
    ghost var submitted: nat
    ghost var completed: nat
    ghost var timeouts: nat

    /** Every submitted command was either answered or given up, and both descriptors say so. */
    ghost predicate Valid()
      reads this
    {
      && 2 <= asq.size < HALF && DividesWord(asq.size)
      && SqTracks(asq, submitted, submitted, completed) && asq.head < asq.size
      && |slots| == asq.size && db == Slot(submitted, asq.size)
      && acq.size >= 2 && acq.head == Slot(completed, acq.size) && acq.phase == EvenLap(completed, acq.size)
      && submitted == completed + timeouts <= completed + asq.size - 1
    }

    /** create_admin; submission memory and doorbell start at zero. */
    constructor (sqSize: nat, cqSize: nat)
      requires 2 <= sqSize < HALF && DividesWord(sqSize) && cqSize >= 2
      ensures Valid() && submitted == 0 == timeouts && asq == Clear(sqSize) && acq == Clear(cqSize)
    {
      asq, acq := Clear(sqSize), Clear(cqSize);
      slots, db := seq(sqSize, _ => Message(0, 0)), 0;
      submitted, completed, timeouts := 0, 0, 0;
    }

    /**
     * execute_command. `arrival` is the entry nvm_cq_dequeue_block finds before its timeout, if any.
     * EAGAIN exactly when size - 1 earlier calls timed out; otherwise the slot of the new command
     * holds the caller's command under the queue's identifier, the doorbell covers it, and a success
     * carries the caller's identifier.
     */
    method ExecuteCommand(cmd: Message, arrival: Option<Message>) returns (err: int, cpl: Option<Message>)
      requires Valid()
      modifies this
      ensures Valid() && asq.size == old(asq.size) && acq.size == old(acq.size)
      ensures err == if old(timeouts) == asq.size - 1 then EAGAIN else if arrival.None? then ETIME else 0
      ensures cpl == if err == 0 then Some(Message(cmd.cid, arrival.value.body)) else None
      ensures submitted == old(submitted) + (if err == EAGAIN then 0 else 1)
      ensures completed == old(completed) + (if err == 0 then 1 else 0)
      ensures timeouts == old(timeouts) + (if err == ETIME then 1 else 0)
      ensures old(asq).size > 0 && (err == EAGAIN <==> Full(old(asq)))
      ensures asq == if err == EAGAIN then old(asq) else
                var d := Ring.Submit(Ring.Enqueue(old(asq))); if err == 0 then Ring.SqUpdate(d) else d
      ensures acq == if err == 0 then Ring.Dequeue(old(acq)) else old(acq)
      ensures db == if err == EAGAIN then old(db) else asq.tail
      ensures slots == if err == EAGAIN then old(slots) else
                old(slots)[Slot(old(submitted), asq.size) := Message(Slot(submitted, 2 * asq.size) % HALF, cmd.body)]
    {
      hide Slot, EvenLap, DividesWord;
      Exchange(asq, submitted, completed);
      if Slot((asq.tail - asq.head) % WORD, asq.size) % HALF == asq.size - 1 {
        return EAGAIN, None;
      }
      var slot := asq.tail;
      asq := Ring.Enqueue(asq);
      var inQueueId := CommandId(asq);
      slots := slots[slot := Message(inQueueId, cmd.body)];
      if asq.last != asq.tail {
        db := asq.tail;
      }
      asq := Ring.Submit(asq);
      submitted := submitted + 1;
      if arrival.None? {
        timeouts := timeouts + 1;
        return ETIME, None;
      }
      NextSlot(completed, acq.size);
      acq := Ring.Dequeue(acq);
      asq := Ring.SqUpdate(asq);
      completed := completed + 1;
      return 0, Some(arrival.value.(cid := cmd.cid));
    }
  }

  /** One command in, one completion out: the descriptor follows the counters. */
  lemma Exchange(d: Desc, enq: nat, upd: nat)
    requires SqTracks(d, enq, enq, upd) && upd <= enq <= upd + d.size - 1 && d.head < d.size < HALF && DividesWord(d.size)
    ensures Full(d) <==> enq == upd + d.size - 1
    ensures d.tail == Slot(enq, d.size) && CommandId(Ring.Enqueue(d)) == Slot(enq + 1, 2 * d.size) % HALF
    ensures upd < enq + 1 <= upd + d.size - 1 ==> Ring.Enqueue(d).last != Ring.Enqueue(d).tail
    ensures var d1 := Ring.Submit(Ring.Enqueue(d));
            SqTracks(d1, enq + 1, enq + 1, upd) && d1.head < d1.size == d.size
    ensures var d2 := Ring.SqUpdate(Ring.Submit(Ring.Enqueue(d)));
            SqTracks(d2, enq + 1, enq + 1, upd + 1) && d2.head < d2.size == d.size
  {
    SqByCounters(d, enq, enq, upd);
    NextSlot(enq, d.size);
    NextSlot(upd, d.size);
  }

  // ---------------------------------------------------------------- what reset tells the controller

  /** AQA as nvm_raw_ctrl_reset writes it: AQS in bits 27:16, AQC in bits 11:0. */
  function AqaWritten(pageSize: nat): nat
    requires pageSize >= 64
  {
    Slot(pageSize / 64 - 1, 0x1000) * 0x1_0000 + Slot(pageSize / 16 - 1, 0x1000)
  }

  /** ASQS and ACQS as section 3.1.8 of NVM Express 1.3 places them, 0-based: bits 11:0 and 27:16. */
  function AsqSize(aqa: nat): nat { Slot(aqa, 0x1000) + 1 }
  function AcqSize(aqa: nat): nat { Slot(Lap(aqa, 0x1_0000), 0x1000) + 1 }

  /** The two sizes are swapped: the controller takes the completion ring for the smaller one. */
  lemma SizesSwapped(pageSize: nat)
    requires 4096 <= pageSize <= 0x1_0000
    ensures AsqSize(AqaWritten(pageSize)) == pageSize / 16
    ensures AcqSize(AqaWritten(pageSize)) == pageSize / 64
    ensures var aqa := AqaWritten(pageSize);
            && aqa == (pageSize / 64 - 1) * 0x1_0000 + (pageSize / 16 - 1)
            && AsqSize(aqa) == aqa % 0x1000 + 1 && AcqSize(aqa) == aqa / 0x1_0000 % 0x1000 + 1
  {
    var hi, lo := pageSize / 64 - 1, pageSize / 16 - 1;
    assert Slot(hi, 0x1000) == hi && Slot(lo, 0x1000) == lo;
    Digits(hi, 0x1_0000, lo);
    assert hi * 0x1_0000 + lo == (hi * 0x10) * 0x1000 + lo;
    Digits(hi * 0x10, 0x1000, lo);
    SlotIsResidue(AqaWritten(pageSize), 0x1000);
    LapIsQuotient(AqaWritten(pageSize), 0x1_0000);
    SlotIsResidue(hi, 0x1000);
  }

  // ---------------------------------------------------------------- calls and the controller together

  /** A completion entry: the command it completes, if it is one of the driver's, and its phase tag. */
  datatype Entry = Entry(idx: Option<nat>, tag: bool)

  /** A successful call: its command, the command whose completion it returned, timeouts before it. */
  datatype Answer = Answer(own: nat, got: Option<nat>, late: nat)

  datatype State = State(
    asq: Desc, acq: Desc,
    slots: seq<nat>,          // submission memory: which command each slot holds
    entries: seq<Entry>,      // completion memory
    devSq: nat, devCq: nat,   // ring sizes the controller was told
    sqDb: nat,                // tail doorbell; the ACQ head doorbell is never written and stays 0
    devHead: nat, devTail: nat,
    open: set<nat>,           // fetched, not completed: positions in `fetched`
    waiting: Option<nat>,     // command of the call holding the lock
    submitted: nat, timeouts: nat,  // history
    fetched: seq<Option<nat>>,      // history: what each fetch found; beyond the driver's ring no command of its own
    posted: seq<nat>,               // history, as positions in `fetched`
    answers: seq<Answer>)           // history: successful calls

  datatype Event = Call | Fetch | Post(i: nat) | Return | Timeout

  predicate Shaped(s: State) {
    && |s.slots| == s.asq.size > 0 && s.asq.tail < s.asq.size
    && |s.entries| == s.acq.size > 0 && s.acq.head < s.acq.size && s.devTail < s.devCq <= s.acq.size
  }

  predicate Enabled(s: State, e: Event)
    requires Shaped(s)
  {
    match e
    case Call => s.waiting.None?
    case Fetch => s.devHead != s.sqDb
    case Post(i) => i in s.open && i < |s.fetched| && Succ(s.devTail, s.devCq) != 0
    case Return => s.waiting.Some? && s.entries[s.acq.head].tag == s.acq.phase
    case Timeout => s.waiting.Some? && s.entries[s.acq.head].tag != s.acq.phase
  }

  function Apply(s: State, e: Event): State
    requires Shaped(s) && Enabled(s, e)
  {
    match e
    case Call =>
      if Full(s.asq) then s
      else
        var d := Ring.Submit(Ring.Enqueue(s.asq));
        s.(asq := d, slots := s.slots[s.asq.tail := s.submitted], sqDb := d.tail, waiting := Some(s.submitted), submitted := s.submitted + 1)
    case Fetch =>
      s.(devHead := Succ(s.devHead, s.devSq), open := s.open + {|s.fetched|},
         fetched := s.fetched + [if s.devHead < |s.slots| then Some(s.slots[s.devHead]) else None])
    case Post(i) =>
      s.(entries := s.entries[s.devTail := Entry(s.fetched[i], true)], devTail := s.devTail + 1, open := s.open - {i}, posted := s.posted + [i])
    case Return =>
      s.(acq := Ring.Dequeue(s.acq), asq := Ring.SqUpdate(s.asq), waiting := None,
         answers := s.answers + [Answer(s.waiting.value, s.entries[s.acq.head].idx, s.timeouts)])
    case Timeout => s.(waiting := None, timeouts := s.timeouts + 1)
  }

  predicate Run(s: State, es: seq<Event>)
    decreases |es|
  {
    es == [] || (Shaped(s) && Enabled(s, es[0]) && Run(Apply(s, es[0]), es[1..]))
  }

  function After(s: State, es: seq<Event>): State
    requires Run(s, es)
    decreases |es|
  {
    if es == [] then s else After(Apply(s, es[0]), es[1..])
  }

  // ---------------------------------------------------------------- the method takes these steps

  /** The object is the driver's side of the state. */
  ghost predicate Shows(la: LocalAdmin, s: State)
    reads la
  {
    la.asq == s.asq && la.acq == s.acq && la.db == s.sqDb
    && la.submitted == s.submitted && la.completed == |s.answers| && la.timeouts == s.timeouts
  }

  /** What the controller does leaves the driver's side alone. */
  lemma {:induction false} DeviceFrame(s: State, es: seq<Event>)
    requires Shaped(s) && Run(s, es) && (forall e <- es :: e.Fetch? || e.Post?)
    ensures var t := After(s, es);
            && Shaped(t) && t.asq == s.asq && t.acq == s.acq && t.sqDb == s.sqDb && t.waiting == s.waiting
            && t.submitted == s.submitted && t.answers == s.answers && t.timeouts == s.timeouts
    decreases |es|
  {
    if es != [] {
      assert es[0] in es && forall e <- es[1..] :: e in es;
      DeviceFrame(Apply(s, es[0]), es[1..]);
    }
  }

  /** The state when the wait ends, after the controller's steps es. */
  function Waited(s: State, es: seq<Event>): State
    requires Shaped(s) && s.waiting.None? && Run(Apply(s, Call), es)
  {
    After(Apply(s, Call), es)
  }

  /**
   * One call of the method is a Call, the controller's steps es while it waits, and then a Return if
   * an entry has arrived by the end and a Timeout if not; or a Call alone that finds the queue full.
   */
  method CallInRun(la: LocalAdmin, cmd: Message, arrival: Option<Message>, ghost s: State, ghost es: seq<Event>)
    returns (err: int, cpl: Option<Message>, ghost s': State)
    requires la.Valid() && Shows(la, s) && Shaped(s) && s.waiting.None?
    requires Run(Apply(s, Call), es) && (forall e <- es :: e.Fetch? || e.Post?)
    requires var t := Waited(s, es); t.acq.head < |t.entries| && (arrival.Some? <==> t.entries[t.acq.head].tag == t.acq.phase)
    modifies la
    ensures la.Valid() && Shows(la, s')
    ensures err == (if Full(s.asq) then EAGAIN else if arrival.None? then ETIME else 0)
    ensures cpl == if err == 0 then Some(Message(cmd.cid, arrival.value.body)) else None
    ensures if err == EAGAIN then s' == Apply(s, Call)
            else var t, e := Waited(s, es), if err == 0 then Return else Timeout; Shaped(t) && Enabled(t, e) && s' == Apply(t, e)
  {
    hide Slot, EvenLap, DividesWord, SqTracks, Run, After;
    CallShaped(s);
    DeviceFrame(Apply(s, Call), es);
    err, cpl := la.ExecuteCommand(cmd, arrival);
    ghost var t := Waited(s, es);
    s' := if err == EAGAIN then Apply(s, Call) else if err == 0 then Apply(t, Return) else Apply(t, Timeout);
  }

  lemma CallShaped(s: State)
    requires Shaped(s) && s.waiting.None?
    ensures Shaped(Apply(s, Call))
  {}

  /** After create_admin and reset with page size 64 * n, on a controller of large enough MQES. */
  ghost predicate Start(s: State, n: nat) {
    && 2 <= n <= 1024 && DividesWord(n)
    && s.asq == Clear(n) && s.acq == Clear(4 * n) && |s.slots| == n && |s.entries| == 4 * n
    && s.devSq == 4 * n && s.devCq == n
    && s.sqDb == 0 == s.devHead == s.devTail == s.submitted == s.timeouts
    && (forall e <- s.entries :: !e.tag)
    && s.open == {} && s.waiting == None && s.fetched == [] && s.posted == [] && s.answers == []
  }

  // ---------------------------------------------------------------- every run: the completion side

  /** Without an ACQ head doorbell the controller posts at most devCq - 1 entries, each with the first tag. */
  ghost predicate CqInv(s: State, n: nat) {
    && n >= 2 && s.acq.size == 4 * n == |s.entries| && s.devCq == n
    && s.devTail == |s.posted| < n && |s.answers| <= |s.posted|
    && s.acq.head == |s.answers| && s.acq.phase
    && (forall k | 0 <= k < |s.posted| :: s.posted[k] < |s.fetched| && s.entries[k] == Entry(s.fetched[s.posted[k]], true))
    && (forall k | |s.posted| <= k < 4 * n :: !s.entries[k].tag)
    && |s.slots| == s.asq.size == n && s.asq.tail < n
    && (forall k | 0 <= k < |s.answers| :: s.answers[k].got == s.fetched[s.posted[k]])
  }

  lemma CqStep(s: State, n: nat, e: Event)
    requires CqInv(s, n) && Shaped(s) && Enabled(s, e)
    ensures CqInv(Apply(s, e), n)
  {}

  lemma {:induction false} CqRun(s: State, n: nat, es: seq<Event>)
    requires CqInv(s, n) && Run(s, es)
    ensures CqInv(After(s, es), n)
    decreases |es|
  {
    if es != [] {
      CqStep(s, n, es[0]);
      CqRun(Apply(s, es[0]), n, es[1..]);
    }
  }

  // ---------------------------------------------------------------- every run: the submission side

  /** The first n fetches find commands 0 to n - 1, in order; more than those can never be answered. */
  ghost predicate FetchInv(s: State, n: nat) {
    && |s.slots| == n >= 2
    && (forall k | 0 <= k < |s.fetched| && k < n :: s.fetched[k] == Some(k))
    && (if |s.fetched| < n then s.devHead == |s.fetched| <= s.submitted else s.submitted >= n)
    && (forall k | |s.fetched| <= k < n && k < s.submitted :: s.slots[k] == k)
    && (forall i :: i in s.open <==> 0 <= i < |s.fetched| && i !in s.posted)
  }

  /** Calls, answers and timeouts add up, and the submission descriptor's fields are residues of them. */
  ghost predicate InStep(s: State, n: nat) {
    && CqInv(s, n) && FetchInv(s, n) && s.devSq == 4 * n && DividesWord(n) && n <= 1024
    && |s.posted| + |s.open| == |s.fetched|
    && s.submitted == |s.answers| + s.timeouts + (if s.waiting.Some? then 1 else 0)
    && (s.waiting.Some? ==> s.waiting.value == s.submitted - 1)
    && SqTracks(s.asq, s.submitted, s.submitted, |s.answers|) && s.asq.head < n
    && s.submitted <= |s.answers| + n - 1 && s.sqDb == Slot(s.submitted, n)
    && (forall k | 0 <= k < |s.answers| :: s.answers[k].own == k + s.answers[k].late)
  }

  lemma CallKeeps(s: State, n: nat)
    requires InStep(s, n) && Shaped(s) && s.waiting.None?
    ensures InStep(Apply(s, Call), n)
  {
    hide EvenLap, DividesWord, SqTracks, Slot;
    Exchange(s.asq, s.submitted, |s.answers|);
    OneAhead(s.submitted, n);
  }

  /** Command k goes to slot k, or to that of command k - n. */
  lemma OneAhead(k: nat, n: nat)
    requires n > 0 && k < 2 * n
    ensures Slot(k, n) == if k < n then k else k - n
  {}

  lemma FetchKeeps(s: State, n: nat)
    requires InStep(s, n) && Shaped(s) && Enabled(s, Fetch)
    ensures InStep(Apply(s, Fetch), n)
  {
    hide EvenLap, DividesWord, SqTracks;
    OneAhead(s.submitted, n);
  }

  lemma PostKeeps(s: State, n: nat, i: nat)
    requires InStep(s, n) && Shaped(s) && Enabled(s, Post(i))
    ensures InStep(Apply(s, Post(i)), n)
  {
    hide EvenLap, DividesWord, SqTracks, Slot;
  }

  lemma ReturnKeeps(s: State, n: nat)
    requires InStep(s, n) && Shaped(s) && Enabled(s, Return)
    ensures InStep(Apply(s, Return), n)
  {
    hide EvenLap, DividesWord, Slot;
    HeadByCounters(s.asq, s.submitted, s.submitted, |s.answers|);
    HeadByCounters(HeadIncrement(s.asq), s.submitted, s.submitted, |s.answers| + 1);
  }

  lemma InStepKeeps(s: State, n: nat, e: Event)
    requires InStep(s, n) && Shaped(s) && Enabled(s, e)
    ensures InStep(Apply(s, e), n)
  {
    hide InStep;
    match e
    case Call => CallKeeps(s, n);
    case Fetch => FetchKeeps(s, n);
    case Post(i) => PostKeeps(s, n, i);
    case Return => ReturnKeeps(s, n);
    case Timeout => TimeoutKeeps(s, n);
  }

  lemma TimeoutKeeps(s: State, n: nat)
    requires InStep(s, n) && Shaped(s) && Enabled(s, Timeout)
    ensures InStep(Apply(s, Timeout), n)
  {}

  lemma {:induction false} InStepRun(s: State, n: nat, es: seq<Event>)
    requires InStep(s, n) && Run(s, es)
    ensures InStep(After(s, es), n)
    decreases |es|
  {
    hide InStep;
    if es != [] {
      InStepKeeps(s, n, es[0]);
      InStepRun(Apply(s, es[0]), n, es[1..]);
    }
  }

  /** The command last put in slot k: at most two were, since at most 2 * n - 2 are ever submitted. */
  function LastIn(submitted: nat, n: nat, k: nat): nat { if k + n < submitted then k + n else k }

  /** The controller goes round the ring it was told, and each slot used holds the command last put there. */
  ghost predicate Latest(s: State, n: nat) {
    && n > 0 && |s.slots| == n && s.devHead == Slot(|s.fetched|, 4 * n)
    && (forall k: nat | k < n && k < s.submitted :: s.slots[k] == LastIn(s.submitted, n, k))
  }

  lemma LatestKeeps(s: State, n: nat, e: Event)
    requires InStep(s, n) && Latest(s, n) && Shaped(s) && Enabled(s, e)
    ensures Latest(Apply(s, e), n)
  {
    hide EvenLap, DividesWord, Slot;
    NextSlot(|s.fetched|, 4 * n);
    OneAhead(s.submitted, n);
  }

  lemma {:induction false} LatestRun(s: State, n: nat, es: seq<Event>)
    requires InStep(s, n) && Latest(s, n) && Run(s, es)
    ensures InStep(After(s, es), n) && Latest(After(s, es), n)
    decreases |es|
  {
    hide InStep, Latest;
    if es != [] {
      InStepKeeps(s, n, es[0]);
      LatestKeeps(s, n, es[0]);
      LatestRun(Apply(s, es[0]), n, es[1..]);
    }
  }

  /**
   * What each fetch finds, in every run after a reset: the k-th (from 0) looks at position k modulo
   * the ring size the controller was told, and there finds the command last put in that slot, or,
   * beyond the driver's ring, none of its own.
   */
  lemma FetchFinds(s0: State, n: nat, es: seq<Event>)
    requires Start(s0, n) && Run(s0, es) && Shaped(After(s0, es)) && Enabled(After(s0, es), Fetch)
    ensures var s := After(s0, es); var at, t := |s.fetched| % (4 * n), Apply(s, Fetch);
            t.fetched == s.fetched + [if at < n then Some(LastIn(s.submitted, n, at)) else None] && (at < n ==> at < s.submitted)
  {
    hide EvenLap, DividesWord, Slot, Run, After;
    StartInStep(s0, n);
    StartLatest(s0, n);
    LatestRun(s0, n, es);
    SlotIsResidue(|After(s0, es).fetched|, 4 * n);
    OneAhead(After(s0, es).submitted, n);
  }

  lemma StartLatest(s: State, n: nat)
    requires Start(s, n)
    ensures Latest(s, n)
  {}

  /** In every run a call finds the queue full exactly when page_size/64 - 1 earlier calls timed out. */
  lemma BusyExactly(s0: State, n: nat, es: seq<Event>)
    requires Start(s0, n) && Run(s0, es) && After(s0, es).waiting.None?
    ensures var s := After(s0, es); s.submitted == |s.answers| + s.timeouts && s.asq.size > 0 && (Full(s.asq) <==> s.timeouts == n - 1)
  {
    StartInStep(s0, n);
    InStepRun(s0, n, es);
    var s := After(s0, es);
    Exchange(s.asq, s.submitted, |s.answers|);
  }

  lemma NotFull(s: State, n: nat)
    requires InStep(s, n)
    ensures s.asq.size > 0 && (Full(s.asq) <==> s.submitted == |s.answers| + n - 1)
  {
    Exchange(s.asq, s.submitted, |s.answers|);
  }

  /** Completions posted in submission order. */
  ghost predicate Ordered(s: State) { forall j | 0 <= j < |s.posted| :: s.posted[j] == j }

  /** The controller completes its oldest command first. */
  ghost predicate OldestFirst(s: State, e: Event) { e.Post? ==> forall i <- s.open :: e.i <= i }

  ghost predicate AllOldestFirst(s: State, es: seq<Event>)
    requires Run(s, es)
    decreases |es|
  {
    es == [] || (OldestFirst(s, es[0]) && AllOldestFirst(Apply(s, es[0]), es[1..]))
  }

  /** Completions come in order if the controller keeps order, or if no call has timed out. */
  lemma OrderedStep(s: State, n: nat, e: Event)
    requires InStep(s, n) && Shaped(s) && Enabled(s, e) && Ordered(s)
    requires OldestFirst(s, e) || s.timeouts == 0
    ensures Ordered(Apply(s, e))
  {
    hide SqTracks, Slot, EvenLap, DividesWord;
    if e.Post? {
      var m := |s.posted|;
      forall j: nat | j < m ensures j in s.posted { assert s.posted[j] == j; }
      assert m !in s.posted && m < |s.fetched|;
    }
  }

  lemma {:induction false} OrderedRun(s: State, n: nat, es: seq<Event>)
    requires InStep(s, n) && Run(s, es) && Ordered(s)
    requires AllOldestFirst(s, es) || After(s, es).timeouts == 0
    ensures Ordered(After(s, es))
    decreases |es|
  {
    hide InStep, Ordered, OldestFirst;
    if es != [] {
      TimeoutsGrow(s, es);
      InStepKeeps(s, n, es[0]);
      OrderedStep(s, n, es[0]);
      OrderedRun(Apply(s, es[0]), n, es[1..]);
    }
  }

  lemma {:induction false} TimeoutsGrow(s: State, es: seq<Event>)
    requires Run(s, es)
    ensures After(s, es).timeouts >= s.timeouts
    decreases |es|
  {
    if es != [] { TimeoutsGrow(Apply(s, es[0]), es[1..]); }
  }

  lemma StartInStep(s: State, n: nat)
    requires Start(s, n)
    ensures InStep(s, n) && Ordered(s)
  {}

  /**
   * Which completion a success returns, in every run after a reset: with no timeouts, its own; with
   * a controller that keeps order, that of the command as many submissions back as calls had timed
   * out before it.
   */
  lemma AnswersLate(s0: State, n: nat, es: seq<Event>, k: nat)
    requires Start(s0, n) && Run(s0, es) && k < |After(s0, es).answers|
    requires AllOldestFirst(s0, es) || After(s0, es).timeouts == 0
    ensures var a := After(s0, es).answers[k]; a.late <= a.own && a.got == Some(a.own - a.late)
    ensures After(s0, es).timeouts == 0 ==> After(s0, es).answers[k].got == Some(After(s0, es).answers[k].own)
  {
    hide SqTracks, Slot, EvenLap, DividesWord, Run, After;
    StartInStep(s0, n);
    InStepRun(s0, n, es);
    OrderedRun(s0, n, es);
    LateBound(s0, es);
  }

  lemma {:induction false} LateBound(s: State, es: seq<Event>)
    requires Run(s, es) && (forall a <- s.answers :: a.late <= s.timeouts)
    ensures forall a <- After(s, es).answers :: a.late <= After(s, es).timeouts
    decreases |es|
  {
    if es != [] { LateBound(Apply(s, es[0]), es[1..]); }
  }

  // ---------------------------------------------------------------- how far the rings get

  ghost predicate Reaches(s0: State, s: State) { exists es :: Run(s0, es) && After(s0, es) == s }

  lemma {:induction false} RunAppend(s: State, es: seq<Event>, e: Event)
    requires Run(s, es) && Shaped(After(s, es)) && Enabled(After(s, es), e)
    ensures Run(s, es + [e]) && After(s, es + [e]) == Apply(After(s, es), e)
    decreases |es|
  {
    if es == [] {
      assert [e][1..] == [] && es + [e] == [e];
    } else {
      RunAppend(Apply(s, es[0]), es[1..], e);
      assert (es + [e])[0] == es[0] && (es + [e])[1..] == es[1..] + [e];
    }
  }

  lemma ReachesStep(s0: State, s: State, e: Event)
    requires Reaches(s0, s) && Shaped(s) && Enabled(s, e)
    ensures Reaches(s0, Apply(s, e))
  {
    var es :| Run(s0, es) && After(s0, es) == s;
    RunAppend(s0, es, e);
  }

  /** k calls made and answered, nothing in flight. */
  ghost predicate Idle(s: State, n: nat, k: nat) {
    InStep(s, n) && s.waiting.None? && s.submitted == k == |s.answers| == |s.posted| == |s.fetched|
  }

  lemma CallFetch(s0: State, s: State, n: nat, k: nat) returns (s': State)
    requires Reaches(s0, s) && Idle(s, n, k) && k < n - 1
    ensures Reaches(s0, s') && InStep(s', n) && s'.waiting == Some(k) && s'.submitted == k + 1 == |s'.fetched|
    ensures k == |s'.posted| == |s'.answers| && s'.timeouts == 0
  {
    hide EvenLap, DividesWord;
    Exchange(s.asq, k, k);
    ReachesStep(s0, s, Call);
    var s1 := Apply(s, Call);
    InStepKeeps(s, n, Call);
    ReachesStep(s0, s1, Fetch);
    InStepKeeps(s1, n, Fetch);
    s' := Apply(s1, Fetch);
  }

  lemma OneMore(s0: State, s: State, n: nat, k: nat) returns (s': State)
    requires Reaches(s0, s) && Idle(s, n, k) && k < n - 1
    ensures Reaches(s0, s') && Idle(s', n, k + 1)
  {
    hide SqTracks, EvenLap, DividesWord;
    var s2 := CallFetch(s0, s, n, k);
    var i :| i in s2.open;
    ReachesStep(s0, s2, Post(i));
    var s3 := Apply(s2, Post(i));
    InStepKeeps(s2, n, Post(i));
    ReachesStep(s0, s3, Return);
    s' := Apply(s3, Return);
    InStepKeeps(s3, n, Return);
  }

  lemma {:induction false} Answered(s0: State, n: nat, k: nat) returns (s: State)
    requires Start(s0, n) && k <= n - 1
    ensures Reaches(s0, s) && Idle(s, n, k)
  {
    if k == 0 {
      StartInStep(s0, n);
      s := s0;
      assert Run(s0, []) && After(s0, []) == s0;
    } else {
      var p := Answered(s0, n, k - 1);
      s := OneMore(s0, p, n, k - 1);
    }
  }

  /**
   * The rings stop: since the controller's completion ring has n entries and its head doorbell is
   * never written, k calls succeed in some run after a reset exactly when k <= n - 1 = page_size/64 - 1.
   */
  lemma SuccessesExactly(s0: State, n: nat, k: nat)
    requires Start(s0, n)
    ensures (exists s :: Reaches(s0, s) && |s.answers| == k) <==> k <= n - 1
  {
    if k <= n - 1 {
      var s := Answered(s0, n, k);
    }
    forall s | Reaches(s0, s) && |s.answers| == k ensures k <= n - 1 {
      var es :| Run(s0, es) && After(s0, es) == s;
      CqRun(s0, n, es);
    }
  }
}
