/**
 * The ring protocol: any number of submission queues sharing one completion queue, their driver
 * operations interleaved with a controller that fetches in order, completes in any order and
 * posts entries with a phase tag (sections 4.1, 4.1.2 and 4.6 of NVM Express 1.3).
 * The controller sees only memory and doorbells; counters and logs are history.
 */
module Protocol {
  import opened Modular
  import opened Ring
  import opened Command

  /** PRP-list pages in bus memory, by bus address. */
  type Lists = map<Address, seq<Address>>

  datatype Sub = Sub(
    d: Desc,                 // driver's descriptor
    slots: seq<Words>,       // queue memory
    lists: Lists,            // PRP-list memory
    db: nat,                 // tail doorbell
    devSize: nat,            // ring size the controller was told
    devHead: nat,            // controller's fetch position
    open: map<nat, Lists>,   // fetched, not completed: command index and the lists as last read
    issued: seq<Words>,      // history: every command handed out, as built so far
    sub: nat,                // history: commands covered by the doorbell
    fetched: seq<Words>,     // history: commands as the controller read them
    upd: nat)                // history: nvm_sq_update calls

  datatype Completion = Completion(sqid: nat, cid: nat, tag: bool)
  datatype Exec = Exec(q: nat, idx: nat, lists: Lists)

  datatype Comp = Comp(
    d: Desc,
    slots: seq<Completion>,
    db: nat,                 // head doorbell
    devSize: nat,
    devTail: nat,            // controller's posting position
    devPhase: bool,
    posted: seq<Completion>, // history
    log: seq<Exec>,          // history: which command each posted entry completes
    deq: nat,                // history: entries dequeued
    ack: nat)                // history: entries covered by the head doorbell

  datatype State = State(subs: seq<Sub>, comp: Comp)

  datatype Event =
    | Enqueue(q: nat)
    | Build(q: nat, k: nat, cmd: Words, addr: Address, list: seq<Address>)
    | Submit(q: nat)
    | Fetch(q: nat)
    | Reread(q: nat, i: nat)
    | Post(q: nat, i: nat)
    | Dequeue
    | HeadUp(q: nat)
    | HeadWrap(q: nat)
    | Ack

  /** Entries of queue q in a log of completions. */
  function Count(s: seq<Completion>, q: nat): nat {
    if s == [] then 0 else Count(s[..|s| - 1], q) + (if s[|s| - 1].sqid == q then 1 else 0)
  }

  // ---------------------------------------------------------------- steps

  /** Memory accesses a step makes stay inside the rings. */
  predicate SubShaped(b: Sub) {
    b.d.size > 0 && |b.slots| == b.d.size && b.d.tail < b.d.size && b.devHead < b.devSize <= b.d.size && b.sub <= |b.issued|
  }

  predicate CompShaped(c: Comp) {
    && c.d.size > 0 && |c.slots| == c.d.size && c.d.head < c.d.size
    && c.devTail < c.devSize <= c.d.size && c.deq <= |c.posted|
  }

  predicate Shaped(s: State) {
    (forall b <- s.subs :: SubShaped(b)) && CompShaped(s.comp)
  }

  /** Every step but posting, dequeuing and acknowledging stays inside one submission queue. */
  predicate SubEvent(e: Event) { !e.Post? && !e.Dequeue? && !e.Ack? }

  predicate SubEnabled(b: Sub, c: Comp, e: Event)
    requires SubEvent(e) && SubShaped(b) && CompShaped(c)
  {
    match e
    case Enqueue(_) => !Full(b.d)
    case Build(_, k, cmd, _, _) => b.sub <= k < |b.issued| && Cid(cmd) == Cid(b.issued[k])
    case Submit(_) => true
    case Fetch(_) => b.devHead != b.db
    case Reread(_, i) => i in b.open
    case HeadUp(q) => b.d.head < b.d.size && b.upd < Count(c.posted[..c.deq], q)
    case HeadWrap(_) => b.d.head == b.d.size
  }

  predicate Enabled(s: State, e: Event)
    requires Shaped(s)
  {
    if SubEvent(e) then e.q < |s.subs| && SubEnabled(s.subs[e.q], s.comp, e)
    else match e
      case Post(q, i) =>
        q < |s.subs| && i in s.subs[q].open && i < |s.subs[q].fetched| && Succ(s.comp.devTail, s.comp.devSize) != s.comp.db
      case Dequeue => s.comp.slots[s.comp.d.head].tag == s.comp.d.phase
      case Ack => true
  }

  /** nvm_sq_enqueue: the tail moves and the identifier lands in the slot it left. */
  function SubEnqueue(b: Sub): Sub
    requires SubShaped(b)
  {
    var d := Ring.Enqueue(b.d);
    var cmd := WithCid(b.slots[b.d.tail], CommandId(d));
    b.(d := d, slots := b.slots[b.d.tail := cmd], issued := b.issued + [cmd])
  }

  /** The caller builds command k in place, and perhaps a PRP list beside it. */
  function SubBuild(b: Sub, k: nat, cmd: Words, addr: Address, list: seq<Address>): Sub
    requires SubShaped(b) && k < |b.issued|
  {
    b.(slots := b.slots[Slot(k, b.d.size) := cmd], lists := b.lists[addr := list], issued := b.issued[k := cmd])
  }

  function SubSubmit(b: Sub): Sub {
    if b.d.last != b.d.tail then b.(d := Ring.Submit(b.d), db := b.d.tail, sub := |b.issued|) else b
  }

  function SubFetch(b: Sub): Sub
    requires SubShaped(b)
  {
    b.(devHead := Succ(b.devHead, b.devSize), open := b.open[|b.fetched| := b.lists],
       fetched := b.fetched + [b.slots[b.devHead]])
  }

  function SubAfter(b: Sub, c: Comp, e: Event): Sub
    requires SubEvent(e) && SubShaped(b) && CompShaped(c) && SubEnabled(b, c, e)
  {
    match e
    case Enqueue(_) => SubEnqueue(b)
    case Build(_, k, cmd, addr, list) => SubBuild(b, k, cmd, addr, list)
    case Submit(_) => SubSubmit(b)
    case Fetch(_) => SubFetch(b)
    case Reread(_, i) => b.(open := b.open[i := b.lists])
    case HeadUp(_) => b.(d := HeadIncrement(b.d), upd := b.upd + 1)
    case HeadWrap(_) => b.(d := Ring.HeadWrap(b.d))
  }

  function SubPost(b: Sub, i: nat): Sub { b.(open := b.open - {i}) }

  function CompPost(c: Comp, q: nat, i: nat, cid: nat, lists: Lists): Comp
    requires CompShaped(c)
  {
    var e := Completion(q, cid, c.devPhase);
    c.(slots := c.slots[c.devTail := e], devTail := Succ(c.devTail, c.devSize),
       devPhase := c.devPhase != (c.devTail + 1 == c.devSize),
       posted := c.posted + [e], log := c.log + [Exec(q, i, lists)])
  }

  function CompDequeue(c: Comp): Comp { c.(d := Ring.Dequeue(c.d), deq := c.deq + 1) }

  function CompAck(c: Comp): Comp {
    if c.d.last != c.d.head then c.(d := CqUpdate(c.d), db := c.d.head, ack := c.deq) else c
  }

  function Apply(s: State, e: Event): State
    requires Shaped(s) && Enabled(s, e)
  {
    if SubEvent(e) then s.(subs := s.subs[e.q := SubAfter(s.subs[e.q], s.comp, e)])
    else match e
      case Post(q, i) =>
        var b := s.subs[q];
        State(s.subs[q := SubPost(b, i)], CompPost(s.comp, q, i, Cid(b.fetched[i]), b.open[i]))
      case Dequeue => s.(comp := CompDequeue(s.comp))
      case Ack => s.(comp := CompAck(s.comp))
  }

  // ---------------------------------------------------------------- runs

  /** A finite run: every event enabled when its turn comes. */
  predicate Run(s: State, es: seq<Event>)
    decreases |es|
  {
    es == [] || (Shaped(s) && Enabled(s, es[0]) && Run(Apply(s, es[0]), es[1..]))
  }

  function After(s: State, es: seq<Event>): State
    requires Run(s, es)
    decreases |es|
  {
    if es == [] then s else After(Apply(s, es[0]), es[1..])
  }

  /** Some run of s0 ends in s. */
  ghost predicate Reaches(s0: State, s: State) { exists es :: Run(s0, es) && After(s0, es) == s }

  lemma ReachesSelf(s: State)
    ensures Reaches(s, s)
  {
    assert Run(s, []) && After(s, []) == s;
  }

  lemma {:induction false} RunAppend(s: State, es: seq<Event>, e: Event)
    requires Run(s, es) && Shaped(After(s, es)) && Enabled(After(s, es), e)
    ensures Run(s, es + [e]) && After(s, es + [e]) == Apply(After(s, es), e)
    decreases |es|
  {
    if es == [] {
      assert [e][1..] == [];
      assert es + [e] == [e];
    } else {
      RunAppend(Apply(s, es[0]), es[1..], e);
      assert (es + [e])[0] == es[0] && (es + [e])[1..] == es[1..] + [e];
    }
  }

  lemma ReachesStep(s0: State, s: State, e: Event)
    requires Reaches(s0, s) && Shaped(s) && Enabled(s, e)
    ensures Reaches(s0, Apply(s, e))
  {
    var es :| Run(s0, es) && After(s0, es) == s;
    RunAppend(s0, es, e);
  }
}
