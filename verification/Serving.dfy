/**
 * The server of the relay executing on its own admin rings (src/dis/rpc.c:118 through src/rpc.c):
 * which command's completion a remote caller is given once admin calls have timed out.
 */
module Serving {
  import opened Wrappers
  import A = Admin
  import R = Relay
  import Ring

  /** Whose command an admin submission carries. */
  datatype Owner = Owner(node: nat, cmd: R.Cmd)

  datatype State = State(
    relay: R.State, admin: A.State,
    busy: Option<nat>,     // request being executed, under the reference lock
    owners: seq<Owner>,    // history: by admin command
    served: seq<nat>)      // history: by admin answer, the execution it ended

  /** `stale` is the reply buffer, `stray` the completion of something that is no command of the server. */
  datatype Event =
    | Client(r: R.Event)
    | Begin(j: nat, stale: R.Cpl)
    | Device(a: A.Event)
    | Finish(stray: nat)
    | Expire(stale: R.Cpl)

  predicate Enabled(s: State, e: Event)
    requires A.Shaped(s.admin)
  {
    match e
    case Client(r) => !r.Handle? && R.Enabled(s.relay, r)
    case Begin(j, _) => s.busy.None? && s.admin.waiting.None? && j < |s.relay.inbox| && s.relay.inbox[j].node < |s.relay.clients|
    case Device(a) => (a.Fetch? || a.Post?) && A.Enabled(s.admin, a)
    case Finish(_) => Held(s) && A.Enabled(s.admin, A.Return)
    case Expire(_) => Held(s) && A.Enabled(s.admin, A.Timeout)
  }

  /** A request is being executed. */
  predicate Held(s: State) {
    s.busy.Some? && s.busy.value < |s.relay.inbox| && s.relay.inbox[s.busy.value].node < |s.relay.clients|
  }

  /** What the controller answers to each admin command. */
  type Answers = nat -> nat

  function Apply(s: State, f: R.Filter, answer: Answers, e: Event): State
    requires A.Shaped(s.admin) && Enabled(s, e)
  {
    match e
    case Client(r) => s.(relay := R.Apply(s.relay, f, r))
    case Begin(j, stale) =>
      var r := s.relay.inbox[j];
      var m := f(r.node, r.cmd);
      if m.None? || Ring.Full(s.admin.asq) then s.(relay := R.Handled(s.relay, f, j, false, 0, stale))
      else s.(admin := A.Apply(s.admin, A.Call), busy := Some(j), owners := s.owners + [Owner(r.node, m.value)])
    case Device(a) => s.(admin := A.Apply(s.admin, a))
    case Finish(stray) =>
      var body := match s.admin.entries[s.admin.acq.head].idx case Some(g) => answer(g) case None => stray;
      s.(relay := R.Handled(s.relay, f, s.busy.value, true, body, R.Cpl(0, 0)), admin := A.Apply(s.admin, A.Return),
         busy := None, served := s.served + [|s.relay.executed|])
    case Expire(stale) =>
      s.(relay := R.Handled(s.relay, f, s.busy.value, false, 0, stale), admin := A.Apply(s.admin, A.Timeout), busy := None)
  }

  predicate Run(s: State, f: R.Filter, answer: Answers, es: seq<Event>)
    decreases |es|
  {
    es == [] || (A.Shaped(s.admin) && Enabled(s, es[0]) && Run(Apply(s, f, answer, es[0]), f, answer, es[1..]))
  }

  function After(s: State, f: R.Filter, answer: Answers, es: seq<Event>): State
    requires Run(s, f, answer, es)
    decreases |es|
  {
    if es == [] then s else After(Apply(s, f, answer, es[0]), f, answer, es[1..])
  }

  /** The controller completes its oldest admin command first. */
  ghost predicate InOrder(s: State, f: R.Filter, answer: Answers, es: seq<Event>)
    requires Run(s, f, answer, es)
    decreases |es|
  {
    es == [] || ((es[0].Device? ==> A.OldestFirst(s.admin, es[0].a)) && InOrder(Apply(s, f, answer, es[0]), f, answer, es[1..]))
  }

  /** After reset with page size 64 * n, nothing sent. */
  ghost predicate Start(s: State, n: nat) {
    R.Start(s.relay) && A.Start(s.admin, n) && s.busy == None && s.owners == [] && s.served == []
  }

  // ---------------------------------------------------------------- invariant

  /** Admin answer k ended execution served[k], of the command's owner, with the completion the controller gave for `got`. */
  ghost predicate Serves(s: State, answer: Answers, k: nat)
    requires k < |s.served| && k < |s.admin.answers|
  {
    var x, a := s.served[k], s.admin.answers[k];
    && x < |s.relay.executed| && a.own < |s.owners|
    && s.relay.executed[x].node == s.owners[a.own].node && s.relay.executed[x].cmd == s.owners[a.own].cmd
    && s.relay.executed[x].cpl.Some?
    && (a.got.Some? ==> s.relay.executed[x].cpl.value.body == answer(a.got.value))
  }

  /** Every successful execution ended with an admin answer. */
  ghost predicate Ended(s: State, x: nat) { exists k :: 0 <= k < |s.served| && s.served[k] == x }

  ghost predicate Link(s: State, f: R.Filter, answer: Answers) {
    && |s.owners| == s.admin.submitted && |s.served| == |s.admin.answers|
    && (s.busy.Some? <==> s.admin.waiting.Some?)
    && (s.busy.Some? ==>
          && Held(s) && |s.owners| > 0
          && var r := s.relay.inbox[s.busy.value];
             f(r.node, r.cmd).Some? && s.owners[|s.owners| - 1] == Owner(r.node, f(r.node, r.cmd).value))
    && AllServed(s, answer) && AllEnded(s)
  }

  ghost predicate AllServed(s: State, answer: Answers) {
    |s.served| == |s.admin.answers| && forall k: nat | k < |s.served| :: Serves(s, answer, k)
  }

  ghost predicate AllEnded(s: State) {
    forall x: nat | x < |s.relay.executed| && s.relay.executed[x].cpl.Some? :: Ended(s, x)
  }

  lemma HandledExecuted(r: R.State, f: R.Filter, j: nat, ok: bool, body: nat, stale: R.Cpl)
    requires j < |r.inbox| && r.inbox[j].node < |r.clients|
    ensures var q, t := r.inbox[j], R.Handled(r, f, j, ok, body, stale);
            && (f(q.node, q.cmd).None? ==> t.executed == r.executed)
            && (f(q.node, q.cmd).Some? ==>
                  var m := f(q.node, q.cmd).value;
                  t.executed == r.executed + [R.Exec(q.node, m, if ok then Some(R.Cpl(R.CidOf(m), body)) else None, stale)])
  {}

  /**
   * handle_remote_command on the server's LocalAdmin object: the reply is the one the relay's step
   * adds. `arrival` is the entry found before the timeout, if any, and `buffer` the reply's
   * completion on the stack; a success carries the forwarded command's own identifier.
   */
  method HandleRemote(la: A.LocalAdmin, f: R.Filter, r: R.Request, arrival: Option<A.Message>, buffer: R.Cpl,
                      ghost s: R.State, ghost j: nat) returns (cmd: R.Cmd, cpl: R.Cpl)
    requires la.Valid() && j < |s.inbox| && s.inbox[j] == r && r.node < |s.clients|
    modifies la
    ensures la.Valid()
    ensures var m, ok, body := f(r.node, r.cmd), la.completed > old(la.completed), if arrival.Some? then arrival.value.body else 0;
            && cmd == (if m.None? then R.Cmd(0, 0) else m.value)
            && cpl == (if m.Some? && ok then R.Cpl(m.value.dword0 / 0x1_0000, body) else buffer)
            && (m.Some? ==> (ok <==> old(la.timeouts) < la.asq.size - 1 && arrival.Some?))
            && (m.None? ==> !ok && la.submitted == old(la.submitted))
            && var exec := if m.Some? then Some(|s.executed|) else None;
               R.Handled(s, f, j, ok, body, buffer).clients
                 == s.clients[r.node := s.clients[r.node].(box := s.clients[r.node].box + [R.Reply(cmd, cpl, exec)])]
  {
    var m := f(r.node, r.cmd);
    cmd, cpl := R.ZERO, buffer;
    if m.Some? {
      cmd := m.value;
      R.CidIs(cmd);
      var err, answer := la.ExecuteCommand(A.Message(R.CidOf(cmd), cmd.rest), arrival);
      if answer.Some? {
        cpl := R.Cpl(answer.value.cid, answer.value.body);
      }
    }
  }

  /** Nothing added to the executions that succeeded, nothing to the answers. */
  lemma LinkKept(s: State, f: R.Filter, answer: Answers, s': State)
    requires Link(s, f, answer) && s.relay.executed <= s'.relay.executed && s'.served == s.served
    requires s'.admin.answers == s.admin.answers && s.owners <= s'.owners
    requires forall x | |s.relay.executed| <= x < |s'.relay.executed| :: s'.relay.executed[x].cpl.None?
    ensures AllServed(s', answer) && AllEnded(s')
  {
    forall k: nat | k < |s'.served| ensures Serves(s', answer, k) { assert Serves(s, answer, k); }
    forall x: nat | x < |s'.relay.executed| && s'.relay.executed[x].cpl.Some? ensures Ended(s', x) {
      assert s.relay.executed[x] == s'.relay.executed[x] && Ended(s, x);
    }
  }

  lemma ClientLink(s: State, f: R.Filter, answer: Answers, e: Event)
    requires Link(s, f, answer) && A.Shaped(s.admin) && Enabled(s, e) && (e.Client? || e.Device?)
    ensures Link(Apply(s, f, answer, e), f, answer)
  {
    hide AllServed, AllEnded;
    LinkKept(s, f, answer, Apply(s, f, answer, e));
  }

  lemma BeginLink(s: State, f: R.Filter, answer: Answers, j: nat, stale: R.Cpl)
    requires Link(s, f, answer) && A.Shaped(s.admin) && Enabled(s, Begin(j, stale))
    ensures Link(Apply(s, f, answer, Begin(j, stale)), f, answer)
  {
    hide AllServed, AllEnded;
    HandledExecuted(s.relay, f, j, false, 0, stale);
    LinkKept(s, f, answer, Apply(s, f, answer, Begin(j, stale)));
  }

  lemma ExpireLink(s: State, f: R.Filter, answer: Answers, stale: R.Cpl)
    requires Link(s, f, answer) && A.Shaped(s.admin) && Enabled(s, Expire(stale))
    ensures Link(Apply(s, f, answer, Expire(stale)), f, answer)
  {
    hide AllServed, AllEnded;
    HandledExecuted(s.relay, f, s.busy.value, false, 0, stale);
    LinkKept(s, f, answer, Apply(s, f, answer, Expire(stale)));
  }

  lemma NewServes(s: State, f: R.Filter, answer: Answers, stray: nat, n: nat)
    requires Link(s, f, answer) && A.InStep(s.admin, n) && A.Shaped(s.admin) && Enabled(s, Finish(stray))
    ensures var s' := Apply(s, f, answer, Finish(stray)); |s'.served| == |s.served| + 1 == |s'.admin.answers| && Serves(s', answer, |s.served|)
  {
    hide AllServed, AllEnded, Ring.SqTracks;
    var body := match s.admin.entries[s.admin.acq.head].idx case Some(g) => answer(g) case None => stray;
    HandledExecuted(s.relay, f, s.busy.value, true, body, R.Cpl(0, 0));
    assert |s.served| == |s.admin.answers| by { SameNumber(s, f, answer); }
  }

  lemma SameNumber(s: State, f: R.Filter, answer: Answers)
    requires Link(s, f, answer)
    ensures |s.served| == |s.admin.answers|
  {}

  lemma FinishLink(s: State, f: R.Filter, answer: Answers, stray: nat, n: nat)
    requires Link(s, f, answer) && A.InStep(s.admin, n) && A.Shaped(s.admin) && Enabled(s, Finish(stray))
    ensures Link(Apply(s, f, answer, Finish(stray)), f, answer)
  {
    var s' := Apply(s, f, answer, Finish(stray));
    var body := match s.admin.entries[s.admin.acq.head].idx case Some(g) => answer(g) case None => stray;
    HandledExecuted(s.relay, f, s.busy.value, true, body, R.Cpl(0, 0));
    var last, x := |s.served|, |s.relay.executed|;
    forall k: nat | k < |s'.served| ensures Serves(s', answer, k) {
      if k < last { assert Serves(s, answer, k) && s'.served[k] == s.served[k] && s'.admin.answers[k] == s.admin.answers[k]; }
      else { NewServes(s, f, answer, stray, n); }
    }
    assert s'.served[last] == x;
    forall y: nat | y < |s'.relay.executed| && s'.relay.executed[y].cpl.Some? ensures Ended(s', y) {
      if y < x {
        assert Ended(s, y);
        var k :| 0 <= k < |s.served| && s.served[k] == y;
        assert s'.served[k] == y;
      }
    }
  }

  /** Both machines keep what each keeps alone. */
  ghost predicate Inv(s: State, f: R.Filter, answer: Answers, n: nat, node: nat) {
    R.Inv(s.relay, f, node) && R.Single(s.relay) && A.InStep(s.admin, n) && Link(s, f, answer)
  }

  lemma StepKeeps(s: State, f: R.Filter, answer: Answers, n: nat, node: nat, e: Event)
    requires Inv(s, f, answer, n, node) && A.Shaped(s.admin) && Enabled(s, e) && e != Client(R.GiveUp(node))
    ensures Inv(Apply(s, f, answer, e), f, answer, n, node)
  {
    hide R.Inv, R.Single, A.InStep, Link;
    match e
    case Client(r) => ClientLink(s, f, answer, e); RelayKeeps(s.relay, f, r, node);
    case Device(a) => ClientLink(s, f, answer, e); A.InStepKeeps(s.admin, n, a);
    case Begin(j, stale) =>
      BeginLink(s, f, answer, j, stale);
      A.InStepKeeps(s.admin, n, A.Call);
      RelayKeeps(s.relay, f, R.Handle(j, false, 0, stale), node);
    case Finish(stray) =>
      FinishLink(s, f, answer, stray, n);
      A.InStepKeeps(s.admin, n, A.Return);
      var body := match s.admin.entries[s.admin.acq.head].idx case Some(g) => answer(g) case None => stray;
      RelayKeeps(s.relay, f, R.Handle(s.busy.value, true, body, R.Cpl(0, 0)), node);
    case Expire(stale) =>
      ExpireLink(s, f, answer, stale);
      A.InStepKeeps(s.admin, n, A.Timeout);
      RelayKeeps(s.relay, f, R.Handle(s.busy.value, false, 0, stale), node);
  }

  lemma RelayKeeps(r: R.State, f: R.Filter, e: R.Event, node: nat)
    requires R.Inv(r, f, node) && R.Single(r) && R.Enabled(r, e) && e != R.GiveUp(node)
    ensures R.Inv(R.Apply(r, f, e), f, node) && R.Single(R.Apply(r, f, e))
  {
    R.StepKeeps(r, f, e, node);
    R.SingleStep(r, f, e);
  }

  lemma OrderKeeps(s: State, f: R.Filter, answer: Answers, n: nat, e: Event)
    requires A.InStep(s.admin, n) && A.Ordered(s.admin) && A.Shaped(s.admin) && Enabled(s, e)
    requires (e.Device? ==> A.OldestFirst(s.admin, e.a)) || s.admin.timeouts == 0
    ensures A.Ordered(Apply(s, f, answer, e).admin)
  {
    hide A.InStep, A.Ordered, A.OldestFirst;
    match e
    case Client(_) =>
    case Device(a) => A.OrderedStep(s.admin, n, a);
    case Begin(_, _) => OrderedOther(s.admin, n, A.Call);
    case Finish(_) => OrderedOther(s.admin, n, A.Return);
    case Expire(_) => OrderedOther(s.admin, n, A.Timeout);
  }

  lemma OrderedOther(s: A.State, n: nat, e: A.Event)
    requires A.InStep(s, n) && A.Ordered(s) && A.Shaped(s) && A.Enabled(s, e) && !e.Post?
    ensures A.Ordered(A.Apply(s, e))
  {}

  lemma {:induction false} RunKeeps(s: State, f: R.Filter, answer: Answers, n: nat, node: nat, es: seq<Event>)
    requires Inv(s, f, answer, n, node) && A.Ordered(s.admin) && Run(s, f, answer, es)
    requires forall e <- es :: e != Client(R.GiveUp(node))
    requires InOrder(s, f, answer, es) || After(s, f, answer, es).admin.timeouts == 0
    ensures var t := After(s, f, answer, es); Inv(t, f, answer, n, node) && A.Ordered(t.admin)
    decreases |es|
  {
    hide Inv, A.Ordered, A.OldestFirst;
    if es != [] {
      assert es[0] in es && forall e <- es[1..] :: e in es;
      TimeoutsGrow(s, f, answer, es);
      StepKeeps(s, f, answer, n, node, es[0]);
      InvParts(s, f, answer, n, node);
      OrderKeeps(s, f, answer, n, es[0]);
      RunKeeps(Apply(s, f, answer, es[0]), f, answer, n, node, es[1..]);
    }
  }

  lemma InvParts(s: State, f: R.Filter, answer: Answers, n: nat, node: nat)
    requires Inv(s, f, answer, n, node)
    ensures A.InStep(s.admin, n)
  {}

  lemma {:induction false} TimeoutsGrow(s: State, f: R.Filter, answer: Answers, es: seq<Event>)
    requires Run(s, f, answer, es)
    ensures After(s, f, answer, es).admin.timeouts >= s.admin.timeouts
    decreases |es|
  {
    if es != [] { TimeoutsGrow(Apply(s, f, answer, es[0]), f, answer, es[1..]); }
  }

  lemma StartInv(s: State, f: R.Filter, answer: Answers, n: nat, node: nat)
    requires Start(s, n)
    ensures Inv(s, f, answer, n, node) && A.Ordered(s.admin)
  {
    R.StartInv(s.relay, f, node);
    A.StartInStep(s.admin, n);
  }

  // ---------------------------------------------------------------- whose completion a caller gets

  /** Result r reports a success of the server, by admin answer k. */
  ghost predicate AnsweredBy(s: State, r: R.Result, k: nat) {
    k < |s.served| == |s.admin.answers| && r.exec == Some(s.served[k])
  }

  /**
   * What remote callers are given, over both machines. A forwarded call that the server executed
   * successfully was answered by one admin answer. If the controller keeps order, or no admin call
   * has timed out, its completion is the one the controller gave for the admin command as many
   * submissions before its own as admin calls had timed out by then - whoever that command was for.
   */
  lemma RemoteLate(s0: State, f: R.Filter, answer: Answers, n: nat, es: seq<Event>, i: nat) returns (k: nat)
    requires Start(s0, n) && Run(s0, f, answer, es)
    requires i < |After(s0, f, answer, es).relay.results|
    requires var s := After(s0, f, answer, es); var r := s.relay.results[i];
             && (forall e <- es :: e != Client(R.GiveUp(r.node)))
             && r.exec.Some? && r.exec.value < |s.relay.executed| && s.relay.executed[r.exec.value].cpl.Some?
    requires InOrder(s0, f, answer, es) || After(s0, f, answer, es).admin.timeouts == 0
    ensures var s := After(s0, f, answer, es); var r := s.relay.results[i];
            && AnsweredBy(s, r, k)
            && var a := s.admin.answers[k];
               && a.late <= a.own < |s.owners| && s.owners[a.own] == Owner(r.node, r.cmd)
               && r.cpl == R.Cpl(r.cmd.dword0 / 0x1_0000, answer(a.own - a.late)) && (s.admin.timeouts == 0 ==> a.late == 0)
  {
    hide A.Start, R.Start, Run, InOrder, After, Inv;
    var s := After(s0, f, answer, es);
    var r := s.relay.results[i];
    StartInv(s0, f, answer, n, r.node);
    RunKeeps(s0, f, answer, n, r.node, es);
    StartLate(s0, n);
    LateBound(s0, f, answer, es);
    k := Answer(s, f, answer, n, i);
  }

  lemma StartLate(s: State, n: nat)
    requires Start(s, n)
    ensures forall a <- s.admin.answers :: a.late <= s.admin.timeouts
  {}

  lemma Answer(s: State, f: R.Filter, answer: Answers, n: nat, i: nat) returns (k: nat)
    requires i < |s.relay.results| && Inv(s, f, answer, n, s.relay.results[i].node) && A.Ordered(s.admin)
    requires var r := s.relay.results[i];
             r.exec.Some? && r.exec.value < |s.relay.executed| && s.relay.executed[r.exec.value].cpl.Some?
    requires forall a <- s.admin.answers :: a.late <= s.admin.timeouts
    ensures var r := s.relay.results[i];
            && AnsweredBy(s, r, k)
            && var a := s.admin.answers[k];
               && a.late <= a.own < |s.owners| && s.owners[a.own] == Owner(r.node, r.cmd)
               && r.cpl == R.Cpl(r.cmd.dword0 / 0x1_0000, answer(a.own - a.late)) && (s.admin.timeouts == 0 ==> a.late == 0)
  {
    hide R.ClientInv, R.Single, Ring.SqTracks;
    var r := s.relay.results[i];
    assert R.Right(s.relay, f, r);
    R.CidIs(r.cmd);
    assert Ended(s, r.exec.value);
    k :| 0 <= k < |s.served| && s.served[k] == r.exec.value;
    assert Serves(s, answer, k);
    assert s.admin.answers[k] in s.admin.answers;
  }

  lemma {:induction false} LateBound(s: State, f: R.Filter, answer: Answers, es: seq<Event>)
    requires Run(s, f, answer, es) && (forall a <- s.admin.answers :: a.late <= s.admin.timeouts)
    ensures forall a <- After(s, f, answer, es).admin.answers :: a.late <= After(s, f, answer, es).admin.timeouts
    decreases |es|
  {
    if es != [] { LateBound(Apply(s, f, answer, es[0]), f, answer, es[1..]); }
  }

  // ---------------------------------------------------------------- another client's completion

  /** A call by a node with an empty queue of requests: sent and begun. */
  lemma Asked(s: State, f: R.Filter, answer: Answers, n: nat, node: nat, cmd: R.Cmd, stale: R.Cpl) returns (t: State)
    requires A.InStep(s.admin, n) && A.Shaped(s.admin) && s.busy.None? && s.admin.waiting.None? && s.relay.inbox == []
    requires node < |s.relay.clients| && s.relay.clients[node] == R.Client(None, []) && f(node, cmd).Some?
    requires s.admin.submitted < |s.admin.answers| + n - 1
    ensures Enabled(s, Client(R.Send(node, cmd)))
    ensures var s1 := Apply(s, f, answer, Client(R.Send(node, cmd)));
            A.Shaped(s1.admin) && Enabled(s1, Begin(0, stale)) && t == Apply(s1, f, answer, Begin(0, stale))
    ensures t.admin == A.Apply(s.admin, A.Call) && t.admin.submitted == s.admin.submitted + 1 && A.InStep(t.admin, n) && A.Shaped(t.admin)
    ensures t.admin.sqDb == Ring.Submit(Ring.Enqueue(s.admin.asq)).tail && t.admin.waiting.Some?
    ensures t.busy == Some(0) && t.relay.inbox == [R.Request(node, cmd)] && Held(t)
    ensures t.relay.clients == s.relay.clients[node := R.Client(Some(cmd), [])] && t.relay.executed == s.relay.executed
    ensures t.relay.results == s.relay.results && t.owners == s.owners + [Owner(node, f(node, cmd).value)]
  {
    hide A.InStep, Ring.Full;
    A.NotFull(s.admin, n);
    A.InStepKeeps(s.admin, n, A.Call);
    A.CallShaped(s.admin);
    t := Apply(Apply(s, f, answer, Client(R.Send(node, cmd))), f, answer, Begin(0, stale));
  }

  /** The executed call of node 0 times out; its reply goes out. */
  lemma Expired(t: State, f: R.Filter, answer: Answers, n: nat, cmd: R.Cmd, stale: R.Cpl) returns (u: State)
    requires A.InStep(t.admin, n) && A.Shaped(t.admin) && t.busy == Some(0) && t.relay.inbox == [R.Request(0, cmd)] && Held(t)
    requires t.admin.waiting.Some? && t.admin.posted == [] && f(0, cmd).Some?
    ensures Enabled(t, Expire(stale)) && u == Apply(t, f, answer, Expire(stale))
    ensures A.InStep(u.admin, n) && A.Shaped(u.admin) && u.admin.waiting.None? && u.busy.None? && u.relay.inbox == []
    ensures u.admin.submitted == t.admin.submitted && u.admin.posted == [] && u.admin.fetched == t.admin.fetched && u.admin.open == t.admin.open
    ensures |u.relay.clients| == |t.relay.clients| && (forall c | 0 < c < |t.relay.clients| :: u.relay.clients[c] == t.relay.clients[c])
    ensures u.relay.results == t.relay.results && u.owners == t.owners
  {
    hide Ring.SqTracks, A.FetchInv;
    u := Apply(t, f, answer, Expire(stale));
    A.InStepKeeps(t.admin, n, A.Timeout);
  }

  /** The controller fetches admin command 0 and completes it. */
  lemma CompletedFirst(t: A.State, n: nat) returns (u: A.State)
    requires A.InStep(t, n) && A.Shaped(t) && t.fetched == [] && t.posted == [] && t.submitted == 2 < n
    ensures A.Enabled(t, A.Fetch)
    ensures var t1 := A.Apply(t, A.Fetch); A.Shaped(t1) && A.Enabled(t1, A.Post(0)) && u == A.Apply(t1, A.Post(0))
    ensures A.InStep(u, n) && A.Shaped(u) && u.waiting == t.waiting && u.entries[u.acq.head].tag == u.acq.phase
    ensures u.entries[u.acq.head].idx == Some(0)
  {
    hide Ring.SqTracks;
    A.OneAhead(2, n);
    A.InStepKeeps(t, n, A.Fetch);
    var t1 := A.Apply(t, A.Fetch);
    u := A.Apply(t1, A.Post(0));
    A.InStepKeeps(t1, n, A.Post(0));
  }

  /** The server finishes the call of node 1 and it receives its reply. */
  lemma Finished(v: State, f: R.Filter, answer: Answers, cmd: R.Cmd) returns (w: State)
    requires A.Shaped(v.admin) && v.busy == Some(0) && Held(v) && v.relay.inbox == [R.Request(1, cmd)] && v.admin.waiting.Some?
    requires v.admin.entries[v.admin.acq.head] == A.Entry(Some(0), v.admin.acq.phase) && f(1, cmd).Some?
    requires v.relay.clients[1] == R.Client(Some(cmd), []) && v.relay.results == []
    ensures Enabled(v, Finish(0))
    ensures var v1 := Apply(v, f, answer, Finish(0));
            A.Shaped(v1.admin) && Enabled(v1, Client(R.Receive(1))) && w == Apply(v1, f, answer, Client(R.Receive(1)))
    ensures var m := f(1, cmd).value;
            w.relay.results == [R.Result(1, cmd, if m.dword0 == 0 then R.EPERM else 0, m, R.Cpl(R.CidOf(m), answer(0)), Some(|v.relay.executed|))]
    ensures w.owners == v.owners
  {
    var v1 := Apply(v, f, answer, Finish(0));
    w := Apply(v1, f, answer, Client(R.Receive(1)));
  }

  /**
   * One admin timeout at the server is enough for a caller to be given another caller's completion:
   * client 1's call succeeds with what the controller answered to the command of client 0.
   */
  lemma AnothersCompletion(s0: State, n: nat, f: R.Filter, answer: Answers, c0: R.Cmd, c1: R.Cmd, stale: R.Cpl) returns (es: seq<Event>)
    requires Start(s0, n) && n >= 4 && |s0.relay.clients| >= 2 && f(0, c0).Some? && f(1, c1).Some? && f(1, c1).value.dword0 != 0
    ensures Run(s0, f, answer, es) && (forall e <- es :: !(e.Client? && e.r.GiveUp?))
    ensures var s := After(s0, f, answer, es);
            && |s.relay.results| == 1 && |s.owners| >= 1 && s.owners[0] == Owner(0, f(0, c0).value)
            && var r := s.relay.results[0]; r.node == 1 && r.sent == c1 && r.status == 0 && r.cpl.body == answer(0)
  {
    hide Apply, A.InStep, A.Apply, A.Start, R.Start, A.Shaped, Enabled, Run, After;
    var s3 := FirstHalf(s0, n, f, answer, c0, stale);
    var s9 := SecondHalf(s3, n, f, answer, c1, stale);
    es := Early(c0, stale) + Late(c1, stale);
    RunConcat(s0, f, answer, Early(c0, stale), Late(c1, stale));
  }

  /** Client 0's call times out at the server. */
  function Early(c0: R.Cmd, stale: R.Cpl): seq<Event> { [Client(R.Send(0, c0)), Begin(0, stale), Expire(stale)] }

  /** Client 1's call is answered by what the controller now completes, client 0's command. */
  function Late(c1: R.Cmd, stale: R.Cpl): seq<Event> {
    [Client(R.Send(1, c1)), Begin(0, stale), Device(A.Fetch), Device(A.Post(0)), Finish(0), Client(R.Receive(1))]
  }

  lemma FirstHalf(s0: State, n: nat, f: R.Filter, answer: Answers, c0: R.Cmd, stale: R.Cpl) returns (s3: State)
    requires Start(s0, n) && n >= 4 && |s0.relay.clients| >= 2 && f(0, c0).Some?
    ensures Run(s0, f, answer, Early(c0, stale)) && s3 == After(s0, f, answer, Early(c0, stale))
    ensures A.InStep(s3.admin, n) && A.Shaped(s3.admin) && s3.admin.waiting.None? && s3.busy.None? && s3.relay.inbox == []
    ensures s3.admin.submitted == 1 && s3.admin.posted == [] && s3.admin.fetched == [] && s3.relay.results == []
    ensures |s3.relay.clients| >= 2 && s3.relay.clients[1] == R.Client(None, []) && s3.owners == [Owner(0, f(0, c0).value)]
  {
    hide Apply, A.InStep, A.Apply, A.Start, R.Start, A.Shaped, Enabled, Run, After;
    StartFacts(s0, n);
    var s2 := Asked(s0, f, answer, n, 0, c0, stale);
    CallFrame(s0.admin);
    s3 := Expired(s2, f, answer, n, c0, stale);
    var s1, es := Apply(s0, f, answer, Client(R.Send(0, c0))), Early(c0, stale);
    NoMore(s3, f, answer);
    assert es[3..] == [] && es[0..] == es;
    Prepend(s2, f, answer, es, 2, s3, s3);
    Prepend(s1, f, answer, es, 1, s2, s3);
    Prepend(s0, f, answer, es, 0, s1, s3);
  }

  lemma SecondHalf(s3: State, n: nat, f: R.Filter, answer: Answers, c1: R.Cmd, stale: R.Cpl) returns (s9: State)
    requires A.InStep(s3.admin, n) && A.Shaped(s3.admin) && s3.admin.waiting.None? && s3.busy.None? && s3.relay.inbox == []
    requires s3.admin.submitted == 1 && s3.admin.posted == [] && s3.admin.fetched == [] && s3.relay.results == [] && n >= 4
    requires |s3.relay.clients| >= 2 && s3.relay.clients[1] == R.Client(None, []) && f(1, c1).Some?
    ensures Run(s3, f, answer, Late(c1, stale)) && s9 == After(s3, f, answer, Late(c1, stale)) && s3.owners <= s9.owners
    ensures var m := f(1, c1).value;
            |s9.relay.results| == 1 && var r := s9.relay.results[0];
            r.node == 1 && r.sent == c1 && r.status == (if m.dword0 == 0 then R.EPERM else 0) && r.cpl.body == answer(0)
  {
    hide Apply, A.InStep, A.Apply, A.Shaped, Enabled, Run, After;
    Room(s3.admin, n);
    var s5 := Asked(s3, f, answer, n, 1, c1, stale);
    CallFrame(s3.admin);
    var a7 := CompletedFirst(s5.admin, n);
    var s7 := DeviceOnly(s5, f, answer, a7);
    HeldFrame(s5, a7);
    s9 := Finished(s7, f, answer, c1);
    var es := Late(c1, stale);
    var s8, s6, s4 := Apply(s7, f, answer, es[4]), Apply(s5, f, answer, es[2]), Apply(s3, f, answer, es[0]);
    NoMore(s9, f, answer);
    assert es[6..] == [] && es[0..] == es;
    Prepend(s8, f, answer, es, 5, s9, s9);
    Prepend(s7, f, answer, es, 4, s8, s9);
    Prepend(s6, f, answer, es, 3, s7, s9);
    Prepend(s5, f, answer, es, 2, s6, s9);
    Prepend(s4, f, answer, es, 1, s5, s9);
    Prepend(s3, f, answer, es, 0, s4, s9);
  }

  lemma HeldFrame(s: State, u: A.State)
    requires Held(s)
    ensures Held(s.(admin := u))
  {}

  lemma {:induction false} RunConcat(s: State, f: R.Filter, answer: Answers, es: seq<Event>, rest: seq<Event>)
    requires Run(s, f, answer, es) && Run(After(s, f, answer, es), f, answer, rest)
    ensures Run(s, f, answer, es + rest) && After(s, f, answer, es + rest) == After(After(s, f, answer, es), f, answer, rest)
    decreases |es|
  {
    hide Apply, Enabled;
    if es == [] { assert es + rest == rest; } else {
      RunConcat(Apply(s, f, answer, es[0]), f, answer, es[1..], rest);
      assert (es + rest)[0] == es[0] && (es + rest)[1..] == es[1..] + rest;
    }
  }

  lemma NoMore(s: State, f: R.Filter, answer: Answers)
    ensures Run(s, f, answer, []) && After(s, f, answer, []) == s
  {}

  lemma Prepend(s: State, f: R.Filter, answer: Answers, es: seq<Event>, i: nat, t: State, end: State)
    requires i < |es| && A.Shaped(s.admin) && Enabled(s, es[i]) && t == Apply(s, f, answer, es[i])
    requires Run(t, f, answer, es[i + 1..]) && After(t, f, answer, es[i + 1..]) == end
    ensures Run(s, f, answer, es[i..]) && After(s, f, answer, es[i..]) == end
  {
    hide Apply, Enabled;
    assert es[i..][0] == es[i] && es[i..][1..] == es[i + 1..];
  }

  lemma StartFacts(s: State, n: nat)
    requires Start(s, n)
    ensures A.InStep(s.admin, n) && A.Shaped(s.admin) && s.busy.None? && s.admin.waiting.None? && s.relay.inbox == []
    ensures s.relay.results == [] && s.owners == [] && s.admin.submitted == 0 == |s.admin.answers| && n >= 2
    ensures s.admin.posted == [] && s.admin.fetched == [] && s.admin.open == {}
    ensures forall c | 0 <= c < |s.relay.clients| :: s.relay.clients[c] == R.Client(None, [])
  {
    A.StartInStep(s.admin, n);
    forall c | 0 <= c < |s.relay.clients| ensures s.relay.clients[c] == R.Client(None, []) { assert s.relay.clients[c] in s.relay.clients; }
  }

  lemma CallFrame(s: A.State)
    requires A.Shaped(s) && s.waiting.None?
    ensures var t := A.Apply(s, A.Call); t.posted == s.posted && t.fetched == s.fetched && t.open == s.open && t.answers == s.answers
  {}

  lemma Room(s: A.State, n: nat)
    requires A.InStep(s, n) && s.submitted == 1 && n >= 4
    ensures s.submitted < |s.answers| + n - 1
  {}

  lemma DeviceOnly(s: State, f: R.Filter, answer: Answers, u: A.State) returns (t: State)
    requires A.Shaped(s.admin) && A.Enabled(s.admin, A.Fetch)
    requires var a1 := A.Apply(s.admin, A.Fetch); A.Shaped(a1) && A.Enabled(a1, A.Post(0)) && u == A.Apply(a1, A.Post(0))
    ensures Enabled(s, Device(A.Fetch))
    ensures var s1 := Apply(s, f, answer, Device(A.Fetch)); A.Shaped(s1.admin) && Enabled(s1, Device(A.Post(0))) && t == Apply(s1, f, answer, Device(A.Post(0)))
    ensures t == s.(admin := u)
  {
    t := s.(admin := u);
  }
}
