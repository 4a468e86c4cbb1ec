/**
 * Admin commands relayed to a remote server (src/dis/rpc.c): clients send a command and wait for
 * the callback message, the server filters, executes and answers. Messages carry what the C
 * structures carry; delivery to the server is in any order.
 */
module Relay {
  import opened Modular
  import opened Wrappers

  /** A 64-byte command: dword 0 and the rest. A rejected command is all zero. */
  datatype Cmd = Cmd(dword0: nat, rest: nat)
  datatype Cpl = Cpl(cid: nat, body: nat)

  const ZERO := Cmd(0, 0)
  const EPERM := 1

  function CidOf(c: Cmd): nat { Lap(c.dword0, 0x1_0000) }

  /** The identifier is the upper half of dword 0. */
  lemma CidIs(c: Cmd)
    ensures CidOf(c) == c.dword0 / 0x1_0000
  {
    LapIsQuotient(c.dword0, 0x1_0000);
  }

  /** rpc_cb: called with the initiator's node; modifies the command or rejects it. */
  type Filter = (nat, Cmd) -> Option<Cmd>

  /** rpc_cmd and rpc_cpl; `exec` is history: the execution that produced the completion, if any. */
  datatype Request = Request(node: nat, cmd: Cmd)
  datatype Reply = Reply(cmd: Cmd, cpl: Cpl, exec: Option<nat>)

  /** Between the trigger and the callback a client holds its reference lock. */
  datatype Client = Client(waiting: Option<Cmd>, box: seq<Reply>)

  /**
   * One run of execute_command at the server: the completion it produced, None if it did not return
   * 0, and what the reply buffer held before.
   */
  datatype Exec = Exec(node: nat, cmd: Cmd, cpl: Option<Cpl>, buffer: Cpl)

  /** What remote_command gave its caller for `sent`: status, command and completion as overwritten. */
  datatype Result = Result(node: nat, sent: Cmd, status: int, cmd: Cmd, cpl: Cpl, exec: Option<nat>)

  datatype State = State(clients: seq<Client>, inbox: seq<Request>, executed: seq<Exec>, results: seq<Result>)

  datatype Event =
    | Send(node: nat, cmd: Cmd)
    | Handle(j: nat, ok: bool, body: nat, stale: Cpl)  // `stale`: reply.cpl as found on the server's stack
    | Receive(node: nat)
    | GiveUp(node: nat)

  function Without(s: seq<Request>, j: nat): seq<Request>
    requires j < |s|
  {
    s[..j] + s[j + 1..]
  }

  predicate Enabled(s: State, e: Event) {
    match e
    case Send(node, _) => node < |s.clients| && s.clients[node].waiting.None?
    case Handle(j, _, _, _) => j < |s.inbox| && s.inbox[j].node < |s.clients|
    case Receive(node) => node < |s.clients| && s.clients[node].waiting.Some? && s.clients[node].box != []
    case GiveUp(node) => node < |s.clients| && s.clients[node].waiting.Some? && s.clients[node].box == []
  }

  /** handle_remote_command: the status of the local execution is not looked at. */
  function Handled(s: State, f: Filter, j: nat, ok: bool, body: nat, stale: Cpl): State
    requires j < |s.inbox| && s.inbox[j].node < |s.clients|
  {
    var r := s.inbox[j];
    var c := s.clients[r.node];
    match f(r.node, r.cmd)
    case Some(m) =>
      var cpl := if ok then Some(Cpl(CidOf(m), body)) else None;
      var reply := Reply(m, if ok then cpl.value else stale, Some(|s.executed|));
      s.(inbox := Without(s.inbox, j), executed := s.executed + [Exec(r.node, m, cpl, stale)],
         clients := s.clients[r.node := c.(box := c.box + [reply])])
    case None =>
      s.(inbox := Without(s.inbox, j), clients := s.clients[r.node := c.(box := c.box + [Reply(ZERO, stale, None)])])
  }

  /** remote_command once its callback arrived. */
  function Received(s: State, node: nat): State
    requires node < |s.clients| && s.clients[node].waiting.Some? && s.clients[node].box != []
  {
    var c := s.clients[node];
    var r := c.box[0];
    var status := if r.cmd.dword0 == 0 then EPERM else 0;
    s.(clients := s.clients[node := Client(None, c.box[1..])],
       results := s.results + [Result(node, c.waiting.value, status, r.cmd, r.cpl, r.exec)])
  }

  function Apply(s: State, f: Filter, e: Event): State
    requires Enabled(s, e)
  {
    match e
    case Send(node, cmd) =>
      s.(clients := s.clients[node := s.clients[node].(waiting := Some(cmd))], inbox := s.inbox + [Request(node, cmd)])
    case Handle(j, ok, body, stale) => Handled(s, f, j, ok, body, stale)
    case Receive(node) => Received(s, node)
    case GiveUp(node) => s.(clients := s.clients[node := s.clients[node].(waiting := None)])
  }

  predicate Run(s: State, f: Filter, es: seq<Event>)
    decreases |es|
  {
    es == [] || (Enabled(s, es[0]) && Run(Apply(s, f, es[0]), f, es[1..]))
  }

  function After(s: State, f: Filter, es: seq<Event>): State
    requires Run(s, f, es)
    decreases |es|
  {
    if es == [] then s else After(Apply(s, f, es[0]), f, es[1..])
  }

  ghost predicate Start(s: State) {
    s.inbox == [] && s.executed == [] && s.results == [] && forall c <- s.clients :: c == Client(None, [])
  }

  // ---------------------------------------------------------------- each execution answers one call

  /** The p-th reply in client n's box comes from execution x. */
  ghost predicate InBox(s: State, n: nat, p: nat, x: nat) {
    n < |s.clients| && p < |s.clients[n].box| && s.clients[n].box[p].exec == Some(x)
  }

  /** No execution is in two results, in a result and a box, or in two places of the boxes. */
  ghost predicate Single(s: State) {
    && (forall a, x: nat | 0 <= a < |s.results| && s.results[a].exec == Some(x) :: x < |s.executed|)
    && (forall n: nat, p: nat, x: nat | InBox(s, n, p, x) :: x < |s.executed|)
    && (forall a, b | 0 <= a < b < |s.results| && s.results[a].exec.Some? :: s.results[a].exec != s.results[b].exec)
    && (forall a, n: nat, p: nat, x: nat | InBox(s, n, p, x) && 0 <= a < |s.results| :: s.results[a].exec != Some(x))
    && (forall m: nat, o: nat, n: nat, p: nat, x: nat | InBox(s, m, o, x) && InBox(s, n, p, x) :: m == n && o == p)
  }

  /** Where a reply was before the step; only a handled request adds one. */
  lemma InBoxStep(s: State, f: Filter, e: Event, n: nat, p: nat, x: nat)
    requires Enabled(s, e) && InBox(Apply(s, f, e), n, p, x)
    ensures if e.Handle? && n == s.inbox[e.j].node && p == |s.clients[n].box| then x == |s.executed|
            else InBox(s, n, if e.Receive? && n == e.node then p + 1 else p, x)
  {}

  lemma SingleStep(s: State, f: Filter, e: Event)
    requires Single(s) && Enabled(s, e)
    ensures Single(Apply(s, f, e))
  {
    var s' := Apply(s, f, e);
    forall n: nat, p: nat, x: nat | InBox(s', n, p, x)
      ensures x < |s'.executed| && forall a | 0 <= a < |s'.results| :: s'.results[a].exec != Some(x)
    {
      InBoxStep(s, f, e, n, p, x);
      if e.Receive? {
        var first := s.clients[e.node].box[0];
        assert first.exec.Some? ==> InBox(s, e.node, 0, first.exec.value);
      }
    }
    forall m: nat, o: nat, n: nat, p: nat, x: nat | InBox(s', m, o, x) && InBox(s', n, p, x) ensures m == n && o == p {
      InBoxStep(s, f, e, n, p, x);
      InBoxStep(s, f, e, m, o, x);
    }
    ResultsSingle(s, f, e);
  }

  lemma ResultsSingle(s: State, f: Filter, e: Event)
    requires Single(s) && Enabled(s, e)
    ensures var s' := Apply(s, f, e);
            && (forall a, x: nat | 0 <= a < |s'.results| && s'.results[a].exec == Some(x) :: x < |s'.executed|)
            && (forall a, b | 0 <= a < b < |s'.results| && s'.results[a].exec.Some? :: s'.results[a].exec != s'.results[b].exec)
  {
    if e.Receive? {
      var first := s.clients[e.node].box[0];
      assert first.exec.Some? ==> InBox(s, e.node, 0, first.exec.value);
    }
  }

  // ---------------------------------------------------------------- a client whose waits have not timed out

  /** What the reply holds after the execution. */
  function Left(x: Exec): Cpl { if x.cpl.Some? then x.cpl.value else x.buffer }

  /** The reply the server owes for `cmd` sent by `node`, with the execution it came from. */
  ghost predicate Answers(s: State, f: Filter, node: nat, cmd: Cmd, r: Reply) {
    match f(node, cmd)
    case None => r.cmd == ZERO && r.exec == None
    case Some(m) => r.cmd == m && r.exec.Some? && r.exec.value < |s.executed|
                    && s.executed[r.exec.value].node == node && s.executed[r.exec.value].cmd == m
                    && r.cpl == Left(s.executed[r.exec.value])
  }

  /** A waiting client has its one request in the inbox or its one reply in the box; an idle one has neither. */
  ghost predicate ClientInv(s: State, f: Filter, node: nat)
    requires node < |s.clients|
  {
    var c := s.clients[node];
    if c.waiting.None? then c.box == [] && !Asked(s.inbox, node)
    else if c.box == [] then exists j :: 0 <= j < |s.inbox| && s.inbox[j] == Request(node, c.waiting.value)
    else |c.box| == 1 && !Asked(s.inbox, node) && Answers(s, f, node, c.waiting.value, c.box[0])
  }

  ghost predicate Asked(inbox: seq<Request>, node: nat) {
    exists j :: 0 <= j < |inbox| && inbox[j].node == node
  }

  ghost predicate Right(s: State, f: Filter, r: Result) {
    && Answers(s, f, r.node, r.sent, Reply(r.cmd, r.cpl, r.exec))
    && r.status == (if r.cmd.dword0 == 0 then EPERM else 0)
  }

  /** What holds of one client and the results it was given, whatever the other clients do. */
  ghost predicate Inv(s: State, f: Filter, node: nat) {
    && (node < |s.clients| ==> ClientInv(s, f, node))
    && (forall i, j | 0 <= i < j < |s.inbox| && s.inbox[i].node == node :: s.inbox[j].node != node)
    && (forall x <- s.executed :: x.cpl.Some? ==> x.cpl.value.cid == CidOf(x.cmd))
    && (forall k | 0 <= k < |s.results| && s.results[k].node == node :: Right(s, f, s.results[k]))
  }

  lemma SendKeeps(s: State, f: Filter, node: nat, cmd: Cmd, n: nat)
    requires Inv(s, f, n) && Enabled(s, Send(node, cmd))
    ensures Inv(Apply(s, f, Send(node, cmd)), f, n)
  {
    var s' := Apply(s, f, Send(node, cmd));
    assert s'.inbox[|s.inbox|] == Request(node, cmd);
    if n < |s.clients| && s.clients[n].waiting.Some? && s.clients[n].box == [] {
      var j :| 0 <= j < |s.inbox| && s.inbox[j] == Request(n, s.clients[n].waiting.value);
      assert s'.inbox[j] == s.inbox[j];
    }
    assert forall k | 0 <= k < |s.results| && s.results[k].node == n :: Right(s, f, s.results[k]);
  }

  /** A request handled leaves the others in the inbox, in order. */
  lemma InboxAfter(inbox: seq<Request>, j: nat, node: nat)
    requires j < |inbox|
    requires forall i, k | 0 <= i < k < |inbox| && inbox[i].node == node :: inbox[k].node != node
    ensures inbox[j].node == node ==> !Asked(Without(inbox, j), node)
    ensures !Asked(inbox, node) ==> !Asked(Without(inbox, j), node)
  {
    if Asked(Without(inbox, j), node) {
      var i :| 0 <= i < |inbox| - 1 && Without(inbox, j)[i].node == node;
      assert Without(inbox, j)[i] == inbox[if i < j then i else i + 1];
    }
  }

  /** A client that did not send the request handled. */
  lemma HandleOther(s: State, f: Filter, j: nat, ok: bool, body: nat, stale: Cpl, n: nat)
    requires Inv(s, f, n) && Enabled(s, Handle(j, ok, body, stale)) && n < |s.clients| && n != s.inbox[j].node
    ensures ClientInv(Handled(s, f, j, ok, body, stale), f, n)
  {
    hide Right;
    var s' := Handled(s, f, j, ok, body, stale);
    InboxAfter(s.inbox, j, n);
    assert s'.clients[n] == s.clients[n] && s'.inbox == Without(s.inbox, j);
    if s.clients[n].waiting.Some? && s.clients[n].box == [] {
      var i :| 0 <= i < |s.inbox| && s.inbox[i] == Request(n, s.clients[n].waiting.value);
      assert s'.inbox[if i < j then i else i - 1] == s.inbox[i];
    }
  }

  /** The client that did. */
  lemma HandleOwn(s: State, f: Filter, j: nat, ok: bool, body: nat, stale: Cpl)
    requires Enabled(s, Handle(j, ok, body, stale)) && Inv(s, f, s.inbox[j].node)
    ensures ClientInv(Handled(s, f, j, ok, body, stale), f, s.inbox[j].node)
  {
    hide Right;
    InboxAfter(s.inbox, j, s.inbox[j].node);
  }

  lemma HandleClient(s: State, f: Filter, j: nat, ok: bool, body: nat, stale: Cpl, n: nat)
    requires Inv(s, f, n) && Enabled(s, Handle(j, ok, body, stale)) && n < |s.clients|
    ensures ClientInv(Handled(s, f, j, ok, body, stale), f, n)
  {
    hide ClientInv, Handled;
    if n != s.inbox[j].node { HandleOther(s, f, j, ok, body, stale, n); } else { HandleOwn(s, f, j, ok, body, stale); }
  }

  lemma HandleKeeps(s: State, f: Filter, j: nat, ok: bool, body: nat, stale: Cpl, n: nat)
    requires Inv(s, f, n) && Enabled(s, Handle(j, ok, body, stale))
    ensures Inv(Handled(s, f, j, ok, body, stale), f, n)
  {
    hide ClientInv;
    var s' := Handled(s, f, j, ok, body, stale);
    if n < |s.clients| { HandleClient(s, f, j, ok, body, stale, n); }
    forall k | 0 <= k < |s'.results| && s'.results[k].node == n ensures Right(s', f, s'.results[k]) {
      assert Right(s, f, s.results[k]);
    }
    forall i | 0 <= i < |s'.inbox| ensures s'.inbox[i] == s.inbox[if i < j then i else i + 1] {}
  }

  lemma ReceiveKeeps(s: State, f: Filter, node: nat, n: nat)
    requires Inv(s, f, n) && Enabled(s, Receive(node))
    ensures Inv(Received(s, node), f, n)
  {
    var s' := Received(s, node);
    forall k | 0 <= k < |s'.results| && s'.results[k].node == n ensures Right(s', f, s'.results[k]) {
      if k < |s.results| { assert Right(s, f, s.results[k]); }
    }
  }

  /** Another client's wait timing out touches neither this client's request nor its reply. */
  lemma GiveUpKeeps(s: State, f: Filter, node: nat, n: nat)
    requires Inv(s, f, n) && Enabled(s, GiveUp(node)) && node != n
    ensures Inv(Apply(s, f, GiveUp(node)), f, n)
  {
    assert forall k | 0 <= k < |s.results| && s.results[k].node == n :: Right(s, f, s.results[k]);
  }

  lemma StartInv(s: State, f: Filter, n: nat)
    requires Start(s)
    ensures Inv(s, f, n) && Single(s)
  {
    forall m | 0 <= m < |s.clients| ensures s.clients[m] == Client(None, []) { assert s.clients[m] in s.clients; }
  }

  lemma StepKeeps(s: State, f: Filter, e: Event, n: nat)
    requires Inv(s, f, n) && Enabled(s, e) && e != GiveUp(n)
    ensures Inv(Apply(s, f, e), f, n)
  {
    match e
    case Send(node, cmd) => SendKeeps(s, f, node, cmd, n);
    case Handle(j, ok, body, stale) => HandleKeeps(s, f, j, ok, body, stale, n);
    case Receive(node) => ReceiveKeeps(s, f, node, n);
    case GiveUp(node) => GiveUpKeeps(s, f, node, n);
  }

  lemma {:induction false} RunKeeps(s: State, f: Filter, es: seq<Event>, n: nat)
    requires Inv(s, f, n) && Single(s) && Run(s, f, es) && (forall e <- es :: e != GiveUp(n))
    ensures Inv(After(s, f, es), f, n) && Single(After(s, f, es))
    decreases |es|
  {
    hide Inv, Single;
    if es != [] {
      assert es[0] in es && forall e <- es[1..] :: e in es;
      StepKeeps(s, f, es[0], n);
      SingleStep(s, f, es[0]);
      RunKeeps(Apply(s, f, es[0]), f, es[1..], n);
    }
  }

  /**
   * The relay is transparent to every client until one of its own waits times out, whatever happens
   * to the others: for any filter, each of its calls is refused exactly when the filter rejects its
   * command or forwards one whose dword 0 is zero, and reported successful otherwise. The caller of
   * a forwarded command gets it back with the completion its own execution produced, under its own
   * identifier, or, if that execution failed, with just what the reply buffer held before it; and
   * that execution answers no other call of anyone.
   */
  lemma Transparent(s0: State, f: Filter, es: seq<Event>, k: nat, l: nat)
    requires Start(s0) && Run(s0, f, es)
    requires k < |After(s0, f, es).results| && l < |After(s0, f, es).results|
    requires forall e <- es :: e != GiveUp(After(s0, f, es).results[k].node)
    ensures var s := After(s0, f, es); var r := s.results[k]; var fwd := f(r.node, r.sent);
            && r.status == (if fwd.None? || fwd.value.dword0 == 0 then EPERM else 0)
            && (fwd.None? ==> r.cmd == Cmd(0, 0) && r.exec.None?)
            && (fwd.Some? ==>
                  && r.cmd == fwd.value && r.exec.Some? && r.exec.value < |s.executed|
                  && s.executed[r.exec.value].node == r.node && s.executed[r.exec.value].cmd == r.cmd
                  && var x := s.executed[r.exec.value];
                  && (if x.cpl.Some? then r.cpl == x.cpl.value && r.cpl.cid == r.cmd.dword0 / 0x1_0000 else r.cpl == x.buffer)
                  && (l != k ==> s.results[l].exec != r.exec))
  {
    var s := After(s0, f, es);
    var n := s.results[k].node;
    StartInv(s0, f, n);
    RunKeeps(s0, f, es, n);
    assert Right(s, f, s.results[k]);
    CidIs(s.results[k].cmd);
    if l < k && s.results[l].exec.Some? { assert s.results[l].exec != s.results[k].exec; }
  }

  // ---------------------------------------------------------------- a failed execution

  /** One call by one client: sent, handled, its reply received. */
  function OneCall(cmd: Cmd, ok: bool, body: nat, stale: Cpl): seq<Event> {
    [Send(0, cmd), Handle(0, ok, body, stale), Receive(0)]
  }

  const ALONE := State([Client(None, [])], [], [], [])

  lemma OneCallRuns(f: Filter, cmd: Cmd, ok: bool, body: nat, stale: Cpl)
    requires f(0, cmd).Some?
    ensures Start(ALONE) && Run(ALONE, f, OneCall(cmd, ok, body, stale))
    ensures var s, m := After(ALONE, f, OneCall(cmd, ok, body, stale)), f(0, cmd).value;
            && s.executed == [Exec(0, m, if ok then Some(Cpl(CidOf(m), body)) else None, stale)]
            && s.results == [Result(0, cmd, if m.dword0 == 0 then EPERM else 0, m, if ok then Cpl(CidOf(m), body) else stale, Some(0))]
  {
    var e0, e1, e2 := Send(0, cmd), Handle(0, ok, body, stale), Receive(0);
    var s1 := Apply(ALONE, f, e0);
    var s2 := Apply(s1, f, e1);
    assert s2.clients[0].box != [];
    Cons(s2, f, e2, []);
    Cons(s1, f, e1, [e2]);
    Cons(ALONE, f, e0, [e1, e2]);
    assert [e0] + [e1, e2] == OneCall(cmd, ok, body, stale) && [e1] + [e2] == [e1, e2] && [e2] + [] == [e2];
  }

  /** What the caller is given. */
  function Outcome(f: Filter, cmd: Cmd, ok: bool, body: nat, stale: Cpl): Result
    requires f(0, cmd).Some?
  {
    OneCallRuns(f, cmd, ok, body, stale);
    After(ALONE, f, OneCall(cmd, ok, body, stale)).results[0]
  }

  /** The completion given is the one the execution produced, whatever the reply buffer held. */
  ghost predicate Faithful(f: Filter, cmd: Cmd, ok: bool)
    requires f(0, cmd).Some?
  {
    forall body, stale :: Outcome(f, cmd, ok, body, stale).cpl == Cpl(f(0, cmd).value.dword0 / 0x1_0000, body)
  }

  /**
   * The status of the local execution is not looked at: what a forwarded call is given is its
   * execution's completion exactly when that execution succeeded. When it failed, whatever the
   * reply buffer held is handed back, and reported as a success.
   */
  lemma FaithfulExactly(f: Filter, cmd: Cmd, ok: bool, body: nat, stale: Cpl)
    requires f(0, cmd).Some? && f(0, cmd).value.dword0 != 0
    ensures Faithful(f, cmd, ok) <==> ok
    ensures Outcome(f, cmd, ok, body, stale).status == 0
    ensures !ok ==> Outcome(f, cmd, ok, body, stale).cpl == stale
  {
    hide Run, After;
    OneCallRuns(f, cmd, ok, body, stale);
    var m := f(0, cmd).value;
    CidIs(m);
    if ok {
      forall b, t ensures Outcome(f, cmd, ok, b, t).cpl == Cpl(m.dword0 / 0x1_0000, b) { OneCallRuns(f, cmd, ok, b, t); }
    } else {
      OneCallRuns(f, cmd, ok, 0, Cpl(0, 1));
      assert Outcome(f, cmd, ok, 0, Cpl(0, 1)).cpl == Cpl(0, 1);
    }
  }

  // ---------------------------------------------------------------- after a timed-out wait

  /** One wait that times out is enough: the next call is handed the reply to the one given up. */
  lemma StaleReply(f: Filter, first: Cmd, second: Cmd, body: nat, stale: Cpl) returns (s0: State, es: seq<Event>)
    requires f(0, first).Some?
    ensures Start(s0) && Run(s0, f, es)
    ensures var s := After(s0, f, es);
            |s.results| == 1 && s.results[0].sent == second && s.results[0].cmd == f(0, first).value
  {
    s0 := State([Client(None, [])], [], [], []);
    var s1 := Apply(s0, f, Send(0, first));
    var s2 := Apply(s1, f, GiveUp(0));
    var s3 := Apply(s2, f, Handle(0, true, body, stale));
    assert s3.clients[0].box == [Reply(f(0, first).value, Cpl(CidOf(f(0, first).value), body), Some(0))];
    var s4 := Apply(s3, f, Send(0, second));
    var s5 := Apply(s4, f, Receive(0));
    var e0, e1, e2, e3, e4 := Send(0, first), GiveUp(0), Handle(0, true, body, stale), Send(0, second), Receive(0);
    es := [e0, e1, e2, e3, e4];
    Cons(s4, f, e4, []);
    Cons(s3, f, e3, [e4]);
    Cons(s2, f, e2, [e3, e4]);
    Cons(s1, f, e1, [e2, e3, e4]);
    Cons(s0, f, e0, [e1, e2, e3, e4]);
  }

  lemma Cons(s: State, f: Filter, e: Event, rest: seq<Event>)
    requires Enabled(s, e) && Run(Apply(s, f, e), f, rest)
    ensures Run(s, f, [e] + rest) && After(s, f, [e] + rest) == After(Apply(s, f, e), f, rest)
  {
    assert ([e] + rest)[1..] == rest;
  }
}
