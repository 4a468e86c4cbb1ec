/**
 * What the windowed sender moves. A window is drained before the next begins and each of its
 * commands has a PRP page of its own, so under every controller each command executes as built.
 */
module WindowDelivery {
  import opened Wrappers
  import opened Command
  import opened Protocol
  import opened Safety
  import opened Jobs
  import opened WindowJobs
  import opened Window
  import Transfer

  /** The commands before the window under way. */
  function Base(w: Sender): int
    requires |w.sys.subs| == 1
  {
    |w.sys.subs[0].issued| - (if InWindow(w.at) then w.num else FlushIssued(w.at))
  }

  predicate InWindow(g: Place) { g == Filling || g == Submitting || g == Collecting || g == Freeing }

  /** Command `cmd` does what `what` means, and if it points to a list page, to addr. */
  ghost predicate Means(cmd: Words, lists: Lists, j: Load, what: Option<nat>, addr: Address) {
    && Sendable(j) && (what.Some? ==> what.value < j.total)
    && Decode(cmd, lists, j.io.bpp) == Meant(j, what)
    && (what.Some? && PagesFor(Nlb(cmd), j.io.bpp) > 2 ==> Prp2(cmd) == addr)
    && (what.None? ==> Opcode(cmd) == NVM_IO_FLUSH)
  }

  ghost predicate InFlight(b: Sub, k: nat) { k < |b.issued| && (|b.fetched| <= k || k in b.open) }

  /** Command k, in flight, is of this window and means what it should, with the lists now in memory and as last read. */
  ghost predicate Ready(w: Sender, j: Load, k: nat)
    requires |w.sys.subs| == 1 && |w.made| == |w.sys.subs[0].issued|
  {
    var b, n := w.sys.subs[0], k - Base(w);
    InFlight(b, k) ==>
      && 0 <= n && (w.made[k].Some? ==> n + 1 < |j.prp|)
      && var addr := if w.made[k].Some? then j.prp[n + 1] else ZERO;
      && Means(b.issued[k], b.lists, j, w.made[k], addr)
      && (k in b.open ==> Means(b.issued[k], b.open[k], j, w.made[k], addr))
  }

  /** Log record x executed what its command means. */
  ghost predicate Executed(w: Sender, j: Load, x: Exec)
    requires |w.sys.subs| == 1 && |w.made| == |w.sys.subs[0].issued|
  {
    && x.q == 0 && x.idx < |w.made| && Sendable(j) && (w.made[x.idx].Some? ==> w.made[x.idx].value < j.total)
    && Decode(w.sys.subs[0].issued[x.idx], x.lists, j.io.bpp) == Meant(j, w.made[x.idx])
  }

  ghost predicate Sound(w: Sender, j: Load) {
    && |w.sys.subs| == 1 && |w.made| == |w.sys.subs[0].issued|
    && (forall k: nat {:trigger Ready(w, j, k)} :: Ready(w, j, k))
    && (forall x <- w.sys.comp.log :: Executed(w, j, x))
  }

  // ---------------------------------------------------------------- building

  lemma MadeMeans(cmd: Words, j: Load, what: Option<nat>, addr: Address, page: seq<Address>, lists: Lists)
    requires Sendable(j) && (what.Some? ==> what.value < j.total) && |page| >= j.io.pageSize / 8
    requires addr in lists && Fitting(j, what) && lists[addr] == ListFor(page, j, what)
    ensures Means(CommandFor(cmd, j, what, addr), lists, j, what, addr)
  {
    match what
    case Some(i) =>
      BuildDecodes(cmd, Rw(j.transfers[i].tile), IoOf(j, i), addr, page, lists);
      BuildRwReads(cmd, j.transfers[i].tile, IoOf(j, i), addr);
    case None =>
      HeaderReads(cmd, NVM_IO_FLUSH, j.io.nsid);
      DataPtrReads(Header(cmd, NVM_IO_FLUSH, j.io.nsid), ZERO, ZERO);
  }

  /** For a flush the address does not matter. */
  lemma AnyAddress(cmd: Words, lists: Lists, j: Load, a: Address, b: Address)
    requires Means(cmd, lists, j, None, a)
    ensures Means(cmd, lists, j, None, b)
  {}

  /** Rewriting another page. */
  lemma MeansFrame(cmd: Words, lists: Lists, j: Load, what: Option<nat>, addr: Address, other: Address, page: seq<Address>)
    requires Means(cmd, lists, j, what, addr) && (what.Some? ==> other != addr)
    ensures Means(cmd, lists[other := page], j, what, addr)
  {
    if what.Some? { DecodeFrame(cmd, lists, j.io.bpp, other, page); }
  }

  /** One more command of the window, or the flush. */
  lemma EnqueueSound(w: Sender, j: Load, w': Sender, what: Option<nat>, slot: Words, cmd: Words, list: seq<Address>)
    requires Sendable(j) && Sound(w, j) && |w'.sys.subs| == 1 && w'.sys.comp.log == w.sys.comp.log
    requires Made(w.sys.subs[0], w'.sys.subs[0], j, what, w.num, slot, cmd, list) && w'.made == w.made + [what]
    requires Base(w') == Base(w) && (what.Some? ==> |w.made| - Base(w) == w.num)
    requires what.None? ==> |w.made| == Base(w)
    requires |w.sys.subs[0].fetched| <= |w.sys.subs[0].issued| && (forall k <- w.sys.subs[0].open.Keys :: k < |w.sys.subs[0].issued|)
    ensures Sound(w', j)
  {
    hide Means, Leaves, Sendable;
    var b, b', last := w.sys.subs[0], w'.sys.subs[0], |w.made|;
    var addr := j.prp[PageFor(what, w.num)];
    NewMeans(b, b', j, what, w.num, slot, cmd, list);
    forall k: nat ensures Ready(w', j, k) {
      assert Ready(w, j, k);
      if k < last && InFlight(b', k) {
        var mine := if w.made[k].Some? then j.prp[k - Base(w) + 1] else ZERO;
        if w.made[k].Some? { OtherPage(j, what, w.num, k - Base(w), w.made[k]); }
        MeansFrame(b.issued[k], b.lists, j, w.made[k], mine, addr, b'.lists[addr]);
      }
    }
    forall x <- w'.sys.comp.log ensures Executed(w', j, x) { assert Executed(w, j, x); }
  }

  lemma NewMeans(b: Sub, b': Sub, j: Load, what: Option<nat>, num: nat, slot: Words, cmd: Words, list: seq<Address>)
    requires Sendable(j) && Made(b, b', j, what, num, slot, cmd, list)
    ensures var addr := if what.Some? then j.prp[num + 1] else ZERO; Means(b'.issued[|b.issued|], b'.lists, j, what, addr)
  {
    hide Means, CommandFor, ListFor;
    var addr := j.prp[PageFor(what, num)];
    assert Fitting(j, what);
    MadeMeans(slot, j, what, addr, b.lists[addr], b'.lists);
    if what.None? { AnyAddress(b'.issued[|b.issued|], b'.lists, j, addr, ZERO); }
  }

  /** An earlier command of the window has another page. */
  lemma OtherPage(j: Load, what: Option<nat>, num: nat, n: int, earlier: Option<nat>)
    requires Sendable(j) && PageFor(what, num) < |j.prp| && earlier.Some? && 0 <= n && n + 1 < |j.prp|
    requires what.Some? ==> n < num
    ensures j.prp[PageFor(what, num)] != j.prp[n + 1]
  {}

  // ---------------------------------------------------------------- the other steps

  /** Nothing in flight: nothing to say. */
  lemma QuietSound(w: Sender, j: Load, w': Sender)
    requires Sound(w, j) && Quiet(w'.sys) && SameCommands(w, w')
    ensures Sound(w', j)
  {
    hide Means, Meant;
    var b' := w'.sys.subs[0];
    forall k: nat ensures Ready(w', j, k) { assert !InFlight(b', k); }
    forall x <- w'.sys.comp.log ensures Executed(w', j, x) { assert Executed(w, j, x); }
  }

  /** The same commands, as built, and nothing newly completed. */
  ghost predicate SameCommands(w: Sender, w': Sender) {
    && |w.sys.subs| == 1 == |w'.sys.subs| && w'.made == w.made && w'.sys.comp.log == w.sys.comp.log
    && w'.sys.subs[0].issued == w.sys.subs[0].issued
  }

  /** A step of the driver that builds nothing and begins no window. */
  lemma SameSound(w: Sender, j: Load, w': Sender)
    requires Sound(w, j) && SameCommands(w, w') && Base(w') == Base(w)
    requires var b, b' := w.sys.subs[0], w'.sys.subs[0]; b'.fetched == b.fetched && b'.open == b.open && b'.lists == b.lists
    ensures Sound(w', j)
  {
    hide Means, Meant;
    forall k: nat ensures Ready(w', j, k) { assert Ready(w, j, k); }
    forall x <- w'.sys.comp.log ensures Executed(w', j, x) { assert Executed(w, j, x); }
  }

  lemma QuietLists(s: State, e: Event, s': State)
    requires Inv(s) && |s.subs| == 1 && Transfer.Takes(s, e, s') && (e == Submit(0) || e == Dequeue || e == Ack || e == HeadUp(0) || e == HeadWrap(0))
    ensures |s'.subs| == 1 && s'.comp.log == s.comp.log
    ensures var b, b' := s.subs[0], s'.subs[0]; b'.issued == b.issued && b'.fetched == b.fetched && b'.open == b.open && b'.lists == b.lists
  {}

  lemma FreesLists(s: State, s': State)
    requires Inv(s) && |s.subs| == 1 && Frees(s, s')
    ensures |s'.subs| == 1 && s'.comp.log == s.comp.log
    ensures var b, b' := s.subs[0], s'.subs[0]; b'.issued == b.issued && b'.fetched == b.fetched && b'.open == b.open && b'.lists == b.lists
  {
    hide Inv;
    FreesEffect(s, s');
    AckPosted(s.comp);
    assert s'.comp == CompAck(s.comp);
  }

  lemma DriverSound(w: Sender, j: Load, w': Sender)
    requires WindowInv(w, j) && WindowInv(w', j) && Sound(w, j) && DriverStep(w, j, w')
    requires !((w.at == Filling && w.num < j.depth && w.from != j.total) || w.at == FlushFilling)
    ensures Sound(w', j)
  {
    hide Inv, Sound, Frees, Sent, PrpPages, Boundary;
    NotBuilding(w, j, w');
    if Boundary(w') {
      BoundaryQuiet(w', j);
      QuietSound(w, j, w');
    } else {
      SameSound(w, j, w');
    }
  }

  lemma NotBuilding(w: Sender, j: Load, w': Sender)
    requires WindowInv(w, j) && DriverStep(w, j, w')
    requires !((w.at == Filling && w.num < j.depth && w.from != j.total) || w.at == FlushFilling)
    ensures SameCommands(w, w') && (!Boundary(w') ==> Base(w') == Base(w))
    ensures var b, b' := w.sys.subs[0], w'.sys.subs[0]; b'.fetched == b.fetched && b'.open == b.open && b'.lists == b.lists
  {
    hide Inv, Frees, Sent, PrpPages;
    match w.at
    case Submitting => QuietLists(w.sys, Submit(0), w'.sys);
    case FlushSubmitting => QuietLists(w.sys, Submit(0), w'.sys);
    case Collecting => if w.got < w.num { QuietLists(w.sys, Dequeue, w'.sys); }
    case FlushCollecting => QuietLists(w.sys, Dequeue, w'.sys);
    case Freeing => FreesLists(w.sys, w'.sys);
    case FlushFreeing => FreesLists(w.sys, w'.sys);
    case _ =>
  }

  lemma BuildingSound(w: Sender, j: Load, w': Sender)
    requires Sendable(j) && WindowInv(w, j) && Sound(w, j) && DriverStep(w, j, w') && w'.at != Thrown
    requires (w.at == Filling && w.num < j.depth && w.from != j.total) || w.at == FlushFilling
    ensures Sound(w', j)
  {
    hide Inv, Sent, PrpPages, Means, Leaves, Sendable;
    var what := if w.at == Filling then Some(w.from) else None;
    var slot, cmd, list := MakesEffect(w.sys, j, what, w.num, w'.sys);
    Counted(w.sys);
    EnqueueSound(w, j, w', what, slot, cmd, list);
  }

  lemma Counted(s: State)
    requires Inv(s) && |s.subs| == 1
    ensures |s.subs[0].fetched| <= |s.subs[0].issued| && forall k <- s.subs[0].open.Keys :: k < |s.subs[0].issued|
  {
    assert Safety.Fits(s.subs[0], s.comp, 0);
  }

  // ---------------------------------------------------------------- the controller

  lemma ControllerSound(w: Sender, e: Event, j: Load, w': Sender)
    requires WindowInv(w, j) && Sound(w, j) && Step(w, Controller(e), j, w')
    ensures Sound(w', j)
  {
    hide Means, Meant, Sent, PrpPages, Inv, Apply;
    ControllerMemory(w.sys, e, w'.sys);
    StillReady(w, j, w');
    forall x <- w'.sys.comp.log ensures Executed(w', j, x) {
      if x in w.sys.comp.log { assert Executed(w, j, x); } else { PostedExecuted(w, e, j, x); }
    }
  }

  lemma StillReady(w: Sender, j: Load, w': Sender)
    requires Sound(w, j) && |w'.sys.subs| == 1 && w' == w.(sys := w'.sys)
    requires var b, b' := w.sys.subs[0], w'.sys.subs[0];
             && b'.issued == b.issued && b'.lists == b.lists && (forall k: nat | InFlight(b', k) :: InFlight(b, k))
             && (forall k <- b'.open.Keys :: InFlight(b, k) && (b'.open[k] == b.lists || (k in b.open && b'.open[k] == b.open[k])))
    ensures |w'.made| == |w'.sys.subs[0].issued| && forall k: nat {:trigger Ready(w', j, k)} :: Ready(w', j, k)
  {
    hide Means, InFlight;
    forall k: nat ensures Ready(w', j, k) { assert Ready(w, j, k); }
  }

  /** What the controller's step does to a queue's memory: fetched and reread commands have the lists of the moment. */
  lemma ControllerMemory(s: State, e: Event, s': State)
    requires Inv(s) && |s.subs| == 1 && (e.Fetch? || e.Reread? || e.Post?) && Transfer.Takes(s, e, s')
    ensures |s'.subs| == 1
    ensures var b, b' := s.subs[0], s'.subs[0];
            && b'.issued == b.issued && b'.lists == b.lists && |b.fetched| <= |b'.fetched|
            && (forall k: nat | InFlight(b', k) :: InFlight(b, k))
            && (forall k <- b'.open.Keys :: InFlight(b, k) && (b'.open[k] == b.lists || (k in b.open && b'.open[k] == b.open[k])))
    ensures e.Post? ==> e.q == 0 && e.i in s.subs[0].open && e.i < |s.subs[0].issued| && s'.comp.log == s.comp.log + [Exec(0, e.i, s.subs[0].open[e.i])]
    ensures !e.Post? ==> s'.comp.log == s.comp.log
  {
    hide CompInv, Logged, Distinct, Pending, Numbered;
    assert Safety.Fits(s.subs[0], s.comp, 0);
    FetchGuard(s.subs[0]);
  }

  lemma PostedExecuted(w: Sender, e: Event, j: Load, x: Exec)
    requires Sound(w, j) && e.Post? && e.i in w.sys.subs[0].open && e.i < |w.made| && x == Exec(0, e.i, w.sys.subs[0].open[e.i])
    ensures Executed(w, j, x)
  {
    assert Ready(w, j, e.i);
  }

  lemma StepSound(w: Sender, a: Act, j: Load, w': Sender)
    requires Sendable(j) && WindowInv(w, j) && WindowInv(w', j) && Sound(w, j) && Step(w, a, j, w')
    ensures Sound(w', j)
  {
    hide WindowInv, Sound, DriverStep, Sendable;
    match a
    case Controller(e) => ControllerSound(w, e, j, w');
    case Driver =>
      if (w.at == Filling && w.num < j.depth && w.from != j.total) || w.at == FlushFilling {
        NotThrown(w', j);
        BuildingSound(w, j, w');
      } else {
        DriverSound(w, j, w');
      }
  }

  lemma NotThrown(w: Sender, j: Load)
    requires WindowInv(w, j)
    ensures w.at != Thrown
  {}

  // ---------------------------------------------------------------- every run

  lemma {:induction false} BehaviourSound(ws: seq<Sender>, acts: seq<Act>, j: Load, i: nat)
    requires Sendable(j) && Behaviour(ws, acts, j) && i < |ws| && Window.Fits(j, ws[0].sys.subs[0].d.size)
    ensures Sound(ws[i], j)
  {
    hide WindowInv, Sound, Step, Start, Sendable;
    if i == 0 { StartSound(ws[0], j); } else {
      BehaviourSound(ws, acts, j, i - 1);
      BehaviourKeepsWindow(ws, acts, j, i - 1);
      BehaviourKeepsWindow(ws, acts, j, i);
      assert Step(ws[i - 1], acts[i - 1], j, ws[i]);
      StepSound(ws[i - 1], acts[i - 1], j, ws[i]);
    }
  }

  lemma StartSound(w: Sender, j: Load)
    requires Start(w, j)
    ensures Sound(w, j)
  {
    assert FreshSub(w.sys.subs[0]);
  }

  /** The transfers among the commands made. */
  function Transfers(made: seq<Option<nat>>): seq<nat> {
    if made == [] then [] else
      var last := made[|made| - 1];
      Transfers(made[..|made| - 1]) + (if last.Some? then [last.value] else [])
  }

  /** Which transfer each entry of the history sent. */
  function Indices(sent: seq<(nat, nat)>): seq<nat> { seq(|sent|, i requires 0 <= i < |sent| => sent[i].1) }

  lemma MadeStep(w: Sender, a: Act, j: Load, w': Sender)
    requires Step(w, a, j, w') && Transfers(w.made) == Indices(w.sent)
    ensures Transfers(w'.made) == Indices(w'.sent)
  {
    hide Takes, Frees, Makes;
    if |w'.made| > |w.made| { assert w'.made[..|w.made|] == w.made; }
  }

  lemma {:induction false} MadeIsSent(ws: seq<Sender>, acts: seq<Act>, j: Load, i: nat)
    requires Behaviour(ws, acts, j) && i < |ws|
    ensures Transfers(ws[i].made) == Indices(ws[i].sent)
  {
    hide Step;
    if i > 0 {
      MadeIsSent(ws, acts, j, i - 1);
      assert Step(ws[i - 1], acts[i - 1], j, ws[i]);
      MadeStep(ws[i - 1], acts[i - 1], j, ws[i]);
    }
  }

  /** Record x of the log did what its command was made to do. */
  ghost predicate Did(w: Sender, j: Load, x: Exec) {
    && |w.sys.subs| == 1 && x.q == 0 && x.idx < |w.sys.subs[0].fetched| && x.idx < |w.made| && Sendable(j)
    && (w.made[x.idx].Some? ==> w.made[x.idx].value < j.total)
    && var e := Decode(w.sys.subs[0].fetched[x.idx], x.lists, j.io.bpp);
       if w.made[x.idx].Some? then Sends(e, j, w.made[x.idx].value) else e == Flushed(j.io.nsid)
  }

  /** The effect moves transfer i's pages and blocks, in its own direction. */
  ghost predicate Sends(e: Effect, j: Load, i: nat)
    requires i < j.total && Sendable(j)
  {
    var t := j.transfers[i].tile;
    && e.Moved? && e.toDisk == j.transfers[i].write && e.nsid == j.io.nsid
    && Number(e.block) == t.startBlock && e.blocks == t.nBlocks
    && t.first + t.pages <= |j.io.buf| && e.addrs == j.io.buf[t.first..t.first + t.pages]
  }

  lemma MeantSends(j: Load, i: nat)
    requires Sendable(j) && i < j.total
    ensures Fitting(j, Some(i)) && Sends(Meant(j, Some(i)), j, i)
  {
    NumberReads(j.transfers[i].tile.startBlock);
  }

  /** Each repetition's transfers in order, then its flush. */
  function Commands(rep: nat, from: nat, total: nat): seq<Option<nat>> {
    if from > 0 then Commands(rep, from - 1, total) + [Some(from - 1)]
    else if rep > 0 then Commands(rep - 1, total, total) + [None]
    else []
  }

  /** What has been made: the flush of this repetition is counted once it is issued. */
  ghost predicate InTurn(w: Sender, j: Load) {
    w.made == Commands(w.rep, w.from, j.total) + (if FlushIssued(w.at) == 1 then [None] else [])
  }

  lemma CommandsStep(rep: nat, from: nat, total: nat)
    ensures Commands(rep, from + 1, total) == Commands(rep, from, total) + [Some(from)]
    ensures Commands(rep + 1, 0, total) == Commands(rep, total, total) + [None]
  {}

  lemma TurnStep(w: Sender, a: Act, j: Load, w': Sender)
    requires WindowInv(w, j) && InTurn(w, j) && Step(w, a, j, w') && w'.at != Thrown
    ensures InTurn(w', j)
  {
    hide Inv, Sent, PrpPages, Takes, Frees, Makes, Commands, Count;
    CommandsStep(w.rep, w.from, j.total);
  }

  lemma {:induction false} RunInTurn(ws: seq<Sender>, acts: seq<Act>, j: Load, i: nat)
    requires Behaviour(ws, acts, j) && i < |ws| && Window.Fits(j, ws[0].sys.subs[0].d.size)
    ensures InTurn(ws[i], j)
  {
    hide WindowInv, Step;
    if i > 0 {
      RunInTurn(ws, acts, j, i - 1);
      BehaviourKeepsWindow(ws, acts, j, i - 1);
      BehaviourKeepsWindow(ws, acts, j, i);
      NotThrown(ws[i], j);
      assert Step(ws[i - 1], acts[i - 1], j, ws[i]);
      TurnStep(ws[i - 1], acts[i - 1], j, ws[i]);
    }
  }

  /**
   * Every transfer is carried out as often as it is sent, whatever order the controller completes
   * commands in and whenever it reads their lists: in every run of a job that fits the ring and
   * whose transfers each fit one command, each executed command moved the pages and blocks of the
   * transfer it was made for, in that transfer's direction, or flushed; the transfers made are those
   * sent, in order, with one flush after each repetition; and at the end of every window and flush each command
   * has been executed exactly once.
   */
  lemma SendsCarriedOut(ws: seq<Sender>, acts: seq<Act>, j: Load)
    requires Sendable(j) && Behaviour(ws, acts, j) && Window.Fits(j, ws[0].sys.subs[0].d.size)
    ensures var w := ws[|acts|];
            && (forall x <- w.sys.comp.log :: Did(w, j, x)) && Distinct(w.sys.comp.log)
            && Transfers(w.made) == Indices(w.sent) && InTurn(w, j)
            && (Boundary(w) ==> forall k: nat | k < |w.made| :: Completed(w.sys.comp.log, 0, k))
            && (w.at == Finished ==> Transfers(w.made) == Indices(Sent(j.reps, 0, j.total)) && w.made == Commands(j.reps, 0, j.total))
  {
    hide Sound, Start, Step, WindowInv, Sendable;
    WindowsSend(ws, acts, j);
    BehaviourKeepsWindow(ws, acts, j, |acts|);
    BehaviourSound(ws, acts, j, |acts|);
    MadeIsSent(ws, acts, j, |acts|);
    RunInTurn(ws, acts, j, |acts|);
    if ws[|acts|].at == Finished { FinishedInTurn(ws[|acts|], j); }
    AsFetched(ws[|acts|], j);
    if Boundary(ws[|acts|]) { AllCompleted(ws[|acts|], j); }
  }

  lemma FinishedInTurn(w: Sender, j: Load)
    requires WindowInv(w, j) && InTurn(w, j) && w.at == Finished
    ensures w.made == Commands(j.reps, 0, j.total)
  {}

  lemma AsFetched(w: Sender, j: Load)
    requires WindowInv(w, j) && Sound(w, j)
    ensures forall x <- w.sys.comp.log :: Did(w, j, x)
    ensures Distinct(w.sys.comp.log)
  {
    hide Executed, Did, Decode, Sent, PrpPages, Pending, Numbered, Outstanding;
    var b, c := w.sys.subs[0], w.sys.comp;
    assert Safety.Fits(b, c, 0);
    forall x <- c.log ensures Did(w, j, x) {
      assert Executed(w, j, x);
      var i :| 0 <= i < |c.log| && c.log[i] == x;
      assert Reports(w.sys.subs, c.posted[i], c.log[i]);
      RecordDid(w, j, x);
    }
  }

  lemma RecordDid(w: Sender, j: Load, x: Exec)
    requires |w.sys.subs| == 1 && |w.made| == |w.sys.subs[0].issued| && Executed(w, j, x)
    requires var b := w.sys.subs[0]; x.idx < |b.fetched| <= |b.issued| && b.fetched == b.issued[..|b.fetched|]
    ensures Did(w, j, x)
  {
    hide Sendable, Decode, Meant, Sends;
    var what := w.made[x.idx];
    if what.Some? { MeantSends(j, what.value); } else { MeantFlush(j); }
  }

  lemma MeantFlush(j: Load)
    requires Sendable(j)
    ensures Fitting(j, None) && Meant(j, None) == Flushed(j.io.nsid)
  {}

  lemma AllCompleted(w: Sender, j: Load)
    requires WindowInv(w, j) && Boundary(w)
    ensures forall k: nat | k < |w.made| :: Completed(w.sys.comp.log, 0, k)
  {
    hide Sent, PrpPages, Sendable;
    BoundaryQuiet(w, j);
    assert Safety.Fits(w.sys.subs[0], w.sys.comp, 0);
  }
}
