/** The commands of benchmarks/latency/main.cu: sendWindow() and flush() building in the slot just taken. */
module WindowJobs {
  import opened Wrappers
  import opened Command
  import opened Protocol
  import opened Safety
  import opened Jobs
  import opened Tiling
  import Transfer

  /** struct Transfer: a direction, buffer pages and blocks. */
  datatype Send = Send(write: bool, tile: Tile)

  /**
   * A transfer list sent `reps` times in windows of at most `depth`. `io` holds what every command
   * shares; `prp` is queue memory by page, the queue itself first and then a PRP page for each
   * command of a window (benchmarks/latency/queue.cc:36-43).
   */
  datatype Load = Load(depth: nat, transfers: seq<Send>, reps: nat, io: Io, prp: seq<Address>) {
    const total: nat := |transfers|
  }

  function IoOf(j: Load, i: nat): Io
    requires i < j.total
  {
    j.io.(write := j.transfers[i].write)
  }

  /** Queue memory has a page for the queue and one for each command of a window. */
  predicate Laid(j: Load) { |j.prp| == j.depth + 1 }

  /** Command `what` is one a list page and a block count can express; a flush always is. */
  ghost predicate Fitting(j: Load, what: Option<nat>) {
    IoOk(j.io) && (what.Some? ==> what.value < j.total && JobFits(Rw(j.transfers[what.value].tile), IoOf(j, what.value)))
  }

  /** Every transfer is such a command, and the PRP pages have addresses of their own. */
  ghost predicate Sendable(j: Load) {
    && IoOk(j.io) && Laid(j)
    && (forall x, y | 0 <= x < y < |j.prp| :: j.prp[x] != j.prp[y])
    && (forall i: nat | i < j.total :: JobFits(Rw(j.transfers[i].tile), IoOf(j, i)))
  }

  ghost predicate PrpPages(j: Load, lists: Lists) {
    forall x | 0 <= x < |j.prp| :: j.prp[x] in lists && j.io.pageSize / 8 <= |lists[j.prp[x]]|
  }

  /** The command in place of w: a transfer with its list page, or the flush, which leaves the block fields alone. */
  function CommandFor(w: Words, j: Load, what: Option<nat>, addr: Address): Words
    requires Fitting(j, what)
  {
    match what
    case Some(i) => BuildCommand(w, Rw(j.transfers[i].tile), IoOf(j, i), addr)
    case None => DataPtr(Header(w, NVM_IO_FLUSH, j.io.nsid), ZERO, ZERO)
  }

  function ListFor(page: seq<Address>, j: Load, what: Option<nat>): seq<Address>
    requires Fitting(j, what)
    requires |page| >= j.io.pageSize / 8
  {
    match what
    case Some(i) => BuildList(page, Rw(j.transfers[i].tile), IoOf(j, i))
    case None => page
  }

  /** What a controller makes of it. */
  function Meant(j: Load, what: Option<nat>): Effect
    requires Fitting(j, what)
  {
    match what
    case Some(i) => Intended(Rw(j.transfers[i].tile), IoOf(j, i))
    case None => Flushed(j.io.nsid)
  }

  /** The PRP page of the command at place `num` of its window; the flush has none and rewrites none. */
  function PageFor(what: Option<nat>, num: nat): nat { if what.Some? then 1 + num else 0 }

  /** A slot taken, and transfer `what` (or the flush) built in it as command `num` of its window. */
  ghost predicate Makes(s: State, j: Load, what: Option<nat>, num: nat, s': State) {
    Shaped(s) && Enabled(s, Enqueue(0)) && Places(Apply(s, Enqueue(0)), j, what, num, s')
  }

  ghost predicate Placeable(s1: State, j: Load, what: Option<nat>, num: nat) {
    && Shaped(s1) && |s1.subs| == 1 && |s1.subs[0].issued| > 0
    && PageFor(what, num) < |j.prp| && (what.Some? ==> what.value < j.total)
    && var addr, lists := j.prp[PageFor(what, num)], s1.subs[0].lists;
    && addr in lists && j.io.pageSize / 8 <= |lists[addr]|
  }

  /**
   * What is left in place of w and of the list page: what the builders build, if the command fits;
   * otherwise anything that keeps the identifier and stays within the page.
   */
  ghost predicate Leaves(j: Load, what: Option<nat>, addr: Address, w: Words, page: seq<Address>, cmd: Words, list: seq<Address>) {
    && Cid(cmd) == Cid(w) && |list| == |page|
    && (Fitting(j, what) && |page| >= j.io.pageSize / 8 ==> cmd == CommandFor(w, j, what, addr) && list == ListFor(page, j, what))
  }

  ghost predicate Places(s1: State, j: Load, what: Option<nat>, num: nat, s': State) {
    Placeable(s1, j, what, num) && exists cmd, list :: Placed(s1, j, what, num, cmd, list, s')
  }

  ghost predicate Placed(s1: State, j: Load, what: Option<nat>, num: nat, cmd: Words, list: seq<Address>, s': State)
    requires Placeable(s1, j, what, num)
  {
    var b, k, addr := s1.subs[0], |s1.subs[0].issued| - 1, j.prp[PageFor(what, num)];
    Leaves(j, what, addr, b.issued[k], b.lists[addr], cmd, list) && Transfer.Takes(s1, Build(0, k, cmd, addr, list), s')
  }

  /** Whatever is asked for, the builders leave something of that kind. */
  lemma LeavesSomething(j: Load, what: Option<nat>, addr: Address, w: Words, page: seq<Address>) returns (cmd: Words, list: seq<Address>)
    ensures Leaves(j, what, addr, w, page, cmd, list)
  {
    if Fitting(j, what) && |page| >= j.io.pageSize / 8 {
      cmd, list := CommandFor(w, j, what, addr), ListFor(page, j, what);
      match what
      case Some(i) => BuildCid(w, Rw(j.transfers[i].tile), IoOf(j, i), addr);
      case None =>
        HeaderReads(w, NVM_IO_FLUSH, j.io.nsid);
        DataPtrReads(Header(w, NVM_IO_FLUSH, j.io.nsid), ZERO, ZERO);
    } else {
      cmd, list := w, page;
    }
  }

  /** What making a command changes: one more command, and its own list page. */
  ghost predicate Made(b: Sub, b': Sub, j: Load, what: Option<nat>, num: nat, w: Words, cmd: Words, list: seq<Address>) {
    && PageFor(what, num) < |j.prp| && (what.Some? ==> what.value < j.total)
    && var addr := j.prp[PageFor(what, num)];
    && addr in b.lists && j.io.pageSize / 8 <= |b.lists[addr]| && Leaves(j, what, addr, w, b.lists[addr], cmd, list)
    && b'.issued == b.issued + [cmd] && b'.lists == b.lists[addr := list]
    && b'.fetched == b.fetched && b'.open == b.open && b'.sub == b.sub && b'.upd == b.upd
    && b'.d.head == b.d.head && b'.d.size == b.d.size
  }

  lemma MakesEffect(s: State, j: Load, what: Option<nat>, num: nat, s': State) returns (w: Words, cmd: Words, list: seq<Address>)
    requires Inv(s) && |s.subs| == 1 && Makes(s, j, what, num, s')
    ensures Inv(s') && |s'.subs| == 1 && s'.comp == s.comp
    ensures Made(s.subs[0], s'.subs[0], j, what, num, w, cmd, list)
  {
    hide Inv, Leaves;
    StepKeeps(s, Enqueue(0));
    var s1 := Apply(s, Enqueue(0));
    cmd, list :| Placed(s1, j, what, num, cmd, list, s');
    w := s1.subs[0].issued[|s1.subs[0].issued| - 1];
    StepKeeps(s1, Build(0, |s1.subs[0].issued| - 1, cmd, j.prp[PageFor(what, num)], list));
  }

  lemma MadePages(b: Sub, b': Sub, j: Load, what: Option<nat>, num: nat, w: Words, cmd: Words, list: seq<Address>)
    requires Made(b, b', j, what, num, w, cmd, list) && PrpPages(j, b.lists)
    ensures PrpPages(j, b'.lists)
  {}

  lemma SubmittedBound(s: State)
    requires Inv(s) && |s.subs| == 1
    ensures s.subs[0].sub <= |s.subs[0].issued|
  {
    assert Safety.Fits(s.subs[0], s.comp, 0);
  }

  /**
   * The entry of transfer i as command `num` of its window: its own direction, pages and blocks, and
   * beyond two pages the PRP page after the queue's own and those of the commands before it.
   */
  lemma SendLayout(w: Words, j: Load, i: nat, num: nat)
    requires Fitting(j, Some(i)) && PageFor(Some(i), num) < |j.prp|
    ensures num + 1 < |j.prp|
    ensures var r, t := CommandFor(w, j, Some(i), j.prp[PageFor(Some(i), num)]), j.transfers[i].tile;
            && Word(r[0]) == Word(w[0]) / 0x1_0000 * 0x1_0000 + (if j.transfers[i].write then 1 else 2) && r[1] == j.io.nsid
            && Qword(r[7], r[6]) == j.io.buf[t.first] && (t.pages > 2 ==> Qword(r[9], r[8]) == j.prp[num + 1])
            && Word(r[11]) * 0x1_0000_0000 + Word(r[10]) == t.startBlock
            && Word(r[12]) == Word(w[12]) / 0x1_0000 * 0x1_0000 + (t.nBlocks - 1)
  {
    hide BuildCommand;
    RwLayout(w, j.transfers[i].tile, IoOf(j, i), j.prp[PageFor(Some(i), num)]);
  }

  /** A free slot can be built in. */
  lemma MakesPossible(s: State, j: Load, what: Option<nat>, num: nat) returns (s': State)
    requires Inv(s) && |s.subs| == 1 && Shaped(s) && Enabled(s, Enqueue(0)) && PrpPages(j, s.subs[0].lists)
    requires PageFor(what, num) < |j.prp| && (what.Some? ==> what.value < j.total)
    ensures Makes(s, j, what, num, s')
  {
    hide Inv;
    StepKeeps(s, Enqueue(0));
    var s1 := Apply(s, Enqueue(0));
    ShapedByInv(s1);
    SubmittedBound(s);
    var b, k, addr := s1.subs[0], |s1.subs[0].issued| - 1, j.prp[PageFor(what, num)];
    var cmd, list := LeavesSomething(j, what, addr, b.issued[k], b.lists[addr]);
    hide Leaves;
    s' := Apply(s1, Build(0, k, cmd, addr, list));
    assert Placed(s1, j, what, num, cmd, list, s');
  }
}
