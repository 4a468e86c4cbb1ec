/** What every run of the ring protocol keeps, and what follows for the driver. */
module Safety {
  import opened Modular
  import opened Ring
  import opened Command
  import opened Protocol

  /** A size the driver's full test can handle; the controller was told the same number. */
  ghost predicate GoodSize(n: nat) { 2 <= n < HALF && DividesWord(n) }

  // ---------------------------------------------------------------- the invariant

  /** The index of a completion entry decides its phase tag: even laps post `true`. */
  ghost predicate Tagged(c: Comp)
    requires c.d.size > 0
  {
    forall k | 0 <= k < |c.posted| :: c.posted[k].tag == EvenLap(k, c.d.size)
  }

  /** What completion slot Slot(k) holds for the last lap of indices ending before |posted| + size. */
  ghost predicate Window(c: Comp)
    requires c.d.size > 0 && |c.slots| == c.d.size
  {
    && (forall k | 0 <= k < |c.posted| <= k + c.d.size :: c.slots[Slot(k, c.d.size)] == c.posted[k])
    && (forall k | |c.posted| <= k < c.d.size :: !c.slots[k].tag)
  }

  ghost predicate CompInv(c: Comp) {
    && 2 <= c.d.size == c.devSize && |c.slots| == c.d.size
    && c.ack <= c.deq <= |c.posted| <= c.ack + c.d.size - 1
    && CqTracks(c.d, c.deq, c.ack)
    && c.db == Slot(c.ack, c.d.size)
    && c.devTail == Slot(|c.posted|, c.d.size) && c.devPhase == EvenLap(|c.posted|, c.d.size)
    && |c.log| == |c.posted|
    && Tagged(c) && Window(c)
  }

  /** Commands the controller has yet to fetch still sit in their slots, as issued. */
  ghost predicate Pending(b: Sub)
    requires b.d.size > 0 && |b.slots| == b.d.size
  {
    forall k {:trigger b.issued[k]} | |b.fetched| <= k < |b.issued| :: b.slots[Slot(k, b.d.size)] == b.issued[k]
  }

  /** The k-th command handed out carries identifier (k + 1) mod 2*size. */
  ghost predicate Numbered(b: Sub)
    requires b.d.size > 0
  {
    forall k {:trigger b.issued[k]} | 0 <= k < |b.issued| :: Cid(b.issued[k]) == Slot(k + 1, 2 * b.d.size) % HALF
  }

  /** Fields and doorbell as residues of the counters, and the counters in order within one lap. */
  ghost predicate Counters(b: Sub) {
    && GoodSize(b.d.size) && b.d.size == b.devSize && |b.slots| == b.d.size
    && b.upd <= |b.fetched| <= b.sub <= |b.issued| <= b.upd + b.d.size - 1
    && SqTracks(b.d, |b.issued|, b.sub, b.upd)
    && b.db == Slot(b.sub, b.d.size) && b.devHead == Slot(|b.fetched|, b.d.size)
  }

  ghost predicate SubInv(b: Sub) {
    Counters(b) && b.fetched <= b.issued && Pending(b) && Numbered(b)
  }

  ghost predicate Completed(log: seq<Exec>, q: nat, i: nat) {
    exists j :: 0 <= j < |log| && log[j].q == q && log[j].idx == i
  }

  /** Conservation: each fetched command is open or completed, never both, and is counted once. */
  ghost predicate Link(b: Sub, c: Comp, q: nat)
    requires c.deq <= |c.posted|
  {
    && Count(c.posted, q) + |b.open| == |b.fetched|
    && b.upd <= Count(c.posted[..c.deq], q)
    && (forall i: nat :: i in b.open <==> i < |b.fetched| && !Completed(c.log, q, i))
    && (forall j | 0 <= j < |c.log| && c.log[j].q == q :: c.log[j].idx < |b.fetched|)
  }

  /** Entry j reports the completion of the command its log record names, under its identifier. */
  ghost predicate Reports(subs: seq<Sub>, e: Completion, x: Exec) {
    && x.q < |subs| && e.sqid == x.q
    && x.idx < |subs[x.q].fetched| && e.cid == Cid(subs[x.q].fetched[x.idx])
  }

  ghost predicate Logged(subs: seq<Sub>, c: Comp)
    requires |c.log| == |c.posted|
  {
    forall j | 0 <= j < |c.log| :: Reports(subs, c.posted[j], c.log[j])
  }

  /** No command completes twice. */
  ghost predicate Distinct(log: seq<Exec>) {
    forall i, j | 0 <= i < j < |log| :: log[i].q != log[j].q || log[i].idx != log[j].idx
  }

  ghost predicate Fits(b: Sub, c: Comp, q: nat) {
    SubInv(b) && c.deq <= |c.posted| && Link(b, c, q)
  }

  ghost predicate Inv(s: State) {
    && CompInv(s.comp)
    && (forall q {:trigger Fits(s.subs[q], s.comp, q)} | 0 <= q < |s.subs| :: Fits(s.subs[q], s.comp, q))
    && Logged(s.subs, s.comp) && Distinct(s.comp.log)
  }

  // ---------------------------------------------------------------- preservation, step by step

  /** Storing item k of a window touches no other item's slot. */
  lemma OtherSlots(lo: nat, k: nat, hi: nat, n: nat)
    requires 0 < n && lo <= k < hi <= lo + n
    ensures forall j | lo <= j < hi && j != k :: Slot(j, n) != Slot(k, n)
  {
    forall j | lo <= j < hi && j != k ensures Slot(j, n) != Slot(k, n) {
      SlotDistance(if j < k then j else k, if j < k then k else j, n);
    }
  }

  lemma CountStep(s: seq<Completion>, e: Completion, q: nat)
    ensures Count(s + [e], q) == Count(s, q) + (if e.sqid == q then 1 else 0)
  {
    assert (s + [e])[..|s|] == s;
  }

  lemma {:induction false} CountPrefix(s: seq<Completion>, k: nat, q: nat)
    requires k <= |s|
    ensures Count(s[..k], q) <= Count(s, q)
  {
    if k < |s| {
      CountPrefix(s[..|s| - 1], k, q);
      assert s[..|s| - 1][..k] == s[..k];
    } else {
      assert s[..k] == s;
    }
  }

  lemma EnqueueCounters(b: Sub)
    requires Counters(b) && !Full(b.d)
    ensures Counters(SubEnqueue(b))
    ensures CommandId(Ring.Enqueue(b.d)) == Slot(|b.issued| + 1, 2 * b.d.size) % HALF
  {
    SqByCounters(b.d, |b.issued|, b.sub, b.upd);
  }

  lemma EnqueueKeeps(b: Sub)
    requires SubInv(b) && !Full(b.d)
    ensures SubInv(SubEnqueue(b))
  {
    EnqueueCounters(b);
    CidReads(b.slots[b.d.tail], CommandId(Ring.Enqueue(b.d)));
    OtherSlots(b.upd, |b.issued|, |b.issued| + 1, b.d.size);
    var b' := SubEnqueue(b);
    assert forall k | 0 <= k < |b.issued| :: b'.issued[k] == b.issued[k];
    assert Pending(b') && Numbered(b');
  }

  lemma BuildKeeps(b: Sub, k: nat, cmd: Words, addr: Address, list: seq<Address>)
    requires SubInv(b) && b.sub <= k < |b.issued| && Cid(cmd) == Cid(b.issued[k])
    ensures SubInv(SubBuild(b, k, cmd, addr, list))
  {
    OtherSlots(b.upd, k, |b.issued|, b.d.size);
  }

  lemma SubmitKeeps(b: Sub)
    requires SubInv(b)
    ensures SubInv(SubSubmit(b)) && SubSubmit(b).sub == |b.issued|
  {
    SqByCounters(b.d, |b.issued|, b.sub, b.upd);
  }

  /** The doorbell differs from the controller's position exactly when a submitted command is unfetched. */
  lemma FetchGuard(b: Sub)
    requires Counters(b)
    ensures b.devHead != b.db <==> |b.fetched| < b.sub
    ensures b.devHead != b.db ==> Counters(SubFetch(b))
  {
    SlotDistance(|b.fetched|, b.sub, b.d.size);
    NextSlot(|b.fetched|, b.d.size);
  }

  /** What the controller fetches is the next issued command. */
  lemma FetchKeeps(b: Sub)
    requires SubInv(b) && b.devHead != b.db
    ensures SubInv(SubFetch(b))
  {
    FetchGuard(b);
    var f := |b.fetched|;
    assert b.slots[Slot(f, b.d.size)] == b.issued[f];
    assert SubFetch(b).fetched == b.issued[..f + 1];
  }

  /** The controller's full test on residues is the true distance to the last acknowledged entry. */
  lemma PostGuard(c: Comp)
    requires CompInv(c)
    ensures Succ(c.devTail, c.devSize) != c.db <==> |c.posted| < c.ack + c.d.size - 1
  {
    var n, p := c.d.size, |c.posted|;
    NextSlot(p, n);
    if p + 1 < c.ack + n { SlotDistance(c.ack, p + 1, n); } else { OneLap(c.ack, n); }
  }

  lemma PostWindow(c: Comp, q: nat, i: nat, cid: nat, lists: Lists)
    requires CompInv(c) && |c.posted| < c.ack + c.d.size - 1
    ensures Window(CompPost(c, q, i, cid, lists))
  {
    var n, p := c.d.size, |c.posted|;
    OtherSlots(if p < n then 0 else p + 1 - n, p, if p < n then n else p + 1, n);
    var c' := CompPost(c, q, i, cid, lists);
    forall k | 0 <= k < p + 1 <= k + n ensures c'.slots[Slot(k, n)] == c'.posted[k] {
      if k < p { assert c.slots[Slot(k, n)] == c.posted[k]; }
    }
    forall k | p + 1 <= k < n ensures !c'.slots[k].tag { assert Slot(k, n) == k; }
  }

  lemma PostKeeps(c: Comp, q: nat, i: nat, cid: nat, lists: Lists)
    requires CompInv(c) && |c.posted| < c.ack + c.d.size - 1
    ensures CompInv(CompPost(c, q, i, cid, lists))
  {
    hide Window;
    NextSlot(|c.posted|, c.d.size);
    PostWindow(c, q, i, cid, lists);
    assert Tagged(CompPost(c, q, i, cid, lists));
  }

  /** One head update per dequeued completion never passes what the controller has fetched. */
  lemma HeadKeeps(b: Sub, c: Comp, q: nat)
    requires SubInv(b) && c.deq <= |c.posted| && Link(b, c, q)
    ensures b.d.head < b.d.size && b.upd < Count(c.posted[..c.deq], q) ==>
              SubInv(b.(d := HeadIncrement(b.d), upd := b.upd + 1))
    ensures SubInv(b.(d := Ring.HeadWrap(b.d)))
  {
    HeadByCounters(b.d, |b.issued|, b.sub, b.upd);
    CountPrefix(c.posted, c.deq, q);
  }

  /** The phase tag at the head tells an unread entry from a stale one. */
  lemma DequeueKeeps(c: Comp)
    requires CompInv(c)
    ensures c.slots[c.d.head].tag == c.d.phase <==> c.deq < |c.posted|
    ensures c.deq < |c.posted| ==>
              c.slots[c.d.head] == c.posted[c.deq] && CompInv(CompDequeue(c))
  {
    var n := c.d.size;
    CqByCounters(c.d, c.deq, c.ack);
    if c.deq == |c.posted| && c.deq >= n {
      OneLap(c.deq - n, n);
      assert c.slots[Slot(c.deq - n, n)] == c.posted[c.deq - n];
    } else if c.deq < |c.posted| {
      assert c.slots[Slot(c.deq, n)] == c.posted[c.deq];
    }
  }

  lemma AckKeeps(c: Comp)
    requires CompInv(c)
    ensures CompInv(CompAck(c)) && CompAck(c).ack == c.deq
  {
    CqByCounters(c.d, c.deq, c.ack);
  }

  // ---------------------------------------------------------------- the whole system

  lemma ShapedByInv(s: State)
    requires Inv(s)
    ensures Shaped(s)
  {
    forall q | 0 <= q < |s.subs| ensures SubInv(s.subs[q]) { assert Fits(s.subs[q], s.comp, q); }
  }

  lemma LoggedKeeps(subs: seq<Sub>, subs': seq<Sub>, c: Comp)
    requires |c.log| == |c.posted| && Logged(subs, c) && |subs'| == |subs|
    requires forall r | 0 <= r < |subs| :: subs[r].fetched <= subs'[r].fetched
    ensures Logged(subs', c)
  {
    forall j | 0 <= j < |c.log| ensures Reports(subs', c.posted[j], c.log[j]) {
      assert Reports(subs, c.posted[j], c.log[j]);
      var x := c.log[j];
      assert subs[x.q].fetched <= subs'[x.q].fetched;
    }
  }

  /** A step inside one submission queue. */
  lemma SubStepKeeps(s: State, q: nat, b: Sub)
    requires Inv(s) && q < |s.subs| && Fits(b, s.comp, q) && s.subs[q].fetched <= b.fetched
    ensures Inv(s.(subs := s.subs[q := b]))
  {
    var t := s.(subs := s.subs[q := b]);
    forall r | 0 <= r < |t.subs| ensures Fits(t.subs[r], t.comp, r) { assert Fits(s.subs[r], s.comp, r); }
    LoggedKeeps(s.subs, t.subs, s.comp);
  }

  lemma NotYetCompleted(b: Sub, c: Comp, q: nat)
    requires c.deq <= |c.posted| && Link(b, c, q)
    ensures !Completed(c.log, q, |b.fetched|) && |b.fetched| !in b.open
  {}

  lemma OneMore(open: map<nat, Lists>, i: nat, lists: Lists)
    requires i !in open
    ensures |open[i := lists]| == |open| + 1 && open[i := lists].Keys == open.Keys + {i}
  {
    assert open[i := lists].Keys == open.Keys + {i};
    assert |open[i := lists].Keys| == |open.Keys| + 1;
  }

  /** Fetching opens one command of q: the counts still add up. */
  lemma FetchLink(b: Sub, c: Comp, q: nat)
    requires SubShaped(b) && c.deq <= |c.posted| && Link(b, c, q) && b.devHead != b.db
    ensures Link(SubFetch(b), c, q)
  {
    hide Completed, Count, Cid;
    var b' := SubFetch(b);
    NotYetCompleted(b, c, q);
    OneMore(b.open, |b.fetched|, b.lists);
  }

  lemma RereadKeeps(b: Sub, i: nat)
    requires i in b.open
    ensures b.open[i := b.lists].Keys == b.open.Keys && |b.open[i := b.lists]| == |b.open|
  {
    assert |b.open[i := b.lists].Keys| == |b.open.Keys|;
  }

  lemma CompletedStep(log: seq<Exec>, x: Exec, q: nat, i: nat)
    ensures Completed(log + [x], q, i) <==> Completed(log, q, i) || (x.q == q && x.idx == i)
  {
    var log' := log + [x];
    if Completed(log, q, i) {
      var j :| 0 <= j < |log| && log[j].q == q && log[j].idx == i;
      assert log'[j] == log[j];
    }
    if x.q == q && x.idx == i { assert log'[|log|] == x; }
  }

  /** Posting the completion of (q, i) moves one command of q from open to completed, and no other. */
  lemma PostLink(b: Sub, c: Comp, r: nat, q: nat, i: nat, cid: nat, lists: Lists)
    requires CompShaped(c) && Link(b, c, r) && (r == q ==> i in b.open)
    ensures Link(if r == q then SubPost(b, i) else b, CompPost(c, q, i, cid, lists), r)
  {
    var c' := CompPost(c, q, i, cid, lists);
    assert c'.posted[..c'.deq] == c.posted[..c.deq];
    CountStep(c.posted, Completion(q, cid, c.devPhase), r);
    forall k: nat ensures Completed(c'.log, r, k) <==> Completed(c.log, r, k) || (q == r && i == k) {
      CompletedStep(c.log, Exec(q, i, lists), r, k);
    }
    if r == q {
      var b' := SubPost(b, i);
      assert b'.open.Keys == b.open.Keys - {i};
      assert |b'.open.Keys| == |b.open.Keys| - 1;
    }
  }

  lemma PostLogged(subs: seq<Sub>, c: Comp, q: nat, i: nat, lists: Lists)
    requires CompInv(c) && Logged(subs, c) && Distinct(c.log)
    requires q < |subs| && i < |subs[q].fetched| && !Completed(c.log, q, i)
    ensures Logged(subs, CompPost(c, q, i, Cid(subs[q].fetched[i]), lists))
    ensures Distinct(CompPost(c, q, i, Cid(subs[q].fetched[i]), lists).log)
  {
    assert forall j | 0 <= j < |c.log| :: c.log[j].q != q || c.log[j].idx != i;
    forall j | 0 <= j < |c.log| ensures Reports(subs, c.posted[j], c.log[j]) {}
  }

  lemma PostStepKeeps(s: State, q: nat, i: nat)
    requires Inv(s) && q < |s.subs| && i in s.subs[q].open && |s.comp.posted| < s.comp.ack + s.comp.d.size - 1
    ensures Shaped(s) && Enabled(s, Post(q, i)) && Inv(Apply(s, Post(q, i)))
  {
    hide SubInv, Logged, Distinct;
    ShapedByInv(s);
    PostGuard(s.comp);
    var b, c := s.subs[q], s.comp;
    assert Fits(b, c, q);
    var t := Apply(s, Post(q, i));
    PostKeeps(c, q, i, Cid(b.fetched[i]), b.open[i]);
    forall r | 0 <= r < |t.subs| ensures Fits(t.subs[r], t.comp, r) {
      assert Fits(s.subs[r], c, r);
      PostLink(s.subs[r], c, r, q, i, Cid(b.fetched[i]), b.open[i]);
      if r == q { PostSubInv(b, i); }
    }
    PostLogged(s.subs, c, q, i, b.open[i]);
    LoggedKeeps(s.subs, t.subs, t.comp);
  }

  lemma PostSubInv(b: Sub, i: nat)
    requires SubInv(b)
    ensures SubInv(SubPost(b, i))
  {}

  lemma DequeuedBound(c: Comp)
    requires CompInv(c)
    ensures c.deq <= |c.posted|
  {}

  lemma CompStepKeeps(s: State, c: Comp)
    requires Inv(s) && CompInv(c)
    requires c.posted == s.comp.posted && c.log == s.comp.log && c.deq >= s.comp.deq
    ensures Inv(s.(comp := c))
  {
    hide SubInv, CompInv, Count, Completed, Distinct;
    DequeuedBound(c);
    forall q | 0 <= q < |s.subs| ensures Fits(s.subs[q], c, q) {
      assert Fits(s.subs[q], s.comp, q);
      CountPrefix(c.posted[..c.deq], s.comp.deq, q);
      assert c.posted[..c.deq][..s.comp.deq] == c.posted[..s.comp.deq];
    }
  }

  /** Every guard, stated by residues, flags and tags, is a comparison of counters. */
  ghost predicate CounterGuard(s: State, e: Event)
    requires s.comp.deq <= |s.comp.posted|
  {
    match e
    case Enqueue(q) => q < |s.subs| && |s.subs[q].issued| - s.subs[q].upd < s.subs[q].d.size - 1
    case Build(q, k, cmd, _, _) =>
      q < |s.subs| && s.subs[q].sub <= k < |s.subs[q].issued| && Cid(cmd) == Cid(s.subs[q].issued[k])
    case Submit(q) => q < |s.subs|
    case Fetch(q) => q < |s.subs| && |s.subs[q].fetched| < s.subs[q].sub
    case Reread(q, i) => q < |s.subs| && i in s.subs[q].open
    case Post(q, i) => q < |s.subs| && i in s.subs[q].open && |s.comp.posted| - s.comp.ack < s.comp.d.size - 1
    case Dequeue => s.comp.deq < |s.comp.posted|
    case HeadUp(q) =>
      q < |s.subs| && s.subs[q].d.head < s.subs[q].d.size && s.subs[q].upd < Count(s.comp.posted[..s.comp.deq], q)
    case HeadWrap(q) => q < |s.subs| && s.subs[q].d.head == s.subs[q].d.size
    case Ack => true
  }

  lemma GuardsByCounters(s: State, e: Event)
    requires Inv(s)
    ensures Shaped(s) && (Enabled(s, e) <==> CounterGuard(s, e))
  {
    ShapedByInv(s);
    match e
    case Enqueue(q) =>
      if q < |s.subs| {
        var b := s.subs[q];
        assert Fits(b, s.comp, q);
        SqByCounters(b.d, |b.issued|, b.sub, b.upd);
      }
    case Fetch(q) => if q < |s.subs| { assert Fits(s.subs[q], s.comp, q); FetchGuard(s.subs[q]); }
    case Post(q, i) => PostGuard(s.comp); if q < |s.subs| { assert Fits(s.subs[q], s.comp, q); }
    case Dequeue => DequeueKeeps(s.comp);
    case _ =>
  }

  lemma RereadSubInv(b: Sub, i: nat)
    requires SubInv(b) && i in b.open
    ensures SubInv(b.(open := b.open[i := b.lists]))
  {}

  lemma SubAfterInv(b: Sub, c: Comp, e: Event)
    requires SubEvent(e) && CompInv(c) && Fits(b, c, e.q) && SubEnabled(b, c, e)
    ensures SubInv(SubAfter(b, c, e)) && b.fetched <= SubAfter(b, c, e).fetched
  {
    hide CompInv, Pending, Numbered;
    match e
    case Enqueue(_) => EnqueueKeeps(b);
    case Build(_, k, cmd, addr, list) => BuildKeeps(b, k, cmd, addr, list);
    case Submit(_) => SubmitKeeps(b);
    case Fetch(_) => FetchKeeps(b);
    case Reread(_, i) => RereadSubInv(b, i);
    case HeadUp(q) => HeadKeeps(b, c, q);
    case HeadWrap(q) => HeadKeeps(b, c, q);
  }

  lemma SubAfterLink(b: Sub, c: Comp, e: Event)
    requires SubEvent(e) && SubShaped(b) && CompShaped(c) && Link(b, c, e.q) && SubEnabled(b, c, e)
    ensures Link(SubAfter(b, c, e), c, e.q)
  {
    if e.Fetch? { FetchLink(b, c, e.q); }
    if e.Reread? { RereadKeeps(b, e.i); }
  }

  lemma StepKeeps(s: State, e: Event)
    requires Inv(s) && Shaped(s) && Enabled(s, e)
    ensures Inv(Apply(s, e))
  {
    hide CompInv, SubInv, Link, Logged, Distinct;
    GuardsByCounters(s, e);
    if SubEvent(e) {
      assert Fits(s.subs[e.q], s.comp, e.q);
      SubAfterInv(s.subs[e.q], s.comp, e);
      SubAfterLink(s.subs[e.q], s.comp, e);
      SubStepKeeps(s, e.q, SubAfter(s.subs[e.q], s.comp, e));
    } else {
      match e
      case Post(q, i) => PostStepKeeps(s, q, i);
      case Dequeue => DequeueKeeps(s.comp); CompStepKeeps(s, CompDequeue(s.comp));
      case Ack => AckKeeps(s.comp); CompStepKeeps(s, CompAck(s.comp));
    }
  }

  // ---------------------------------------------------------------- every run

  /** Descriptors just cleared, completion memory zeroed, doorbells and controller at the start. */
  ghost predicate FreshSub(b: Sub) {
    && GoodSize(b.d.size) && b.d == Clear(b.d.size) && b.devSize == b.d.size == |b.slots|
    && b.db == 0 == b.devHead == b.sub == b.upd
    && b.open == map[] && b.issued == [] && b.fetched == []
  }

  ghost predicate FreshComp(c: Comp) {
    && c.d.size >= 2 && c.d == Clear(c.d.size) && c.devSize == c.d.size == |c.slots|
    && (forall e <- c.slots :: !e.tag)
    && c.db == 0 == c.devTail == c.deq == c.ack && c.devPhase
    && c.posted == [] && c.log == []
  }

  /** A queue of n entries just cleared, beside memory for lists. */
  function ClearedSub(n: nat, lists: Lists): Sub {
    var zero: Words := seq(16, _ => Dword(0, 0));
    Sub(Clear(n), seq(n, _ => zero), lists, 0, n, 0, map[], [], 0, [], 0)
  }

  function ClearedComp(n: nat): Comp {
    Comp(Clear(n), seq(n, _ => Completion(0, 0, false)), 0, n, 0, true, [], [], 0, 0)
  }

  ghost predicate Fresh(s: State) {
    FreshComp(s.comp) && forall b <- s.subs :: FreshSub(b)
  }

  lemma FreshInv(s: State)
    requires Fresh(s)
    ensures Inv(s)
  {
    forall q | 0 <= q < |s.subs| ensures Fits(s.subs[q], s.comp, q) { assert FreshSub(s.subs[q]); }
  }

  lemma {:induction false} RunKeeps(s: State, es: seq<Event>)
    requires Inv(s) && Run(s, es)
    ensures Inv(After(s, es))
    decreases |es|
  {
    if es != [] {
      StepKeeps(s, es[0]);
      RunKeeps(Apply(s, es[0]), es[1..]);
    }
  }

  lemma InvReached(s0: State, s: State)
    requires Inv(s0) && Reaches(s0, s)
    ensures Inv(s)
  {
    var es :| Run(s0, es) && After(s0, es) == s;
    RunKeeps(s0, es);
  }

  /**
   * Submission slots are safe in every run: the controller has fetched exactly the commands handed
   * out first, as they were built; the counters stay in order within one ring; and the slot the
   * next nvm_sq_enqueue takes is not the slot of any command still to be fetched.
   */
  lemma SubmissionSlotSafety(s0: State, es: seq<Event>, q: nat)
    requires Fresh(s0) && Run(s0, es) && q < |After(s0, es).subs|
    ensures var b := After(s0, es).subs[q];
            && b.upd <= |b.fetched| <= b.sub <= |b.issued| <= b.upd + b.d.size - 1
            && b.fetched == b.issued[..|b.fetched|]
            && (Full(b.d) <==> |b.issued| == b.upd + b.d.size - 1)
            && (!Full(b.d) ==> forall k | |b.fetched| <= k < |b.issued| :: Slot(k, b.d.size) != b.d.tail)
  {
    FreshInv(s0);
    RunKeeps(s0, es);
    var s := After(s0, es);
    var b := s.subs[q];
    assert Fits(b, s.comp, q);
    SqByCounters(b.d, |b.issued|, b.sub, b.upd);
    if !Full(b.d) { OtherSlots(b.upd, |b.issued|, |b.issued| + 1, b.d.size); }
  }

  /**
   * The completion queue is a lossless FIFO in every run: nvm_cq_dequeue returns an entry exactly
   * when one is posted and undequeued, it is the next posted entry, and every entry stays in its
   * slot until the head doorbell covers it.
   */
  lemma CompletionFifo(s0: State, es: seq<Event>)
    requires Fresh(s0) && Run(s0, es)
    ensures var s := After(s0, es); var c := s.comp;
            && Shaped(s) && (Enabled(s, Dequeue) <==> c.deq < |c.posted|)
            && (c.deq < |c.posted| ==> c.slots[c.d.head] == c.posted[c.deq])
            && (forall k | c.ack <= k < |c.posted| :: c.slots[Slot(k, c.d.size)] == c.posted[k])
  {
    FreshInv(s0);
    RunKeeps(s0, es);
    var s := After(s0, es);
    ShapedByInv(s);
    DequeueKeeps(s.comp);
  }

  /**
   * Conservation: in every run each fetched command is either in the controller's hands or
   * completed once, and every entry names the queue and identifier of the command it completes.
   */
  lemma CompletedOnce(s0: State, es: seq<Event>, q: nat, i: nat)
    requires Fresh(s0) && Run(s0, es) && q < |After(s0, es).subs|
    ensures var s := After(s0, es);
            && |s.comp.log| == |s.comp.posted| && Distinct(s.comp.log)
            && (i < |s.subs[q].fetched| <==> (i in s.subs[q].open) != Completed(s.comp.log, q, i))
            && (forall j | 0 <= j < |s.comp.log| :: Reports(s.subs, s.comp.posted[j], s.comp.log[j]))
            && Count(s.comp.posted, q) + |s.subs[q].open| == |s.subs[q].fetched|
  {
    FreshInv(s0);
    RunKeeps(s0, es);
    var s := After(s0, es);
    assert Fits(s.subs[q], s.comp, q);
    if Completed(s.comp.log, q, i) {
      var j :| 0 <= j < |s.comp.log| && s.comp.log[j].q == q && s.comp.log[j].idx == i;
      assert Reports(s.subs, s.comp.posted[j], s.comp.log[j]);
    }
  }

  /** A doorbell write is skipped exactly when there is nothing to tell. */
  lemma SkippedDoorbells(s0: State, es: seq<Event>, q: nat)
    requires Fresh(s0) && Run(s0, es) && q < |After(s0, es).subs|
    ensures var b := After(s0, es).subs[q]; b.d.last == b.d.tail <==> b.sub == |b.issued|
    ensures var c := After(s0, es).comp; c.d.last == c.d.head <==> c.ack == c.deq
  {
    FreshInv(s0);
    RunKeeps(s0, es);
    var s := After(s0, es);
    var b := s.subs[q];
    assert Fits(b, s.comp, q);
    SqByCounters(b.d, |b.issued|, b.sub, b.upd);
    CqByCounters(s.comp.d, s.comp.deq, s.comp.ack);
  }

  /** Items less than two laps apart share their slot on one lap exactly when one lap apart, on two never. */
  lemma Apart(a: nat, b: nat, n: nat)
    requires n > 0 && a < b < a + 2 * n
    ensures Slot(a, n) == Slot(b, n) <==> b == a + n
    ensures Slot(a, 2 * n) != Slot(b, 2 * n)
  {
    SlotDistance(a, b, 2 * n);
    if b < a + n { SlotDistance(a, b, n); } else { OneLap(a, n); SlotDistance(a + n, b, n); }
  }

  /** The PRP page number computed from a command's identifier follows the slots. */
  lemma CidOf(b: Sub, k: nat)
    requires SubInv(b) && b.d.size <= 0x8000 && k < |b.issued|
    ensures Cid(b.issued[k]) == Slot(k + 1, 2 * b.d.size)
    ensures Slot(Cid(b.issued[k]), b.d.size) == Slot(k + 1, b.d.size)
  {
    var n := b.d.size;
    assert Cid(b.issued[k]) == Slot(k + 1, 2 * n) % HALF;
    UniqueDivision(Slot(k + 1, 2 * n), HALF, 0, Slot(k + 1, 2 * n));
    DoubleSlot(k + 1, n);
  }

  /** The PRP-list page of a command: transfer.c's prp_no. */
  function PrpPage(cid: nat, size: nat): nat
    requires size > 0
  {
    Slot(cid, size) + 1
  }

  /**
   * Identifiers and PRP pages. For rings of at most 32768 entries the k-th command (from 0) has
   * identifier (k + 1) mod 2*size; among commands less than two rings apart identifiers are
   * distinct, and a PRP page is shared exactly by commands one ring apart. Pages are 1 to size.
   */
  lemma IdentifiersAndPages(b: Sub, i: nat, j: nat)
    requires SubInv(b) && b.d.size <= 0x8000 && i < j < |b.issued| && j < i + 2 * b.d.size
    ensures Cid(b.issued[i]) == (i + 1) % (2 * b.d.size)
    ensures Cid(b.issued[i]) != Cid(b.issued[j])
    ensures PrpPage(Cid(b.issued[i]), b.d.size) == Cid(b.issued[i]) % b.d.size + 1 <= b.d.size
    ensures PrpPage(Cid(b.issued[i]), b.d.size) == PrpPage(Cid(b.issued[j]), b.d.size) <==> j == i + b.d.size
  {
    CidOf(b, i);
    CidOf(b, j);
    SlotIsResidue(i + 1, 2 * b.d.size);
    SlotIsResidue(Cid(b.issued[i]), b.d.size);
    Apart(i + 1, j + 1, b.d.size);
  }
}
