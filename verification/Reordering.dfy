/**
 * Why PRP-list pages need bounded completion reordering: a controller may hold the oldest command
 * back while the ring comes round, and the newest command is then given the page still in use.
 */
module Reordering {
  import opened Ring
  import opened Command
  import opened Protocol
  import opened Safety
  import opened OddRing

  /** Some command in the controller's hands shares its list page with a later issued command. */
  ghost predicate Collides(s: State) {
    && |s.subs| == 1
    && var b := s.subs[0];
    && b.d.size > 0
    && exists i, k :: i in b.open && i < k < |b.issued| && PrpPage(Cid(b.issued[i]), b.d.size) == PrpPage(Cid(b.issued[k]), b.d.size)
  }

  /** `issued` commands, the first three fetched, command 0 held back, `upd` of the others processed. */
  ghost predicate Held(s: State, n: nat, issued: nat, upd: nat) {
    && |s.subs| == 1 && Inv(s) && n >= 4
    && var b, c := s.subs[0], s.comp;
    && b.d.size == n && b.d.head == upd < n && b.upd == upd && |b.issued| == issued && |b.fetched| == 3 <= b.sub
    && b.open.Keys == (if upd == 0 then {0, 1, 2} else if upd == 1 then {0, 2} else {0})
    && c.deq == c.ack == |c.posted| == upd && Count(c.posted, 0) == upd
  }

  function FirstOnes(f: nat): set<nat> { if f == 0 then {} else if f == 1 then {0} else if f == 2 then {0, 1} else {0, 1, 2} }

  lemma {:induction false} FetchThree(s0: State, s: State, n: nat, f: nat) returns (s': State)
    requires Reaches(s0, s) && Inv(s) && |s.subs| == 1 && n >= 4 && f <= 3 && s.comp.posted == []
    requires var b := s.subs[0];
             b.d.size == n && b.d.head == 0 == b.upd && |b.issued| == b.sub == n - 1 && |b.fetched| == f && b.open.Keys == FirstOnes(f)
    ensures Reaches(s0, s') && Held(s', n, n - 1, 0)
    decreases 3 - f
  {
    if f == 3 { s' := s; } else {
      GuardsByCounters(s, Fetch(0));
      ReachesStep(s0, s, Fetch(0));
      StepKeeps(s, Fetch(0));
      s' := FetchThree(s0, Apply(s, Fetch(0)), n, f + 1);
    }
  }

  /** The next command in line (not 0) completes. */
  lemma PostOne(s0: State, s: State, n: nat, issued: nat, upd: nat) returns (s': State)
    requires Reaches(s0, s) && Held(s, n, issued, upd) && upd < 2
    ensures Reaches(s0, s') && Inv(s') && |s'.subs| == 1
    ensures s'.subs[0] == SubPost(s.subs[0], upd + 1)
    ensures var c := s'.comp; c.deq == upd && |c.posted| == upd + 1 == Count(c.posted, 0)
  {
    hide SubInv, Pending, Numbered, Logged, Distinct;
    var i := upd + 1;
    GuardsByCounters(s, Post(0, i));
    ReachesStep(s0, s, Post(0, i));
    StepKeeps(s, Post(0, i));
    s' := Apply(s, Post(0, i));
    CountStep(s.comp.posted, s'.comp.posted[upd], 0);
  }

  /** The next command in line completes and is dequeued. */
  lemma CompleteOne(s0: State, s: State, n: nat, issued: nat, upd: nat) returns (s': State)
    requires Reaches(s0, s) && Held(s, n, issued, upd) && upd < 2
    ensures Reaches(s0, s') && Inv(s') && |s'.subs| == 1
    ensures s'.subs[0] == SubPost(s.subs[0], upd + 1)
    ensures var c := s'.comp;
            c.deq == |c.posted| == upd + 1 && c.posted[..c.deq] == c.posted && Count(c.posted, 0) == upd + 1
  {
    hide SubInv, Pending, Numbered, Logged, Distinct, Link, Window, Tagged;
    var s1 := PostOne(s0, s, n, issued, upd);
    GuardsByCounters(s1, Dequeue);
    ReachesStep(s0, s1, Dequeue);
    StepKeeps(s1, Dequeue);
    s' := Apply(s1, Dequeue);
  }

  /** ... its slot is counted free ... */
  lemma HeadOne(s0: State, s: State, n: nat, issued: nat, upd: nat) returns (s': State)
    requires Reaches(s0, s) && Held(s, n, issued, upd) && upd < 2
    ensures Reaches(s0, s') && Inv(s') && |s'.subs| == 1
    ensures var b := SubPost(s.subs[0], upd + 1); s'.subs[0] == b.(d := HeadIncrement(b.d), upd := upd + 1)
    ensures s'.comp.deq == |s'.comp.posted| == upd + 1 == Count(s'.comp.posted, 0)
  {
    hide SubInv, Pending, Numbered, Logged, Distinct, Link, CompInv;
    var s2 := CompleteOne(s0, s, n, issued, upd);
    GuardsByCounters(s2, HeadUp(0));
    ReachesStep(s0, s2, HeadUp(0));
    StepKeeps(s2, HeadUp(0));
    s' := Apply(s2, HeadUp(0));
  }

  /** ... and it is acknowledged. */
  lemma PassOne(s0: State, s: State, n: nat, issued: nat, upd: nat) returns (s': State)
    requires Reaches(s0, s) && Held(s, n, issued, upd) && upd < 2
    ensures Reaches(s0, s') && Held(s', n, issued, upd + 1)
  {
    hide Pending, Numbered, Logged, Distinct, Link;
    var s3 := HeadOne(s0, s, n, issued, upd);
    ShapedByInv(s3);
    AckKeeps(s3.comp);
    ReachesStep(s0, s3, Ack);
    StepKeeps(s3, Ack);
    s' := Apply(s3, Ack);
  }

  lemma IssueOne(s0: State, s: State, n: nat, issued: nat, upd: nat) returns (s': State)
    requires Reaches(s0, s) && Held(s, n, issued, upd) && issued < upd + n - 1
    ensures Reaches(s0, s') && Held(s', n, issued + 1, upd)
  {
    GuardsByCounters(s, Enqueue(0));
    ReachesStep(s0, s, Enqueue(0));
    StepKeeps(s, Enqueue(0));
    s' := Apply(s, Enqueue(0));
  }

  /** In a ring of four or more entries a conforming controller can bring about a collision. */
  lemma CollisionRun(n: nat) returns (s0: State, s: State)
    requires GoodSize(n) && 4 <= n <= 0x8000
    ensures Blank(s0, n) && Fresh(s0) && Reaches(s0, s) && Collides(s)
  {
    s0 := BlankExists(n);
    ReachesSelf(s0);
    FreshInv(s0);
    var s1 := FillUp(s0, s0, n, 0);
    InvReached(s0, s1);
    GuardsByCounters(s1, Submit(0));
    ReachesStep(s0, s1, Submit(0));
    InvReached(s0, Apply(s1, Submit(0)));
    var s3 := FetchThree(s0, Apply(s1, Submit(0)), n, 0);
    var s4 := PassOne(s0, s3, n, n - 1, 0);
    var s5 := PassOne(s0, s4, n, n - 1, 1);
    var s6 := IssueOne(s0, s5, n, n - 1, 2);
    s := IssueOne(s0, s6, n, n, 2);
    assert Fits(s.subs[0], s.comp, 0);
    IdentifiersAndPages(s.subs[0], 0, n);
  }

  // ---------------------------------------------------------------- a ring of two

  /** With one usable slot, a command in the controller's hands is the newest. */
  ghost predicate Single(s: State) {
    |s.subs| == 1 && s.subs[0].d.size == 2 && forall i <- s.subs[0].open.Keys :: |s.subs[0].issued| == i + 1
  }

  /** Nothing is in the controller's hands while a command can be issued or fetched. */
  lemma HandsEmpty(s: State)
    requires Inv(s) && |s.subs| == 1 && s.subs[0].d.size == 2
    requires var b := s.subs[0]; |b.issued| == b.upd || |b.fetched| < b.sub
    ensures var b := s.subs[0]; b.open.Keys == {} && |b.issued| <= |b.fetched| + 1
  {
    var b, c := s.subs[0], s.comp;
    assert Safety.Fits(b, c, 0);
    CountPrefix(c.posted, c.deq, 0);
    assert |b.open.Keys| == |b.open|;
  }

  lemma SingleStep(s: State, e: Event)
    requires Inv(s) && Shaped(s) && Enabled(s, e) && Single(s)
    ensures Single(Apply(s, e))
  {
    hide Inv;
    GuardsByCounters(s, e);
    if e.Enqueue? || e.Fetch? { Bounded(s); HandsEmpty(s); }
  }

  lemma Bounded(s: State)
    requires Inv(s) && |s.subs| == 1
    ensures s.subs[0].upd <= |s.subs[0].issued| && s.subs[0].sub <= |s.subs[0].issued|
  {
    assert Safety.Fits(s.subs[0], s.comp, 0);
  }

  lemma {:induction false} SingleRun(s: State, es: seq<Event>)
    requires Inv(s) && Single(s) && Run(s, es)
    ensures Single(After(s, es))
    decreases |es|
  {
    hide Inv, Single;
    if es != [] {
      SingleStep(s, es[0]);
      StepKeeps(s, es[0]);
      SingleRun(Apply(s, es[0]), es[1..]);
    }
  }

  /** Exactly the rings of four or more entries let a conforming controller bring about a collision. */
  lemma PagesCollide(n: nat)
    requires GoodSize(n) && n <= 0x8000
    ensures (exists s0, s :: Blank(s0, n) && Reaches(s0, s) && Collides(s)) <==> n >= 4
  {
    if n >= 4 {
      var s0, s := CollisionRun(n);
    } else {
      NotThree(n);
      forall s0, s | Blank(s0, n) && Reaches(s0, s) ensures !Collides(s) {
        var es :| Run(s0, es) && After(s0, es) == s;
        assert Fresh(s0);
        FreshInv(s0);
        SingleRun(s0, es);
      }
    }
  }

  lemma NotThree(n: nat)
    requires GoodSize(n) && n < 4
    ensures n == 2
  {
    DividesWordIs(3);
  }
}
