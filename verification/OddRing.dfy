/**
 * Why the ring size must divide 2^32: for every other size some run makes nvm_sq_enqueue overrun
 * the ring, and the controller never sees a whole lap of submitted commands.
 */
module OddRing {
  import opened Ring
  import opened Command
  import opened Protocol
  import opened Safety

  /** One cleared queue pair of the given submission ring size. */
  ghost predicate Blank(s: State, n: nat) {
    && |s.subs| == 1 && FreshComp(s.comp)
    && var b := s.subs[0];
    && b.d == Clear(n) && b.devSize == n == |b.slots|
    && b.db == 0 == b.devHead == b.sub == b.upd
    && b.open == map[] && b.issued == [] && b.fetched == []
  }

  /** Commands were submitted that the controller has not fetched, and it sees an empty queue. */
  ghost predicate Lost(s: State) {
    |s.subs| == 1 && |s.subs[0].fetched| < s.subs[0].sub && s.subs[0].devHead == s.subs[0].db
  }

  /** k commands enqueued, nothing else done. */
  ghost predicate Filled(s: State, n: nat, k: nat) {
    && |s.subs| == 1 && FreshComp(s.comp) && k < n
    && var b := s.subs[0];
    && b.d == Desc(n, 0, k, true, 0) && b.devSize == n == |b.slots| && |b.issued| == k
    && b.db == 0 == b.devHead == b.sub == b.upd && b.open == map[] && b.fetched == []
  }

  lemma {:induction false} FillUp(s0: State, s: State, n: nat, k: nat) returns (s': State)
    requires 2 <= n < HALF && Reaches(s0, s) && Filled(s, n, k)
    ensures Reaches(s0, s') && Filled(s', n, n - 1)
    decreases n - k
  {
    if k == n - 1 { s' := s; } else {
      ReachesStep(s0, s, Enqueue(0));
      s' := FillUp(s0, Apply(s, Enqueue(0)), n, k + 1);
    }
  }

  /** One command served: the ring is one short of full, with head 1 and tail at the last slot. */
  ghost predicate Served(s: State, n: nat) {
    && |s.subs| == 1 && CompShaped(s.comp) && n >= 2
    && var b := s.subs[0];
    && b.d == Desc(n, 1, n - 1, true, n - 1) && b.devSize == n == |b.slots| && |b.issued| == n - 1 == b.sub
    && b.devHead == 1 && |b.fetched| == 1
  }

  /** The ring submitted, its first command fetched and completed. */
  lemma PostFirst(s0: State, s: State, n: nat) returns (s': State)
    requires 3 <= n < HALF && Reaches(s0, s) && Filled(s, n, n - 1)
    ensures Reaches(s0, s') && |s'.subs| == 1 && CompShaped(s'.comp) && SubShaped(s'.subs[0]) && s'.subs[0].upd == 0
    ensures var b := s'.subs[0];
            && b.d == Desc(n, 0, n - 1, true, n - 1) && b.devSize == n == |b.slots| && |b.issued| == n - 1 == b.sub
            && b.devHead == 1 && |b.fetched| == 1
    ensures var c := s'.comp; c.deq == 0 && |c.posted| == 1 && c.posted[0].sqid == 0 && c.slots[c.d.head].tag == c.d.phase
  {
    ReachesStep(s0, s, Submit(0));
    var s1 := Apply(s, Submit(0));
    ReachesStep(s0, s1, Fetch(0));
    var s2 := Apply(s1, Fetch(0));
    assert 0 in s2.subs[0].open;
    ReachesStep(s0, s2, Post(0, 0));
    s' := Apply(s2, Post(0, 0));
  }

  lemma ServeOne(s0: State, s: State, n: nat) returns (s': State)
    requires 3 <= n < HALF && Reaches(s0, s) && Filled(s, n, n - 1)
    ensures Reaches(s0, s') && Served(s', n)
  {
    hide Filled;
    var s3 := PostFirst(s0, s, n);
    assert Shaped(s3) by { assert forall b <- s3.subs :: b == s3.subs[0]; }
    ReachesStep(s0, s3, Dequeue);
    var s4 := Apply(s3, Dequeue);
    assert s4.comp.posted[..1] == [] + [s4.comp.posted[0]];
    CountStep([], s4.comp.posted[0], 0);
    ReachesStep(s0, s4, HeadUp(0));
    s' := Apply(s4, HeadUp(0));
  }

  /** Filling the last slot and then one more: the full test lets it pass and the tail meets the head. */
  lemma Overrun(s0: State, s: State, n: nat) returns (s': State)
    requires 3 <= n < HALF && !DividesWord(n) && Reaches(s0, s) && Served(s, n)
    ensures Reaches(s0, s') && Lost(s')
  {
    ReachesStep(s0, s, Enqueue(0));
    var s1 := Apply(s, Enqueue(0));
    OddSizeMissesFull(n);
    assert Full(s1.subs[0].d) == Full(Desc(n, 1, 0, true, 0));
    ReachesStep(s0, s1, Enqueue(0));
    var s2 := Apply(s1, Enqueue(0));
    ReachesStep(s0, s2, Submit(0));
    s' := Apply(s2, Submit(0));
  }

  lemma BlankExists(n: nat) returns (s: State)
    requires n >= 2
    ensures Blank(s, n)
  {
    s := State([ClearedSub(n, map[])], ClearedComp(2));
  }

  lemma TwoDivides()
    ensures DividesWord(2)
  {
    DividesWordIs(2);
  }

  /**
   * Exactly the sizes that divide 2^32 are safe: submitted commands can get lost, in some run of
   * some cleared queue of n entries, if and only if n does not divide 2^32, that is, is not a power of two.
   */
  lemma CommandsLostExactly(n: nat)
    requires 2 <= n < HALF
    ensures (exists s0, s :: Blank(s0, n) && Reaches(s0, s) && Lost(s)) <==> WORD % n != 0
    ensures WORD % n != 0 <==> !PowerOfTwo(n)
  {
    DividesWordIs(n);
    DividingSizes(n);
    if !DividesWord(n) {
      TwoDivides();
      var s0 := BlankExists(n);
      ReachesSelf(s0);
      var s1 := FillUp(s0, s0, n, 0);
      var s2 := ServeOne(s0, s1, n);
      var s3 := Overrun(s0, s2, n);
      assert Blank(s0, n) && Reaches(s0, s3) && Lost(s3);
    } else {
      forall s0, s | Blank(s0, n) && Reaches(s0, s) ensures !Lost(s) {
        var es :| Run(s0, es) && After(s0, es) == s;
        assert Fresh(s0);
        FreshInv(s0);
        RunKeeps(s0, es);
        if |s.subs| == 1 { assert Fits(s.subs[0], s.comp, 0); FetchGuard(s.subs[0]); }
      }
    }
  }
}
