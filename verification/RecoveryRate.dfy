/** How fast a recovery is: while Linux drains, each call gives back as many
    references as its budget allows, over the three phases together. */
module RecoveryRate {
  import opened Types
  import opened Tasks

  /** The reclaim ring takes every reclaim. */
  ghost predicate Drains(w: World) {
    forall k :: w.reclaim(k).Took?
  }

  lemma OneLess(refs: set<nat>, f: nat)
    requires f in refs
    ensures |refs - {f}| == |refs| - 1
  {
  }

  /** Frozen reclaims are written one by one. */
  lemma {:induction false} RetryRate(s: State, budget: nat, w: World)
    requires Owned(s) && Drains(w)
    ensures var (t, n) := Retry(s, budget, w);
      && Owned(t) && n == Least(budget, |s.frozen|) && |t.refs| == |s.refs| - n
      && t.queue == s.queue && |t.frozen| == |s.frozen| - n
    decreases budget
  {
    RetryStep(s, budget, w);
    if budget > 0 && s.frozen != [] {
      assert w.reclaim(s.tick).Took?;
      var u := Published(s, s.frozen[0]).(frozen := s.frozen[1..]);
      OneFrozenLess(s, u);
      OneLess(s.refs, s.frozen[0]);
      hide Owned, Retry, Drains;
      RetryRate(u, budget - 1, w);
    }
  }

  /** Queued frames are given back one by one. */
  lemma {:induction false} QueueRate(s: State, budget: nat, w: World)
    requires Owned(s) && Drains(w)
    ensures var (t, n) := ReclaimQueued(s, budget, w);
      && Owned(t) && n == Least(budget, |s.queue|) && |t.refs| == |s.refs| - n
      && |t.queue| == |s.queue| - n && t.frozen == s.frozen
    decreases budget
  {
    if budget > 0 && s.queue != [] {
      assert w.reclaim(s.tick).Took?;
      var f, t := s.queue[Chosen(s, w)], ReclaimSink(Taken(s, w), s.queue[Chosen(s, w)], w).0;
      OneQueuedLess(s, f, t, w);
      OneLess(s.refs, f);
      TakenInHand(s, w);
      SinkTakes(Taken(s, w), f, w);
      hide Owned, ReclaimSink, Chosen, Drains;
      QueueRate(t, budget - 1, w);
    }
  }

  function From(refs: set<nat>, f: nat): set<nat> {
    set g | g in refs && f <= g
  }

  lemma FromNext(refs: set<nat>, f: nat)
    ensures f !in refs ==> From(refs, f) == From(refs, f + 1)
    ensures f in refs ==> From(refs, f) == From(refs - {f}, f + 1) + {f} && |From(refs, f)| == |From(refs - {f}, f + 1)| + 1
  {
    if f in refs {
      assert From(refs, f) == From(refs - {f}, f + 1) + {f};
    }
  }

  lemma OneOrphan(s: State, f: nat, w: World)
    requires Owned(s) && Drains(w) && s.queue == [] && s.frozen == [] && f in s.refs
    ensures var (t, ok) := ReclaimSink(s, f, w);
      ok && Owned(t) && t.queue == [] && t.frozen == [] && t.refs == s.refs - {f}
  {
    assert w.reclaim(s.tick).Took?;
    SinkTakes(s, f, w);
    hide Owned, ReclaimSink;
  }

  lemma NoneFrom(s: State, f: nat)
    requires Owned(s) && f >= BLOCK_COUNT
    ensures |From(s.refs, f)| == 0
  {
    assert From(s.refs, f) == {};
  }

  /** Orphans are given back block by block. */
  lemma {:induction false} OrphanRate(s: State, f: nat, budget: nat, w: World)
    requires Owned(s) && Drains(w) && s.queue == [] && s.frozen == []
    ensures var t := Orphans(s, f, budget, w).0;
      |t.refs| == |s.refs| - Least(budget, |From(s.refs, f)|) && t.queue == [] && t.frozen == []
    decreases BLOCK_COUNT - f
  {
    hide *;
    if f >= BLOCK_COUNT {
      NoneFrom(s, f);
      OrphansStep(s, f, budget, w);
    } else if budget == 0 {
      OrphansStep(s, f, budget, w);
    } else if f !in s.refs {
      OrphansStep(s, f, budget, w);
      FromNext(s.refs, f);
      OrphanRate(s, f + 1, budget, w);
    } else {
      OneOrphan(s, f, w);
      OneLess(s.refs, f);
      FromNext(s.refs, f);
      var t := ReclaimSink(s, f, w).0;
      OrphanRate(t, f + 1, budget - 1, w);
      OrphansStep(s, f, budget, w);
      assert Orphans(s, f, budget, w).0 == Orphans(t, f + 1, budget - 1, w).0;
    }
    LeastIs(budget, |From(s.refs, f)|);
  }

  lemma LeastIs(a: nat, b: nat)
    ensures Least(0, b) == 0 && Least(a, 0) == 0
    ensures a > 0 && b > 0 ==> Least(a, b) == Least(a - 1, b - 1) + 1
  {
  }

  lemma CollectRate(s: State, budget: nat, w: World)
    requires Owned(s) && Drains(w) && (budget == 0 || (s.queue == [] && s.frozen == []))
    ensures |CollectOrphans(s, budget, w).refs| == |s.refs| - Least(budget, |s.refs|)
  {
    if budget > 0 {
      OrphanRate(s, 0, budget, w);
      assert From(s.refs, 0) == s.refs;
    }
  }

  /** The phases share one budget and waste none of it. */
  lemma ClearRate(s: State, budget: nat, w: World)
    requires Owned(s) && Drains(w)
    ensures |Clear(s, budget, w).refs| == |s.refs| - Least(budget, |s.refs|)
  {
    hide Owned, Drains, Retry, ReclaimQueued, CollectOrphans;
    RetryRate(s, budget, w);
    var (a, n) := RewriteFrozen(s, budget, w);
    QueueRate(a, Less(budget, n), w);
    var (b, m) := EmptyQueue(a, Less(budget, n), w);
    CollectRate(b, Less(budget, n + m), w);
  }

  /** One recovery call gives back exactly as many references as its budget allows,
      and it reaches NORMAL exactly when that leaves none. */
  lemma RecoverRate(s: State, budget: nat, w: World)
    requires Inv(s) && Due(s) && Drains(w) && forall k :: Attaches(w, k)
    ensures var t := Recover(s, budget, w);
      && Inv(t) && |t.refs| == |s.refs| - Least(budget, |s.refs|)
      && (t.mode.Normal? <==> |s.refs| <= budget) && (!t.mode.Normal? ==> Due(t))
  {
    RecoverExact(s, budget, w);
    ClearRate(EnterRecovery(s), budget, w);
    hide Inv, Owned, Clear, Drains;
    assert Recover(s, budget, w).refs == Clear(EnterRecovery(s), budget, w).refs;
  }

  /** A recovery takes exactly as many calls as its references need under the
      budget, and one if there are none. */
  lemma {:induction false} RecoveryTakesExactly(s: State, budget: nat, w: World, n: nat)
    requires Inv(s) && Due(s) && Drains(w) && (forall k :: Attaches(w, k)) && n > 0
    ensures RecoverTimes(s, budget, w, n).mode.Normal? <==> |s.refs| <= n * budget
    decreases n
  {
    assert !s.mode.Normal?;
    hide Inv, Due, Drains, Recover;
    RecoverRate(s, budget, w);
    var t := Recover(s, budget, w);
    MoreCalls(n, budget);
    if t.mode.Normal? {
      assert RecoverTimes(t, budget, w, n - 1) == t;
    } else if n > 1 {
      RecoveryTakesExactly(t, budget, w, n - 1);
    } else {
      assert RecoverTimes(t, budget, w, 0) == t;
    }
  }

  lemma MoreCalls(n: nat, budget: nat)
    requires n > 0
    ensures n * budget == (n - 1) * budget + budget && (n - 1) * budget >= 0
    ensures n == 1 ==> n * budget == budget
  {
  }
}
