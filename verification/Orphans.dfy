/** References that nothing holds any more, and what makes them. */
module Orphans {
  import opened Types
  import opened Tasks

  /** Every reference but f is queued or frozen. */
  predicate ClaimedBut(s: State, f: Option<nat>) {
    forall g :: g in s.refs && f != Some(g) ==> g in s.queue || g in s.frozen
  }

  /** Every reference is queued or frozen: recovery would find no orphan. */
  predicate Claimed(s: State) {
    ClaimedBut(s, None)
  }

  /** The reclaim sink makes an orphan of the frame in hand if and only if the
      reclaim ring cannot be used. */
  lemma OrphanExactlyWhen(s: State, f: nat, w: World)
    requires Owned(s) && InHand(s, f) && ClaimedBut(s, Some(f))
    ensures Claimed(ReclaimSink(s, f, w).0) <==> !w.reclaim(s.tick).Broken?
  {
    RoomForOneMore(s, f);
    var t := ReclaimSink(s, f, w).0;
    if w.reclaim(s.tick).Full? {
      assert t.frozen == s.frozen + [f];
      assert t.frozen[|s.frozen|] == f;
      forall g | g in t.refs
        ensures g in t.queue || g in t.frozen
      {
        if g in s.frozen {
          var i :| 0 <= i < |s.frozen| && s.frozen[i] == g;
          assert t.frozen[i] == g;
        }
      }
    }
  }

  lemma {:induction false} RetryClaims(s: State, budget: nat, w: World)
    requires Owned(s) && Claimed(s)
    ensures Claimed(Retry(s, budget, w).0)
    decreases budget
  {
    if budget > 0 && s.frozen != [] && w.reclaim(s.tick).Took? {
      var u := Published(s, s.frozen[0]).(frozen := s.frozen[1..]);
      OneFrozenLess(s, u);
      forall g | g in u.refs
        ensures g in u.queue || g in u.frozen
      {
        if i :| 0 <= i < |s.frozen| && s.frozen[i] == g {
          assert u.frozen[i - 1] == g;
        }
      }
      RetryClaims(u, budget - 1, w);
    }
  }

  lemma TakenClaims(s: State, w: World)
    requires s.queue != [] && Claimed(s)
    ensures ClaimedBut(Taken(s, w), Some(s.queue[Chosen(s, w)]))
  {
    var k, t := Chosen(s, w), Taken(s, w);
    forall g | g in t.refs && g != s.queue[k]
      ensures g in t.queue || g in t.frozen
    {
      if i :| 0 <= i < |s.queue| && s.queue[i] == g {
        assert t.queue[if i < k then i else i - 1] == g;
      }
    }
  }

  lemma OneQueuedClaims(s: State, f: nat, t: State, w: World)
    requires Owned(s) && s.queue != [] && Claimed(s) && Usable(w)
    requires f == s.queue[Chosen(s, w)] && t == ReclaimSink(Taken(s, w), f, w).0
    ensures ReclaimSink(Taken(s, w), f, w).1 && Owned(t) && Claimed(t)
  {
    TakenInHand(s, w);
    TakenClaims(s, w);
    assert Taken(s, w).tick == s.tick && !w.reclaim(s.tick).Broken?;
    hide *;
    OrphanExactlyWhen(Taken(s, w), f, w);
    OneQueuedLess(s, f, t, w);
  }

  lemma {:induction false} ReclaimQueuedClaims(s: State, budget: nat, w: World)
    requires Owned(s) && Claimed(s) && Usable(w)
    ensures Claimed(ReclaimQueued(s, budget, w).0)
    decreases budget
  {
    hide Owned, Claimed, Usable, ReclaimSink, Taken, Chosen;
    if budget > 0 && s.queue != [] {
      var f := s.queue[Chosen(s, w)];
      var t := ReclaimSink(Taken(s, w), f, w).0;
      OneQueuedClaims(s, f, t, w);
      ReclaimQueuedClaims(t, budget - 1, w);
    }
  }

  /** With nothing to find, the orphan scan does nothing. */
  lemma {:induction false} NothingToCollect(s: State, f: nat, budget: nat, w: World)
    requires Claimed(s) && s.queue == []
    ensures Orphans(s, f, budget, w) == (s, 0)
    decreases BLOCK_COUNT - f
  {
    if f < BLOCK_COUNT && budget > 0 {
      NothingToCollect(s, f + 1, budget, w);
    }
  }

  lemma RewriteFrozenClaims(s: State, budget: nat, w: World)
    requires Ready(s) && Claimed(s)
    ensures Owned(RewriteFrozen(s, budget, w).0) && Claimed(RewriteFrozen(s, budget, w).0)
  {
    RewriteFrozenGives(s, budget, w);
    RetryClaims(s, budget, w);
    hide Owned, Claimed, Retry;
  }

  lemma EmptyQueueClaims(s: State, budget: nat, w: World)
    requires Owned(s) && Claimed(s) && Usable(w)
    ensures Claimed(EmptyQueue(s, budget, w).0)
  {
    ReclaimQueuedClaims(s, budget, w);
    hide Owned, Claimed, Usable, ReclaimQueued;
  }

  lemma CollectNothing(s: State, budget: nat, w: World)
    requires Claimed(s)
    ensures CollectOrphans(s, budget, w) == s
  {
    if s.queue == [] {
      NothingToCollect(s, 0, budget, w);
    }
    hide Claimed, Orphans;
  }

  lemma ClearClaims(s: State, budget: nat, w: World)
    requires Ready(s) && Claimed(s) && Usable(w)
    ensures Claimed(Clear(s, budget, w))
  {
    hide Less, RewriteFrozen, EmptyQueue, CollectOrphans, Owned, Ready, Claimed, Usable;
    RewriteFrozenClaims(s, budget, w);
    var (a, n) := RewriteFrozen(s, budget, w);
    EmptyQueueClaims(a, Less(budget, n), w);
    var (b, m) := EmptyQueue(a, Less(budget, n), w);
    CollectNothing(b, Less(budget, n + m), w);
  }

  lemma RecoverClaims(s: State, budget: nat, w: World)
    requires Inv(s) && Claimed(s) && Usable(w)
    ensures Claimed(Recover(s, budget, w))
  {
    var a := EnterRecovery(s);
    assert Ready(a) && Claimed(a);
    hide Inv, Claimed, Usable, Ready, Clear, Conclude, EnterRecovery;
    ClearClaims(a, budget, w);
    ConcludeClaims(Clear(a, budget, w), w);
  }

  lemma ConcludeClaims(c: State, w: World)
    requires Claimed(c)
    ensures Claimed(Conclude(c, w))
  {
  }

  lemma {:induction false} DrainRxClaims(s: State, budget: nat, w: World)
    requires Inv(s) && Claimed(s) && Usable(w)
    ensures Claimed(DrainRx(s, budget, w))
    decreases budget
  {
    if budget > 0 && s.mode.Normal? {
      ReceiveOneKeeps(s, w);
      ReceiveOneClaims(s, w);
      hide Inv, Claimed, ReceiveOne, Usable;
      if ReceiveOne(s, w).1 {
        DrainRxClaims(ReceiveOne(s, w).0, budget - 1, w);
      }
    }
  }

  lemma ReceiveOneClaims(s: State, w: World)
    requires Inv(s) && Claimed(s) && Usable(w)
    ensures Claimed(ReceiveOne(s, w).0)
  {
    var next := w.rx(s.tick);
    if next.Some? && next.value < BLOCK_COUNT && next.value !in s.refs {
      var f := next.value;
      var u := Tick(Tick(s).(refs := s.refs + {f}));
      assert InHand(u, f) && Owned(u) && ClaimedBut(u, Some(f));
      OrphanExactlyWhen(u, f, w);
      if w.routable(s.tick + 1) && |s.queue| < BLOCK_COUNT {
        assert (s.queue + [f])[|s.queue|] == f;
      }
      hide Owned, ReclaimSink;
    }
  }

  lemma {:induction false} DispatchClaims(s: State, budget: nat, w: World)
    requires Owned(s) && Claimed(s) && Usable(w)
    ensures Claimed(Dispatch(s, budget, w))
    decreases budget
  {
    hide Owned, Claimed, Usable, TxSink, ReclaimSink, Chosen, Taken, DispatchOne;
    if budget > 0 && s.queue != [] {
      DispatchOneClaims(s, w);
      DispatchOneKeeps(s, w);
      DispatchUnfolds(s, budget, w);
      if DispatchOne(s, w).1 {
        DispatchClaims(DispatchOne(s, w).0, budget - 1, w);
      }
    }
  }

  lemma DispatchOneClaims(s: State, w: World)
    requires Owned(s) && s.queue != [] && Claimed(s) && Usable(w)
    ensures Claimed(DispatchOne(s, w).0)
  {
    TakenInHand(s, w);
    TakenClaims(s, w);
    var t, f := Taken(s, w), s.queue[Chosen(s, w)];
    if !w.txRoom(t.tick) {
      OrphanExactlyWhen(Tick(t), f, w);
    }
    hide Owned, ReclaimSink, Chosen, Taken;
  }

  lemma PerformClaims(s: State, task: Task, w: World)
    requires Inv(s) && Claimed(s) && Usable(w)
    ensures Claimed(Perform(s, task, w))
  {
    match task
    case Events =>
      if s.mode.Normal? { DrainRxClaims(s, RX_BUDGET, w); } else { RetryClaims(s, BLOCK_COUNT, w); }
    case Schedule(budget) =>
      if s.frozen != [] { RetryClaims(s, budget, w); } else { DispatchClaims(s, budget, w); }
    case RetryFirst(budget) => RetryClaims(s, budget, w);
    case RunRecovery(budget) => RecoverClaims(s, budget, w);
    case _ =>
  }

  /** Over every run, as long as the reclaim ring can be used, every reference is
      queued or frozen between tasks. */
  lemma {:induction false} RunClaims(s: State, tasks: seq<Task>, w: World)
    requires Inv(s) && Claimed(s) && Usable(w)
    ensures Claimed(Run(s, tasks, w))
    decreases |tasks|
  {
    hide Inv, Claimed, Perform, Usable;
    if tasks != [] {
      PerformKeeps(s, tasks[0], w);
      PerformClaims(s, tasks[0], w);
      RunClaims(Perform(s, tasks[0], w), tasks[1..], w);
    }
  }
}
