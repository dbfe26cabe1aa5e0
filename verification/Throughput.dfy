/** What the RTOS tasks get done: queued frames leave, and routable descriptors
    enter the queue. */
module Throughput {
  import opened Types
  import opened Tasks
  import opened Runtime

  function Members(s: seq<nat>): set<nat> {
    set f | f in s
  }

  /** n frames left the queue: each was published or frozen, once, behind those
      that were there before, and just the published ones lost their reference. */
  ghost predicate Left(s: State, t: State, n: nat) {
    && |t.queue| + n == |s.queue|
    && s.out <= t.out && s.frozen <= t.frozen
    && multiset(s.queue) + multiset(s.out) + multiset(s.frozen) ==
       multiset(t.queue) + multiset(t.out) + multiset(t.frozen)
    && t.refs == s.refs - Members(t.out[|s.out|..])
  }

  lemma LeftNone(s: State)
    ensures Left(s, s, 0)
  {
    assert s.out[|s.out|..] == [];
  }

  lemma LeftMore(s: State, u: State, t: State, m: nat, n: nat)
    requires Left(s, u, m) && Left(u, t, n)
    ensures Left(s, t, m + n)
  {
    assert t.out[|s.out|..] == u.out[|s.out|..] + t.out[|u.out|..];
  }

  lemma DropOne(q: seq<nat>, k: nat)
    requires k < |q|
    ensures multiset(q) == multiset(Drop(q, k)) + multiset{q[k]}
  {
    assert q == q[..k] + [q[k]] + q[k + 1..];
  }

  lemma OneSent(s: State, w: World)
    requires Owned(s) && s.queue != [] && w.txRoom(s.tick)
    ensures var (t, ok) := DispatchOne(s, w);
      ok && Owned(t) && t.frozen == s.frozen && t.mode == s.mode && Left(s, t, 1)
  {
    TakenInHand(s, w);
    DispatchOneKeeps(s, w);
    var k := Chosen(s, w);
    DropOne(s.queue, k);
    var t := DispatchOne(s, w).0;
    assert t == Published(Taken(s, w), s.queue[k]);
    assert t.out[|s.out|..] == [s.queue[k]];
  }

  lemma OneGivenBack(s: State, w: World)
    requires Owned(s) && s.queue != [] && !w.txRoom(s.tick) && !w.reclaim(s.tick + 1).Broken?
    ensures DispatchOne(s, w).1 && Left(s, DispatchOne(s, w).0, 1)
  {
    TakenInHand(s, w);
    var u, f := Tick(Taken(s, w)), s.queue[Chosen(s, w)];
    assert Owned(u) && InHand(u, f) && DispatchOne(s, w) == ReclaimSink(u, f, w);
    DropOne(s.queue, Chosen(s, w));
    hide Owned, InHand, Chosen, DispatchOne, ReclaimSink;
    SinkTakes(u, f, w);
    SinkPublishes(u, f, w);
    GivenBackLeaves(s, ReclaimSink(u, f, w).0, f);
  }

  lemma SinkPublishes(u: State, f: nat, w: World)
    requires Owned(u) && InHand(u, f)
    ensures ReclaimSink(u, f, w).0.out == if w.reclaim(u.tick).Took? then u.out + [f] else u.out
  {
    RoomForOneMore(u, f);
    hide Owned;
  }

  lemma GivenBackLeaves(s: State, t: State, f: nat)
    requires multiset(s.queue) == multiset(t.queue) + multiset{f} && |s.queue| == |t.queue| + 1
    requires (t.out == s.out + [f] && t.frozen == s.frozen && t.refs == s.refs - {f}) ||
             (t.out == s.out && t.frozen == s.frozen + [f] && t.refs == s.refs)
    ensures Left(s, t, 1)
  {
    assert t.out[|s.out|..] == if t.out == s.out then [] else [f];
  }

  lemma OneLeaves(s: State, w: World)
    requires Owned(s) && s.queue != [] && Usable(w)
    ensures var (t, ok) := DispatchOne(s, w); ok && Owned(t) && Left(s, t, 1)
  {
    DispatchOneKeeps(s, w);
    if w.txRoom(s.tick) {
      OneSent(s, w);
    } else {
      assert !w.reclaim(s.tick + 1).Broken?;
      OneGivenBack(s, w);
    }
    hide Owned, Left, DispatchOne;
  }

  lemma {:induction false} DispatchLeaves(s: State, budget: nat, w: World)
    requires Owned(s) && Usable(w)
    ensures Owned(Dispatch(s, budget, w)) && Left(s, Dispatch(s, budget, w), Least(budget, |s.queue|))
    decreases budget
  {
    hide Owned, Left, Usable, DispatchOne, Members, TxSink, ReclaimSink, Taken, Chosen;
    if budget == 0 || s.queue == [] {
      LeftNone(s);
    } else {
      hide Dispatch;
      OneLeaves(s, w);
      DispatchUnfolds(s, budget, w);
      var t := DispatchOne(s, w).0;
      LeftCounts(s, t, 1);
      DispatchLeaves(t, budget - 1, w);
      LeftMore(s, t, Dispatch(t, budget - 1, w), 1, Least(budget - 1, |t.queue|));
    }
  }

  lemma LeftCounts(s: State, t: State, n: nat)
    requires Left(s, t, n)
    ensures |t.queue| + n == |s.queue|
  {
  }

  /** The scheduler task in NORMAL: as many frames leave the queue as the budget
      allows and there are. */
  lemma SchedulerSends(s: State, budget: nat, w: World)
    requires Inv(s) && s.mode.Normal? && Usable(w)
    ensures Left(s, SchedulerTask(s, budget, w), Least(budget, |s.queue|))
  {
    DispatchLeaves(s, budget, w);
    hide Owned, Left, Usable, Dispatch;
  }

  lemma {:induction false} DispatchAll(s: State, budget: nat, w: World)
    requires Owned(s) && forall k :: w.txRoom(k)
    ensures var t := Dispatch(s, budget, w);
      Owned(t) && t.frozen == s.frozen && t.mode == s.mode && Left(s, t, Least(budget, |s.queue|))
    decreases budget
  {
    hide Owned, Left, DispatchOne, Members, TxSink, ReclaimSink, Taken, Chosen;
    if budget == 0 || s.queue == [] {
      LeftNone(s);
    } else {
      hide Dispatch;
      OneSent(s, w);
      DispatchUnfolds(s, budget, w);
      var t := DispatchOne(s, w).0;
      LeftCounts(s, t, 1);
      DispatchAll(t, budget - 1, w);
      LeftMore(s, t, Dispatch(t, budget - 1, w), 1, Least(budget - 1, |t.queue|));
    }
  }

  /** While the TX rings have room all of them are published and nothing is
      frozen, whatever the reclaim ring does. */
  lemma SchedulerSendsAll(s: State, budget: nat, w: World)
    requires Inv(s) && s.mode.Normal? && forall k :: w.txRoom(k)
    ensures var t := SchedulerTask(s, budget, w);
      && t.frozen == [] && t.mode.Normal? && Left(s, t, Least(budget, |s.queue|))
      && t.pending == s.pending && t.lastEpoch == s.lastEpoch
  {
    DispatchAll(s, budget, w);
    DispatchKeeps(s, budget, w);
    hide Owned, Left, Dispatch;
  }

  // ------------------------------------------------------------------
  // Receiving
  // ------------------------------------------------------------------

  /** From the tick on, the RX rings offer just these frames, all routable. Each
      takes two questions to the world, and after them the rings are empty. */
  ghost predicate Offers(w: World, tick: nat, frames: seq<nat>)
    decreases |frames|
  {
    if frames == [] then forall k :: k >= tick ==> w.rx(k) == None
    else w.rx(tick) == Some(frames[0]) && w.routable(tick + 1) && Offers(w, tick + 2, frames[1..])
  }

  /** New to the RTOS: block numbers it has no reference to, each once. */
  ghost predicate Fresh(s: State, frames: seq<nat>) {
    Distinct(frames) && forall f :: f in frames ==> f < BLOCK_COUNT && f !in s.refs
  }

  function Queued(s: State, f: nat): State {
    s.(refs := s.refs + {f}, queue := s.queue + [f], tick := s.tick + 2)
  }

  lemma FreshRest(s: State, frames: seq<nat>)
    requires Fresh(s, frames) && frames != []
    ensures frames[0] < BLOCK_COUNT && frames[0] !in s.refs && Fresh(Queued(s, frames[0]), frames[1..])
  {
    assert frames[0] in frames;
    forall g | g in frames[1..]
      ensures g < BLOCK_COUNT && g !in s.refs && g != frames[0]
    {
      assert g in frames;
    }
  }

  lemma RoomToQueue(s: State, f: nat)
    requires Owned(s) && f < BLOCK_COUNT && f !in s.refs
    ensures |s.queue| < BLOCK_COUNT
  {
    var u := s.(refs := s.refs + {f});
    assert Owned(u) && InHand(u, f);
    RoomForOneMore(u, f);
  }

  lemma OneReceived(s: State, w: World, f: nat)
    requires Inv(s) && s.mode.Normal? && f < BLOCK_COUNT && f !in s.refs
    requires w.rx(s.tick) == Some(f) && w.routable(s.tick + 1)
    ensures ReceiveOne(s, w) == (Queued(s, f), true) && Inv(Queued(s, f))
  {
    RoomToQueue(s, f);
    ReceiveOneKeeps(s, w);
    hide Inv, Owned, ReclaimSink;
  }

  lemma {:induction false} NothingReceived(s: State, budget: nat, w: World)
    requires s.mode.Normal? && Offers(w, s.tick, [])
    ensures var t := DrainRx(s, budget, w); t == s.(tick := t.tick) && t.tick >= s.tick
    decreases budget
  {
    if budget > 0 {
      assert w.rx(s.tick) == None;
      NothingReceived(Tick(s), budget - 1, w);
    }
  }

  /** All of them are queued, in order, up to the budget. */
  lemma {:induction false} AllReceived(s: State, budget: nat, w: World, frames: seq<nat>)
    requires Inv(s) && s.mode.Normal? && Fresh(s, frames) && Offers(w, s.tick, frames) && |frames| <= budget
    ensures var t := DrainRx(s, budget, w);
      t == s.(refs := s.refs + Members(frames), queue := s.queue + frames, tick := t.tick) && t.tick >= s.tick
    decreases budget
  {
    if frames == [] {
      NothingReceived(s, budget, w);
      assert s.queue + [] == s.queue && s.refs + Members([]) == s.refs;
    } else {
      FreshRest(s, frames);
      OneReceived(s, w, frames[0]);
      var u := Queued(s, frames[0]);
      assert DrainRx(s, budget, w) == DrainRx(u, budget - 1, w) by { hide Inv, ReceiveOne, Fresh, Offers; }
      hide Inv, ReceiveOne, Fresh, DrainRx, Members;
      AllReceived(u, budget - 1, w, frames[1..]);
      QueuedOn(s, frames);
    }
  }

  lemma QueuedOn(s: State, frames: seq<nat>)
    requires frames != []
    ensures Queued(s, frames[0]).queue + frames[1..] == s.queue + frames
    ensures Queued(s, frames[0]).refs + Members(frames[1..]) == s.refs + Members(frames)
  {
    MembersFirst(frames);
    assert [frames[0]] + frames[1..] == frames;
    hide Members;
  }

  lemma MembersFirst(s: seq<nat>)
    requires s != []
    ensures Members(s) == {s[0]} + Members(s[1..])
  {
    assert s == [s[0]] + s[1..];
  }

  /** The event task in NORMAL queues every routable frame the rings offer, in the
      order in which they were offered. */
  lemma EventsReceive(s: State, w: World, frames: seq<nat>)
    requires Inv(s) && s.mode.Normal? && Fresh(s, frames) && Offers(w, s.tick, frames)
    ensures var t := EventTask(s, w);
      t == s.(refs := s.refs + Members(frames), queue := s.queue + frames, tick := t.tick)
  {
    AtMostAll(frames);
    hide Inv;
    AllReceived(s, RX_BUDGET, w, frames);
  }

  lemma AtMostAll(frames: seq<nat>)
    requires Distinct(frames) && forall f :: f in frames ==> f < BLOCK_COUNT
    ensures |frames| <= RX_BUDGET
  {
    Fewer(frames, Below(BLOCK_COUNT));
  }

  // ------------------------------------------------------------------
  // A round of the runtime
  // ------------------------------------------------------------------

  /** The region's header is sound and its epoch is the one the RTOS knows. */
  predicate Known(s: State, w: World) {
    w.headerSound(s.tick) && w.regionEpoch(s.tick) == s.lastEpoch
  }

  /** A round that starts in NORMAL with a known region reaches the drain as it
      started. */
  lemma ReachesDrain(s: State, configured: Budgets, w: World)
    requires s.mode.Normal? && Known(s, w)
    ensures BeforeDrain(s, configured, w) == Tick(s) && AfterEvents(s, configured, w) == EventTask(Tick(s), w)
  {
    hide EventTask;
  }

  lemma RoundReceives(s: State, configured: Budgets, w: World, frames: seq<nat>)
    requires Inv(s) && s.mode.Normal? && Known(s, w)
    requires Fresh(s, frames) && Offers(w, s.tick + 1, frames)
    ensures var c := AfterEvents(s, configured, w);
      c == s.(refs := s.refs + Members(frames), queue := s.queue + frames, tick := c.tick) && Inv(c)
  {
    assert Inv(Tick(s)) && Fresh(Tick(s), frames) by { hide Known, Offers; }
    hide *;
    TickOnly(s);
    RoutingKeeps(s, configured, w);
    ReachesDrain(s, configured, w);
    EventsReceive(Tick(s), w, frames);
  }

  lemma TickOnly(s: State)
    ensures var t := Tick(s); t.tick == s.tick + 1 && t == s.(tick := t.tick)
  {
  }

  /** The scheduler's budget: 16 unless it is configured. */
  function Budget(configured: Budgets): nat {
    if configured.scheduler == 0 then 16 else configured.scheduler
  }

  /** A round in NORMAL queues what the RX rings offer, and then as many frames
      leave the queue as the scheduler's budget allows: those that were waiting
      and those that just came. */
  lemma RoundMoves(s: State, configured: Budgets, w: World, frames: seq<nat>)
    requires Inv(s) && s.mode.Normal? && Known(s, w) && Usable(w)
    requires Fresh(s, frames) && Offers(w, s.tick + 1, frames)
    ensures var c := AfterEvents(s, configured, w);
      && c == s.(refs := s.refs + Members(frames), queue := s.queue + frames, tick := c.tick)
      && Left(c, AfterRouting(s, configured, w), Least(Budget(configured), |s.queue| + |frames|))
  {
    hide *;
    RoundReceives(s, configured, w, frames);
    var c := AfterEvents(s, configured, w);
    SchedulerSends(c, Budget(configured), w);
    RoutingIs(s, configured, w);
  }

  lemma RoutingIs(s: State, configured: Budgets, w: World)
    ensures AfterRouting(s, configured, w) == SchedulerTask(AfterEvents(s, configured, w), Budget(configured), w)
  {
  }

  /** If the budget covers them and the TX rings have room, such a round publishes
      every one of them, and none is left. */
  lemma RoundEmptiesQueue(s: State, configured: Budgets, w: World, frames: seq<nat>)
    requires Inv(s) && s.mode.Normal? && Known(s, w) && forall k :: w.txRoom(k)
    requires Fresh(s, frames) && Offers(w, s.tick + 1, frames)
    requires |s.queue| + |frames| <= Budget(configured)
    ensures var d := AfterRouting(s, configured, w);
      && d.queue == [] && d.frozen == [] && d.mode.Normal? && s.out <= d.out
      && multiset(d.out[|s.out|..]) == multiset(s.queue) + multiset(frames)
      && d.pending == s.pending && d.lastEpoch == s.lastEpoch
  {
    assert s.frozen == [];
    hide *;
    RoundReceives(s, configured, w, frames);
    var c, d := AfterEvents(s, configured, w), AfterRouting(s, configured, w);
    SchedulerSendsAll(c, Budget(configured), w);
    RoutingIs(s, configured, w);
    LeastIs(Budget(configured), |c.queue|);
    AllOut(s, c, d, frames);
  }

  /** The same of a whole round, doorbell or periodic, with no recovery due and the
      heartbeat there. */
  lemma RoundDelivers(s: State, configured: Budgets, periodic: bool, w: World, frames: seq<nat>)
    requires Inv(s) && s.mode.Normal? && !s.pending && Steady(w, s.lastEpoch) && forall k :: w.txRoom(k)
    requires Fresh(s, frames) && Offers(w, s.tick + 1, frames)
    requires |s.queue| + |frames| <= Budget(configured)
    ensures var t := RunOnce(s, configured, periodic, false, w);
      && t.queue == [] && t.frozen == [] && t.mode.Normal? && s.out <= t.out
      && multiset(t.out[|s.out|..]) == multiset(s.queue) + multiset(frames)
  {
    assert Attaches(w, s.tick);
    RoundEmptiesQueue(s, configured, w, frames);
    var d := AfterRouting(s, configured, w);
    assert Attaches(w, d.tick);
    hide AfterRouting, Inv, Fresh, Offers, Recover;
  }

  lemma LeastIs(a: nat, b: nat)
    ensures b <= a ==> Least(a, b) == b
  {
  }

  lemma AllOut(s: State, c: State, d: State, frames: seq<nat>)
    requires c.queue == s.queue + frames && c.out == s.out && c.frozen == d.frozen == []
    requires Left(c, d, |c.queue|)
    ensures d.queue == [] && s.out <= d.out && multiset(d.out[|s.out|..]) == multiset(s.queue) + multiset(frames)
  {
    var sent: seq<nat> := d.out[|s.out|..];
    assert d.out == s.out + sent;
    assert multiset(d.out) == multiset(s.out) + multiset(sent);
    assert multiset(c.queue) == multiset(s.queue) + multiset(frames);
    assert d.queue == [] && multiset(d.queue) == multiset{} && multiset(c.frozen) == multiset(d.frozen) == multiset{};
    WithoutEmpty(multiset(c.queue), multiset(c.out), multiset(d.out), multiset(d.queue), multiset(c.frozen));
    Cancel(multiset(s.out), multiset(c.queue), multiset(sent));
  }

  lemma WithoutEmpty(a: multiset<nat>, b: multiset<nat>, c: multiset<nat>, d: multiset<nat>, e: multiset<nat>)
    requires a + b + e == d + c + e && d == multiset{}
    ensures a + b == c
  {
    assert a + b == (a + b + e) - e && c == (d + c + e) - e;
  }

  lemma Cancel(a: multiset<nat>, b: multiset<nat>, c: multiset<nat>)
    requires b + a == a + c
    ensures b == c
  {
    assert b == (b + a) - a && c == (a + c) - a;
  }
}
