/** The operations of the RTOS tasks as sequences of gateway steps. */
module TaskComposition {
  import opened Types
  import opened Tracking
  import opened Composition
  import G = Gateway
  import R = GatewayRtos
  import T = Tasks
  import O = Orphans

  /** Between tasks, a gateway state and a tasks' state that say the same. */
  ghost predicate Together(s: G.System, t: T.State) {
    G.Inv(s) && s.rtos.RtosIdle? && Seen(s, t) == t
  }

  // ------------------------------------------------------------------
  // Sending
  // ------------------------------------------------------------------

  lemma SendTxIs(s: G.System, d: Descriptor)
    requires G.Shape(s) && s.rtos == G.InHand(d) && InBounds(d) && |s.tx[d.target]| < G.RING_DEPTH
    requires s.refs[d.frame].Some? && InBounds(s.refs[d.frame].value) && s.refs[d.frame].value.frame == d.frame
    ensures var a := G.Step(s, G.SendTx);
      && G.Shape(a) && a.rtos == G.Gone(d.frame) && a.refs == s.refs && a.queue == s.queue && a.frozen == s.frozen
      && a.faults == s.faults
  {
    assert InBounds(G.TxDescriptor(s.refs[d.frame].value, d));
    hide InBounds, G.Relocate;
  }

  /** The TX sink: published and cleared when the ring takes the frame, otherwise
      nothing at all. */
  lemma TxSinkIsSteps(s: G.System, t: T.State, w: T.World)
    requires G.Inv(s) && s.rtos.InHand?
    requires s.rtos.item.target < INTERFACE_COUNT && (w.txRoom(t.tick) ==> |s.tx[s.rtos.item.target]| < G.RING_DEPTH)
    ensures var f := s.rtos.item.frame;
      var u := if w.txRoom(t.tick) then G.Run(s, [G.SendTx, G.ClearReference]) else s;
      var (v, ok) := T.TxSink(Seen(s, t), f, w);
      && ok == w.txRoom(t.tick) && u.faults == 0 && Seen(u, v) == v
      && u.rtos == if ok then G.RtosIdle else s.rtos
  {
    R.LocalItem(s, Hand, 0);
    G.InvShape(s);
    var d := s.rtos.item;
    assert s.faults == 0;
    hide G.Inv;
    if w.txRoom(t.tick) {
      SendTxIs(s, d);
      var a := G.Step(s, G.SendTx);
      ClearReferenceIs(a, d.frame);
      G.RunTwo(s, G.SendTx, G.ClearReference);
      hide G.Step, G.Run, G.Shape;
      KeptLess(a.refs, d.frame);
    }
  }

  lemma KeptLess(refs: seq<Option<Descriptor>>, f: nat)
    requires f < |refs|
    ensures Kept(refs[f := None]) == Kept(refs) - {f}
  {
  }

  // ------------------------------------------------------------------
  // Receiving
  // ------------------------------------------------------------------

  /** A descriptor taken from an RX ring is never referenced already. */
  lemma TakeRxIs(s: G.System, i: nat)
    requires G.Inv(s) && s.rtos.RtosIdle? && i < INTERFACE_COUNT && s.rx[i] != []
    ensures var a, d := G.Step(s, G.TakeRx(i)), s.rx[i][0];
      && G.Inv(a) && a.rtos == G.Holding(d) && a.queue == s.queue && a.frozen == s.frozen && d.frame < BLOCK_COUNT
      && Kept(a.refs) == Kept(s.refs) + {d.frame} && d.frame !in Kept(s.refs)
  {
    R.TakeRxInv(s, i);
    R.RxHead(s, i);
    G.InvShape(s);
    hide G.Inv;
  }

  /** A routable RX descriptor: taken and queued. */
  lemma ReceiveIsSteps(s: G.System, t: T.State, w: T.World, i: nat, target: nat)
    requires Together(s, t) && i < INTERFACE_COUNT && s.rx[i] != [] && target < INTERFACE_COUNT
    requires w.rx(t.tick) == Some(s.rx[i][0].frame) && w.routable(t.tick + 1)
    ensures var u := G.Run(s, [G.TakeRx(i), G.Enqueue(target)]);
      var (v, ok) := T.ReceiveOne(t, w);
      ok && Together(u, v)
  {
    TakeRxIs(s, i);
    var a, d := G.Step(s, G.TakeRx(i)), s.rx[i][0];
    G.InvShape(s);
    G.InvShape(a);
    R.QueueHasRoom(a);
    R.EnqueueInv(a, target);
    G.RunTwo(s, G.TakeRx(i), G.Enqueue(target));
    var u := G.Step(a, G.Enqueue(target));
    EnqueueIs(a, d, target);
    hide G.Inv, G.Step, G.Run, G.Shape;
    QueuedMore(s.queue, d.(target := target));
  }

  lemma EnqueueIs(a: G.System, d: Descriptor, target: nat)
    requires G.Shape(a) && a.rtos == G.Holding(d) && target < INTERFACE_COUNT && |a.queue| < BLOCK_COUNT
    ensures var u := G.Step(a, G.Enqueue(target));
      u.rtos.RtosIdle? && u.refs == a.refs && u.frozen == a.frozen && u.queue == a.queue + [d.(target := target)]
  {
  }

  lemma QueuedMore(ds: seq<Descriptor>, d: Descriptor)
    ensures Frames(ds + [d]) == Frames(ds) + [d.frame]
  {
  }

  /** An RX descriptor that cannot be routed: taken, and from there the reclaim
      sink's steps. */
  lemma RefusalIsSteps(s: G.System, t: T.State, w: T.World, i: nat)
    requires Together(s, t) && i < INTERFACE_COUNT && s.rx[i] != []
    requires w.rx(t.tick) == Some(s.rx[i][0].frame) && !w.routable(t.tick + 1)
    ensures var a := G.Step(s, G.TakeRx(i)); var later := t.(tick := t.tick + 2);
      && G.Inv(a) && a.rtos == G.Holding(s.rx[i][0])
      && T.ReceiveOne(t, w) == T.ReclaimSink(Seen(a, later), s.rx[i][0].frame, w)
  {
    TakeRxIs(s, i);
    hide G.Inv, G.Step;
  }

  // ------------------------------------------------------------------
  // Taking from the queue
  // ------------------------------------------------------------------

  /** The scheduler takes the first item of a class, and the item keeps its target
      unless the routes of the moment name another one. */
  lemma TakenIsSchedule(s: G.System, t: T.State, w: T.World, priority: nat, route: Option<nat>)
    requires Together(s, t) && t.queue != [] && T.Chosen(t, w) == G.FirstOf(s.queue, priority)
    ensures var a, f := G.Step(s, G.Schedule(priority, route)), t.queue[T.Chosen(t, w)];
      && G.Inv(a) && a.rtos.InHand? && a.rtos.item.frame == f && Seen(a, T.Taken(t, w)) == T.Taken(t, w)
      && G.FirstOf(s.queue, priority) < |s.queue|
      && var was := s.queue[G.FirstOf(s.queue, priority)];
      a.rtos.item == was.(target := if route.Some? && route.value < INTERFACE_COUNT then route.value else was.target)
  {
    R.ScheduleInv(s, priority, route);
    G.InvShape(s);
    hide G.Inv;
    var k := G.FirstOf(s.queue, priority);
    assert |s.queue| == |t.queue| && s.queue[k].frame == t.queue[k];
    var a := G.Step(s, G.Schedule(priority, route));
    assert a.queue == Without(s.queue, k) && a.refs == s.refs && a.frozen == s.frozen;
    hide G.Step, G.Shape;
    QueuedLess(s.queue, k);
  }

  lemma QueuedLess(ds: seq<Descriptor>, k: nat)
    requires k < |ds|
    ensures Frames(Without(ds, k)) == T.Drop(Frames(ds), k)
  {
  }

  // ------------------------------------------------------------------
  // Frozen reclaims
  // ------------------------------------------------------------------

  lemma RewriteIs(s: G.System)
    requires G.Shape(s) && s.rtos.RtosIdle? && s.frozen != [] && s.frozen[0].frame < BLOCK_COUNT
    requires |s.reclaim| < G.RING_DEPTH
    ensures G.Shape(G.Step(s, G.RetryFrozen))
    ensures var u := G.Step(G.Step(s, G.RetryFrozen), G.ForgetFrozen);
      && u.rtos.RtosIdle? && u.frozen == s.frozen[1..] && u.queue == s.queue && |u.reclaim| == |s.reclaim| + 1
      && u.refs == s.refs[s.frozen[0].frame := None]
  {
    assert G.Step(s, G.RetryFrozen).rtos == G.Rewritten(s.frozen[0].frame);
  }

  /** One frozen reclaim written after all. */
  lemma RewriteIsSteps(s: G.System, t: T.State)
    requires Together(s, t) && t.frozen != [] && |s.reclaim| < G.RING_DEPTH
    ensures var u := G.Run(s, [G.RetryFrozen, G.ForgetFrozen]);
      && Together(u, T.Published(t, t.frozen[0]).(frozen := t.frozen[1..])) && |u.reclaim| == |s.reclaim| + 1
  {
    G.InvShape(s);
    assert |s.frozen| == |t.frozen| && s.frozen[0].frame == t.frozen[0];
    assert G.Contents(s, Frozen)[0] == s.frozen[0];
    R.LocalItem(s, Frozen, 0);
    R.RetryFrozenInv(s);
    R.ForgetFrozenInv(G.Step(s, G.RetryFrozen));
    RewriteIs(s);
    G.RunTwo(s, G.RetryFrozen, G.ForgetFrozen);
    hide G.Inv, G.Step, G.Run, G.Shape, G.Contents;
    KeptLess(s.refs, s.frozen[0].frame);
    FrozenLess(s.frozen);
  }

  lemma FrozenLess(ds: seq<Descriptor>)
    requires ds != []
    ensures Frames(ds[1..]) == Frames(ds)[1..]
  {
  }

  /** The reclaim ring takes a reclaim only if there is room, counting those the
      same retry wrote before it. */
  ghost predicate RoomWhenTook(s: G.System, t: T.State, budget: nat, w: T.World) {
    forall k :: t.tick <= k < t.tick + budget && w.reclaim(k).Took? ==> |s.reclaim| + k - t.tick < G.RING_DEPTH
  }

  function OneWritten(t: T.State): T.State
    requires t.frozen != []
  {
    T.Published(t, t.frozen[0]).(frozen := t.frozen[1..])
  }

  lemma OneRewritten(s: G.System, t: T.State, budget: nat, w: T.World)
    requires Together(s, t) && RoomWhenTook(s, t, budget, w)
    requires budget > 0 && t.frozen != [] && w.reclaim(t.tick).Took?
    ensures G.Shape(s)
    ensures var u := G.Run(s, [G.RetryFrozen, G.ForgetFrozen]);
      Together(u, OneWritten(t)) && RoomWhenTook(u, OneWritten(t), budget - 1, w)
  {
    G.InvShape(s);
    RewriteIsSteps(s, t);
    hide Together, G.Run, G.Shape;
  }

  lemma RetryUnfolds(t: T.State, budget: nat, w: T.World)
    requires budget > 0 && t.frozen != [] && w.reclaim(t.tick).Took?
    ensures T.Retry(t, budget, w).0 == T.Retry(OneWritten(t), budget - 1, w).0
  {
  }

  /** The whole retry of frozen reclaims is a run of the gateway. */
  lemma {:induction false} RetryIsRun(s: G.System, t: T.State, budget: nat, w: T.World) returns (actions: seq<G.Action>)
    requires Together(s, t) && RoomWhenTook(s, t, budget, w)
    ensures G.Shape(s) && Together(G.Run(s, actions), T.Retry(t, budget, w).0)
    decreases budget
  {
    assert G.Inv(s);
    hide *;
    G.InvShape(s);
    if budget > 0 && t.frozen != [] && w.reclaim(t.tick).Took? {
      OneRewritten(s, t, budget, w);
      RetryUnfolds(t, budget, w);
      var first := [G.RetryFrozen, G.ForgetFrozen];
      var rest := RetryIsRun(G.Run(s, first), OneWritten(t), budget - 1, w);
      actions := first + rest;
      G.RunConcat(s, first, rest);
    } else {
      actions := [];
      RunNothing(s);
      RetryStops(s, t, budget, w);
    }
  }

  lemma RunNothing(s: G.System)
    requires G.Shape(s)
    ensures G.Run(s, []) == s
  {
  }

  lemma RetryStops(s: G.System, t: T.State, budget: nat, w: T.World)
    requires Together(s, t) && !(budget > 0 && t.frozen != [] && w.reclaim(t.tick).Took?)
    ensures Together(s, T.Retry(t, budget, w).0)
  {
    T.RetryStep(t, budget, w);
    hide G.Inv, T.Retry;
  }

  // ------------------------------------------------------------------
  // Recovery
  // ------------------------------------------------------------------

  /** In the gateway every reference is queued or frozen between tasks, so
      recovery's orphan scan has nothing to do. */
  lemma NoOrphansSeen(s: G.System, t: T.State)
    requires Together(s, t)
    ensures O.Claimed(t)
  {
    G.InvShape(s);
    forall f | f in t.refs
      ensures f in t.queue || f in t.frozen
    {
      SeenReference(s, f);
    }
  }

  lemma SeenReference(s: G.System, f: nat)
    requires G.Inv(s) && s.rtos.RtosIdle? && f in Kept(s.refs)
    ensures f in Frames(s.queue) || f in Frames(s.frozen)
  {
    G.InvShape(s);
    assert f < BLOCK_COUNT && G.Referenced(s, f);
    assert G.Contents(s, Queue) == s.queue && G.Contents(s, Frozen) == s.frozen;
    NotInHands(s, f);
    SeenAt(s, Queue, f);
    SeenAt(s, Frozen, f);
    hide G.Inv, G.Contents;
  }

  lemma NotInHands(s: G.System, f: nat)
    requires G.Inv(s) && s.rtos.RtosIdle? && f < BLOCK_COUNT
    ensures G.Shape(s) && !IsAt(s.track[f], Held) && !IsAt(s.track[f], Hand)
  {
    assert G.Contents(s, Held) == G.Contents(s, Hand) == [];
    assert Holds(G.Contents(s, Held), s.track, Held) && Holds(G.Contents(s, Hand), s.track, Hand);
  }
}
