/** How the component models meet in the gateway model. */
module Composition {
  import opened Types
  import opened Tracking
  import Q = PriorityQueue
  import G = Gateway
  import R = GatewayRtos
  import T = Tasks

  /** The gateway's queue and the scheduler's array hold the same items. */
  predicate SameQueue(items: seq<QueueItem>, ds: seq<Descriptor>) {
    && |items| == |ds|
    && forall i :: 0 <= i < |items| ==> items[i].frameId == ds[i].frame && items[i].priority == ds[i].priority
  }

  lemma FirstOfIs(ds: seq<Descriptor>, p: nat, k: nat)
    requires k < |ds| && ds[k].priority == p && forall j :: 0 <= j < k ==> ds[j].priority != p
    ensures G.FirstOf(ds, p) == k
  {
  }

  /** While arrival times do not run backwards, serving a class by oldest enqueue
      time is taking the first item of the class, as the gateway's Schedule does,
      and what stays behind is the same. */
  lemma ScheduleIsDequeue(s: Q.State, ds: seq<Descriptor>)
    requires Q.Valid(s) && s.items != [] && Q.Ordered(s.items) && SameQueue(s.items, ds)
    ensures var p := Q.Served(s);
      var k := G.FirstOf(ds, p);
      && k < |ds| && Q.Dequeue(s).1.frameId == ds[k].frame
      && SameQueue(Q.Dequeue(s).0.items, Without(ds, k))
  {
    var p := Q.Served(s);
    var k := Q.OldestIndex(s.items, p);
    Q.OldestIsHead(s.items, p);
    DequeueTakes(s);
    hide Q.Valid, Q.Ordered, Q.Served, Q.OldestIndex, Q.HasClass, Q.Dequeue, G.FirstOf;
    FirstOfIs(ds, p, k);
    DropSame(s.items, ds, k);
  }

  lemma DequeueTakes(s: Q.State)
    requires Q.Valid(s) && s.items != []
    ensures var k := Q.OldestIndex(s.items, Q.Served(s));
      k < |s.items| && Q.Dequeue(s).1 == s.items[k] && Q.Dequeue(s).0.items == Q.Without(s.items, k)
  {
  }

  lemma DropSame(items: seq<QueueItem>, ds: seq<Descriptor>, k: nat)
    requires SameQueue(items, ds) && k < |items|
    ensures SameQueue(Q.Without(items, k), Without(ds, k))
  {
  }

  // ------------------------------------------------------------------
  // The RTOS tasks inside the gateway
  // ------------------------------------------------------------------

  function Frames(ds: seq<Descriptor>): (r: seq<nat>)
    ensures |r| == |ds| && forall i :: 0 <= i < |r| ==> r[i] == ds[i].frame
  {
    seq(|ds|, i requires 0 <= i < |ds| => ds[i].frame)
  }

  function Kept(refs: seq<Option<Descriptor>>): (r: set<nat>)
    ensures forall f :: f in r <==> 0 <= f < |refs| && refs[f].Some?
  {
    set f | 0 <= f < |refs| && refs[f].Some?
  }

  /** What the tasks' model sees of a gateway state. */
  function Seen(s: G.System, t: T.State): T.State {
    t.(refs := Kept(s.refs), queue := Frames(s.queue), frozen := Frames(s.frozen))
  }

  lemma FramesDistinct(ds: seq<Descriptor>)
    requires NoRepeat(ds)
    ensures T.Distinct(Frames(ds))
  {
  }

  /** A frame is in the queue, or in the frozen list, exactly when it is tracked
      there, and then it is referenced. */
  lemma SeenAt(s: G.System, x: Place, f: nat)
    requires G.Inv(s) && (x == Queue || x == Frozen) && !s.rtos.Rewritten?
    ensures NoRepeat(G.Contents(s, x))
    ensures f in Frames(G.Contents(s, x)) <==> f < BLOCK_COUNT && IsAt(s.track[f], x)
    ensures f in Frames(G.Contents(s, x)) ==> s.refs[f].Some?
  {
    var ds := G.Contents(s, x);
    assert Holds(ds, s.track, x);
    if f in Frames(ds) {
      var i :| 0 <= i < |ds| && Frames(ds)[i] == f;
      R.LocalItem(s, x, i);
    }
    if f < BLOCK_COUNT && IsAt(s.track[f], x) {
      var i :| 0 <= i < |ds| && ds[i].frame == f;
      assert Frames(ds)[i] == f;
    }
  }

  /** Whenever the RTOS is not in the middle of forgetting a frozen reclaim, the
      gateway satisfies the ownership the tasks' laws start from. */
  lemma OwnershipHolds(s: G.System, t: T.State)
    requires G.Inv(s) && !s.rtos.Rewritten?
    ensures T.Owned(Seen(s, t))
  {
    G.InvShape(s);
    SeenAt(s, Queue, 0);
    SeenAt(s, Frozen, 0);
    assert G.Contents(s, Queue) == s.queue && G.Contents(s, Frozen) == s.frozen;
    hide G.Inv, G.Contents;
    FramesDistinct(s.queue);
    FramesDistinct(s.frozen);
    forall f | f in Frames(s.queue)
      ensures f in Kept(s.refs) && f !in Frames(s.frozen)
    {
      SeenAt(s, Queue, f);
      SeenAt(s, Frozen, f);
    }
    forall f | f in Frames(s.frozen)
      ensures f in Kept(s.refs)
    {
      SeenAt(s, Frozen, f);
    }
  }

  /** The gateway's two ways to give back a frame in hand are the tasks' reclaim
      sink: published and cleared when the ring has room, frozen when it has not. */
  lemma ReclaimSinkIsSteps(s: G.System, t: T.State, w: T.World)
    requires G.Inv(s) && (s.rtos.Holding? || s.rtos.InHand?)
    requires !w.reclaim(t.tick).Broken? && (w.reclaim(t.tick).Took? ==> |s.reclaim| < G.RING_DEPTH)
    ensures var f := s.rtos.item.frame;
      var u := if w.reclaim(t.tick).Took? then G.Run(s, [G.SendReclaim, G.ClearReference]) else G.Run(s, [G.Freeze]);
      var (v, ok) := T.ReclaimSink(Seen(s, t), f, w);
      ok && u.rtos.RtosIdle? && u.faults == 0 && Seen(u, v) == v
  {
    R.HandsOf(s);
    R.FrozenHasRoom(s);
    var d := s.rtos.item;
    SeenAt(s, Frozen, d.frame);
    if w.reclaim(t.tick).Took? {
      PublishedAndCleared(s, d);
    } else {
      JustFrozen(s, d);
    }
  }

  lemma PublishedAndCleared(s: G.System, d: Descriptor)
    requires G.Inv(s) && (s.rtos.Holding? || s.rtos.InHand?) && d == s.rtos.item && |s.reclaim| < G.RING_DEPTH
    ensures var u := G.Run(s, [G.SendReclaim, G.ClearReference]);
      && u.rtos.RtosIdle? && u.faults == 0 && u.queue == s.queue && u.frozen == s.frozen
      && Kept(u.refs) == Kept(s.refs) - {d.frame} && d.frame in Kept(s.refs)
  {
    R.HandsOf(s);
    G.InvShape(s);
    hide G.Inv;
    var a := s.(reclaim := s.reclaim + [s.track[d.frame].original], rtos := G.Gone(d.frame),
                track := G.Relocate(s.track, d.frame, Reclaim));
    SendReclaimIs(s, d, a);
    ClearReferenceIs(a, d.frame);
    G.RunTwo(s, G.SendReclaim, G.ClearReference);
    hide G.Step, G.Run, G.Shape;
  }

  lemma SendReclaimIs(s: G.System, d: Descriptor, a: G.System)
    requires G.Shape(s) && (s.rtos.Holding? || s.rtos.InHand?) && d == s.rtos.item && |s.reclaim| < G.RING_DEPTH
    requires R.InRtosHands(s, R.PlaceInHands(s.rtos), d)
    requires a == s.(reclaim := s.reclaim + [s.track[d.frame].original], rtos := G.Gone(d.frame),
                     track := G.Relocate(s.track, d.frame, Reclaim))
    ensures G.Step(s, G.SendReclaim) == a
  {
  }

  lemma ClearReferenceIs(a: G.System, f: nat)
    requires G.Shape(a) && a.rtos == G.Gone(f) && f < BLOCK_COUNT
    ensures G.Step(a, G.ClearReference) == a.(refs := a.refs[f := None], rtos := G.RtosIdle)
  {
  }

  lemma JustFrozen(s: G.System, d: Descriptor)
    requires G.Inv(s) && (s.rtos.Holding? || s.rtos.InHand?) && d == s.rtos.item
    ensures var u := G.Run(s, [G.Freeze]);
      && u.rtos.RtosIdle? && u.faults == 0 && u.queue == s.queue && Kept(u.refs) == Kept(s.refs)
      && Frames(u.frozen) == Frames(s.frozen) + [d.frame] && d.frame in Kept(s.refs)
  {
    R.HandsOf(s);
    G.InvShape(s);
    R.FrozenHasRoom(s);
    var a := G.Step(s, G.Freeze);
    G.StepShape(s, G.Freeze);
    assert [G.Freeze][1..] == [];
    assert G.Run(s, [G.Freeze]) == a;
  }
}
