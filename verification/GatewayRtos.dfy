/** Every RTOS step keeps the gateway invariant. */
module GatewayRtos {
  import opened Types
  import opened Tracking
  import opened PipelineOrder
  import opened LinuxPool
  import opened Gateway

  // ------------------------------------------------------------------
  // How blocks move between places
  // ------------------------------------------------------------------

  /** The k-th descriptor of x goes to the end of y, perhaps with a new target. */
  ghost predicate Moves(s: System, t: System, x: Place, k: nat, y: Place, d: Descriptor)
    requires Shape(s) && Shape(t)
  {
    && x != y && k < |Contents(s, x)| && d.frame == Contents(s, x)[k].frame
    && t.track == Relocate(s.track, d.frame, y)
    && Contents(t, x) == Without(Contents(s, x), k)
    && Contents(t, y) == Contents(s, y) + [d]
    && forall z: Place :: z != x && z != y ==> Contents(t, z) == Contents(s, z)
  }

  lemma MovesPlaced(s: System, t: System, x: Place, k: nat, y: Place, d: Descriptor)
    requires Shape(s) && Shape(t) && Placed(s) && Moves(s, t, x, k, y, d)
    requires d.frame < BLOCK_COUNT && s.track[d.frame].At? ==> Alike(d, s.track[d.frame].original, y)
    ensures Placed(t)
  {
    hide Contents, Holds, Alike;
    assert Holds(Contents(s, x), s.track, x) && Holds(Contents(s, y), s.track, y);
    FitsAt(Contents(s, x), s.track, x, k);
    var original := s.track[d.frame].original;
    HoldsOneLess(Contents(s, x), s.track, x, k, At(y, original));
    HoldsOneMore(Contents(s, y), s.track, y, d, original);
    forall z: Place
      ensures Holds(Contents(t, z), t.track, z)
    {
      assert Holds(Contents(s, z), s.track, z);
      if z != x && z != y {
        HoldsElsewhere(Contents(s, z), s.track, z, d.frame, At(y, original));
      }
    }
  }

  lemma FitsAt(ds: seq<Descriptor>, track: seq<Track>, x: Place, k: nat)
    requires Holds(ds, track, x) && k < |ds|
    ensures ds[k].frame < |track| && IsAt(track[ds[k].frame], x) && Alike(ds[k], track[ds[k].frame].original, x)
  {
    assert Fits(ds[k], track, x);
  }

  ghost predicate Leaves(s: System, t: System, x: Place)
    requires Shape(s) && Shape(t)
  {
    && Contents(s, x) != [] && Contents(s, x)[0].frame < BLOCK_COUNT
    && t.track == s.track[Contents(s, x)[0].frame := Away]
    && Contents(t, x) == Without(Contents(s, x), 0)
    && forall z: Place :: z != x ==> Contents(t, z) == Contents(s, z)
  }

  lemma LeavesPlaced(s: System, t: System, x: Place)
    requires Shape(s) && Shape(t) && Placed(s) && Leaves(s, t, x)
    ensures Placed(t)
  {
    hide Contents, Holds;
    assert Holds(Contents(s, x), s.track, x);
    FitsAt(Contents(s, x), s.track, x, 0);
    HoldsOneLess(Contents(s, x), s.track, x, 0, Away);
    var f := Contents(s, x)[0].frame;
    forall z: Place
      ensures Holds(Contents(t, z), t.track, z)
    {
      assert Holds(Contents(s, z), s.track, z);
      if z != x {
        HoldsElsewhere(Contents(s, z), s.track, z, f, Away);
      }
    }
  }

  ghost predicate Enters(s: System, t: System, y: Place, d: Descriptor)
    requires Shape(s) && Shape(t)
  {
    && d.frame < BLOCK_COUNT && s.track[d.frame].Away? && t.track == s.track[d.frame := At(y, d)]
    && Contents(t, y) == Contents(s, y) + [d]
    && forall z: Place :: z != y ==> Contents(t, z) == Contents(s, z)
  }

  lemma EntersPlaced(s: System, t: System, y: Place, d: Descriptor)
    requires Shape(s) && Shape(t) && Placed(s) && Enters(s, t, y, d) && Alike(d, d, y)
    ensures Placed(t)
  {
    hide Contents, Holds, Alike;
    assert Holds(Contents(s, y), s.track, y);
    HoldsOneMore(Contents(s, y), s.track, y, d, d);
    forall z: Place
      ensures Holds(Contents(t, z), t.track, z)
    {
      assert Holds(Contents(s, z), s.track, z);
      if z != y {
        HoldsElsewhere(Contents(s, z), s.track, z, d.frame, At(y, d));
      }
    }
  }

  lemma StaysPlaced(s: System, t: System)
    requires Shape(s) && Shape(t) && Placed(s) && t.track == s.track
    requires forall z: Place :: Contents(t, z) == Contents(s, z)
    ensures Placed(t)
  {
    hide Contents, Holds;
    forall z: Place
      ensures Holds(Contents(t, z), t.track, z)
    {
      assert Holds(Contents(s, z), s.track, z);
    }
  }

  // ------------------------------------------------------------------
  // RTOS steps keep the invariant
  // ------------------------------------------------------------------

  /** What no RTOS step touches. */
  predicate SameForLinux(s: System, t: System) {
    && t.pool == s.pool && t.memory == s.memory && t.linux == s.linux && t.log == s.log && t.fate == s.fate
    && t.delivered == s.delivered && t.faults == s.faults
  }

  lemma RelocateTied(s: System, t: System, f: nat, y: Place)
    requires Shape(s) && Shape(t) && AllTied(s) && SameForLinux(s, t) && t.track == Relocate(s.track, f, y)
    ensures AllTied(t)
  {
    hide Stamped;
    forall g | 0 <= g < BLOCK_COUNT
      ensures Tied(t, g)
    {
      assert Tied(s, g);
      StampedSame(s, t, g);
    }
  }

  lemma StampedSame(s: System, t: System, g: nat)
    requires Shape(s) && Shape(t) && SameForLinux(s, t) && g < BLOCK_COUNT
    ensures s.track[g].At? ==> (Stamped(t, g, s.track[g].original) <==> Stamped(s, g, s.track[g].original))
  {
  }

  lemma RtosKeeps(s: System, t: System, f: nat, y: Place)
    requires Inv(s) && Shape(t) && SameForLinux(s, t) && t.track == Relocate(s.track, f, y)
    requires Placed(t) && Sensible(t) && AllReferenced(t) && InOrder(t)
    ensures Inv(t)
  {
    RelocateTied(s, t, f, y);
    DeliveriesSame(s, t);
    AccountedSame(s, t);
    hide Accounted, Placed, Sensible, AllReferenced, InOrder, AllTied, Deliveries, Valid;
  }

  lemma RtosMove(s: System, t: System, x: Place, k: nat, y: Place, d: Descriptor)
    requires Inv(s) && Shape(t) && SameForLinux(s, t) && Moves(s, t, x, k, y, d)
    requires d.frame < BLOCK_COUNT && s.track[d.frame].At? ==> Alike(d, s.track[d.frame].original, y)
    requires Sensible(t) && AllReferenced(t) && InOrder(t)
    ensures Inv(t)
  {
    assert t.track == Relocate(s.track, d.frame, y);
    hide Valid, Deliveries, AllTied, Placed, InOrder, AllReferenced, Moves, Alike, Sensible, SameForLinux;
    MovesPlaced(s, t, x, k, y, d);
    RtosKeeps(s, t, d.frame, y);
  }

  /** Only the reference to block f has to be looked at again. */
  lemma ReferencedElsewhere(s: System, t: System, f: nat, y: Place)
    requires Shape(s) && Shape(t) && AllReferenced(s) && t.track == Relocate(s.track, f, y)
    requires forall g :: 0 <= g < BLOCK_COUNT && g != f ==>
      t.refs[g] == s.refs[g] && Leftover(t.rtos, g) == Leftover(s.rtos, g)
    requires f < BLOCK_COUNT ==> Referenced(t, f)
    ensures AllReferenced(t)
  {
    forall g | 0 <= g < BLOCK_COUNT
      ensures Referenced(t, g)
    {
      assert Referenced(s, g);
    }
  }

  lemma AccountedSame(s: System, t: System)
    requires Shape(s) && Shape(t) && Accounted(s) && t.log == s.log && t.fate == s.fate && t.delivered == s.delivered
    requires forall f :: 0 <= f < BLOCK_COUNT && s.track[f].At? ==>
      t.track[f].At? && t.track[f].original == s.track[f].original
    ensures Accounted(t)
  {
    forall n | 0 <= n < |t.log|
      ensures AccountedFor(t, n)
    {
      assert AccountedFor(s, n);
    }
  }

  lemma DeliveriesSame(s: System, t: System)
    requires Shape(s) && Shape(t) && Deliveries(s) && t.log == s.log && t.fate == s.fate && t.delivered == s.delivered
    ensures Deliveries(t)
  {
    forall i, k | 0 <= i < INTERFACE_COUNT && 0 <= k < |t.delivered[i]|
      ensures Delivered(t, i, t.delivered[i][k])
    {
      assert Delivered(s, i, s.delivered[i][k]);
    }
  }

  lemma Ranked(s: System, source: nat, ring: nat, priority: nat)
    requires Shape(s) && InOrder(s) && source < INTERFACE_COUNT && ring < INTERFACE_COUNT
    ensures Ordered(Line(s, source, ring), source, priority, |s.log|)
  {
  }

  lemma HeadOf(ds: seq<Descriptor>)
    requires ds != []
    ensures Tags(ds) == [TagOf(ds[0])] + Tags(ds[1..]) && Without(ds, 0) == ds[1..]
  {
  }

  /** The head of an RX ring is the descriptor Linux published, unregistered. */
  lemma RxHead(s: System, i: nat)
    requires Inv(s) && s.rtos.RtosIdle? && i < INTERFACE_COUNT && s.rx[i] != []
    ensures var d := s.rx[i][0];
      InBounds(d) && d.source == i && s.track[d.frame] == At(Rx(i), d) && s.refs[d.frame] == None
  {
    var d := s.rx[i][0];
    assert Contents(s, Rx(i)) == s.rx[i];
    assert Holds(Contents(s, Rx(i)), s.track, Rx(i));
    FitsAt(s.rx[i], s.track, Rx(i), 0);
    assert Tied(s, d.frame);
    assert Referenced(s, d.frame);
    hide Placed, InOrder, Deliveries, Valid, Holds;
  }

  lemma TakeRxOrder(s: System, t: System, i: nat, source: nat, ring: nat, priority: nat)
    requires Shape(s) && Shape(t) && InOrder(s) && SameForLinux(s, t) && i < INTERFACE_COUNT && s.rx[i] != []
    requires s.rtos.RtosIdle? && t.rtos == Holding(s.rx[i][0]) && s.rx[i][0].source == i
    requires t.rx == s.rx[i := s.rx[i][1..]] && t.tx == s.tx && t.queue == s.queue
    requires source < INTERFACE_COUNT && ring < INTERFACE_COUNT
    ensures Ordered(Line(t, source, ring), source, priority, |t.log|)
  {
    Ranked(s, source, ring, priority);
    var d := s.rx[i][0];
    HeadOf(s.rx[i]);
    assert Tags([d]) == [TagOf(d)];
    var a, q := Tags(s.delivered[ring] + Contents(s, Tx(ring))), Tags(s.queue);
    assert Line(s, source, ring) == PipelineLine(a, [], q, [], Tags(s.rx[source]));
    assert Line(t, source, ring) == PipelineLine(a, [], q, [TagOf(d)], Tags(t.rx[source]));
    hide Ordered, Contents, Line;
    HeldFromRx(a, q, TagOf(d), Tags(t.rx[source]));
    if source != i {
      HeldForeign(a, q, TagOf(d), Tags(s.rx[source]), source, priority, |s.log|);
    }
  }

  lemma HeldFromRx(a: seq<Tag>, q: seq<Tag>, x: Tag, r: seq<Tag>)
    ensures PipelineLine(a, [], q, [], [x] + r) == PipelineLine(a, [], q, [x], r)
  {
  }

  lemma HeldForeign(a: seq<Tag>, q: seq<Tag>, x: Tag, r: seq<Tag>, source: nat, priority: nat, next: nat)
    requires Ordered(PipelineLine(a, [], q, [], r), source, priority, next) && x.source != source
    ensures Ordered(PipelineLine(a, [], q, [x], r), source, priority, next)
  {
    assert PipelineLine(a, [], q, [], r) == (a + [] + q) + r;
    assert PipelineLine(a, [], q, [x], r) == (a + [] + q) + [x] + r;
    OrderedForeign(a + [] + q, x, r, source, priority, next);
  }

  /** The RX descriptor d goes from ring i into the RTOS's hands. */
  predicate TookRx(s: System, t: System, i: nat, d: Descriptor)
    requires Shape(s)
  {
    && s.rtos.RtosIdle? && i < INTERFACE_COUNT && s.rx[i] != [] && d == s.rx[i][0]
    && InBounds(d) && d.source == i && s.track[d.frame] == At(Rx(i), d) && s.refs[d.frame] == None
    && t == s.(rx := s.rx[i := s.rx[i][1..]], refs := s.refs[d.frame := Some(d)], rtos := Holding(d),
               track := Relocate(s.track, d.frame, Held))
  }

  lemma TakeRxInv(s: System, i: nat)
    requires Inv(s)
    ensures Inv(Step(s, TakeRx(i)))
  {
    if s.rtos.RtosIdle? && i < INTERFACE_COUNT && s.rx[i] != [] {
      RxHead(s, i);
      assert TookRx(s, Step(s, TakeRx(i)), i, s.rx[i][0]);
      hide *;
      var t := Step(s, TakeRx(i));
      TakeRxBooks(s, t, i, s.rx[i][0]);
      TakeRxMoves(s, t, i, s.rx[i][0]);
      TakeRxInOrder(s, t, i, s.rx[i][0]);
      RtosMove(s, t, Rx(i), 0, Held, s.rx[i][0]);
    }
  }

  lemma TakeRxBooks(s: System, t: System, i: nat, d: Descriptor)
    requires Shape(s) && Sensible(s) && AllReferenced(s) && TookRx(s, t, i, d)
    ensures Shape(t) && SameForLinux(s, t) && Sensible(t) && AllReferenced(t)
  {
    ReferencedElsewhere(s, t, d.frame, Held);
    hide AllReferenced;
  }

  lemma TakeRxMoves(s: System, t: System, i: nat, d: Descriptor)
    requires Shape(s) && Shape(t) && TookRx(s, t, i, d)
    ensures Moves(s, t, Rx(i), 0, Held, d) && Alike(d, s.track[d.frame].original, Held)
  {
    HeadOf(s.rx[i]);
    assert Contents(t, Rx(i)) == Without(Contents(s, Rx(i)), 0);
    assert Contents(t, Held) == Contents(s, Held) + [d];
    TakeRxElsewhere(s, t, i, d);
    hide Relocate, Rest, Contents, Without;
  }

  lemma TakeRxElsewhere(s: System, t: System, i: nat, d: Descriptor)
    requires Shape(s) && Shape(t) && TookRx(s, t, i, d)
    ensures forall z: Place :: z != Rx(i) && z != Held ==> Contents(t, z) == Contents(s, z)
  {
    hide Relocate, Rest;
  }

  lemma TakeRxInOrder(s: System, t: System, i: nat, d: Descriptor)
    requires Shape(s) && InOrder(s) && TookRx(s, t, i, d) && Shape(t)
    ensures InOrder(t)
  {
    hide Ordered, Line;
    forall source: nat, ring: nat, priority: nat | source < INTERFACE_COUNT && ring < INTERFACE_COUNT
      ensures Ordered(Line(t, source, ring), source, priority, |t.log|)
    {
      TakeRxOrder(s, t, i, source, ring, priority);
    }
  }

  /** What the RTOS holds is tracked, and its reference is the original. */
  lemma LocalItem(s: System, x: Place, k: nat)
    requires Inv(s) && k < |Contents(s, x)| && (x.Held? || x.Hand? || x.Queue? || x.Frozen?)
    ensures var d := Contents(s, x)[k];
      && d.frame < BLOCK_COUNT && IsAt(s.track[d.frame], x) && Alike(d, s.track[d.frame].original, x)
      && InBounds(s.track[d.frame].original) && InBounds(d)
    ensures var d := Contents(s, x)[k];
      s.refs[d.frame] == Some(s.track[d.frame].original)
  {
    var d := Contents(s, x)[k];
    assert Holds(Contents(s, x), s.track, x);
    FitsAt(Contents(s, x), s.track, x, k);
    assert Tied(s, d.frame);
    assert Referenced(s, d.frame);
    hide Placed, InOrder, Deliveries, Valid, Holds, Contents;
  }

  // The item in hand is queued.

  lemma QueueHasRoom(s: System)
    requires Inv(s) && s.rtos.Holding?
    ensures |s.queue| < BLOCK_COUNT
  {
    var d := s.rtos.item;
    LocalItem(s, Held, 0);
    assert Holds(Contents(s, Queue), s.track, Queue);
    forall i | 0 <= i < |s.queue|
      ensures s.queue[i].frame in Below(BLOCK_COUNT) - {d.frame}
    {
      FitsAt(s.queue, s.track, Queue, i);
    }
    DistinctFrames(s.queue, Below(BLOCK_COUNT) - {d.frame});
  }

  predicate Enqueued(s: System, t: System, d: Descriptor, target: nat)
    requires Shape(s)
  {
    && s.rtos == Holding(d) && target < INTERFACE_COUNT && d.frame < BLOCK_COUNT
    && IsAt(s.track[d.frame], Held) && Alike(d, s.track[d.frame].original, Held)
    && s.refs[d.frame] == Some(s.track[d.frame].original)
    && t == s.(queue := s.queue + [d.(target := target)], rtos := RtosIdle, track := Relocate(s.track, d.frame, Queue))
  }

  lemma EnqueueInv(s: System, target: nat)
    requires Inv(s)
    ensures Inv(Step(s, Enqueue(target)))
  {
    if s.rtos.Holding? && target < INTERFACE_COUNT {
      LocalItem(s, Held, 0);
      QueueHasRoom(s);
      var d, t := s.rtos.item, Step(s, Enqueue(target));
      assert Enqueued(s, t, d, target);
      hide *;
      EnqueueBooks(s, t, d, target);
      EnqueueMoves(s, t, d, target);
      EnqueueInOrder(s, t, d, target);
      RtosMove(s, t, Held, 0, Queue, d.(target := target));
    }
  }

  lemma EnqueueBooks(s: System, t: System, d: Descriptor, target: nat)
    requires Shape(s) && Sensible(s) && AllReferenced(s) && Enqueued(s, t, d, target)
    ensures Shape(t) && SameForLinux(s, t) && Sensible(t) && AllReferenced(t)
  {
    ReferencedElsewhere(s, t, d.frame, Queue);
    hide AllReferenced;
  }

  lemma EnqueueMoves(s: System, t: System, d: Descriptor, target: nat)
    requires Shape(s) && Shape(t) && Enqueued(s, t, d, target)
    ensures Moves(s, t, Held, 0, Queue, d.(target := target))
    ensures Alike(d.(target := target), s.track[d.frame].original, Queue)
  {
    hide Relocate, Rest;
  }

  lemma EnqueueInOrder(s: System, t: System, d: Descriptor, target: nat)
    requires Shape(s) && InOrder(s) && Enqueued(s, t, d, target) && Shape(t)
    ensures InOrder(t)
  {
    Join(s.queue, [d.(target := target)]);
    forall source: nat, ring: nat, priority: nat | source < INTERFACE_COUNT && ring < INTERFACE_COUNT
      ensures Ordered(Line(t, source, ring), source, priority, |t.log|)
    {
      Ranked(s, source, ring, priority);
      assert Tags([d]) == Tags([d.(target := target)]) == [TagOf(d)];
      QueueFromHeld(Tags(s.delivered[ring] + Contents(s, Tx(ring))), Tags(s.queue), TagOf(d), Tags(s.rx[source]));
    }
  }

  lemma QueueFromHeld(a: seq<Tag>, q: seq<Tag>, x: Tag, r: seq<Tag>)
    ensures PipelineLine(a, [], q, [x], r) == PipelineLine(a, [], q + [x], [], r)
  {
    assert a + [] + q + [x] + [] + r == a + [] + (q + [x]) + [] + r;
  }

  // An item is taken from the queue.

  predicate Scheduled(s: System, t: System, k: nat, d: Descriptor)
    requires Shape(s)
  {
    && s.rtos.RtosIdle? && k < |s.queue| && d == s.queue[k].(target := d.target)
    && (forall j :: 0 <= j < k ==> s.queue[j].priority != d.priority)
    && d.frame < BLOCK_COUNT && IsAt(s.track[d.frame], Queue) && Alike(d, s.track[d.frame].original, Queue)
    && s.refs[d.frame] == Some(s.track[d.frame].original)
    && t == s.(queue := Without(s.queue, k), rtos := InHand(d), track := Relocate(s.track, d.frame, Hand))
  }

  lemma ScheduleInv(s: System, priority: nat, route: Option<nat>)
    requires Inv(s)
    ensures Inv(Step(s, Schedule(priority, route)))
  {
    var k := FirstOf(s.queue, priority);
    if s.rtos.RtosIdle? && k < |s.queue| {
      LocalItem(s, Queue, k);
      var t := Step(s, Schedule(priority, route));
      assert Scheduled(s, t, k, t.rtos.item);
      hide *;
      ScheduleBooks(s, t, k, t.rtos.item);
      ScheduleMoves(s, t, k, t.rtos.item);
      ScheduleInOrder(s, t, k, t.rtos.item);
      RtosMove(s, t, Queue, k, Hand, t.rtos.item);
    }
  }

  lemma ScheduleBooks(s: System, t: System, k: nat, d: Descriptor)
    requires Shape(s) && Sensible(s) && AllReferenced(s) && Scheduled(s, t, k, d)
    ensures Shape(t) && SameForLinux(s, t) && Sensible(t) && AllReferenced(t) && t.rtos.InHand?
  {
    ReferencedElsewhere(s, t, d.frame, Hand);
    hide AllReferenced;
  }

  lemma ScheduleMoves(s: System, t: System, k: nat, d: Descriptor)
    requires Shape(s) && Shape(t) && Scheduled(s, t, k, d)
    ensures Moves(s, t, Queue, k, Hand, d) && Alike(d, s.track[d.frame].original, Hand)
  {
    hide Relocate, Rest;
  }

  lemma ScheduleInOrder(s: System, t: System, k: nat, d: Descriptor)
    requires Shape(s) && InOrder(s) && Scheduled(s, t, k, d) && Shape(t)
    ensures InOrder(t)
  {
    var over, behind := s.queue[..k], s.queue[k + 1..];
    assert s.queue == over + [s.queue[k]] + behind;
    Join(over + [s.queue[k]], behind);
    Join(over, [s.queue[k]]);
    Join(over, behind);
    assert Without(s.queue, k) == over + behind;
    forall source: nat, ring: nat, priority: nat | source < INTERFACE_COUNT && ring < INTERFACE_COUNT
      ensures Ordered(Line(t, source, ring), source, priority, |t.log|)
    {
      Ranked(s, source, ring, priority);
      assert Tags([d]) == Tags([s.queue[k]]) == [TagOf(d)];
      HandFromQueue(Tags(s.delivered[ring] + Contents(s, Tx(ring))), Tags(over), TagOf(d), Tags(behind),
                    Tags(s.rx[source]), source, priority, |s.log|);
    }
  }

  lemma HandFromQueue(a: seq<Tag>, over: seq<Tag>, x: Tag, behind: seq<Tag>, r: seq<Tag>,
                      source: nat, priority: nat, next: nat)
    requires Ordered(PipelineLine(a, [], over + [x] + behind, [], r), source, priority, next)
    requires forall i :: 0 <= i < |over| ==> over[i].priority != x.priority
    ensures Ordered(PipelineLine(a, [x], over + behind, [], r), source, priority, next)
  {
    assert PipelineLine(a, [], over + [x] + behind, [], r) == a + over + [x] + (behind + r);
    assert PipelineLine(a, [x], over + behind, [], r) == a + [x] + over + (behind + r);
    OrderedForward(a, over, x, behind + r, source, priority, next);
  }

  // The item in hand goes to its TX ring.

  predicate SentTx(s: System, t: System, d: Descriptor)
    requires Shape(s)
  {
    && s.rtos == InHand(d) && InBounds(d)
    && IsAt(s.track[d.frame], Hand) && Alike(d, s.track[d.frame].original, Hand)
    && s.refs[d.frame] == Some(s.track[d.frame].original)
    && t == s.(tx := s.tx[d.target := s.tx[d.target] + [d]], rtos := Gone(d.frame),
               track := Relocate(s.track, d.frame, Tx(d.target)))
  }

  lemma SendTxInv(s: System)
    requires Inv(s)
    ensures Inv(Step(s, SendTx))
  {
    if s.rtos.InHand? {
      LocalItem(s, Hand, 0);
      var d, t := s.rtos.item, Step(s, SendTx);
      if |s.tx[d.target]| < RING_DEPTH {
        assert SentTx(s, t, d);
        hide *;
        SendTxBooks(s, t, d);
        SendTxMoves(s, t, d);
        SendTxInOrder(s, t, d);
        RtosMove(s, t, Hand, 0, Tx(d.target), d);
      }
    }
  }

  lemma SendTxBooks(s: System, t: System, d: Descriptor)
    requires Shape(s) && Sensible(s) && AllReferenced(s) && SentTx(s, t, d)
    ensures Shape(t) && SameForLinux(s, t) && Sensible(t) && AllReferenced(t)
  {
    ReferencedElsewhere(s, t, d.frame, Tx(d.target));
    hide AllReferenced;
  }

  lemma SendTxMoves(s: System, t: System, d: Descriptor)
    requires Shape(s) && Sensible(s) && Shape(t) && SentTx(s, t, d)
    ensures Moves(s, t, Hand, 0, Tx(d.target), d) && Alike(d, s.track[d.frame].original, Tx(d.target))
  {
    RestOneMore(s.tx[d.target], d, s.linux == TxTaken(d.target));
    hide Relocate, Rest;
  }

  lemma RestOneMore(ds: seq<Descriptor>, d: Descriptor, taken: bool)
    requires taken ==> ds != []
    ensures Rest(ds + [d], taken) == Rest(ds, taken) + [d]
  {
  }

  lemma SendTxInOrder(s: System, t: System, d: Descriptor)
    requires Shape(s) && InOrder(s) && SentTx(s, t, d) && Shape(t) && Sensible(s)
    ensures InOrder(t)
  {
    RestOneMore(s.tx[d.target], d, s.linux == TxTaken(d.target));
    forall source: nat, ring: nat, priority: nat | source < INTERFACE_COUNT && ring < INTERFACE_COUNT
      ensures Ordered(Line(t, source, ring), source, priority, |t.log|)
    {
      Ranked(s, source, ring, priority);
      var a := Tags(s.delivered[ring] + Contents(s, Tx(ring)));
      assert Tags([d]) == [TagOf(d)];
      hide Ordered;
      if ring == d.target {
        assert s.delivered[ring] + Contents(t, Tx(ring)) == (s.delivered[ring] + Contents(s, Tx(ring))) + [d];
        Join(s.delivered[ring] + Contents(s, Tx(ring)), [d]);
        OutFromHand(a, TagOf(d), Tags(s.queue), Tags(s.rx[source]));
      } else {
        DropHand(a, TagOf(d), Tags(s.queue), Tags(s.rx[source]), source, priority, |s.log|);
      }
    }
  }

  lemma OutFromHand(a: seq<Tag>, x: Tag, q: seq<Tag>, r: seq<Tag>)
    ensures PipelineLine(a, [x], q, [], r) == PipelineLine(a + [x], [], q, [], r)
  {
  }

  lemma DropHand(a: seq<Tag>, x: Tag, q: seq<Tag>, r: seq<Tag>, source: nat, priority: nat, next: nat)
    requires Ordered(PipelineLine(a, [x], q, [], r), source, priority, next)
    ensures Ordered(PipelineLine(a, [], q, [], r), source, priority, next)
  {
    assert PipelineLine(a, [x], q, [], r) == a + [x] + (q + r);
    assert PipelineLine(a, [], q, [], r) == a + (q + r);
    OrderedDrop(a, x, q + r, source, priority, next);
  }

  lemma DropHeld(a: seq<Tag>, x: Tag, q: seq<Tag>, r: seq<Tag>, source: nat, priority: nat, next: nat)
    requires Ordered(PipelineLine(a, [], q, [x], r), source, priority, next)
    ensures Ordered(PipelineLine(a, [], q, [], r), source, priority, next)
  {
    assert PipelineLine(a, [], q, [x], r) == (a + q) + [x] + r;
    assert PipelineLine(a, [], q, [], r) == (a + q) + r;
    OrderedDrop(a + q, x, r, source, priority, next);
  }

  // The item in hand, routed or not, is given back: published or frozen.

  /** The RTOS holds d at place x and has its reference. */
  predicate InRtosHands(s: System, x: Place, d: Descriptor)
    requires Shape(s)
  {
    && (x.Held? || x.Hand?) && Contents(s, x) == [d] && d.frame < BLOCK_COUNT
    && IsAt(s.track[d.frame], x) && Alike(d, s.track[d.frame].original, x)
    && InBounds(s.track[d.frame].original) && s.refs[d.frame] == Some(s.track[d.frame].original)
  }

  function PlaceInHands(pc: RtosPc): Place {
    if pc.Holding? then Held else Hand
  }

  lemma HandsOf(s: System)
    requires Inv(s) && (s.rtos.Holding? || s.rtos.InHand?)
    ensures InRtosHands(s, PlaceInHands(s.rtos), s.rtos.item)
  {
    LocalItem(s, PlaceInHands(s.rtos), 0);
  }

  /** An item that leaves the hands for neither the queue nor a TX ring. */
  lemma GiveBackInOrder(s: System, t: System, x: Place, d: Descriptor)
    requires Shape(s) && InOrder(s) && Shape(t) && InRtosHands(s, x, d) && SameForLinux(s, t)
    requires t.tx == s.tx && t.rx == s.rx && t.queue == s.queue && (t.rtos.RtosIdle? || t.rtos.Gone?)
    ensures InOrder(t)
  {
    forall source: nat, ring: nat, priority: nat | source < INTERFACE_COUNT && ring < INTERFACE_COUNT
      ensures Ordered(Line(t, source, ring), source, priority, |t.log|)
    {
      Ranked(s, source, ring, priority);
      var a := Tags(s.delivered[ring] + Contents(s, Tx(ring)));
      assert Tags([d]) == [TagOf(d)];
      hide Ordered;
      if x.Hand? {
        DropHand(a, TagOf(d), Tags(s.queue), Tags(s.rx[source]), source, priority, |s.log|);
      } else {
        DropHeld(a, TagOf(d), Tags(s.queue), Tags(s.rx[source]), source, priority, |s.log|);
      }
    }
  }

  predicate SentReclaim(s: System, t: System, x: Place, d: Descriptor)
    requires Shape(s)
  {
    InRtosHands(s, x, d) && t == s.(reclaim := s.reclaim + [s.track[d.frame].original], rtos := Gone(d.frame),
                                    track := Relocate(s.track, d.frame, Reclaim))
  }

  lemma SendReclaimInv(s: System)
    requires Inv(s)
    ensures Inv(Step(s, SendReclaim))
  {
    if (s.rtos.Holding? || s.rtos.InHand?) && |s.reclaim| < RING_DEPTH {
      HandsOf(s);
      var x, d, t := PlaceInHands(s.rtos), s.rtos.item, Step(s, SendReclaim);
      assert SentReclaim(s, t, x, d);
      hide *;
      SendReclaimBooks(s, t, x, d);
      SendReclaimMoves(s, t, x, d);
      GiveBackInOrder(s, t, x, d);
      RtosMove(s, t, x, 0, Reclaim, s.track[d.frame].original);
    } else if s.rtos.Holding? || s.rtos.InHand? {
      HandsOf(s);
    }
  }

  lemma SendReclaimBooks(s: System, t: System, x: Place, d: Descriptor)
    requires Shape(s) && Sensible(s) && AllReferenced(s) && SentReclaim(s, t, x, d)
    ensures Shape(t) && SameForLinux(s, t) && Sensible(t) && AllReferenced(t) && InRtosHands(s, x, d)
    ensures t.tx == s.tx && t.rx == s.rx && t.queue == s.queue && t.rtos.Gone?
  {
    ReferencedElsewhere(s, t, d.frame, Reclaim);
    hide AllReferenced;
  }

  lemma SendReclaimMoves(s: System, t: System, x: Place, d: Descriptor)
    requires Shape(s) && Sensible(s) && Shape(t) && SentReclaim(s, t, x, d)
    ensures d.frame < BLOCK_COUNT && s.track[d.frame].At?
    ensures var o := s.track[d.frame].original;
      o.frame == d.frame && Moves(s, t, x, 0, Reclaim, o) && Alike(o, o, Reclaim)
  {
    RestOneMore(s.reclaim, s.track[d.frame].original, s.linux.ReclaimTaken?);
    hide Relocate, Rest;
  }

  predicate IsFreezeOf(s: System, t: System, x: Place, d: Descriptor)
    requires Shape(s)
  {
    InRtosHands(s, x, d) && t == s.(frozen := s.frozen + [s.track[d.frame].original], rtos := RtosIdle,
                                    track := Relocate(s.track, d.frame, Frozen))
  }

  /** A reclaim is never frozen twice and there is always room to freeze it. */
  lemma FrozenHasRoom(s: System)
    requires Inv(s) && (s.rtos.Holding? || s.rtos.InHand?)
    ensures !HasFrame(s.frozen, s.rtos.item.frame) && |s.frozen| < BLOCK_COUNT
  {
    HandsOf(s);
    var f := s.rtos.item.frame;
    assert Contents(s, Frozen) == s.frozen;
    assert Holds(Contents(s, Frozen), s.track, Frozen);
    forall i | 0 <= i < |s.frozen|
      ensures s.frozen[i].frame != f && s.frozen[i].frame in Below(BLOCK_COUNT) - {f}
    {
      FitsAt(s.frozen, s.track, Frozen, i);
    }
    DistinctFrames(s.frozen, Below(BLOCK_COUNT) - {f});
  }

  lemma FreezeInv(s: System)
    requires Inv(s)
    ensures Inv(Step(s, Freeze))
  {
    if s.rtos.Holding? || s.rtos.InHand? {
      HandsOf(s);
      FrozenHasRoom(s);
      var x, d, t := PlaceInHands(s.rtos), s.rtos.item, Step(s, Freeze);
      assert IsFreezeOf(s, t, x, d);
      hide *;
      FreezeBooks(s, t, x, d);
      FreezeMoves(s, t, x, d);
      GiveBackInOrder(s, t, x, d);
      RtosMove(s, t, x, 0, Frozen, s.track[d.frame].original);
    }
  }

  lemma FreezeBooks(s: System, t: System, x: Place, d: Descriptor)
    requires Shape(s) && Sensible(s) && AllReferenced(s) && IsFreezeOf(s, t, x, d)
    ensures Shape(t) && SameForLinux(s, t) && Sensible(t) && AllReferenced(t) && InRtosHands(s, x, d)
    ensures t.tx == s.tx && t.rx == s.rx && t.queue == s.queue && t.rtos.RtosIdle?
  {
    ReferencedElsewhere(s, t, d.frame, Frozen);
    hide AllReferenced;
  }

  lemma FreezeMoves(s: System, t: System, x: Place, d: Descriptor)
    requires Shape(s) && Sensible(s) && Shape(t) && IsFreezeOf(s, t, x, d)
    ensures d.frame < BLOCK_COUNT && s.track[d.frame].At?
    ensures var o := s.track[d.frame].original;
      o.frame == d.frame && Moves(s, t, x, 0, Frozen, o) && Alike(o, o, Frozen)
  {
    hide Relocate;
  }

  // References are cleared, frozen reclaims written after all.

  lemma RtosStays(s: System, t: System)
    requires Inv(s) && Shape(t) && SameForLinux(s, t) && t.track == s.track
    requires forall z: Place :: Contents(t, z) == Contents(s, z)
    requires t.rx == s.rx && t.queue == s.queue && Sensible(t) && AllReferenced(t)
    ensures Inv(t)
  {
    hide Contents, Valid, Ordered;
    StaysPlaced(s, t);
    assert Relocate(s.track, BLOCK_COUNT, Queue) == s.track;
    assert forall source: nat, ring: nat | source < INTERFACE_COUNT && ring < INTERFACE_COUNT ::
      Line(t, source, ring) == Line(s, source, ring);
    hide Line, Placed, AllTied, Deliveries, AllReferenced, Sensible;
    assert InOrder(t);
    RtosKeeps(s, t, BLOCK_COUNT, Queue);
  }

  lemma ReferencedOnce(s: System, t: System, f: nat)
    requires Shape(s) && Shape(t) && AllReferenced(s) && t.track == s.track && f < BLOCK_COUNT
    requires Leftover(s.rtos, f) && t.rtos.RtosIdle? && t.refs == s.refs[f := None]
    ensures AllReferenced(t)
  {
    forall g | 0 <= g < BLOCK_COUNT
      ensures Referenced(t, g)
    {
      assert Referenced(s, g);
    }
  }

  lemma ClearReferenceInv(s: System)
    requires Inv(s)
    ensures Inv(Step(s, ClearReference))
  {
    if s.rtos.Gone? {
      var t := s.(refs := s.refs[s.rtos.frame := None], rtos := RtosIdle);
      assert t == Step(s, ClearReference);
      ReferencedOnce(s, t, s.rtos.frame);
      ClearedBooks(s, t);
      hide *;
      RtosStays(s, t);
    }
  }

  lemma ClearedBooks(s: System, t: System)
    requires Shape(s) && Sensible(s) && s.rtos.Gone?
    requires t == s.(refs := s.refs[s.rtos.frame := None], rtos := RtosIdle)
    ensures Shape(t) && SameForLinux(s, t) && Sensible(t) && t.track == s.track && t.rx == s.rx && t.queue == s.queue
    ensures forall z: Place :: Contents(t, z) == Contents(s, z)
  {
  }

  lemma ForgetFrozenInv(s: System)
    requires Inv(s)
    ensures Inv(Step(s, ForgetFrozen))
  {
    if s.rtos.Rewritten? {
      var t := s.(refs := s.refs[s.rtos.frame := None], frozen := s.frozen[1..], rtos := RtosIdle);
      assert t == Step(s, ForgetFrozen);
      ReferencedOnce(s, t, s.rtos.frame);
      ForgottenBooks(s, t);
      hide *;
      RtosStays(s, t);
    }
  }

  lemma ForgottenBooks(s: System, t: System)
    requires Shape(s) && Sensible(s) && s.rtos.Rewritten?
    requires t == s.(refs := s.refs[s.rtos.frame := None], frozen := s.frozen[1..], rtos := RtosIdle)
    ensures Shape(t) && SameForLinux(s, t) && Sensible(t) && t.track == s.track && t.rx == s.rx && t.queue == s.queue
    ensures forall z: Place :: Contents(t, z) == Contents(s, z)
  {
  }

  predicate Rewrote(s: System, t: System, d: Descriptor)
    requires Shape(s)
  {
    && s.rtos.RtosIdle? && s.frozen != [] && d == s.frozen[0]
    && d.frame < BLOCK_COUNT && IsAt(s.track[d.frame], Frozen) && Alike(d, s.track[d.frame].original, Frozen)
    && s.refs[d.frame] == Some(s.track[d.frame].original)
    && t == s.(reclaim := s.reclaim + [d], rtos := Rewritten(d.frame), track := Relocate(s.track, d.frame, Reclaim))
  }

  lemma RetryFrozenInv(s: System)
    requires Inv(s)
    ensures Inv(Step(s, RetryFrozen))
  {
    InvShape(s);
    if s.rtos.RtosIdle? && s.frozen != [] && |s.reclaim| < RING_DEPTH {
      LocalItem(s, Frozen, 0);
      assert Contents(s, Frozen)[0] == s.frozen[0];
      hide Inv;
      var d, t := s.frozen[0], Step(s, RetryFrozen);
      RewroteNow(s, d);
      hide *;
      RetryFrozenMoves(s, t, d);
      RetryFrozenInOrder(s, t, d);
      RtosMove(s, t, Frozen, 0, Reclaim, d);
    }
  }

  lemma RewroteNow(s: System, d: Descriptor)
    requires Shape(s) && s.rtos.RtosIdle? && s.frozen != [] && d == s.frozen[0] && |s.reclaim| < RING_DEPTH
    requires d.frame < BLOCK_COUNT && IsAt(s.track[d.frame], Frozen) && Alike(d, s.track[d.frame].original, Frozen)
    requires s.refs[d.frame] == Some(s.track[d.frame].original)
    ensures Rewrote(s, Step(s, RetryFrozen), d)
  {
    hide Alike, Relocate;
  }

  lemma RetryFrozenMoves(s: System, t: System, d: Descriptor)
    requires Shape(s) && Sensible(s) && AllReferenced(s) && Rewrote(s, t, d)
    ensures Shape(t) && SameForLinux(s, t) && Sensible(t) && AllReferenced(t)
    ensures Moves(s, t, Frozen, 0, Reclaim, d) && Alike(d, s.track[d.frame].original, Reclaim)
  {
    RewroteShape(s, t, d);
    RewroteContents(s, t, d);
    hide Sensible, Moves, Contents, Alike, Relocate;
    ReferencedElsewhere(s, t, d.frame, Reclaim);
  }

  lemma RewroteShape(s: System, t: System, d: Descriptor)
    requires Shape(s) && Sensible(s) && AllReferenced(s) && Rewrote(s, t, d)
    ensures Shape(t) && SameForLinux(s, t) && Sensible(t) && Referenced(t, d.frame)
    ensures t.track == Relocate(s.track, d.frame, Reclaim)
  {
    assert Referenced(s, d.frame);
    hide AllReferenced;
  }

  lemma RewroteContents(s: System, t: System, d: Descriptor)
    requires Shape(s) && Shape(t) && Sensible(s) && Rewrote(s, t, d)
    ensures Moves(s, t, Frozen, 0, Reclaim, d) && Alike(d, s.track[d.frame].original, Reclaim)
  {
    HeadOf(s.frozen);
    RestOneMore(s.reclaim, d, s.linux.ReclaimTaken?);
    assert Contents(t, Frozen) == Without(Contents(s, Frozen), 0);
    assert Contents(t, Reclaim) == Contents(s, Reclaim) + [d];
    RewroteElsewhere(s, t, d);
    hide Relocate, Rest, Contents, Without;
  }

  lemma RewroteElsewhere(s: System, t: System, d: Descriptor)
    requires Shape(s) && Shape(t) && Rewrote(s, t, d)
    ensures forall z: Place :: z != Frozen && z != Reclaim ==> Contents(t, z) == Contents(s, z)
  {
    hide Rest, Relocate;
  }

  lemma RetryFrozenInOrder(s: System, t: System, d: Descriptor)
    requires Shape(s) && InOrder(s) && Rewrote(s, t, d) && Shape(t)
    ensures InOrder(t)
  {
    hide Ordered;
    forall source: nat, ring: nat, priority: nat | source < INTERFACE_COUNT && ring < INTERFACE_COUNT
      ensures Ordered(Line(t, source, ring), source, priority, |t.log|)
    {
      Ranked(s, source, ring, priority);
    }
  }
}
