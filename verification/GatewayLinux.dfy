/** Every Linux step keeps the gateway invariant. */
module GatewayLinux {
  import opened Types
  import opened Tracking
  import opened PipelineOrder
  import opened LinuxPool
  import opened Gateway
  import opened GatewayRtos

  // ------------------------------------------------------------------
  // Linux steps keep the invariant
  // ------------------------------------------------------------------

  /** What no Linux step touches. */
  predicate SameForRtos(s: System, t: System) {
    t.refs == s.refs && t.queue == s.queue && t.frozen == s.frozen && t.rtos == s.rtos && t.faults == s.faults
  }

  /** Block f changed, the log grew, and only messages of block f met their fate. */
  ghost predicate ChangedAt(s: System, t: System, f: nat)
    requires Shape(s) && Shape(t)
  {
    && f < BLOCK_COUNT
    && (forall g :: 0 <= g < BLOCK_COUNT && g != f ==>
         t.pool.frames[g] == s.pool.frames[g] && t.memory[g] == s.memory[g] && t.track[g] == s.track[g]
         && !IsPublished(s, g) && !IsPublished(t, g))
    && s.log <= t.log
    && (forall n :: 0 <= n < |s.log| && s.log[n].frame != f ==> t.fate[n] == s.fate[n])
  }

  lemma TiedElsewhere(s: System, t: System, f: nat)
    requires Shape(s) && Shape(t) && AllTied(s) && ChangedAt(s, t, f) && Tied(t, f)
    ensures AllTied(t)
  {
    forall g | 0 <= g < BLOCK_COUNT
      ensures Tied(t, g)
    {
      assert Tied(s, g);
    }
  }

  /** Only the pool and a block in Linux's own hands changed. */
  lemma PoolKeeps(s: System, t: System, f: nat)
    requires Inv(s) && Shape(t) && Valid(t.pool) && t == s.(pool := t.pool, memory := t.memory)
    requires s.linux.LinuxIdle? && f < BLOCK_COUNT && ChangedAt(s, t, f)
    requires !s.pool.frames[f].state.RxQueued? && !t.pool.frames[f].state.RxQueued?
    requires !t.pool.frames[f].pendingReclaim
    ensures Inv(t)
  {
    assert Tied(s, f);
    assert Tied(t, f);
    TiedElsewhere(s, t, f);
    PoolFramesRest(s, t);
    hide *;
    InvFrom(t);
  }

  lemma InvFrom(t: System)
    requires Shape(t) && Valid(t.pool) && Sensible(t) && t.faults == 0 && Accounted(t)
    requires Placed(t) && AllTied(t) && AllReferenced(t) && InOrder(t) && Deliveries(t)
    ensures Inv(t)
  {
  }

  lemma PoolFramesRest(s: System, t: System)
    requires Inv(s) && Shape(t) && t == s.(pool := t.pool, memory := t.memory)
    ensures Sensible(t) && t.faults == 0 && Placed(t) && AllReferenced(t) && InOrder(t) && Deliveries(t) && Accounted(t)
  {
    hide Valid, AllTied;
    ReferencedSame(s, t);
    DeliveriesSame(s, t);
    AccountedSame(s, t);
    hide Accounted, AllReferenced, Deliveries;
    assert forall z: Place :: Contents(t, z) == Contents(s, z);
    StaysPlaced(s, t);
    assert forall source: nat, ring: nat | source < INTERFACE_COUNT && ring < INTERFACE_COUNT ::
      Line(t, source, ring) == Line(s, source, ring);
    hide Placed, Ordered, Contents, Line;
  }

  lemma ReferencedSame(s: System, t: System)
    requires Shape(s) && Shape(t) && AllReferenced(s) && SameForRtos(s, t)
    requires forall g :: 0 <= g < BLOCK_COUNT ==> t.track[g] == s.track[g] || (!Local(t.track[g]) && !Local(s.track[g]))
    ensures AllReferenced(t)
  {
    forall g | 0 <= g < BLOCK_COUNT
      ensures Referenced(t, g)
    {
      assert Referenced(s, g);
    }
  }

  lemma AllocateInv(s: System, source: nat)
    requires Inv(s)
    ensures Inv(Step(s, Allocate(source)))
  {
    if s.linux.LinuxIdle? && source < INTERFACE_COUNT {
      var t := s.(pool := Alloc(s.pool, source).0);
      AllocExact(s.pool, source);
      assert t == Step(s, Allocate(source));
      if t.pool != s.pool {
        var f := Alloc(s.pool, source).2;
        assert ChangedAt(s, t, f);
        hide Valid, Inv, Alloc;
        PoolKeeps(s, t, f);
      }
    }
  }

  lemma ReleaseFrameInv(s: System, f: nat)
    requires Inv(s)
    ensures Inv(Step(s, ReleaseFrame(f)))
  {
    if s.linux.LinuxIdle? {
      var t := s.(pool := Release(s.pool, f).0);
      ReleaseExact(s.pool, f);
      assert t == Step(s, ReleaseFrame(f));
      if t.pool != s.pool {
        assert ChangedAt(s, t, f);
        hide Valid, Inv, Release;
        PoolKeeps(s, t, f);
      }
    }
  }

  lemma FillInv(s: System, f: nat, bytes: seq<byte>)
    requires Inv(s)
    ensures Inv(Step(s, Fill(f, bytes)))
  {
    if s.linux.LinuxIdle? && f < BLOCK_COUNT && |bytes| == BLOCK_SIZE && s.pool.frames[f].state.Allocated? {
      var t := s.(memory := s.memory[f := bytes]);
      assert t == Step(s, Fill(f, bytes));
      assert Tied(s, f);
      hide Valid, Inv;
      assert ChangedAt(s, t, f);
      PoolKeeps(s, t, f);
    }
  }

  // A block is published to its RX ring.

  predicate PublishedRx(s: System, t: System, d: Descriptor)
    requires Shape(s)
  {
    && s.linux.LinuxIdle? && InBounds(d) && d.number == |s.log|
    && s.pool.frames[d.frame].state.Allocated? && s.pool.frames[d.frame].source == d.source
    && s.track[d.frame].Away?
    && t == s.(rx := s.rx[d.source := s.rx[d.source] + [d]], linux := Published(d.frame, d.target),
               track := s.track[d.frame := At(Rx(d.source), d)],
               log := s.log + [Committed(d.frame, d.source, d.priority, s.memory[d.frame][..d.length])],
               fate := s.fate + [InFlight])
  }

  lemma CommitInv(s: System, f: nat, length: nat, source: nat, target: nat, priority: nat)
    requires Inv(s)
    ensures Inv(Step(s, Commit(f, length, source, target, priority)))
  {
    if s.linux.LinuxIdle? && Committable(s.pool, f, source, target) && LengthOk(length) && |s.rx[source]| < RING_DEPTH {
      assert Tied(s, f);
      var d := Descriptor(f, f * BLOCK_SIZE, length, source, target, priority, |s.log|);
      var t := Step(s, Commit(f, length, source, target, priority));
      assert PublishedRx(s, t, d);
      hide *;
      CommitBooks(s, t, d);
      CommitPlaced(s, t, d);
      CommitInOrder(s, t, d);
      CommitDeliveries(s, t, d);
      CommitAccounted(s, t, d);
      InvFrom(t);
    }
  }

  lemma CommitBooks(s: System, t: System, d: Descriptor)
    requires Inv(s) && PublishedRx(s, t, d)
    ensures Shape(t) && Valid(t.pool) && Sensible(t) && t.faults == 0 && AllTied(t) && AllReferenced(t)
  {
    hide Placed, InOrder, Deliveries, Valid;
    assert Tied(s, d.frame);
    CommitTied(s, t, d);
    hide AllTied;
    ReferencedSame(s, t);
  }

  lemma CommitTied(s: System, t: System, d: Descriptor)
    requires Shape(s) && AllTied(s) && PublishedRx(s, t, d) && Tied(s, d.frame)
    ensures Shape(t) && AllTied(t)
  {
    assert t.log[d.number] == Committed(d.frame, d.source, d.priority, t.memory[d.frame][..d.length]);
    assert t.fate[d.number] == InFlight;
    assert Tied(t, d.frame);
    hide Tied, Committable;
    TiedElsewhere(s, t, d.frame);
  }

  lemma CommitPlaced(s: System, t: System, d: Descriptor)
    requires Inv(s) && PublishedRx(s, t, d) && Shape(t)
    ensures Placed(t)
  {
    hide Valid, AllTied, AllReferenced, Placed, InOrder, Deliveries;
    assert Enters(s, t, Rx(d.source), d);
    hide Enters, Contents;
    EntersPlaced(s, t, Rx(d.source), d);
  }

  lemma CommitInOrder(s: System, t: System, d: Descriptor)
    requires Inv(s) && PublishedRx(s, t, d) && Shape(t)
    ensures InOrder(t)
  {
    hide Valid, AllTied, AllReferenced, Placed, Deliveries;
    Join(s.rx[d.source], [d]);
    assert Tags([d]) == [TagOf(d)];
    hide Ordered;
    forall source: nat, ring: nat, priority: nat | source < INTERFACE_COUNT && ring < INTERFACE_COUNT
      ensures Ordered(Line(t, source, ring), source, priority, |t.log|)
    {
      Ranked(s, source, ring, priority);
      if source == d.source {
        LineOneMore(s, t, source, ring, TagOf(d));
        OrderedAdd(Line(s, source, ring), TagOf(d), source, priority, |s.log|);
      } else {
        OrderedLater(Line(s, source, ring), source, priority, |s.log|);
      }
    }
  }

  lemma LineOneMore(s: System, t: System, source: nat, ring: nat, x: Tag)
    requires Shape(s) && Shape(t) && source < INTERFACE_COUNT && ring < INTERFACE_COUNT
    requires t.delivered == s.delivered && t.queue == s.queue && Contents(t, Tx(ring)) == Contents(s, Tx(ring))
    requires t.rtos == s.rtos && Tags(t.rx[source]) == Tags(s.rx[source]) + [x]
    ensures Line(t, source, ring) == Line(s, source, ring) + [x]
  {
  }

  lemma CommitDeliveries(s: System, t: System, d: Descriptor)
    requires Inv(s) && PublishedRx(s, t, d) && Shape(t)
    ensures Deliveries(t)
  {
    hide Valid, AllTied, AllReferenced, Placed, InOrder;
    forall i, k | 0 <= i < INTERFACE_COUNT && 0 <= k < |t.delivered[i]|
      ensures Delivered(t, i, t.delivered[i][k])
    {
      assert Delivered(s, i, s.delivered[i][k]);
    }
  }

  lemma CommitAccounted(s: System, t: System, d: Descriptor)
    requires Inv(s) && PublishedRx(s, t, d) && Shape(t)
    ensures Accounted(t)
  {
    hide Valid, AllTied, AllReferenced, Placed, InOrder, Deliveries;
    forall n | 0 <= n < |t.log|
      ensures AccountedFor(t, n)
    {
      if n < |s.log| {
        assert AccountedFor(s, n);
      }
    }
  }

  /** The block just published is marked as out of Linux's hands. */
  lemma MarkCommittedInv(s: System)
    requires Inv(s)
    ensures Inv(Step(s, MarkCommitted))
  {
    if s.linux.Published? {
      var f := s.linux.frame;
      assert Tied(s, f);
      var t := Step(s, MarkCommitted);
      MarkKeepsValid(s.pool, f, s.linux.target);
      hide Valid;
      MarkTied(s, t, f);
      hide AllTied;
      MarkRest(s, t);
    }
  }

  lemma MarkTied(s: System, t: System, f: nat)
    requires Shape(s) && Shape(t) && AllTied(s) && f < BLOCK_COUNT && s.linux.Published? && s.linux.frame == f
    requires t == s.(pool := MarkQueued(s.pool, f, s.linux.target), linux := LinuxIdle)
    ensures AllTied(t)
  {
    assert Tied(s, f);
    assert Tied(t, f);
    hide Tied;
    TiedElsewhere(s, t, f);
  }

  lemma MarkRest(s: System, t: System)
    requires Inv(s) && s.linux.Published? && Shape(t) && Valid(t.pool) && AllTied(t)
    requires t == s.(pool := t.pool, linux := LinuxIdle)
    ensures Inv(t)
  {
    hide Valid, AllTied;
    ReferencedSame(s, t);
    DeliveriesSame(s, t);
    AccountedSame(s, t);
    hide AllReferenced, Deliveries, Accounted;
    StaysPlaced(s, t);
    assert forall source: nat, ring: nat | source < INTERFACE_COUNT && ring < INTERFACE_COUNT ::
      Line(t, source, ring) == Line(s, source, ring);
    hide Placed, Ordered, Contents, Line;
  }

  // Linux takes the head of a TX ring.

  /** The head of a TX ring passes every check Linux makes. */
  lemma TxHead(s: System, i: nat)
    requires Inv(s) && s.linux.LinuxIdle? && i < INTERFACE_COUNT && s.tx[i] != []
    ensures var d := s.tx[i][0];
      && TxAcceptable(s.pool, d, i) && IsAt(s.track[d.frame], Tx(i)) && Alike(d, s.track[d.frame].original, Tx(i))
      && Stamped(s, d.frame, s.track[d.frame].original) && !s.pool.frames[d.frame].pendingReclaim
  {
    var d := s.tx[i][0];
    assert Contents(s, Tx(i)) == s.tx[i];
    assert Holds(Contents(s, Tx(i)), s.track, Tx(i));
    FitsAt(s.tx[i], s.track, Tx(i), 0);
    assert Tied(s, d.frame);
    assert FrameOk(s.pool.bitmap[d.frame], s.pool.frames[d.frame]);
    hide Placed, InOrder, Deliveries, Holds, Valid;
  }

  predicate TookTx(s: System, t: System, i: nat, d: Descriptor)
    requires Shape(s)
  {
    && s.linux.LinuxIdle? && i < INTERFACE_COUNT && s.tx[i] != [] && d == s.tx[i][0] && InBounds(d)
    && IsAt(s.track[d.frame], Tx(i)) && Alike(d, s.track[d.frame].original, Tx(i))
    && Stamped(s, d.frame, s.track[d.frame].original) && d.number < |s.fate|
    && !s.pool.frames[d.frame].pendingReclaim && s.pool.frames[d.frame].state.RxQueued?
    && t == s.(linux := TxTaken(i), pool := MarkReady(s.pool, d.frame), track := s.track[d.frame := Away],
               fate := s.fate[d.number := Out(i, s.memory[d.frame][..d.length])],
               delivered := s.delivered[i := s.delivered[i] + [d]])
  }

  lemma TakeTxInv(s: System, i: nat)
    requires Inv(s)
    ensures Inv(Step(s, TakeTx(i)))
  {
    if s.linux.LinuxIdle? && i < INTERFACE_COUNT && s.tx[i] != [] {
      TxHead(s, i);
      var d, t := s.tx[i][0], Step(s, TakeTx(i));
      assert TookTx(s, t, i, d);
      hide *;
      TakeTxBooks(s, t, i, d);
      TakeTxPlaced(s, t, i, d);
      TakeTxInOrder(s, t, i, d);
      TakeTxDeliveries(s, t, i, d);
      TakeTxAccounted(s, t, i, d);
      InvFrom(t);
    }
  }

  lemma TakeTxBooks(s: System, t: System, i: nat, d: Descriptor)
    requires Inv(s) && TookTx(s, t, i, d)
    ensures Shape(t) && Valid(t.pool) && Sensible(t) && t.faults == 0 && AllTied(t) && AllReferenced(t)
  {
    assert d.number == s.track[d.frame].original.number;
    hide Placed, InOrder, Deliveries, Stamped, Alike;
    MarkKeepsValid(s.pool, d.frame, 0);
    hide Valid;
    TakenTied(s, t, d, Out(i, s.memory[d.frame][..d.length]));
    hide AllTied;
    ReferencedSame(s, t);
  }

  /** The block d names is Linux's again, and its message met its fate. */
  lemma TakenTied(s: System, t: System, d: Descriptor, outcome: Fate)
    requires Shape(s) && Shape(t) && AllTied(s) && d.frame < BLOCK_COUNT && s.linux.LinuxIdle? && !t.linux.Published?
    requires s.track[d.frame].At? && Stamped(s, d.frame, s.track[d.frame].original)
    requires d.number == s.track[d.frame].original.number
    requires t.track == s.track[d.frame := Away] && t.fate == s.fate[d.number := outcome]
    requires t.memory == s.memory && t.log == s.log
    requires t.pool.frames == s.pool.frames[d.frame := t.pool.frames[d.frame]]
    requires !t.pool.frames[d.frame].state.RxQueued? && !t.pool.frames[d.frame].pendingReclaim
    ensures AllTied(t)
  {
    assert Tied(t, d.frame);
    assert s.log[d.number].frame == d.frame;
    hide Tied, Stamped;
    TiedElsewhere(s, t, d.frame);
  }

  lemma TakeTxPlaced(s: System, t: System, i: nat, d: Descriptor)
    requires Inv(s) && TookTx(s, t, i, d) && Shape(t)
    ensures Placed(t)
  {
    hide Valid, AllTied, AllReferenced, Placed, InOrder, Deliveries, Stamped, Alike;
    HeadOf(s.tx[i]);
    assert Contents(t, Tx(i)) == Without(Contents(s, Tx(i)), 0);
    assert Leaves(s, t, Tx(i));
    hide Leaves, Contents;
    LeavesPlaced(s, t, Tx(i));
  }

  lemma TakeTxInOrder(s: System, t: System, i: nat, d: Descriptor)
    requires Inv(s) && TookTx(s, t, i, d) && Shape(t)
    ensures InOrder(t)
  {
    hide Valid, AllTied, AllReferenced, Placed, Deliveries, Stamped, Alike;
    hide Ordered;
    assert (s.delivered[i] + [d]) + s.tx[i][1..] == s.delivered[i] + s.tx[i];
    forall source: nat, ring: nat, priority: nat | source < INTERFACE_COUNT && ring < INTERFACE_COUNT
      ensures Ordered(Line(t, source, ring), source, priority, |t.log|)
    {
      Ranked(s, source, ring, priority);
      assert t.delivered[ring] + Contents(t, Tx(ring)) == s.delivered[ring] + Contents(s, Tx(ring));
    }
  }

  lemma TakeTxDeliveries(s: System, t: System, i: nat, d: Descriptor)
    requires Inv(s) && TookTx(s, t, i, d) && Shape(t)
    ensures Deliveries(t)
  {
    hide Valid, AllTied, AllReferenced, Placed, InOrder;
    forall r, k | 0 <= r < INTERFACE_COUNT && 0 <= k < |t.delivered[r]|
      ensures Delivered(t, r, t.delivered[r][k])
    {
      if k < |s.delivered[r]| {
        assert Delivered(s, r, s.delivered[r][k]);
      }
    }
    forall r, j, k | 0 <= r < INTERFACE_COUNT && 0 <= j < k < |t.delivered[r]|
      ensures t.delivered[r][j].number != t.delivered[r][k].number
    {
      assert Delivered(s, r, s.delivered[r][j]);
    }
  }

  lemma TakeTxAccounted(s: System, t: System, i: nat, d: Descriptor)
    requires Inv(s) && TookTx(s, t, i, d) && Shape(t)
    ensures Accounted(t)
  {
    hide Valid, AllTied, AllReferenced, Placed, InOrder, Deliveries;
    assert t.delivered[i][|s.delivered[i]|].number == d.number;
    forall n | 0 <= n < |t.log|
      ensures AccountedFor(t, n)
    {
      assert AccountedFor(s, n);
      if n != d.number && s.fate[n].Out? {
        NumberedLonger(s.delivered[s.fate[n].ring], d, n);
      }
    }
  }

  lemma NumberedLonger(ds: seq<Descriptor>, d: Descriptor, n: nat)
    requires Numbered(ds, n)
    ensures Numbered(ds + [d], n)
  {
    var k :| 0 <= k < |ds| && ds[k].number == n;
    assert (ds + [d])[k].number == n;
  }

  /** The steps that only move read_seq past a settled descriptor. */
  lemma FinishKeeps(s: System, t: System)
    requires Inv(s) && Shape(t) && t == s.(tx := t.tx, reclaim := t.reclaim, linux := LinuxIdle)
    requires !s.linux.Published? && forall z: Place :: Contents(t, z) == Contents(s, z)
    ensures Inv(t)
  {
    hide Contents;
    StaysPlaced(s, t);
    ReferencedSame(s, t);
    DeliveriesSame(s, t);
    AccountedSame(s, t);
    hide AllReferenced, Deliveries, Accounted;
    FinishTied(s, t);
    hide AllTied;
    assert forall source: nat, ring: nat | source < INTERFACE_COUNT && ring < INTERFACE_COUNT ::
      Line(t, source, ring) == Line(s, source, ring);
    hide Valid, Placed, Ordered, Line;
  }

  lemma FinishTied(s: System, t: System)
    requires Shape(s) && Shape(t) && AllTied(s) && t == s.(tx := t.tx, reclaim := t.reclaim, linux := LinuxIdle)
    requires !s.linux.Published?
    ensures AllTied(t)
  {
    forall g | 0 <= g < BLOCK_COUNT
      ensures Tied(t, g)
    {
      assert Tied(s, g);
    }
  }

  lemma FinishTxInv(s: System)
    requires Inv(s)
    ensures Inv(Step(s, FinishTx))
  {
    if s.linux.TxTaken? && s.linux.ring < INTERFACE_COUNT && s.tx[s.linux.ring] != [] {
      var t := s.(tx := s.tx[s.linux.ring := s.tx[s.linux.ring][1..]], linux := LinuxIdle);
      assert t == Step(s, FinishTx);
      FinishTxContents(s, t);
      hide *;
      FinishKeeps(s, t);
    }
  }

  lemma FinishTxContents(s: System, t: System)
    requires Shape(s) && s.linux.TxTaken? && s.linux.ring < INTERFACE_COUNT && s.tx[s.linux.ring] != []
    requires t == s.(tx := s.tx[s.linux.ring := s.tx[s.linux.ring][1..]], linux := LinuxIdle)
    ensures Shape(t) && t == s.(tx := t.tx, reclaim := t.reclaim, linux := LinuxIdle) && !s.linux.Published?
    ensures forall z: Place :: Contents(t, z) == Contents(s, z)
  {
  }

  lemma FinishReclaimInv(s: System)
    requires Inv(s)
    ensures Inv(Step(s, FinishReclaim))
  {
    if s.linux.ReclaimTaken? && s.reclaim != [] {
      var t := s.(reclaim := s.reclaim[1..], linux := LinuxIdle);
      assert t == Step(s, FinishReclaim);
      FinishReclaimContents(s, t);
      hide *;
      FinishKeeps(s, t);
    }
  }

  lemma FinishReclaimContents(s: System, t: System)
    requires Shape(s) && s.linux.ReclaimTaken? && s.reclaim != []
    requires t == s.(reclaim := s.reclaim[1..], linux := LinuxIdle)
    ensures Shape(t) && t == s.(tx := t.tx, reclaim := t.reclaim, linux := LinuxIdle) && !s.linux.Published?
    ensures forall z: Place :: Contents(t, z) == Contents(s, z)
  {
  }

  // Linux takes the head of the reclaim ring.

  /** The head of the reclaim ring passes every check Linux makes, and the
      release whose result Linux ignores succeeds. */
  lemma ReclaimHead(s: System)
    requires Inv(s) && s.linux.LinuxIdle? && s.reclaim != []
    ensures var d := s.reclaim[0];
      && ReclaimAcceptable(s.pool, d) && s.track[d.frame] == At(Reclaim, d) && Stamped(s, d.frame, d)
      && Valid(Release(BeginReclaim(s.pool, d.frame), d.frame).0)
      && Release(BeginReclaim(s.pool, d.frame), d.frame).0.frames == s.pool.frames[d.frame := NO_META]
      && Release(BeginReclaim(s.pool, d.frame), d.frame).1 == LinuxPool.Fine
  {
    var d := s.reclaim[0];
    ReclaimTracked(s);
    assert Tied(s, d.frame);
    assert FrameOk(s.pool.bitmap[d.frame], s.pool.frames[d.frame]);
    MarkKeepsValid(s.pool, d.frame, 0);
    ReleaseExact(BeginReclaim(s.pool, d.frame), d.frame);
    hide Placed, InOrder, Deliveries, Valid, Release;
  }

  lemma ReclaimTracked(s: System)
    requires Inv(s) && s.linux.LinuxIdle? && s.reclaim != []
    ensures s.reclaim[0].frame < BLOCK_COUNT && s.track[s.reclaim[0].frame] == At(Reclaim, s.reclaim[0])
  {
    assert Contents(s, Reclaim) == s.reclaim;
    assert Holds(Contents(s, Reclaim), s.track, Reclaim);
    FitsAt(s.reclaim, s.track, Reclaim, 0);
  }

  predicate TookReclaim(s: System, t: System, d: Descriptor)
    requires Shape(s)
  {
    && s.linux.LinuxIdle? && s.reclaim != [] && d == s.reclaim[0] && d.frame < BLOCK_COUNT
    && s.track[d.frame] == At(Reclaim, d) && Stamped(s, d.frame, d)
    && Valid(t.pool) && t.pool.frames == s.pool.frames[d.frame := NO_META]
    && t == s.(linux := ReclaimTaken, pool := t.pool, track := s.track[d.frame := Away],
               fate := s.fate[d.number := Dropped])
  }

  lemma TakeReclaimInv(s: System)
    requires Inv(s)
    ensures Inv(Step(s, TakeReclaim))
  {
    if s.linux.LinuxIdle? && s.reclaim != [] {
      ReclaimHead(s);
      var d, t := s.reclaim[0], Step(s, TakeReclaim);
      TakeReclaimIs(s, t, d);
      hide *;
      TakeReclaimBooks(s, t, d);
      TakeReclaimPlaced(s, t, d);
      TakeReclaimRest(s, t, d);
      TakeReclaimAccounted(s, t, d);
      InvFrom(t);
    }
  }

  lemma TakeReclaimIs(s: System, t: System, d: Descriptor)
    requires Shape(s) && s.linux.LinuxIdle? && s.reclaim != [] && d == s.reclaim[0] && t == Step(s, TakeReclaim)
    requires ReclaimAcceptable(s.pool, d) && s.track[d.frame] == At(Reclaim, d) && Stamped(s, d.frame, d)
    requires Valid(Release(BeginReclaim(s.pool, d.frame), d.frame).0)
    requires Release(BeginReclaim(s.pool, d.frame), d.frame).0.frames == s.pool.frames[d.frame := NO_META]
    requires Release(BeginReclaim(s.pool, d.frame), d.frame).1 == LinuxPool.Fine
    ensures TookReclaim(s, t, d)
  {
    hide Valid, Release, BeginReclaim;
  }

  lemma TakeReclaimBooks(s: System, t: System, d: Descriptor)
    requires Inv(s) && TookReclaim(s, t, d)
    ensures Shape(t) && Valid(t.pool) && Sensible(t) && t.faults == 0 && AllTied(t) && AllReferenced(t)
  {
    assert d.number < |s.fate|;
    hide Placed, InOrder, Deliveries, Stamped;
    assert Shape(t);
    hide Valid;
    TakenTied(s, t, d, Dropped);
    hide AllTied;
    ReferencedSame(s, t);
  }

  lemma TakeReclaimPlaced(s: System, t: System, d: Descriptor)
    requires Inv(s) && TookReclaim(s, t, d) && Shape(t)
    ensures Placed(t)
  {
    hide Valid, AllTied, AllReferenced, Placed, InOrder, Deliveries, Stamped;
    HeadOf(s.reclaim);
    assert Contents(t, Reclaim) == Without(Contents(s, Reclaim), 0);
    assert Leaves(s, t, Reclaim);
    hide Leaves, Contents;
    LeavesPlaced(s, t, Reclaim);
  }

  lemma TakeReclaimRest(s: System, t: System, d: Descriptor)
    requires Inv(s) && TookReclaim(s, t, d) && Shape(t)
    ensures InOrder(t) && Deliveries(t)
  {
    hide Valid, AllTied, AllReferenced, Placed, Ordered;
    forall source: nat, ring: nat, priority: nat | source < INTERFACE_COUNT && ring < INTERFACE_COUNT
      ensures Ordered(Line(t, source, ring), source, priority, |t.log|)
    {
      Ranked(s, source, ring, priority);
      assert Contents(t, Tx(ring)) == Contents(s, Tx(ring));
    }
    hide Line, Contents;
    forall i, k | 0 <= i < INTERFACE_COUNT && 0 <= k < |t.delivered[i]|
      ensures Delivered(t, i, t.delivered[i][k])
    {
      assert Delivered(s, i, s.delivered[i][k]);
    }
  }

  lemma TakeReclaimAccounted(s: System, t: System, d: Descriptor)
    requires Inv(s) && TookReclaim(s, t, d) && Shape(t)
    ensures Accounted(t)
  {
    hide Valid, AllTied, AllReferenced, Placed, InOrder, Deliveries;
    forall n | 0 <= n < |t.log|
      ensures AccountedFor(t, n)
    {
      assert AccountedFor(s, n);
    }
  }
}
