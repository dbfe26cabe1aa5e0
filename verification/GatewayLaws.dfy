/** The laws of the gateway over every run. */
module GatewayLaws {
  import opened Types
  import opened Tracking
  import opened PipelineOrder
  import opened LinuxPool
  import opened Gateway
  import opened GatewayRtos
  import opened GatewayLinux

  // ------------------------------------------------------------------
  // Every run
  // ------------------------------------------------------------------

  lemma BootInv()
    ensures Inv(Boot())
  {
    EmptyPoolValid();
    BootPlaced();
    BootTied();
    BootOrder();
    hide Valid, Placed, AllTied, AllReferenced, InOrder;
  }

  lemma BootPlaced()
    ensures Placed(Boot())
  {
    forall x: Place
      ensures Contents(Boot(), x) == []
    {
    }
    forall x: Place
      ensures Holds(Contents(Boot(), x), Boot().track, x)
    {
    }
  }

  lemma BootTied()
    ensures AllTied(Boot()) && AllReferenced(Boot())
  {
  }

  lemma BootOrder()
    ensures InOrder(Boot())
  {
    forall source: nat, ring: nat, priority: nat | source < INTERFACE_COUNT && ring < INTERFACE_COUNT
      ensures Ordered(Line(Boot(), source, ring), source, priority, 0)
    {
      assert Line(Boot(), source, ring) == [];
    }
  }

  lemma StepInv(s: System, a: Action)
    requires Inv(s)
    ensures Shape(s) && Inv(Step(s, a))
  {
    InvShape(s);
    hide *;
    match a
    case Allocate(source) => AllocateInv(s, source);
    case Fill(f, bytes) => FillInv(s, f, bytes);
    case Commit(f, length, source, target, priority) => CommitInv(s, f, length, source, target, priority);
    case MarkCommitted => MarkCommittedInv(s);
    case TakeTx(i) => TakeTxInv(s, i);
    case FinishTx => FinishTxInv(s);
    case TakeReclaim => TakeReclaimInv(s);
    case FinishReclaim => FinishReclaimInv(s);
    case ReleaseFrame(f) => ReleaseFrameInv(s, f);
    case TakeRx(i) => TakeRxInv(s, i);
    case Enqueue(target) => EnqueueInv(s, target);
    case Schedule(priority, route) => ScheduleInv(s, priority, route);
    case SendTx => SendTxInv(s);
    case SendReclaim => SendReclaimInv(s);
    case Freeze => FreezeInv(s);
    case ClearReference => ClearReferenceInv(s);
    case RetryFrozen => RetryFrozenInv(s);
    case ForgetFrozen => ForgetFrozenInv(s);
  }

  lemma {:induction false} RunInv(s: System, actions: seq<Action>)
    requires Inv(s)
    ensures Shape(s) && Inv(Run(s, actions))
    decreases |actions|
  {
    hide Inv, Step, Shape;
    InvShape(s);
    if actions != [] {
      StepInv(s, actions[0]);
      RunInv(Step(s, actions[0]), actions[1..]);
    }
  }

  // ------------------------------------------------------------------
  // Main results
  // ------------------------------------------------------------------

  /** Linux has the block: free, being filled, or ready to send. */
  predicate WithLinux(s: System, f: nat)
    requires Shape(s) && f < BLOCK_COUNT
  {
    !s.pool.frames[f].state.RxQueued? && !IsPublished(s, f)
  }

  predicate Occurs(s: System, x: Place, f: nat)
    requires Shape(s)
  {
    HasFrame(Contents(s, x), f)
  }

  ghost predicate OnlyAt(s: System, f: nat, x: Place)
    requires Shape(s)
  {
    Occurs(s, x, f) && forall y: Place :: Occurs(s, y, f) ==> y == x
  }

  ghost predicate Nowhere(s: System, f: nat)
    requires Shape(s)
  {
    forall y: Place :: !Occurs(s, y, f)
  }

  lemma ReachedInv(actions: seq<Action>)
    ensures Inv(Reached(actions))
  {
    BootInv();
    RunInv(Boot(), actions);
  }

  /** Exactly one place: in every reachable state a block is either Linux's and in
      no ring and in no RTOS hands, or it is in exactly one ring or RTOS place,
      once. So no block leaks and none is freed while anything refers to it. */
  lemma ExactlyOnePlace(actions: seq<Action>, f: nat) returns (x: Place)
    requires f < BLOCK_COUNT
    ensures var s := Reached(actions); if WithLinux(s, f) then Nowhere(s, f) else OnlyAt(s, f, x)
    ensures forall y: Place :: NoRepeat(Contents(Reached(actions), y))
  {
    ReachedInv(actions);
    hide *;
    x := OnePlace(Reached(actions), f);
  }

  lemma OnePlace(s: System, f: nat) returns (x: Place)
    requires Inv(s) && f < BLOCK_COUNT
    ensures if WithLinux(s, f) then Nowhere(s, f) else OnlyAt(s, f, x)
    ensures forall y: Place :: NoRepeat(Contents(s, y))
  {
    assert Tied(s, f);
    hide Contents, Valid, Sensible, AllReferenced, InOrder, Deliveries, Alike, Stamped, Accounted;
    x := if s.track[f].At? then s.track[f].place else Queue;
    forall y: Place
      ensures Occurs(s, y, f) <==> IsAt(s.track[f], y)
      ensures NoRepeat(Contents(s, y))
    {
      assert Holds(Contents(s, y), s.track, y);
      if i: nat :| i < |Contents(s, y)| && Contents(s, y)[i].frame == f {
        FitsAt(Contents(s, y), s.track, y, i);
      }
    }
  }

  /** Nothing is ever rejected or lost: every descriptor the RTOS writes passes
      every check Linux makes on it, every reference is there when it is needed,
      the queue and the frozen list never overflow, no reclaim is frozen twice,
      and the release inside a reclaim never fails. The pool's books balance. */
  lemma NeverAFault(actions: seq<Action>)
    ensures Reached(actions).faults == 0 && Valid(Reached(actions).pool)
  {
    ReachedInv(actions);
    hide Reached, Valid;
  }

  /** Whatever waits at the head of a TX ring or of the reclaim ring when Linux
      next looks is accepted. */
  lemma AlwaysAccepted(actions: seq<Action>, ring: nat)
    requires ring < INTERFACE_COUNT
    ensures var s := Reached(actions);
      s.linux.LinuxIdle? && s.tx[ring] != [] ==> TxAcceptable(s.pool, s.tx[ring][0], ring)
    ensures var s := Reached(actions);
      s.linux.LinuxIdle? && s.reclaim != [] ==> ReclaimAcceptable(s.pool, s.reclaim[0])
  {
    ReachedInv(actions);
    hide Reached, Inv, TxAcceptable, ReclaimAcceptable;
    var s := Reached(actions);
    if s.linux.LinuxIdle? && s.tx[ring] != [] { TxHead(s, ring); }
    if s.linux.LinuxIdle? && s.reclaim != [] { ReclaimHead(s); }
  }

  /** Whatever the RTOS still keeps a reference to when it is between tasks is
      queued or frozen, so recovery finds no orphans. */
  lemma NoOrphans(actions: seq<Action>, f: nat)
    requires f < BLOCK_COUNT
    ensures var s := Reached(actions);
      s.rtos.RtosIdle? ==> (s.refs[f].Some? <==> HasFrame(s.queue, f) || HasFrame(s.frozen, f))
  {
    ReachedInv(actions);
    hide Reached, Inv;
    if Reached(actions).rtos.RtosIdle? {
      IdleReferences(Reached(actions), f);
    }
  }

  lemma IdleReferences(s: System, f: nat)
    requires Inv(s) && s.rtos.RtosIdle? && f < BLOCK_COUNT
    ensures s.refs[f].Some? <==> HasFrame(s.queue, f) || HasFrame(s.frozen, f)
  {
    assert Referenced(s, f);
    assert Contents(s, Queue) == s.queue && Contents(s, Frozen) == s.frozen;
    assert Contents(s, Held) == Contents(s, Hand) == [];
    OccursIsTracked(s, Queue, f);
    OccursIsTracked(s, Frozen, f);
    OccursIsTracked(s, Held, f);
    OccursIsTracked(s, Hand, f);
  }

  lemma OccursIsTracked(s: System, x: Place, f: nat)
    requires Shape(s) && Placed(s) && f < BLOCK_COUNT
    ensures HasFrame(Contents(s, x), f) <==> IsAt(s.track[f], x)
  {
    hide Contents;
    assert Holds(Contents(s, x), s.track, x);
    if i: nat :| i < |Contents(s, x)| && Contents(s, x)[i].frame == f {
      FitsAt(Contents(s, x), s.track, x, i);
    }
  }

  /** Every committed message is still in its block, or was delivered on the ring
      its fate names and on no other, or was reclaimed. */
  lemma NothingLost(actions: seq<Action>, n: nat)
    ensures n < |Reached(actions).log| ==> AccountedFor(Reached(actions), n)
    ensures var s := Reached(actions);
      forall ring :: 0 <= ring < INTERFACE_COUNT && n < |s.log| && Numbered(s.delivered[ring], n) ==>
        s.fate[n] == Out(ring, s.log[n].bytes)
  {
    ReachedInv(actions);
    hide Reached;
    var s := Reached(actions);
    forall ring | 0 <= ring < INTERFACE_COUNT && n < |s.log| && Numbered(s.delivered[ring], n)
      ensures s.fate[n] == Out(ring, s.log[n].bytes)
    {
      var k :| 0 <= k < |s.delivered[ring]| && s.delivered[ring][k].number == n;
      assert Delivered(s, ring, s.delivered[ring][k]);
    }
  }

  /** Each delivery is a committed message, byte for byte, and no other TX ring
      delivered it. Of two deliveries on one ring, they are different messages,
      and those of one source interface and one priority leave in commit order. */
  lemma EndToEnd(actions: seq<Action>, ring: nat, i: nat, j: nat)
    requires ring < INTERFACE_COUNT && i <= j
    ensures var s := Reached(actions);
      j < |s.delivered[ring]| ==>
        Delivered(s, ring, s.delivered[ring][i]) && Delivered(s, ring, s.delivered[ring][j])
    ensures var s := Reached(actions);
      forall other :: 0 <= other < INTERFACE_COUNT && other != ring && j < |s.delivered[ring]| ==>
        !Numbered(s.delivered[other], s.delivered[ring][j].number)
    ensures var s := Reached(actions);
      i < j < |s.delivered[ring]| ==>
        var a, b := s.delivered[ring][i], s.delivered[ring][j];
        a.number != b.number && (a.source == b.source && a.priority == b.priority ==> a.number < b.number)
  {
    ReachedInv(actions);
    hide Reached, Placed, Valid, AllTied, AllReferenced, InOrder, Accounted;
    var s := Reached(actions);
    if j < |s.delivered[ring]| {
      assert Delivered(s, ring, s.delivered[ring][i]) && Delivered(s, ring, s.delivered[ring][j]);
      assert forall other, k :: 0 <= other < INTERFACE_COUNT && 0 <= k < |s.delivered[other]| ==>
        Delivered(s, other, s.delivered[other][k]);
      if i < j {
        DeliveriesOrdered(s, ring, i, j);
      }
    }
  }

  lemma DeliveriesOrdered(s: System, ring: nat, i: nat, j: nat)
    requires Inv(s) && ring < INTERFACE_COUNT && i < j < |s.delivered[ring]|
    ensures var a, b := s.delivered[ring][i], s.delivered[ring][j];
      a.source == b.source && a.priority == b.priority ==> a.number < b.number
  {
    var a, b := s.delivered[ring][i], s.delivered[ring][j];
    assert Delivered(s, ring, a) && Delivered(s, ring, b);
    hide Valid, Placed, AllTied, AllReferenced, Deliveries, Contents, Delivered, Accounted;
    if a.source == b.source && a.priority == b.priority {
      Ranked(s, a.source, ring, a.priority);
      var line := Line(s, a.source, ring);
      assert line[i] == TagOf(a) && line[j] == TagOf(b);
    }
  }
}
