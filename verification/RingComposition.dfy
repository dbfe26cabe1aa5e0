/** How the single-ring protocol meets the gateway model, which treats each ring
    as a sequence. */
module RingComposition {
  import opened Types
  import opened Tracking
  import G = Gateway
  import P = RingProtocol

  datatype RingName = RxRing(i: nat) | TxRing(i: nat) | ReclaimRing

  function OnRing(s: G.System, x: RingName): seq<Descriptor>
    requires G.Shape(s)
  {
    match x
    case RxRing(i) => if i < INTERFACE_COUNT then s.rx[i] else []
    case TxRing(i) => if i < INTERFACE_COUNT then s.tx[i] else []
    case ReclaimRing => s.reclaim
  }

  predicate Appends(before: seq<Descriptor>, after: seq<Descriptor>) {
    |before| < G.RING_DEPTH && |after| == |before| + 1 && after[..|before|] == before
  }

  predicate Removes(before: seq<Descriptor>, after: seq<Descriptor>) {
    before != [] && after == before[1..]
  }

  lemma LinuxStepOnRing(s: G.System, a: G.Action, x: RingName)
    requires G.Shape(s) && G.IsLinux(a) && G.Shape(G.Step(s, a))
    ensures var before, after := OnRing(s, x), OnRing(G.Step(s, a), x);
      after == before || Appends(before, after) || Removes(before, after)
  {
  }

  lemma RtosStepOnRing(s: G.System, a: G.Action, x: RingName)
    requires G.Shape(s) && !G.IsLinux(a) && G.Shape(G.Step(s, a))
    ensures var before, after := OnRing(s, x), OnRing(G.Step(s, a), x);
      after == before || Appends(before, after) || Removes(before, after)
  {
    hide InBounds, G.Relocate, G.FirstOf;
  }

  /** No gateway step does anything to a ring but append below the depth or remove
      the oldest. */
  lemma StepOnRing(s: G.System, a: G.Action, x: RingName)
    requires G.Shape(s)
    ensures G.Shape(G.Step(s, a))
    ensures var before, after := OnRing(s, x), OnRing(G.Step(s, a), x);
      after == before || Appends(before, after) || Removes(before, after)
  {
    G.StepShape(s, a);
    hide G.Step, G.Shape, OnRing;
    if G.IsLinux(a) {
      LinuxStepOnRing(s, a, x);
    } else {
      RtosStepOnRing(s, a, x);
    }
  }

  /** A protocol ring, in any state of its producer and consumer, that holds ds. */
  ghost predicate Carries(r: P.Ring<Descriptor>, ds: seq<Descriptor>) {
    P.Inv(r) && |r.slots| == G.RING_DEPTH && P.Waiting(r) == ds
  }

  /** The two steps that move a sequence number. */
  predicate MovesSequence(r: P.Ring<Descriptor>, a: P.Action<Descriptor>) {
    (a.Publish? && r.producer.Stored?) || (a.Advance? && r.consumer.Copied?)
  }

  /** What each step of the protocol does to what the ring holds: publishing
      appends, advancing removes the oldest, which is what was copied, and no other
      step shows. */
  lemma StepCarries(r: P.Ring<Descriptor>, a: P.Action<Descriptor>, ds: seq<Descriptor>)
    requires Carries(r, ds)
    ensures !MovesSequence(r, a) ==> Carries(P.Step(r, a), ds)
    ensures a.Publish? && r.producer.Stored? ==> Carries(P.Step(r, a), ds + [r.producer.item])
    ensures a.Advance? && r.consumer.Copied? ==>
      ds != [] && r.consumer.item == ds[0] && Carries(P.Step(r, a), ds[1..])
  {
    StepDepth(r, a);
    P.StepInv(r, a);
    P.StepIsFifo(r, a);
    hide P.Step, P.Inv;
  }

  lemma StepDepth(r: P.Ring<Descriptor>, a: P.Action<Descriptor>)
    requires 0 < |r.slots|
    ensures |P.Step(r, a).slots| == |r.slots|
  {
  }

  /** The producer's look finds room exactly when the gateway's guard does. */
  lemma RoomAgrees(r: P.Ring<Descriptor>, ds: seq<Descriptor>)
    requires Carries(r, ds)
    ensures P.Used(r) < |r.slots| <==> |ds| < G.RING_DEPTH
  {
    P.UsedIs(r);
  }

  /** A gateway step that changes a ring is the one step of its protocol that
      moves write_seq, or the one that moves read_seq. */
  lemma GatewayStepIsRingStep(s: G.System, a: G.Action, x: RingName, r: P.Ring<Descriptor>)
    requires G.Shape(s) && Carries(r, OnRing(s, x))
    ensures G.Shape(G.Step(s, a))
    ensures var before, after := OnRing(s, x), OnRing(G.Step(s, a), x);
      && (after == before || Appends(before, after) || Removes(before, after))
      && (Appends(before, after) && r.producer.Stored? && r.producer.item == after[|before|] ==>
           Carries(P.Step(r, P.Publish), after))
      && (Removes(before, after) && r.consumer.Copied? ==>
           r.consumer.item == before[0] && Carries(P.Step(r, P.Advance), after))
  {
    hide *;
    StepOnRing(s, a, x);
    ChangeIsRingStep(OnRing(s, x), OnRing(G.Step(s, a), x), r);
  }

  lemma ChangeIsRingStep(before: seq<Descriptor>, after: seq<Descriptor>, r: P.Ring<Descriptor>)
    requires Carries(r, before)
    ensures Appends(before, after) && r.producer.Stored? && r.producer.item == after[|before|] ==>
      Carries(P.Step(r, P.Publish), after)
    ensures Removes(before, after) && r.consumer.Copied? ==>
      r.consumer.item == before[0] && Carries(P.Step(r, P.Advance), after)
  {
    hide P.Step, Carries, MovesSequence;
    StepCarries(r, P.Publish, before);
    StepCarries(r, P.Advance, before);
    if Appends(before, after) {
      assert after == before + [after[|before|]];
    }
  }
}
