/** What a failing pending update does to single ownership. The RTOS producers
    advance write_seq first and report an error if the pending update after it
    fails, so the caller believes that nothing was sent. */
module UpdateFailures {
  import opened Types
  import opened Tracking
  import opened LinuxPool
  import opened Gateway
  import opened GatewayRtos
  import opened GatewayLaws

  /** The block is in one ring or RTOS place, once. */
  ghost predicate OnceOnly(s: System, f: nat)
    requires Shape(s)
  {
    exists x: Place :: OnlyAt(s, f, x) && NoRepeat(Contents(s, x))
  }

  lemma TrackedIsOnce(s: System, f: nat)
    requires Inv(s) && f < BLOCK_COUNT && s.track[f].At?
    ensures Shape(s) && OnceOnly(s, f)
  {
    var x := OnePlace(s, f);
    assert Tied(s, f);
    hide Contents, Valid, Sensible, AllReferenced, InOrder, Deliveries, Alike, Stamped, Accounted, NoRepeat;
  }

  lemma InTwoPlaces(s: System, f: nat, x: Place, y: Place)
    requires Shape(s) && Occurs(s, x, f) && Occurs(s, y, f) && (x != y || !NoRepeat(Contents(s, x)))
    ensures !OnceOnly(s, f)
  {
    hide Contents, NoRepeat, HasFrame;
    forall z: Place
      ensures !(OnlyAt(s, f, z) && NoRepeat(Contents(s, z)))
    {
    }
  }

  // ------------------------------------------------------------------
  // The TX producer
  // ------------------------------------------------------------------

  /** One offer to the TX ring: it looked full, or the descriptor was written and
      the pending update then succeeded or failed. */
  datatype Answer = LookedFull | Written(updated: bool)

  /** A failed update leaves the item in the router's hand. A ring that really is
      full refuses whatever the answer would have been. */
  function Offer(s: System, item: Descriptor, a: Answer): (t: System)
    requires Shape(s)
    ensures Shape(t)
  {
    if a.LookedFull? then s
    else
      var t := DoSendTx(s, item);
      if a.updated then t else t.(rtos := s.rtos)
  }

  /** The router offers an item again as long as it has it in hand. */
  function Offers(s: System, item: Descriptor, answers: seq<Answer>): (t: System)
    requires Shape(s)
    ensures Shape(t)
    decreases |answers|
  {
    if answers == [] || !s.rtos.InHand? then s else Offers(Offer(s, item, answers[0]), item, answers[1..])
  }

  /** After the last offer an item still in hand is given back, or frozen if the
      reclaim ring is full or looks full. */
  function GiveBack(s: System, item: Descriptor, looksFull: bool): (t: System)
    requires Shape(s)
    ensures Shape(t)
  {
    if !s.rtos.InHand? then s
    else if looksFull || |s.reclaim| >= RING_DEPTH then DoFreeze(s, item)
    else DoSendReclaim(s, item)
  }

  /** The first offer that is written has its update fail. */
  predicate FirstUpdateFails(answers: seq<Answer>) {
    answers != [] && if answers[0].LookedFull? then FirstUpdateFails(answers[1..]) else !answers[0].updated
  }

  /** d is on its TX ring although the router still has it in hand. */
  predicate HalfSent(s: System, d: Descriptor) {
    && Shape(s) && Sensible(s) && InBounds(d) && s.rtos == InHand(d)
    && s.refs[d.frame].Some? && InBounds(s.refs[d.frame].value) && s.refs[d.frame].value.frame == d.frame
    && HasFrame(Contents(s, Tx(d.target)), d.frame)
    && !HasFrame(s.frozen, d.frame) && |s.frozen| < BLOCK_COUNT
  }

  /** d is on its TX ring twice. */
  predicate SentTwice(s: System, d: Descriptor) {
    && Shape(s) && d.target < INTERFACE_COUNT && s.rtos.Gone?
    && HasFrame(Contents(s, Tx(d.target)), d.frame) && !NoRepeat(Contents(s, Tx(d.target)))
  }

  lemma LastHasFrame(ds: seq<Descriptor>, d: Descriptor)
    ensures HasFrame(ds + [d], d.frame)
    ensures HasFrame(ds, d.frame) ==> !NoRepeat(ds + [d])
  {
    var all := ds + [d];
    assert all[|ds|].frame == d.frame;
    if i :| 0 <= i < |ds| && ds[i].frame == d.frame {
      assert all[i].frame == all[|ds|].frame;
    }
  }

  /** What an offer writes. */
  lemma OfferWrites(s: System, d: Descriptor, updated: bool)
    requires Shape(s) && Sensible(s) && InBounds(d) && |s.tx[d.target]| < RING_DEPTH
    requires s.refs[d.frame].Some? && InBounds(s.refs[d.frame].value) && s.refs[d.frame].value.frame == d.frame
    ensures var t, sent := Offer(s, d, Written(updated)), TxDescriptor(s.refs[d.frame].value, d);
      && Sensible(t) && t.frozen == s.frozen && t.refs == s.refs && t.reclaim == s.reclaim
      && t.rtos == (if updated then Gone(d.frame) else s.rtos)
      && Contents(t, Tx(d.target)) == Contents(s, Tx(d.target)) + [sent] && sent.frame == d.frame
  {
    var kept := s.refs[d.frame].value;
    assert InBounds(TxDescriptor(kept, d));
    RestOneMore(s.tx[d.target], TxDescriptor(kept, d), s.linux == TxTaken(d.target));
    hide Relocate, Rest, InBounds;
  }

  /** The RTOS has d in its hands: just taken from an RX ring, or from the queue. */
  predicate InHands(s: System, d: Descriptor) {
    s.rtos == Holding(d) || s.rtos == InHand(d)
  }

  lemma HandIsSound(s: System, d: Descriptor)
    requires Inv(s) && InHands(s, d)
    ensures Sensible(s) && InBounds(d) && s.track[d.frame].At?
    ensures s.refs[d.frame] == Some(s.track[d.frame].original)
    ensures InBounds(s.refs[d.frame].value) && s.refs[d.frame].value.frame == d.frame
    ensures !HasFrame(s.frozen, d.frame) && |s.frozen| < BLOCK_COUNT
  {
    LocalItem(s, PlaceInHands(s.rtos), 0);
    FrozenHasRoom(s);
    hide Placed, AllTied, AllReferenced, InOrder, Deliveries, Valid, Accounted;
  }

  lemma FailedOffer(s: System, d: Descriptor)
    requires Inv(s) && s.rtos == InHand(d) && d.target < INTERFACE_COUNT && |s.tx[d.target]| < RING_DEPTH
    ensures HalfSent(Offer(s, d, Written(false)), d)
  {
    HandIsSound(s, d);
    InvShape(s);
    OfferWrites(s, d, false);
    LastHasFrame(Contents(s, Tx(d.target)), TxDescriptor(s.refs[d.frame].value, d));
    hide Inv, Offer, InBounds, Contents, HasFrame, Sensible;
  }

  lemma OfferedAgain(s: System, d: Descriptor, a: Answer)
    requires HalfSent(s, d)
    ensures HalfSent(Offer(s, d, a), d) || SentTwice(Offer(s, d, a), d)
  {
    if a.Written? && |s.tx[d.target]| < RING_DEPTH {
      OfferWrites(s, d, a.updated);
      LastHasFrame(Contents(s, Tx(d.target)), TxDescriptor(s.refs[d.frame].value, d));
      hide Offer, InBounds, Contents, HasFrame, NoRepeat, Sensible;
    } else {
      assert Offer(s, d, a) == s;
    }
  }

  lemma {:induction false} OfferedOn(s: System, d: Descriptor, answers: seq<Answer>)
    requires HalfSent(s, d) || SentTwice(s, d)
    ensures var t := Offers(s, d, answers); HalfSent(t, d) || SentTwice(t, d)
    decreases |answers|
  {
    if answers != [] && s.rtos.InHand? {
      assert HalfSent(s, d);
      OfferedAgain(s, d, answers[0]);
      hide HalfSent, SentTwice, Offer;
      OfferedOn(Offer(s, d, answers[0]), d, answers[1..]);
    }
  }

  lemma GivenBackTwice(s: System, d: Descriptor, looksFull: bool)
    requires HalfSent(s, d)
    ensures !OnceOnly(GiveBack(s, d, looksFull), d.frame)
  {
    var t, kept := GiveBack(s, d, looksFull), s.refs[d.frame].value;
    if looksFull || |s.reclaim| >= RING_DEPTH {
      LastHasFrame(s.frozen, kept);
      assert Contents(t, Frozen) == s.frozen + [kept];
      assert Occurs(t, Frozen, d.frame);
    } else {
      RestOneMore(s.reclaim, kept, s.linux.ReclaimTaken?);
      LastHasFrame(Contents(s, Reclaim), kept);
      assert Occurs(t, Reclaim, d.frame);
    }
    assert Contents(t, Tx(d.target)) == Contents(s, Tx(d.target));
    var y: Place := if looksFull || |s.reclaim| >= RING_DEPTH then Frozen else Reclaim;
    hide Contents, GiveBack, HasFrame, InBounds, NoRepeat;
    InTwoPlaces(t, d.frame, Tx(d.target), y);
  }

  lemma {:induction false} Doubled(s: System, d: Descriptor, answers: seq<Answer>, looksFull: bool)
    requires Inv(s) && s.rtos == InHand(d) && d.target < INTERFACE_COUNT && |s.tx[d.target]| < RING_DEPTH
    requires FirstUpdateFails(answers)
    ensures !OnceOnly(GiveBack(Offers(s, d, answers), d, looksFull), d.frame)
    decreases |answers|
  {
    InvShape(s);
    hide Inv;
    if answers[0].LookedFull? {
      assert Offers(s, d, answers) == Offers(s, d, answers[1..]);
      Doubled(s, d, answers[1..], looksFull);
    } else {
      FailedOffer(s, d);
      var u := Offer(s, d, Written(false));
      OfferedOn(u, d, answers[1..]);
      var t := Offers(u, d, answers[1..]);
      assert Offers(s, d, answers) == t;
      if HalfSent(t, d) {
        GivenBackTwice(t, d, looksFull);
      } else {
        assert GiveBack(t, d, looksFull) == t;
        InTwoPlaces(t, d.frame, Tx(d.target), Tx(d.target));
      }
    }
  }

  /** Offers without a failed update are the gateway's own steps: none at all, or
      one that sends. */
  lemma {:induction false} OffersAreSteps(s: System, d: Descriptor, answers: seq<Answer>)
    requires Shape(s) && s.rtos == InHand(d) && d.target < INTERFACE_COUNT && d.frame < BLOCK_COUNT
    requires s.refs[d.frame].Some? && InBounds(TxDescriptor(s.refs[d.frame].value, d))
    requires |s.tx[d.target]| >= RING_DEPTH || !FirstUpdateFails(answers)
    ensures Offers(s, d, answers) == s || Offers(s, d, answers) == Step(s, SendTx)
    ensures Offers(s, d, answers).rtos == s.rtos ==> Offers(s, d, answers) == s
    decreases |answers|
  {
    if answers != [] {
      hide InBounds, Relocate;
      if answers[0].LookedFull? || |s.tx[d.target]| >= RING_DEPTH {
        assert Offer(s, d, answers[0]) == s;
        OffersAreSteps(s, d, answers[1..]);
      } else {
        var t := Offer(s, d, answers[0]);
        assert t == Step(s, SendTx) && t.rtos == Gone(d.frame);
        assert Offers(t, d, answers[1..]) == t;
      }
    }
  }

  /** An item in hand is offered any number of times and then given back. Before
      Linux looks at either ring, its block is in exactly one place, once, unless
      the ring had room and the first offer written had its pending update fail. */
  lemma PendingUpdateNeeded(s: System, d: Descriptor, answers: seq<Answer>, looksFull: bool)
    requires Inv(s) && s.rtos == InHand(d)
    ensures Shape(s) && InBounds(d)
    ensures OnceOnly(GiveBack(Offers(s, d, answers), d, looksFull), d.frame) <==>
      |s.tx[d.target]| >= RING_DEPTH || !FirstUpdateFails(answers)
  {
    InvShape(s);
    HandIsSound(s, d);
    if |s.tx[d.target]| < RING_DEPTH && FirstUpdateFails(answers) {
      Doubled(s, d, answers, looksFull);
    } else {
      OffersAreSteps(s, d, answers);
      SettledOnce(s, d, Offers(s, d, answers), looksFull);
    }
  }

  lemma SettledOnce(s: System, d: Descriptor, t: System, looksFull: bool)
    requires Inv(s) && s.rtos == InHand(d) && (t == s || (t == Step(s, SendTx) && t.rtos != s.rtos))
    ensures Shape(t) && d.frame < BLOCK_COUNT && OnceOnly(GiveBack(t, d, looksFull), d.frame)
  {
    HandIsSound(s, d);
    InvShape(s);
    if t != s {
      SendTxInv(s);
      assert t.rtos.Gone? && t.track[d.frame].At? && GiveBack(t, d, looksFull) == t;
      hide Inv, Step, GiveBack;
      TrackedIsOnce(t, d.frame);
    } else {
      GivenBackOnce(s, d, looksFull);
    }
  }

  lemma GivenBackOnce(s: System, d: Descriptor, looksFull: bool)
    requires Inv(s) && s.rtos == InHand(d)
    ensures Shape(s) && d.frame < BLOCK_COUNT && OnceOnly(GiveBack(s, d, looksFull), d.frame)
  {
    HandIsSound(s, d);
    InvShape(s);
    FreezeInv(s);
    SendReclaimInv(s);
    var u := GiveBack(s, d, looksFull);
    assert u == Step(s, if looksFull || |s.reclaim| >= RING_DEPTH then Freeze else SendReclaim);
    assert u.track[d.frame].At?;
    hide Inv, Step, GiveBack;
    TrackedIsOnce(u, d.frame);
  }

  // ------------------------------------------------------------------
  // The reclaim producer
  // ------------------------------------------------------------------

  /** Giving back a frame in hand. If the update fails the sink returns the error
      and the frame leaves the hand with its reference still kept. */
  function Reclaimed(s: System, item: Descriptor, updated: bool): (t: System)
    requires Shape(s)
    ensures Shape(t)
  {
    if |s.reclaim| >= RING_DEPTH then DoFreeze(s, item)
    else
      var t := DoSendReclaim(s, item);
      if !updated then t.(rtos := RtosIdle)
      else if item.frame < BLOCK_COUNT then t.(refs := t.refs[item.frame := None], rtos := RtosIdle)
      else t
  }

  /** Recovery's orphan scan when it comes to block f. */
  function Collected(s: System, f: nat, looksFull: bool): (t: System)
    requires Shape(s) && f < BLOCK_COUNT
    ensures Shape(t)
  {
    if s.refs[f].None? || HasFrame(s.frozen, f) then s
    else if looksFull || |s.reclaim| >= RING_DEPTH then DoFreeze(s, s.refs[f].value)
    else DoSendReclaim(s, s.refs[f].value)
  }

  /** A reclaim whose update fails leaves a reference behind, which recovery gives
      back a second time: after the scan the block is in exactly one place, once,
      if and only if the update succeeded or the ring was full. */
  lemma ReclaimUpdateNeeded(s: System, d: Descriptor, updated: bool, looksFull: bool)
    requires Inv(s) && InHands(s, d)
    ensures Shape(s) && d.frame < BLOCK_COUNT
    ensures OnceOnly(Collected(Reclaimed(s, d, updated), d.frame, looksFull), d.frame) <==>
      updated || |s.reclaim| >= RING_DEPTH
  {
    HandIsSound(s, d);
    InvShape(s);
    if |s.reclaim| >= RING_DEPTH {
      FrozenStays(s, d, looksFull);
    } else if updated {
      ReclaimedOnce(s, d, looksFull);
    } else {
      ReclaimedTwice(s, d, looksFull);
    }
  }

  lemma FrozenStays(s: System, d: Descriptor, looksFull: bool)
    requires Inv(s) && Shape(s) && InHands(s, d) && d.frame < BLOCK_COUNT && |s.reclaim| >= RING_DEPTH
    ensures OnceOnly(Collected(Reclaimed(s, d, true), d.frame, looksFull), d.frame)
    ensures OnceOnly(Collected(Reclaimed(s, d, false), d.frame, looksFull), d.frame)
  {
    HandIsSound(s, d);
    FreezeInv(s);
    var u := Reclaimed(s, d, true);
    assert u == Reclaimed(s, d, false) == Step(s, Freeze);
    LastHasFrame(s.frozen, s.refs[d.frame].value);
    assert Collected(u, d.frame, looksFull) == u && u.track[d.frame].At?;
    hide Inv, Step, Collected, Reclaimed;
    TrackedIsOnce(u, d.frame);
  }

  lemma ReclaimIsSteps(s: System, d: Descriptor, looksFull: bool)
    requires Shape(s) && InHands(s, d) && d.frame < BLOCK_COUNT && |s.reclaim| < RING_DEPTH
    requires s.refs[d.frame].Some? && InBounds(s.refs[d.frame].value) && s.track[d.frame].At?
    ensures Shape(Step(s, SendReclaim)) && Step(Step(s, SendReclaim), ClearReference) == Reclaimed(s, d, true)
    ensures var u := Reclaimed(s, d, true); Collected(u, d.frame, looksFull) == u && u.track[d.frame].At?
  {
    assert Step(s, SendReclaim).rtos == Gone(d.frame);
  }

  lemma ReclaimedOnce(s: System, d: Descriptor, looksFull: bool)
    requires Inv(s) && Shape(s) && InHands(s, d) && d.frame < BLOCK_COUNT && |s.reclaim| < RING_DEPTH
    ensures OnceOnly(Collected(Reclaimed(s, d, true), d.frame, looksFull), d.frame)
  {
    HandIsSound(s, d);
    hide *;
    ReclaimIsSteps(s, d, looksFull);
    SendReclaimInv(s);
    ClearReferenceInv(Step(s, SendReclaim));
    TrackedIsOnce(Reclaimed(s, d, true), d.frame);
  }

  lemma ReclaimedTwice(s: System, d: Descriptor, looksFull: bool)
    requires Inv(s) && Shape(s) && InHands(s, d) && d.frame < BLOCK_COUNT && |s.reclaim| < RING_DEPTH
    ensures !OnceOnly(Collected(Reclaimed(s, d, false), d.frame, looksFull), d.frame)
  {
    HandIsSound(s, d);
    var kept, u := s.refs[d.frame].value, Reclaimed(s, d, false);
    RestOneMore(s.reclaim, kept, s.linux.ReclaimTaken?);
    LastHasFrame(Contents(s, Reclaim), kept);
    hide Inv;
    assert Sensible(u) && u.frozen == s.frozen && u.refs == s.refs && u.rtos == RtosIdle;
    assert Contents(u, Reclaim) == Contents(s, Reclaim) + [kept];
    CollectedTwice(u, kept, looksFull);
  }

  lemma CollectedTwice(u: System, kept: Descriptor, looksFull: bool)
    requires Shape(u) && Sensible(u) && u.rtos == RtosIdle && InBounds(kept) && u.refs[kept.frame] == Some(kept)
    requires HasFrame(Contents(u, Reclaim), kept.frame)
    requires !HasFrame(u.frozen, kept.frame) && |u.frozen| < BLOCK_COUNT
    ensures !OnceOnly(Collected(u, kept.frame, looksFull), kept.frame)
  {
    var t := Collected(u, kept.frame, looksFull);
    if looksFull || |u.reclaim| >= RING_DEPTH {
      LastHasFrame(u.frozen, kept);
      assert Contents(t, Frozen) == u.frozen + [kept] && Contents(t, Reclaim) == Contents(u, Reclaim);
      hide Contents, Collected, HasFrame, InBounds, NoRepeat;
      InTwoPlaces(t, kept.frame, Reclaim, Frozen);
    } else {
      RestOneMore(u.reclaim, kept, u.linux.ReclaimTaken?);
      LastHasFrame(Contents(u, Reclaim), kept);
      assert Contents(t, Reclaim) == Contents(u, Reclaim) + [kept];
      hide Contents, Collected, HasFrame, InBounds, NoRepeat;
      InTwoPlaces(t, kept.frame, Reclaim, Reclaim);
    }
  }

  /** Rewriting the oldest frozen reclaim. If the update fails it stays frozen. */
  function Rewrite(s: System, updated: bool): (t: System)
    requires Shape(s)
    ensures Shape(t)
  {
    if s.frozen == [] || |s.reclaim| >= RING_DEPTH then s
    else
      var t := s.(reclaim := s.reclaim + [s.frozen[0]],
                  track := Relocate(s.track, s.frozen[0].frame, Reclaim));
      if !updated || s.frozen[0].frame >= BLOCK_COUNT then t
      else t.(refs := t.refs[s.frozen[0].frame := None], frozen := s.frozen[1..])
  }

  /** The oldest frozen reclaim is in exactly one place, once, after it was
      rewritten if and only if the update succeeded or the ring was full. */
  lemma RewriteUpdateNeeded(s: System, updated: bool)
    requires Inv(s) && s.rtos == RtosIdle && s.frozen != []
    ensures Shape(s)
    ensures OnceOnly(Rewrite(s, updated), s.frozen[0].frame) <==> updated || |s.reclaim| >= RING_DEPTH
  {
    InvShape(s);
    LocalItem(s, Frozen, 0);
    var d := s.frozen[0];
    hide Inv;
    if |s.reclaim| >= RING_DEPTH {
      TrackedIsOnce(s, d.frame);
    } else if updated {
      RewrittenOnce(s);
    } else {
      RewrittenTwice(s);
    }
  }

  lemma RewriteIsSteps(s: System, f: nat)
    requires Shape(s) && s.rtos == RtosIdle && s.frozen != [] && |s.reclaim| < RING_DEPTH
    requires s.frozen[0].frame == f < BLOCK_COUNT && s.track[f].At?
    ensures Shape(Step(s, RetryFrozen)) && Step(Step(s, RetryFrozen), ForgetFrozen) == Rewrite(s, true)
    ensures Rewrite(s, true).track[f].At?
  {
    assert Step(s, RetryFrozen).rtos == Rewritten(f);
  }

  lemma RewrittenOnce(s: System)
    requires Inv(s) && Shape(s) && s.rtos == RtosIdle && s.frozen != [] && |s.reclaim| < RING_DEPTH
    ensures OnceOnly(Rewrite(s, true), s.frozen[0].frame)
  {
    LocalItem(s, Frozen, 0);
    var f := s.frozen[0].frame;
    assert f < BLOCK_COUNT && s.track[f].At?;
    hide *;
    RewriteIsSteps(s, f);
    RetryFrozenInv(s);
    ForgetFrozenInv(Step(s, RetryFrozen));
    TrackedIsOnce(Rewrite(s, true), f);
  }

  lemma RewrittenTwice(s: System)
    requires Shape(s) && Sensible(s) && s.rtos == RtosIdle && s.frozen != [] && |s.reclaim| < RING_DEPTH
    ensures !OnceOnly(Rewrite(s, false), s.frozen[0].frame)
  {
    var t, d := Rewrite(s, false), s.frozen[0];
    RestOneMore(s.reclaim, d, s.linux.ReclaimTaken?);
    LastHasFrame(Contents(s, Reclaim), d);
    assert Contents(t, Frozen) == s.frozen && s.frozen[0].frame == d.frame;
    assert Contents(t, Reclaim) == Contents(s, Reclaim) + [d];
    assert HasFrame(s.frozen, d.frame);
    hide Contents, Rewrite, HasFrame, NoRepeat;
    InTwoPlaces(t, d.frame, Frozen, Reclaim);
  }
}
