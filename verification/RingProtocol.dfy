/** One descriptor ring in shared memory: a single producer and a single
    consumer on different cores, each taking its own steps in any order.
    Every read of the other side's sequence number may be stale by the time it
    is used. */
module RingProtocol {
  import opened Types
  import opened SequenceNumbers

  datatype Producer<+T> =
    | Idle
    | Room(item: T, wasEmpty: bool)      // saw a free slot when it looked
    | Stored(item: T, wasEmpty: bool)    // slot written, not yet published
    | Published(wasEmpty: bool)          // write_seq advanced, bit not yet set
    | Flagged(wasEmpty: bool)            // bit set, doorbell not yet decided

  datatype Consumer<+T> =
    | Resting
    | Seen(write: u32)                   // saw a non-empty ring at this write_seq
    | Copied(write: u32, item: T)        // slot read
    | Advanced                           // took the last descriptor it knew of
    | Clearing                           // looked again, still empty
    | Cleared                            // bit cleared, final look due
    | MustSet                            // final look found a new descriptor

  /** `published` and `consumed` record everything that went in and came out. */
  datatype Ring<T> = Ring(
    slots: seq<T>, write: u32, read: u32, pending: bool,
    producer: Producer<T>, consumer: Consumer<T>,
    published: seq<T>, consumed: seq<T>, doorbells: nat)

  datatype Action<+T> =
    | Begin(item: T) | Store | Publish | Flag | Knock(heard: bool)
    | Look | Copy | Advance | LookAgain | Clear | LastLook | SetBack

  function Used(r: Ring): nat {
    (r.write - r.read) % U32
  }

  /** A step that is not enabled leaves the ring alone. */
  function Step<T>(r: Ring<T>, a: Action<T>): Ring<T>
    requires 0 < |r.slots|
  {
    if a.Begin? || a.Store? || a.Publish? || a.Flag? || a.Knock? then ProducerStep(r, a) else ConsumerStep(r, a)
  }

  function ProducerStep<T>(r: Ring<T>, a: Action<T>): Ring<T>
    requires 0 < |r.slots|
  {
    match (a, r.producer)
    case (Begin(item), Idle) =>
      if Used(r) >= |r.slots| then r else r.(producer := Room(item, r.write == r.read))
    case (Store, Room(item, wasEmpty)) =>
      r.(slots := r.slots[r.write % |r.slots| := item], producer := Stored(item, wasEmpty))
    case (Publish, Stored(item, wasEmpty)) =>
      r.(write := Next(r.write), published := r.published + [item], producer := Published(wasEmpty))
    case (Flag, Published(wasEmpty)) =>
      r.(pending := true, producer := Flagged(wasEmpty))
    case (Knock(heard), Flagged(wasEmpty)) =>
      r.(producer := Idle, doorbells := r.doorbells + if wasEmpty && heard then 1 else 0)
    case _ => r
  }

  function ConsumerStep<T>(r: Ring<T>, a: Action<T>): Ring<T>
    requires 0 < |r.slots|
  {
    match (a, r.consumer)
    case (Look, Resting) =>
      if r.write == r.read then r else r.(consumer := Seen(r.write))
    case (Copy, Seen(w)) =>
      r.(consumer := Copied(w, r.slots[r.read % |r.slots|]))
    case (Advance, Copied(w, item)) =>
      r.(read := Next(r.read), consumed := r.consumed + [item],
         consumer := if Next(r.read) == w then Advanced else Resting)
    case (LookAgain, Advanced) =>
      r.(consumer := if r.read == r.write then Clearing else Resting)
    case (Clear, Clearing) => r.(pending := false, consumer := Cleared)
    case (LastLook, Cleared) =>
      r.(consumer := if r.read == r.write then Resting else MustSet)
    case (SetBack, MustSet) => r.(pending := true, consumer := Resting)
    case _ => r
  }

  function Run<T>(r: Ring<T>, actions: seq<Action<T>>): (s: Ring<T>)
    requires 0 < |r.slots|
    ensures |s.slots| == |r.slots|
    decreases |actions|
  {
    if actions == [] then r else
      var t := Step(r, actions[0]);
      Run(t, actions[1..])
  }

  ghost predicate Fresh<T>(r: Ring<T>) {
    r.write == r.read == 0 && !r.pending && r.producer.Idle? && r.consumer.Resting?
    && r.published == [] && r.consumed == []
  }

  // ------------------------------------------------------------------
  // Invariant
  // ------------------------------------------------------------------

  /** Sequence numbers count what happened, and the ring never holds more than
      its slots. */
  ghost predicate Counted<T>(r: Ring<T>) {
    && DepthOk(|r.slots|)
    && |r.consumed| <= |r.published| <= |r.consumed| + |r.slots|
    && r.write == |r.published| % U32
    && r.read == |r.consumed| % U32
  }

  /** Unread slots hold what was published there, and what was consumed is a
      prefix of what was published. */
  ghost predicate Faithful<T>(r: Ring<T>)
    requires 0 < |r.slots|
  {
    && r.consumed <= r.published
    && forall k :: |r.consumed| <= k < |r.published| ==> r.slots[k % |r.slots|] == r.published[k]
  }

  /** A producer past its look still has a free slot, however stale the look. */
  ghost predicate ProducerOk<T>(r: Ring<T>)
    requires 0 < |r.slots|
  {
    && (r.producer.Room? || r.producer.Stored? ==> |r.published| < |r.consumed| + |r.slots|)
    && (r.producer.Stored? ==> r.slots[|r.published| % |r.slots|] == r.producer.item)
  }

  ghost predicate ConsumerOk<T>(r: Ring<T>) {
    && (r.consumer.Seen? || r.consumer.Copied? ==> |r.consumed| < |r.published|)
    && (r.consumer.Copied? && |r.consumed| < |r.published| ==> r.consumer.item == r.published[|r.consumed|])
  }

  /** A non-empty ring has its bit set, unless one side is between the two steps
      that will set it. */
  ghost predicate Announced<T>(r: Ring<T>) {
    r.write != r.read && !r.pending ==>
      r.producer.Published? || r.consumer.Cleared? || r.consumer.MustSet?
  }

  ghost predicate Inv<T>(r: Ring<T>) {
    Counted(r) && Faithful(r) && ProducerOk(r) && ConsumerOk(r) && Announced(r)
  }

  lemma FreshInv<T>(r: Ring<T>)
    requires Fresh(r) && DepthOk(|r.slots|)
    ensures Inv(r)
  {
  }

  lemma UsedIs<T>(r: Ring<T>)
    requires Counted(r)
    ensures Used(r) == |r.published| - |r.consumed|
    ensures r.write == r.read <==> |r.published| == |r.consumed|
  {
    Distance(|r.published|, |r.consumed|);
  }

  lemma BeginInv<T>(r: Ring<T>, item: T)
    requires Inv(r)
    ensures Inv(Step(r, Begin(item)))
  {
    UsedIs(r);
  }

  /** Writing a slot overwrites nothing unread. */
  lemma StoreInv<T>(r: Ring<T>)
    requires Inv(r) && r.producer.Room?
    ensures Inv(Step(r, Store))
  {
    var s := Step(r, Store);
    IndexSurvivesWrap(|r.published|, |r.slots|);
    forall k | |r.consumed| <= k < |r.published|
      ensures s.slots[k % |r.slots|] == r.published[k]
    {
      if k % |r.slots| == |r.published| % |r.slots| {
        SameSlot(k, |r.published|, |r.slots|);
        assert false;
      }
    }
  }

  lemma PublishInv<T>(r: Ring<T>)
    requires Inv(r) && r.producer.Stored?
    ensures Inv(Step(r, Publish))
  {
    NextCounts(|r.published|);
    UsedIs(r);
    UsedIs(Step(r, Publish));
  }

  lemma CopyInv<T>(r: Ring<T>)
    requires Inv(r) && r.consumer.Seen?
    ensures Inv(Step(r, Copy))
  {
    IndexSurvivesWrap(|r.consumed|, |r.slots|);
  }

  lemma AdvanceInv<T>(r: Ring<T>)
    requires Inv(r) && r.consumer.Copied?
    ensures Inv(Step(r, Advance))
  {
    NextCounts(|r.consumed|);
    UsedIs(r);
    UsedIs(Step(r, Advance));
  }

  lemma OtherInv<T>(r: Ring<T>, a: Action<T>)
    requires Inv(r) && !a.Begin? && !a.Store? && !a.Publish? && !a.Copy? && !a.Advance?
    ensures Inv(Step(r, a))
  {
    UsedIs(r);
  }

  lemma StepInv<T>(r: Ring<T>, a: Action<T>)
    requires Inv(r)
    ensures Inv(Step(r, a))
  {
    match a
    case Begin(item) => BeginInv(r, item);
    case Store => if r.producer.Room? { StoreInv(r); }
    case Publish => if r.producer.Stored? { PublishInv(r); }
    case Copy => if r.consumer.Seen? { CopyInv(r); }
    case Advance => if r.consumer.Copied? { AdvanceInv(r); }
    case _ => OtherInv(r, a);
  }

  lemma {:induction false} RunInv<T>(r: Ring<T>, actions: seq<Action<T>>)
    requires Inv(r)
    ensures Inv(Run(r, actions))
    decreases |actions|
  {
    if actions == [] {
    } else {
      StepInv(r, actions[0]);
      RunInv(Step(r, actions[0]), actions[1..]);
    }
  }

  /** The descriptors in the ring, oldest first. */
  function Waiting<T>(r: Ring<T>): seq<T>
    requires |r.consumed| <= |r.published|
  {
    r.published[|r.consumed|..]
  }

  /** Every single step is a step of a bounded FIFO: write_seq advancing appends,
      which happens only below the depth; read_seq advancing removes the oldest,
      which is the descriptor the consumer read; no other step changes anything. */
  lemma StepIsFifo<T>(r: Ring<T>, a: Action<T>)
    requires Inv(r)
    ensures var s := Step(r, a);
      && |s.consumed| <= |s.published|
      && (if a.Publish? && r.producer.Stored? then
            Waiting(s) == Waiting(r) + [r.producer.item] && |Waiting(r)| < |r.slots|
          else if a.Advance? && r.consumer.Copied? then
            Waiting(r) != [] && Waiting(r)[0] == r.consumer.item && Waiting(s) == Waiting(r)[1..]
          else Waiting(s) == Waiting(r))
  {
    StepInv(r, a);
    if a.Publish? && r.producer.Stored? {
      PublishStep(r);
    } else if a.Advance? && r.consumer.Copied? {
      AdvanceStep(r);
    } else {
      StepKeepsHistory(r, a);
    }
    hide Step, Inv;
  }

  lemma StepKeepsHistory<T>(r: Ring<T>, a: Action<T>)
    requires 0 < |r.slots| && !(a.Publish? && r.producer.Stored?) && !(a.Advance? && r.consumer.Copied?)
    ensures Step(r, a).published == r.published && Step(r, a).consumed == r.consumed
  {
  }

  /** Whatever the interleaving and across any number of 2^32 wraps, a ring
      started empty is a bounded FIFO: what comes out is a prefix of what went
      in, and at most depth descriptors are in between. */
  lemma RefinesBoundedFifo<T>(r: Ring<T>, actions: seq<Action<T>>)
    requires Fresh(r) && DepthOk(|r.slots|)
    ensures var s := Run(r, actions);
      s.consumed <= s.published && Used(s) == |s.published| - |s.consumed| <= |s.slots|
  {
    FreshInv(r);
    RunInv(r, actions);
    UsedIs(Run(r, actions));
  }

  /** With both sides idle, a ring that holds anything has its pending bit set. */
  lemma IdleNonEmptyIsPending<T>(r: Ring<T>, actions: seq<Action<T>>)
    requires Fresh(r) && DepthOk(|r.slots|)
    ensures var s := Run(r, actions);
      s.producer.Idle? && s.consumer.Resting? && |s.consumed| < |s.published| ==> s.pending
  {
    FreshInv(r);
    RunInv(r, actions);
    UsedIs(Run(r, actions));
  }

  // ------------------------------------------------------------------
  // The doorbell alone is not enough
  // ------------------------------------------------------------------

  lemma RunFirst<T>(r: Ring<T>, a: Action<T>, rest: seq<Action<T>>)
    requires 0 < |r.slots|
    ensures Run(r, [a] + rest) == Run(Step(r, a), rest)
  {
    assert ([a] + rest)[1..] == rest;
  }

  lemma {:induction false} RunConcat<T>(r: Ring<T>, a: seq<Action<T>>, b: seq<Action<T>>)
    requires 0 < |r.slots|
    ensures Run(r, a + b) == Run(Run(r, a), b)
    decreases |a|
  {
    if a == [] {
      assert a + b == b;
    } else {
      assert (a + b)[0] == a[0] && (a + b)[1..] == a[1..] + b;
      RunConcat(Step(r, a[0]), a[1..], b);
    }
  }

  /** An enqueue after its look, and a dequeue in two halves. */
  function Finish<T>(heard: bool): seq<Action<T>> {
    [Store, Publish, Flag, Knock(heard)]
  }

  function Fetch<T>(): seq<Action<T>> {
    [Look, Copy, Advance]
  }

  function Settle<T>(): seq<Action<T>> {
    [LookAgain, Clear, LastLook, SetBack]
  }

  lemma RunThree<T>(r: Ring<T>, a: Action<T>, b: Action<T>, c: Action<T>)
    requires 0 < |r.slots|
    ensures Run(r, [a, b, c]) == Step(Step(Step(r, a), b), c)
  {
    hide Step;
    assert [a, b, c] == [a] + ([b] + ([c] + []));
    RunFirst(r, a, [b] + ([c] + []));
    RunFirst(Step(r, a), b, [c] + []);
    RunFirst(Step(Step(r, a), b), c, []);
  }

  lemma RunFour<T>(r: Ring<T>, a: Action<T>, b: Action<T>, c: Action<T>, d: Action<T>)
    requires 0 < |r.slots|
    ensures Run(r, [a, b, c, d]) == Step(Step(Step(Step(r, a), b), c), d)
  {
    hide Step;
    assert [a, b, c, d] == [a] + [b, c, d];
    RunFirst(r, a, [b, c, d]);
    RunThree(Step(r, a), b, c, d);
  }

  lemma StoreStep<T>(r: Ring<T>)
    requires 0 < |r.slots| && r.producer.Room?
    ensures Step(r, Store) == r.(slots := r.slots[r.write % |r.slots| := r.producer.item],
                                 producer := Stored(r.producer.item, r.producer.wasEmpty))
  {
  }

  lemma PublishStep<T>(r: Ring<T>)
    requires 0 < |r.slots| && r.producer.Stored?
    ensures Step(r, Publish) == r.(write := Next(r.write), published := r.published + [r.producer.item],
                                   producer := Published(r.producer.wasEmpty))
  {
  }

  lemma FlagStep<T>(r: Ring<T>)
    requires 0 < |r.slots| && r.producer.Published?
    ensures Step(r, Flag) == r.(pending := true, producer := Flagged(r.producer.wasEmpty))
  {
  }

  lemma KnockStep<T>(r: Ring<T>, heard: bool)
    requires 0 < |r.slots| && r.producer.Flagged?
    ensures Step(r, Knock(heard)) == r.(producer := Idle,
                                        doorbells := r.doorbells + if r.producer.wasEmpty && heard then 1 else 0)
  {
  }

  lemma FinishRuns<T>(r: Ring<T>, heard: bool)
    requires 0 < |r.slots| && r.producer.Room?
    ensures Run(r, Finish(heard)) == r.(
      slots := r.slots[r.write % |r.slots| := r.producer.item], write := Next(r.write), pending := true,
      producer := Idle, published := r.published + [r.producer.item],
      doorbells := r.doorbells + if r.producer.wasEmpty && heard then 1 else 0)
  {
    hide Step;
    RunFour(r, Store, Publish, Flag, Knock(heard));
    StoreStep(r);
    PublishStep(Step(r, Store));
    FlagStep(Step(Step(r, Store), Publish));
    KnockStep(Step(Step(Step(r, Store), Publish), Flag), heard);
  }

  lemma AdvanceStep<T>(r: Ring<T>)
    requires 0 < |r.slots| && r.consumer.Copied?
    ensures Step(r, Advance) == r.(read := Next(r.read), consumed := r.consumed + [r.consumer.item],
                                   consumer := if Next(r.read) == r.consumer.write then Advanced else Resting)
  {
  }

  lemma LookCopy<T>(r: Ring<T>)
    requires 0 < |r.slots| && r.consumer.Resting? && r.write != r.read
    ensures Step(Step(r, Look), Copy) == r.(consumer := Copied(r.write, r.slots[r.read % |r.slots|]))
  {
    assert Step(r, Look) == r.(consumer := Seen(r.write));
  }

  lemma FetchRuns<T>(r: Ring<T>)
    requires 0 < |r.slots| && r.consumer.Resting? && r.write != r.read
    ensures Run(r, Fetch()) == r.(
      read := Next(r.read), consumed := r.consumed + [r.slots[r.read % |r.slots|]],
      consumer := if Next(r.read) == r.write then Advanced else Resting)
  {
    hide Step;
    RunThree(r, Look, Copy, Advance);
    LookCopy(r);
    AdvanceStep(Step(Step(r, Look), Copy));
  }

  lemma FetchNothing<T>(r: Ring<T>)
    requires 0 < |r.slots| && r.consumer.Resting? && r.write == r.read
    ensures Run(r, Fetch()) == r
  {
    RunThree(r, Look, Copy, Advance);
  }

  /** An enqueue run without a break. */
  lemma EnqueueRuns<T>(r: Ring<T>, item: T, heard: bool)
    requires 0 < |r.slots| && r.producer.Idle?
    ensures Run(r, [Begin(item)] + Finish(heard)) ==
      if Used(r) >= |r.slots| then r
      else r.(slots := r.slots[r.write % |r.slots| := item], write := Next(r.write), pending := true,
              published := r.published + [item],
              doorbells := r.doorbells + if r.write == r.read && heard then 1 else 0)
  {
    RunFirst(r, Begin(item), Finish(heard));
    if Used(r) >= |r.slots| {
      FinishNothing(r, heard);
    } else {
      FinishRuns(Step(r, Begin(item)), heard);
    }
  }

  lemma FinishNothing<T>(r: Ring<T>, heard: bool)
    requires 0 < |r.slots| && r.producer.Idle?
    ensures Run(r, Finish(heard)) == r
  {
    RunFour(r, Store, Publish, Flag, Knock(heard));
  }

  /** A dequeue run without a break. */
  lemma DequeueRuns<T>(r: Ring<T>)
    requires 0 < |r.slots| && r.consumer.Resting?
    ensures Run(r, Fetch() + Settle()) ==
      if r.write == r.read then r
      else r.(read := Next(r.read), consumed := r.consumed + [r.slots[r.read % |r.slots|]],
              pending := r.pending && Next(r.read) != r.write)
  {
    RunConcat(r, Fetch(), Settle());
    if r.write == r.read {
      FetchNothing(r);
      SettleRuns(r);
    } else {
      FetchRuns(r);
      SettleRuns(Run(r, Fetch()));
    }
  }

  lemma SettleRuns<T>(r: Ring<T>)
    requires 0 < |r.slots| && (r.consumer.Resting? || r.consumer.Advanced?)
    ensures Run(r, Settle()) == if r.consumer.Advanced? && r.read == r.write
      then r.(pending := false, consumer := Resting) else r.(consumer := Resting)
  {
    RunFour(r, LookAgain, Clear, LastLook, SetBack);
    if r.consumer.Advanced? && r.read == r.write {
      SettleEmpty(r);
    } else {
      SettleBusy(r);
    }
  }

  lemma SettleEmpty<T>(r: Ring<T>)
    requires 0 < |r.slots| && r.consumer.Advanced? && r.read == r.write
    ensures Step(Step(Step(Step(r, LookAgain), Clear), LastLook), SetBack) == r.(pending := false, consumer := Resting)
  {
    assert Step(r, LookAgain) == r.(consumer := Clearing);
    var q := r.(pending := false, consumer := Cleared);
    assert Step(r.(consumer := Clearing), Clear) == q;
    assert Step(q, LastLook) == q.(consumer := Resting);
  }

  lemma SettleBusy<T>(r: Ring<T>)
    requires 0 < |r.slots|
    requires r.consumer.Resting? || (r.consumer.Advanced? && r.read != r.write)
    ensures Step(Step(Step(Step(r, LookAgain), Clear), LastLook), SetBack) == r.(consumer := Resting)
  {
    var q := r.(consumer := Resting);
    assert Step(r, LookAgain) == q;
    assert Step(q, Clear) == q;
    assert Step(q, LastLook) == q;
    assert Step(q, SetBack) == q;
  }

  /** Put x, look with y in hand, and let the consumer drain the ring. */
  function Drained<T>(x: T, y: T): seq<Action<T>> {
    ([Begin(x)] + Finish(true)) + ([Begin(y)] + (Fetch() + Settle()))
  }

  lemma DrainedSteps<T>(r: Ring<T>, x: T, y: T)
    requires 0 < |r.slots|
    ensures Run(r, Drained(x, y)) ==
      Run(Step(Run(r, [Begin(x)] + Finish(true)), Begin(y)), Fetch() + Settle())
  {
    hide Step, Run, Finish, Fetch, Settle;
    var a := Run(r, [Begin(x)] + Finish(true));
    RunConcat(r, [Begin(x)] + Finish(true), [Begin(y)] + (Fetch() + Settle()));
    RunFirst(a, Begin(y), Fetch() + Settle());
  }

  lemma DrainedRuns<T>(r: Ring<T>, x: T, y: T)
    requires Fresh(r) && 2 <= |r.slots|
    ensures Run(r, Drained(x, y)) ==
      r.(slots := r.slots[0 := x], write := 1, read := 1, pending := false,
         published := [x], consumed := [x], producer := Room(y, false), doorbells := r.doorbells + 1)
  {
    hide Run;
    DrainedSteps(r, x, y);
    EnqueueRuns(r, x, true);
    var a := Run(r, [Begin(x)] + Finish(true));
    assert a == r.(slots := r.slots[0 := x], write := 1, pending := true, published := [x],
                   doorbells := r.doorbells + 1);
    var b := Step(a, Begin(y));
    assert b == a.(producer := Room(y, false));
    DequeueRuns(b);
  }

  /** The doorbell rings only when the producer saw the ring empty, and that
      look may be stale: here the consumer drains the ring and comes to rest
      between the producer's look and its publication, no doorbell follows,
      and only the pending bit tells that a descriptor waits. */
  lemma DoorbellMissed<T>(r: Ring<T>, x: T, y: T)
    requires Fresh(r) && 2 <= |r.slots|
    ensures var drained := Run(r, Drained(x, y));
      drained.consumer.Resting? && drained.consumed == drained.published == [x]
    ensures var s := Run(r, Drained(x, y) + Finish(true));
      && s.producer.Idle? && s.consumer.Resting? && s.pending
      && s.published == [x, y] && s.consumed == [x]
      && s.doorbells == Run(r, Drained(x, y)).doorbells
  {
    hide Step;
    DrainedRuns(r, x, y);
    FinishRuns(Run(r, Drained(x, y)), true);
    RunConcat(r, Drained(x, y), Finish(true));
  }

  // ------------------------------------------------------------------
  // When the doorbell rings
  // ------------------------------------------------------------------

  /** Steps that neither start nor end an enqueue: anything the consumer does,
      and the producer's steps in between. */
  predicate Between<T>(mid: seq<Action<T>>) {
    forall i :: 0 <= i < |mid| ==> !mid[i].Begin? && !mid[i].Knock?
  }

  predicate SawEmpty<T>(p: Producer<T>) {
    !p.Idle? && p.wasEmpty
  }

  lemma BetweenStep<T>(r: Ring<T>, a: Action<T>)
    requires 0 < |r.slots| && !a.Begin? && !a.Knock?
    ensures var t := Step(r, a);
      && |t.slots| == |r.slots| && t.doorbells == r.doorbells && t.producer.Idle? == r.producer.Idle?
      && SawEmpty(t.producer) == SawEmpty(r.producer)
  {
  }

  /** What the producer saw stays with it, however stale it becomes. */
  lemma {:induction false} BetweenKeeps<T>(r: Ring<T>, mid: seq<Action<T>>)
    requires 0 < |r.slots| && Between(mid)
    ensures var t := Run(r, mid);
      && t.doorbells == r.doorbells && t.producer.Idle? == r.producer.Idle?
      && SawEmpty(t.producer) == SawEmpty(r.producer)
    decreases |mid|
  {
    hide Step, SawEmpty;
    if mid != [] {
      BetweenStep(r, mid[0]);
      BetweenKeeps(Step(r, mid[0]), mid[1..]);
    }
  }

  /** An enqueue from its look to its doorbell decision, with any steps of the
      consumer in between: the doorbell rings if and only if the ring was empty at
      the look and the notification is heard. */
  lemma DoorbellExactlyWhen<T>(r: Ring<T>, item: T, mid: seq<Action<T>>, heard: bool)
    requires 0 < |r.slots| && r.producer.Idle? && Between(mid)
    requires Run(r, [Begin(item)] + mid).producer.Flagged?
    ensures var s := Run(r, [Begin(item)] + mid + [Knock(heard)]);
      s.producer.Idle? && s.doorbells == r.doorbells + if r.write == r.read && heard then 1 else 0
  {
    var b := Step(r, Begin(item));
    RunFirst(r, Begin(item), mid);
    BetweenKeeps(b, mid);
    var t := Run(r, [Begin(item)] + mid);
    KnockStep(t, heard);
    hide Step;
    RunConcat(r, [Begin(item)] + mid, [Knock(heard)]);
    RunOne(t, Knock(heard));
  }

  lemma RunOne<T>(r: Ring<T>, a: Action<T>)
    requires 0 < |r.slots|
    ensures Run(r, [a]) == Step(r, a)
  {
    assert [a][1..] == [];
  }

  /** A refused enqueue never rings. */
  lemma RefusedIsSilent<T>(r: Ring<T>, item: T, mid: seq<Action<T>>, heard: bool)
    requires 0 < |r.slots| && r.producer.Idle? && Between(mid) && Used(r) >= |r.slots|
    ensures Run(r, [Begin(item)] + mid + [Knock(heard)]).doorbells == r.doorbells
  {
    assert Step(r, Begin(item)) == r;
    RunFirst(r, Begin(item), mid);
    BetweenKeeps(r, mid);
    var t := Run(r, [Begin(item)] + mid);
    RunConcat(r, [Begin(item)] + mid, [Knock(heard)]);
    RunOne(t, Knock(heard));
  }

  predicate BeforePublish<T>(p: Producer<T>) {
    p.Room? || p.Stored?
  }

  lemma BeforePublishStep<T>(r: Ring<T>, a: Action<T>)
    requires 0 < |r.slots| && !a.Begin? && !a.Knock?
    ensures var t := Step(r, a);
      && (BeforePublish(t.producer) ==> BeforePublish(r.producer) && t.published == r.published)
      && r.consumed <= t.consumed && |t.slots| == |r.slots|
  {
  }

  /** Until the producer publishes, nothing is added and only removals happen. */
  lemma {:induction false} BeforePublishKeeps<T>(r: Ring<T>, mid: seq<Action<T>>)
    requires 0 < |r.slots| && Between(mid)
    ensures var t := Run(r, mid);
      && (BeforePublish(t.producer) ==> BeforePublish(r.producer) && t.published == r.published)
      && r.consumed <= t.consumed
    decreases |mid|
  {
    hide Step, BeforePublish;
    if mid != [] {
      BeforePublishStep(r, mid[0]);
      BeforePublishKeeps(Step(r, mid[0]), mid[1..]);
    }
  }

  /** A descriptor published into a ring that is empty at that moment goes
      unannounced if and only if the notification is not heard or the ring was not
      empty when the producer looked; the latter happens if and only if the
      consumer removed everything in between. */
  lemma UnannouncedExactlyWhen<T>(r: Ring<T>, item: T, before: seq<Action<T>>, after: seq<Action<T>>, heard: bool)
    requires Inv(r) && r.producer.Idle? && Between(before) && Between(after)
    requires var p := Run(r, [Begin(item)] + before); p.producer.Stored? && p.write == p.read
    requires Run(r, [Begin(item)] + (before + [Publish] + after)).producer.Flagged?
    ensures var s := Run(r, [Begin(item)] + (before + [Publish] + after) + [Knock(heard)]);
      s.doorbells == r.doorbells <==> !heard || r.write != r.read
    ensures var p := Run(r, [Begin(item)] + before);
      p.consumed == r.published && (r.write != r.read <==> |r.consumed| < |p.consumed|)
  {
    hide Step, Run, Faithful, ProducerOk, ConsumerOk, Announced;
    DoorbellExactlyWhen(r, item, before + [Publish] + after, heard);
    UsedIs(r);
    RunInv(r, [Begin(item)] + before);
    var p := Run(r, [Begin(item)] + before);
    UsedIs(p);
    RunFirst(r, Begin(item), before);
    BeforePublishKeeps(Step(r, Begin(item)), before);
    BeginKeepsHistory(r, item);
    assert p.consumed <= p.published by { PrefixOf(p); }
  }

  lemma PrefixOf<T>(r: Ring<T>)
    requires Inv(r)
    ensures r.consumed <= r.published
  {
  }

  lemma BeginKeepsHistory<T>(r: Ring<T>, item: T)
    requires 0 < |r.slots|
    ensures Step(r, Begin(item)).published == r.published && Step(r, Begin(item)).consumed == r.consumed
  {
  }

  // ------------------------------------------------------------------
  // The ring operations as they are called
  // ------------------------------------------------------------------

  datatype Outcome<+T> = Nothing | Unsound | Got(item: T)

  class DescriptorRing<T(0)> {
    const slots: array<T>
    var writeSeq: u32
    var readSeq: u32
    var pending: bool
    ghost var published: seq<T>
    ghost var consumed: seq<T>
    var notifyCount: nat

    ghost function View(): Ring<T>
      reads this, slots
    {
      Ring(slots[..], writeSeq, readSeq, pending, Idle, Resting, published, consumed, notifyCount)
    }

    ghost predicate Valid()
      reads this, slots
    {
      0 < slots.Length && Inv(View())
    }

    /** The descriptors between the two sequence numbers, oldest first. */
    ghost function Contents(): seq<T>
      reads this, slots
      requires Valid()
    {
      published[|consumed|..]
    }

    constructor (depth: nat)
      requires DepthOk(depth)
      ensures Valid() && fresh(slots) && slots.Length == depth && Contents() == []
    {
      slots := new T[depth];
      writeSeq, readSeq, pending, notifyCount := 0, 0, false, 0;
      published, consumed := [], [];
    }

    /** Write the next slot and publish it. */
    method Put(item: T)
      requires 0 < slots.Length
      modifies this, slots
      ensures notifyCount == old(notifyCount)
      ensures var r := old(View());
        View() == r.(slots := r.slots[r.write % |r.slots| := item], write := Next(r.write), pending := true,
                     published := r.published + [item])
    {
      ghost var i := writeSeq % slots.Length;
      slots[writeSeq % slots.Length] := item;
      writeSeq := (writeSeq + 1) % U32;
      published := published + [item];
      pending := true;
      assert slots[..] == old(slots[..])[i := item];
    }

    /** Run without interruption, an enqueue is the producer's steps in order.
        `heard` is the outcome of the notify callback. */
    method Enqueue(item: T, heard: bool) returns (full: bool)
      requires Valid()
      modifies this, slots
      ensures Valid() && full == (|old(Contents())| == slots.Length)
      ensures View() == Run(old(View()), [Begin(item)] + Finish(heard))
      ensures Contents() == if full then old(Contents()) else old(Contents()) + [item]
    {
      ghost var r := View();
      EnqueueRuns(r, item, heard);
      RunInv(r, [Begin(item)] + Finish(heard));
      UsedIs(r);
      hide Run, Inv, Finish;
      full := (writeSeq - readSeq) % U32 >= slots.Length;
      if full { return; }
      var wasEmpty := writeSeq == readSeq;
      Put(item);
      if wasEmpty && heard {
        notifyCount := notifyCount + 1;
      }
    }

    /** The oldest descriptor, left where it is. */
    method Peek() returns (item: Option<T>)
      requires Valid()
      ensures item == if Contents() == [] then None else Some(Contents()[0])
    {
      UsedIs(View());
      if writeSeq == readSeq { return None; }
      IndexSurvivesWrap(|consumed|, slots.Length);
      return Some(slots[readSeq % slots.Length]);
    }

    /** Take the oldest descriptor off the ring, whatever it is. */
    method Consume()
      requires Valid() && Contents() != []
      modifies this`readSeq, this`pending, this`consumed
      ensures Valid() && Contents() == old(Contents())[1..]
      ensures View() == Run(old(View()), Fetch() + Settle())
    {
      ghost var r := View();
      DequeueRuns(r);
      RunInv(r, Fetch() + Settle());
      UsedIs(r);
      hide Run;
      IndexSurvivesWrap(|consumed|, slots.Length);
      consumed := consumed + [slots[readSeq % slots.Length]];
      readSeq := (readSeq + 1) % U32;
      if readSeq == writeSeq {
        pending := false;
      }
    }

    /** Run without interruption, a dequeue is the consumer's steps in order. A
        descriptor that is corrupt or malformed is consumed too, so that it does
        not block the ring, and reported. `sound` says which ones pass the CRC, the
        bounds and the interface check. */
    method Dequeue(sound: T -> bool) returns (outcome: Outcome<T>)
      requires Valid()
      modifies this`readSeq, this`pending, this`consumed
      ensures Valid()
      ensures View() == Run(old(View()), Fetch() + Settle())
      ensures outcome == if old(Contents()) == [] then Nothing
                         else if sound(old(Contents())[0]) then Got(old(Contents())[0]) else Unsound
      ensures Contents() == if old(Contents()) == [] then [] else old(Contents())[1..]
    {
      var next := Peek();
      if next.None? {
        DequeueRuns(View());
        UsedIs(View());
        return Nothing;
      }
      Consume();
      outcome := if sound(next.value) then Got(next.value) else Unsound;
    }
  }
}
