/** The router as it is kept: its queue, its routes and its 32-bit counters. */
module RouterCore {
  import opened Types
  import opened Router
  import A = Admission
  import Q = PriorityQueue

  datatype Stats = Stats(
    submitted: u32, enqueued: u32, routed: u32, reclaimed: u32, heartbeats: u32, evicted: u32, retries: u32,
    byReason: seq<u32>, byInterface: seq<u32>, byPriority: seq<u32>)

  /** Every counter is the number of events it counts, reduced to 32 bits. */
  ghost predicate Booked(st: Stats, events: seq<Event>) {
    && |st.byReason| == REASONS && |st.byInterface| == INTERFACE_COUNT && |st.byPriority| == PRIORITY_COUNT
    && st.submitted == Count(events, Submissions(None)) % U32
    && st.enqueued == Count(events, Enqueues) % U32
    && st.routed == Count(events, Routings(None)) % U32
    && st.reclaimed == Count(events, Reclaims(None)) % U32
    && st.heartbeats == Count(events, Heartbeats) % U32
    && st.evicted == Count(events, Evictions) % U32
    && st.retries == Count(events, Retries) % U32
    && (forall r :: 0 <= r < REASONS ==> st.byReason[r] == Count(events, ReclaimsFor(r)) % U32)
    && (forall i :: 0 <= i < INTERFACE_COUNT ==> st.byInterface[i] == Count(events, RoutingsTo(i)) % U32)
    && (forall p :: 0 <= p < PRIORITY_COUNT ==> st.byPriority[p] == Count(events, RoutingsAt(p)) % U32)
  }

  function Up(n: u32): u32 {
    (n + 1) % U32
  }

  /** The counters an event moves. */
  function Bump(st: Stats, e: Event): Stats
    requires |st.byReason| == REASONS && |st.byInterface| == INTERFACE_COUNT && |st.byPriority| == PRIORITY_COUNT
    requires Proper(e)
  {
    match e
    case Submitted(_) => st.(submitted := Up(st.submitted))
    case Enqueued(_) => st.(enqueued := Up(st.enqueued))
    case Heartbeat(_) => st.(heartbeats := Up(st.heartbeats))
    case Evicted(_) => st.(evicted := Up(st.evicted))
    case Retried(_) => st.(retries := Up(st.retries))
    case Routed(_, t, p) =>
      st.(routed := Up(st.routed), byInterface := st.byInterface[t := Up(st.byInterface[t])],
          byPriority := st.byPriority[p := Up(st.byPriority[p])])
    case Reclaimed(_, r) => st.(reclaimed := Up(st.reclaimed), byReason := st.byReason[r := Up(st.byReason[r])])
  }

  lemma CountUp(events: seq<Event>, e: Event, kind: Kind)
    ensures Count(events + [e], kind) % U32 ==
      if Matches(e, kind) then Up(Count(events, kind) % U32) else Count(events, kind) % U32
  {
    CountOneMore(events, e, kind);
    var n := Count(events, kind);
    hide Count, Matches;
    assert (n % U32 + 1) % U32 == (n + 1) % U32;
  }

  lemma BumpBooked(st: Stats, events: seq<Event>, e: Event)
    requires Booked(st, events) && Proper(e)
    ensures Booked(Bump(st, e), events + [e])
  {
    hide Count;
    CountUp(events, e, Submissions(None));
    CountUp(events, e, Enqueues);
    CountUp(events, e, Routings(None));
    CountUp(events, e, Reclaims(None));
    CountUp(events, e, Heartbeats);
    CountUp(events, e, Evictions);
    CountUp(events, e, Retries);
    forall r | 0 <= r < REASONS
      ensures Bump(st, e).byReason[r] == Count(events + [e], ReclaimsFor(r)) % U32
    {
      CountUp(events, e, ReclaimsFor(r));
    }
    forall i | 0 <= i < INTERFACE_COUNT
      ensures Bump(st, e).byInterface[i] == Count(events + [e], RoutingsTo(i)) % U32
    {
      CountUp(events, e, RoutingsTo(i));
    }
    forall p | 0 <= p < PRIORITY_COUNT
      ensures Bump(st, e).byPriority[p] == Count(events + [e], RoutingsAt(p)) % U32
    {
      CountUp(events, e, RoutingsAt(p));
    }
  }

  function Residue(n: nat): u32 {
    n % U32
  }

  lemma Shift(a: int, k: int)
    ensures (a - U32 * k) % U32 == a % U32
  {
  }

  lemma AddResidues(a: nat, b: nat)
    ensures Residue(Residue(a) + b) == Residue(a + b)
  {
    Shift(a + b, a / U32);
  }

  function Total(counters: seq<u32>): nat {
    if counters == [] then 0 else Total(counters[..|counters| - 1]) + counters[|counters| - 1]
  }

  /** Adding up reduced counters and adding up the counts agree modulo 2^32. */
  lemma {:induction false} TotalOf(counters: seq<u32>, counts: seq<nat>)
    requires Reduced(counters, counts)
    ensures Residue(Total(counters)) == Residue(Whole(counts))
  {
    if counts != [] {
      var n := |counts| - 1;
      TotalOf(counters[..n], counts[..n]);
      var t, w := Total(counters[..n]), Whole(counts[..n]);
      AddResidues(counts[n], t);
      AddResidues(t, counts[n]);
      AddResidues(w, counts[n]);
      hide Residue;
    }
  }

  function Whole(counts: seq<nat>): nat {
    if counts == [] then 0 else Whole(counts[..|counts| - 1]) + counts[|counts| - 1]
  }

  function Counts(events: seq<Event>, kinds: seq<Kind>): (r: seq<nat>)
    ensures |r| == |kinds| && forall i :: 0 <= i < |r| ==> r[i] == Count(events, kinds[i])
  {
    seq(|kinds|, i requires 0 <= i < |kinds| => Count(events, kinds[i]))
  }

  const REASON_KINDS: seq<Kind> := [ReclaimsFor(0), ReclaimsFor(1), ReclaimsFor(2), ReclaimsFor(3), ReclaimsFor(4),
                                    ReclaimsFor(5), ReclaimsFor(6)]
  const INTERFACE_KINDS: seq<Kind> := [RoutingsTo(0), RoutingsTo(1), RoutingsTo(2), RoutingsTo(3), RoutingsTo(4),
                                       RoutingsTo(5)]
  const PRIORITY_KINDS: seq<Kind> := [RoutingsAt(0), RoutingsAt(1), RoutingsAt(2), RoutingsAt(3)]

  lemma {:induction false} WholeUpTo(counts: seq<nat>, n: nat)
    requires 0 < n <= |counts|
    ensures Whole(counts[..n]) == Whole(counts[..n - 1]) + counts[n - 1]
  {
    assert counts[..n][..n - 1] == counts[..n - 1];
  }

  lemma WholeReasons(events: seq<Event>)
    ensures Whole(Counts(events, REASON_KINDS)) == SumReasons(events)
  {
    hide Count;
    var c := Counts(events, REASON_KINDS);
    assert c[..7] == c;
    WholeUpTo(c, 1); WholeUpTo(c, 2); WholeUpTo(c, 3); WholeUpTo(c, 4); WholeUpTo(c, 5); WholeUpTo(c, 6); WholeUpTo(c, 7);
  }

  lemma WholeInterfaces(events: seq<Event>)
    ensures Whole(Counts(events, INTERFACE_KINDS)) == SumInterfaces(events)
  {
    hide Count;
    var c := Counts(events, INTERFACE_KINDS);
    assert c[..6] == c;
    WholeUpTo(c, 1); WholeUpTo(c, 2); WholeUpTo(c, 3); WholeUpTo(c, 4); WholeUpTo(c, 5); WholeUpTo(c, 6);
  }

  lemma WholePriorities(events: seq<Event>)
    ensures Whole(Counts(events, PRIORITY_KINDS)) == SumPriorities(events)
  {
    hide Count;
    var c := Counts(events, PRIORITY_KINDS);
    assert c[..4] == c;
    WholeUpTo(c, 1); WholeUpTo(c, 2); WholeUpTo(c, 3); WholeUpTo(c, 4);
  }

  /** The laws the 32-bit counters obey: what went in is what came out plus what
      is queued, and the parts add up to the totals. */
  lemma CounterLaws(st: Stats, s: State)
    requires Booked(st, s.events) && AllProper(s.events) && Conserved(s, None)
    ensures st.submitted == (st.routed + st.reclaimed + |s.queue.items|) % U32
    ensures st.reclaimed == Total(st.byReason) % U32
    ensures st.routed == Total(st.byInterface) % U32 == Total(st.byPriority) % U32
  {
    InOutQueued(st, s);
    PartsAddUp(s.events);
    WholeReasons(s.events);
    WholeInterfaces(s.events);
    WholePriorities(s.events);
    BookedParts(st, s.events);
    hide Count, Conserved, AllProper, SumReasons, SumInterfaces, SumPriorities, Whole, Total, Counts;
    TotalOf(st.byReason, Counts(s.events, REASON_KINDS));
    TotalOf(st.byInterface, Counts(s.events, INTERFACE_KINDS));
    TotalOf(st.byPriority, Counts(s.events, PRIORITY_KINDS));
  }

  predicate Reduced(counters: seq<u32>, counts: seq<nat>) {
    |counters| == |counts| && forall i :: 0 <= i < |counts| ==> counters[i] == Residue(counts[i])
  }

  lemma BookedParts(st: Stats, events: seq<Event>)
    requires Booked(st, events)
    ensures Reduced(st.byReason, Counts(events, REASON_KINDS))
    ensures Reduced(st.byInterface, Counts(events, INTERFACE_KINDS))
    ensures Reduced(st.byPriority, Counts(events, PRIORITY_KINDS))
  {
    hide Count;
  }

  lemma InOutQueued(st: Stats, s: State)
    requires Booked(st, s.events) && Conserved(s, None)
    ensures st.submitted == (st.routed + st.reclaimed + |s.queue.items|) % U32
  {
    StoredAll(s.queue.items);
    var a, b, c := Count(s.events, Routings(None)), Count(s.events, Reclaims(None)), |s.queue.items|;
    hide Count, Stored;
    Shift(a + b + c, a / U32 + b / U32);
  }

  /** Every frame, and all of them together, are conserved. */
  ghost predicate AllConserved(s: State) {
    forall who: Option<u32> :: Conserved(s, who)
  }

  lemma SubmitAllConserved(s: State, input: Input, now: u32, stamp: u32)
    requires Valid(s) && AllConserved(s)
    ensures AllConserved(AfterSubmit(s, input, now, stamp))
  {
    hide Valid, Conserved, AfterSubmit;
    forall who: Option<u32>
      ensures Conserved(AfterSubmit(s, input, now, stamp), who)
    {
      SubmitConserves(s, input, now, stamp, who);
    }
  }

  lemma ScheduleAllConserved(s: State, now: u32, sink: nat -> bool)
    requires Valid(s) && s.queue.items != [] && AllConserved(s)
    ensures AllConserved(AfterSchedule(s, now, sink))
  {
    hide Valid, Conserved, AfterSchedule;
    forall who: Option<u32>
      ensures Conserved(AfterSchedule(s, now, sink), who)
    {
      ScheduleConserves(s, now, sink, who);
    }
  }

  lemma ReclaimAllConserved(s: State, reason: nat)
    requires Valid(s) && s.queue.items != [] && AllConserved(s)
    ensures AllConserved(AfterReclaim(s, reason)) && Valid(AfterReclaim(s, reason))
  {
    DequeueKeepsTargets(s);
    hide Valid, Conserved, AfterReclaim;
    forall who: Option<u32>
      ensures Conserved(AfterReclaim(s, reason), who)
    {
      ReclaimConserves(s, reason, who);
    }
  }

  const NO_STATS := Stats(0, 0, 0, 0, 0, 0, 0, [0, 0, 0, 0, 0, 0, 0], [0, 0, 0, 0, 0, 0], [0, 0, 0, 0])

  lemma FreshBooks(s: State)
    requires s.events == [] && s.queue.items == []
    ensures Booked(NO_STATS, s.events) && AllProper(s.events) && AllConserved(s)
  {
  }

  class Core {
    const queue: Q.Queue
    var routes: RouteTable
    var epoch: u32
    var stats: Stats
    ghost var events: seq<Event>

    ghost function View(): State
      reads this, queue, queue.items, queue.used
      requires queue.Shaped()
    {
      State(queue.View(), routes, epoch, events)
    }

    ghost predicate Booking()
      reads this
    {
      Booked(stats, events) && AllProper(events)
    }

    ghost predicate Ok()
      reads this, queue, queue.items, queue.used
    {
      queue.Ok() && Valid(View()) && Booking() && AllConserved(View())
    }

    constructor ()
      ensures Ok() && fresh(queue) && fresh(queue.items) && fresh(queue.used)
      ensures routes == DEFAULT_ROUTES && epoch == 1 && events == [] && View().queue.items == []
    {
      queue := new Q.Queue();
      routes, epoch, stats, events := DEFAULT_ROUTES, 1, NO_STATS, [];
      new;
      FreshBooks(View());
      hide Booked, AllProper, AllConserved;
    }

    /** Move the counters of one event. */
    method Record(e: Event)
      requires Booking() && Proper(e)
      modifies this`stats, this`events
      ensures Booking() && events == old(events) + [e]
    {
      BumpBooked(stats, events, e);
      assert |stats.byReason| == REASONS && |stats.byInterface| == INTERFACE_COUNT && |stats.byPriority| == PRIORITY_COUNT;
      hide Booked, Count, Up;
      if e.Routed? {
        CountRouted(e.target, e.priority);
      } else if e.Reclaimed? {
        CountReclaimed(e.reason);
      } else {
        CountOther(e);
      }
      events := events + [e];
    }

    method CountRouted(t: nat, p: nat)
      requires |stats.byReason| == REASONS && |stats.byInterface| == INTERFACE_COUNT && |stats.byPriority| == PRIORITY_COUNT
      requires t < INTERFACE_COUNT && p < PRIORITY_COUNT
      modifies this`stats
      ensures forall frame: u32 :: stats == Bump(old(stats), Routed(frame, t, p))
    {
      stats := stats.(routed := Up(stats.routed), byInterface := stats.byInterface[t := Up(stats.byInterface[t])],
                      byPriority := stats.byPriority[p := Up(stats.byPriority[p])]);
    }

    method CountReclaimed(r: nat)
      requires |stats.byReason| == REASONS && |stats.byInterface| == INTERFACE_COUNT && |stats.byPriority| == PRIORITY_COUNT
      requires r < REASONS
      modifies this`stats
      ensures forall frame: u32 :: stats == Bump(old(stats), Reclaimed(frame, r))
    {
      stats := stats.(reclaimed := Up(stats.reclaimed), byReason := stats.byReason[r := Up(stats.byReason[r])]);
    }

    method CountOther(e: Event)
      requires |stats.byReason| == REASONS && |stats.byInterface| == INTERFACE_COUNT && |stats.byPriority| == PRIORITY_COUNT
      requires !e.Routed? && !e.Reclaimed?
      modifies this`stats
      ensures stats == Bump(old(stats), e)
    {
      match e {
        case Submitted(_) => stats := stats.(submitted := Up(stats.submitted));
        case Enqueued(_) => stats := stats.(enqueued := Up(stats.enqueued));
        case Heartbeat(_) => stats := stats.(heartbeats := Up(stats.heartbeats));
        case Evicted(_) => stats := stats.(evicted := Up(stats.evicted));
        case Retried(_) => stats := stats.(retries := Up(stats.retries));
      }
    }

    /** The checks in order. */
    method Check(input: Input, now: u32) returns (refusal: Option<nat>)
      requires queue.Shaped()
      ensures refusal == Refusal(View(), input, now)
    {
      hide Expired, Lookup;
      if IsInvalid(input) { return Some(INVALID_FRAME); }
      if input.epoch != epoch { return Some(EPOCH_MISMATCH); }
      if Expired(now, input.receiveTime, input.ttl) { return Some(TTL_EXPIRED); }
      if input.kind == ENDPOINT_HEARTBEAT { return Some(HEARTBEAT_CONSUMED); }
      if Lookup(routes, input.destination).None? { return Some(NO_ROUTE); }
      return None;
    }

    /** Give an input back at once. */
    method Refuse(frame: u32, reason: Reason)
      requires Booking() && queue.Shaped()
      modifies this`stats, this`events
      ensures Booking() && View() == GiveBack(old(View()), frame, reason)
    {
      hide Booked, AllProper;
      if reason == HEARTBEAT_CONSUMED {
        Record(Heartbeat(frame));
      }
      Record(Reclaimed(frame, reason));
    }

    /** The counters as the statistics call returns them: they obey their laws at
        any time between two calls. */
    method Statistics() returns (st: Stats)
      requires Ok()
      ensures st == stats && Booked(st, View().events)
      ensures st.submitted == (st.routed + st.reclaimed + |View().queue.items|) % U32
      ensures st.reclaimed == Total(st.byReason) % U32
      ensures st.routed == Total(st.byInterface) % U32 == Total(st.byPriority) % U32
    {
      assert Conserved(View(), None);
      CounterLaws(stats, View());
      st := stats;
      hide Booked, Conserved, AllProper, Valid, Total;
    }

    /** Check, route and queue one input. The last event is judged by the input's
        own fields. `given` is the reclaim sink's answer; the caller sees an error
        exactly if the input was not queued and the sink refused it. */
    method Submit(input: Input, now: u32, stamp: u32, given: bool) returns (ok: bool)
      requires Ok()
      modifies this`stats, this`events, queue`count, queue.items
      ensures Ok() && View() == AfterSubmit(old(View()), input, now, stamp)
      ensures events != [] && A.Judged(old(View()), input, now, events[|events| - 1])
      ensures ok == (given || A.Taken(old(View()), input, now))
    {
      A.SubmissionJudged(View(), input, now, stamp);
      A.QueuesIsTaken(View(), input, now, stamp);
      SubmitKeeps(View(), input, now, stamp);
      SubmitSplits(View(), input, now, stamp);
      SubmitAllConserved(View(), input, now, stamp);
      hide AllConserved, Booked, AllProper, Valid, Q.Valid, AfterSubmit, Refusal, GiveBack, Admitted, Lookup, ItemOf,
        A.Judged, A.Taken;
      var refusal := Check(input, now);
      Record(Submitted(input.frameId));
      if refusal.Some? {
        Refuse(input.frameId, refusal.value);
        return given;
      }
      var target := Lookup(routes, input.destination);
      ok := Admit(input.frameId, ItemOf(input, target.value, stamp, routes.routeEpoch), given);
    }

    /** Queue an item; whatever it pushes out, or the item itself, is given back. */
    method Admit(frame: u32, item: QueueItem, given: bool) returns (ok: bool)
      requires queue.Ok() && Booking()
      modifies this`stats, this`events, queue`count, queue.items
      ensures queue.Ok() && Booking() && View() == Admitted(old(View()), frame, item)
      ensures ok == (given || var outcome := Q.Enqueue(old(queue.View()), item).1; outcome.Accepted? || outcome.Evicted?)
    {
      hide Booked, AllProper, Q.Enqueue, Q.Valid;
      var outcome := queue.Put(item);
      match outcome {
        case Accepted =>
        case Evicted(victim) =>
          Record(Evicted(victim.frameId));
          Record(Reclaimed(victim.frameId, QUEUE_FULL));
        case _ =>
          Record(Reclaimed(frame, QUEUE_FULL));
          return given;
      }
      Record(Enqueued(frame));
      ok := true;
    }

    /** Send an item or give it back. */
    method Dispatch(taken: QueueItem, now: u32, sink: nat -> bool, given: bool) returns (ok: bool)
      requires Booking() && taken.target < INTERFACE_COUNT && taken.priority < PRIORITY_COUNT
      modifies this`stats, this`events
      ensures Booking() && events == Dispatched(routes, old(events), taken, now, sink) && ok == Succeeded(events, given)
    {
      hide Booked, AllProper, Expired, Lookup;
      var item := taken;
      ok := given;
      if Expired(now, item.receiveTime, item.ttl) {
        Record(Reclaimed(item.frameId, TTL_EXPIRED));
        return;
      }
      if item.routeEpoch != routes.routeEpoch {
        var target := Lookup(routes, item.destination);
        if target.None? {
          Record(Reclaimed(item.frameId, NO_ROUTE));
          return;
        }
        item := item.(target := target.value, routeEpoch := routes.routeEpoch);
      }
      ok := Offer(item, RetryLimit(item.priority), sink, given);
    }

    /** Send or give back one queued item. */
    method ScheduleOnce(now: u32, sink: nat -> bool, given: bool) returns (found: bool, ok: bool)
      requires Ok()
      modifies this`stats, this`events, queue, queue.items, queue.used
      ensures Ok() && found == (old(View()).queue.items != [])
      ensures View() == if found then AfterSchedule(old(View()), now, sink) else old(View())
      ensures found ==> ok == Succeeded(events, given)
    {
      ghost var before := View();
      if before.queue.items != [] {
        ScheduleKeeps(before, now, sink);
        DequeuedItem(before);
        ScheduleAllConserved(before, now, sink);
      }
      hide AllConserved, Booked, AllProper, Valid, Dispatched, Q.Dequeue, Q.Valid;
      var next := queue.TakeNext();
      if next.None? { return false, false; }
      found := true;
      ok := Dispatch(next.value, now, sink, given);
      assert View() == AfterSchedule(before, now, sink);
    }

    /** The retry loop. */
    method Offer(first: QueueItem, limit: nat, sink: nat -> bool, given: bool) returns (ok: bool)
      requires Booking() && limit <= 3 && first.target < INTERFACE_COUNT && first.priority < PRIORITY_COUNT
      modifies this`stats, this`events
      ensures Booking() && events == Transmit(old(events), first, limit, sink, 0) && ok == Succeeded(events, given)
    {
      hide Booked, AllProper;
      var item, k := first, 0;
      while true
        invariant Booking() && item.target < INTERFACE_COUNT && item.priority < PRIORITY_COUNT
        invariant Transmit(events, item, limit, sink, k) == Transmit(old(events), first, limit, sink, 0)
        decreases limit - item.retryCount
      {
        if sink(k) {
          Record(Routed(item.frameId, item.target, item.priority));
          return true;
        }
        if item.retryCount >= limit {
          Record(Reclaimed(item.frameId, QUEUE_FULL));
          return given;
        }
        Record(Retried(item.frameId));
        item := item.(retryCount := item.retryCount + 1);
        k := k + 1;
      }
    }

    /** Give back one queued item. */
    method ReclaimOne(reason: Reason) returns (found: bool)
      requires Ok()
      modifies this`stats, this`events, queue, queue.items, queue.used
      ensures Ok() && found == (old(View()).queue.items != [])
      ensures View() == if found then AfterReclaim(old(View()), reason) else old(View())
    {
      ghost var before := View();
      if before.queue.items != [] {
        DequeuedItem(before);
        ReclaimAllConserved(before, reason);
      }
      hide AllConserved, Booked, AllProper, Valid, Q.Dequeue, Q.Valid;
      var next := queue.TakeNext();
      if next.None? { return false; }
      Record(Reclaimed(next.value.frameId, reason));
      assert View() == AfterReclaim(before, reason);
      return true;
    }

    /** Schedule up to `budget` items. */
    method Drain(budget: nat, now: nat -> u32, sink: nat -> nat -> bool, given: nat -> bool) returns (processed: nat)
      requires Ok()
      modifies this`stats, this`events, queue, queue.items, queue.used
      ensures Ok() && (View(), processed) == AfterDrain(old(View()), budget, now, sink, given, 0)
    {
      hide AllConserved, Booked, Valid, Q.Valid, AfterSchedule, Succeeded, AfterDrain, AllProper;
      ghost var expected := AfterDrain(View(), budget, now, sink, given, 0);
      processed := 0;
      while processed < budget
        invariant Ok() && processed <= budget
        invariant var (t, n) := AfterDrain(View(), budget - processed, now, sink, given, processed);
          expected == (t, n + processed)
      {
        DrainStep(View(), budget - processed, now, sink, given, processed);
        var found, ok := ScheduleOnce(now(processed), sink(processed), given(processed));
        if !found || !ok { return; }
        processed := processed + 1;
      }
      DrainStep(View(), budget - processed, now, sink, given, processed);
    }

    /** Give back up to `budget` items. */
    method ReclaimQueued(budget: nat, reason: Reason, given: nat -> bool) returns (processed: nat)
      requires Ok()
      modifies this`stats, this`events, queue, queue.items, queue.used
      ensures Ok() && (View(), processed) == AfterReclaims(old(View()), budget, reason, given, 0)
    {
      hide AllConserved, Booked, Valid, Q.Valid, AfterReclaim, AfterReclaims, AllProper;
      ghost var expected := AfterReclaims(View(), budget, reason, given, 0);
      processed := 0;
      while processed < budget
        invariant Ok() && processed <= budget
        invariant var (t, n) := AfterReclaims(View(), budget - processed, reason, given, processed);
          expected == (t, n + processed)
      {
        ReclaimsStep(View(), budget - processed, reason, given, processed);
        var found := ReclaimOne(reason);
        if !found || !given(processed) { return; }
        processed := processed + 1;
      }
      ReclaimsStep(View(), budget - processed, reason, given, processed);
    }
  }
}
