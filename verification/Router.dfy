/** The RTOS router: every submitted frame is checked, queued, and later sent or
    given back. The sinks and the clock belong to the caller. */
module Router {
  import opened Types
  import Q = PriorityQueue

  // ------------------------------------------------------------------
  // Inputs and policy
  // ------------------------------------------------------------------

  datatype Trust = AuthOk | InternalTrusted | AuthFailed | IntegrityFailed | ReplayDropped

  datatype Input = Input(
    frameId: u32, source: byte, destination: byte, kind: byte, priority: byte, ttl: byte, trust: Trust,
    epoch: u32, flags: u32, receiveTime: u32, headerValid: bool)

  const ENDPOINT_HEARTBEAT: byte := 0x00

  const REASONS: nat := 7
  const HEARTBEAT_CONSUMED: nat := 1
  const NO_ROUTE: nat := 2
  const TTL_EXPIRED: nat := 3
  const EPOCH_MISMATCH: nat := 4
  const INVALID_FRAME: nat := 5
  const QUEUE_FULL: nat := 6

  predicate KindIsValid(kind: byte) {
    kind <= 0x0A || 0x0D <= kind <= 0x12 || 0x15 <= kind <= 0x1E || 0x47 <= kind <= 0x4E
  }

  predicate IsInvalid(input: Input) {
    !input.headerValid || !KindIsValid(input.kind) || !(input.trust.AuthOk? || input.trust.InternalTrusted?) ||
    (input.kind != ENDPOINT_HEARTBEAT && input.priority >= PRIORITY_COUNT)
  }

  /** Unsigned difference, so a wrapped clock still gives the age. */
  predicate Expired(now: u32, since: u32, ttl: byte) {
    ttl != 0 && (now - since) % U32 >= ttl
  }

  const SEGMENTS: nat := 8

  datatype RouteTable = RouteTable(valid: bool, targets: seq<byte>, routeEpoch: u32)

  /** The table a router starts with. */
  const DEFAULT_ROUTES := RouteTable(true, [0, 0, 1, 2, 3, 4, 5, 0], 1)

  /** The eight address segments are 0x20 first bytes wide; the outermost two
      are reserved. */
  function Lookup(table: RouteTable, destination: byte): (target: Option<byte>)
    ensures target.Some? ==> target.value < INTERFACE_COUNT
  {
    var segment := destination / 0x20;
    if !table.valid || segment == 0 || segment == SEGMENTS - 1 || segment >= |table.targets| then None
    else if table.targets[segment] >= INTERFACE_COUNT then None
    else Some(table.targets[segment])
  }

  function RetryLimit(priority: nat): (limit: nat)
    requires priority < PRIORITY_COUNT
    ensures limit <= 3
  {
    [3, 2, 1, 0][priority]
  }

  // ------------------------------------------------------------------
  // Specification on values
  // ------------------------------------------------------------------

  datatype Event =
    | Submitted(frame: u32)
    | Enqueued(frame: u32)
    | Heartbeat(frame: u32)
    | Evicted(frame: u32)
    | Retried(frame: u32)
    | Routed(frame: u32, target: nat, priority: nat)
    | Reclaimed(frame: u32, reason: nat)

  /** `events` is everything that happened, oldest first. */
  datatype State = State(queue: Q.State, routes: RouteTable, epoch: u32, events: seq<Event>)

  predicate Valid(s: State) {
    Q.Valid(s.queue) && forall i :: 0 <= i < |s.queue.items| ==> s.queue.items[i].target < INTERFACE_COUNT
  }

  function Note(s: State, e: Event): State {
    s.(events := s.events + [e])
  }

  function ItemOf(input: Input, target: byte, stamp: u32, routeEpoch: u32): QueueItem {
    QueueItem(input.frameId, input.source, target, input.destination, input.kind, input.priority, input.ttl, 0,
              input.epoch, input.flags, input.receiveTime, stamp, routeEpoch)
  }

  /** Why an input is given back at once, checked in this order. */
  function Refusal(s: State, input: Input, now: u32): Option<nat> {
    if IsInvalid(input) then Some(INVALID_FRAME)
    else if input.epoch != s.epoch then Some(EPOCH_MISMATCH)
    else if Expired(now, input.receiveTime, input.ttl) then Some(TTL_EXPIRED)
    else if input.kind == ENDPOINT_HEARTBEAT then Some(HEARTBEAT_CONSUMED)
    else if Lookup(s.routes, input.destination).None? then Some(NO_ROUTE)
    else None
  }

  function GiveBack(s: State, frame: u32, reason: nat): State {
    Note(if reason == HEARTBEAT_CONSUMED then Note(s, Heartbeat(frame)) else s, Reclaimed(frame, reason))
  }

  function Admitted(s: State, frame: u32, item: QueueItem): State {
    var (queue, outcome) := Q.Enqueue(s.queue, item);
    match outcome
    case Accepted => Note(s.(queue := queue), Enqueued(frame))
    case Evicted(victim) =>
      Note(Note(Note(s.(queue := queue), Evicted(victim.frameId)), Reclaimed(victim.frameId, QUEUE_FULL)), Enqueued(frame))
    case _ => Note(s.(queue := queue), Reclaimed(frame, QUEUE_FULL))
  }

  /** `now` and `stamp` are the two readings of the clock. */
  function AfterSubmit(s: State, input: Input, now: u32, stamp: u32): State {
    var t := Note(s, Submitted(input.frameId));
    var refusal := Refusal(s, input, now);
    if refusal.Some? then GiveBack(t, input.frameId, refusal.value)
    else
      var item := ItemOf(input, Lookup(s.routes, input.destination).value, stamp, s.routes.routeEpoch);
      Admitted(t, input.frameId, item)
  }

  /** Offer the item to the TX sink until it takes it or the limit is reached;
      sink(k) is the answer to attempt k. */
  function Transmit(events: seq<Event>, item: QueueItem, limit: nat, sink: nat -> bool, k: nat): seq<Event>
    requires limit <= 3
    decreases limit - item.retryCount
  {
    if sink(k) then events + [Routed(item.frameId, item.target, item.priority)]
    else if item.retryCount >= limit then events + [Reclaimed(item.frameId, QUEUE_FULL)]
    else Transmit(events + [Retried(item.frameId)], item.(retryCount := item.retryCount + 1), limit, sink, k + 1)
  }

  /** The item's target under the routes of the moment. */
  function Refresh(routes: RouteTable, item: QueueItem): Option<QueueItem> {
    if item.routeEpoch == routes.routeEpoch then Some(item)
    else
      var target := Lookup(routes, item.destination);
      if target.None? then None else Some(item.(target := target.value, routeEpoch := routes.routeEpoch))
  }

  /** What becomes of an item just taken from the queue. */
  function Dispatched(routes: RouteTable, events: seq<Event>, item: QueueItem, now: u32, sink: nat -> bool): seq<Event>
    requires item.priority < PRIORITY_COUNT
  {
    if Expired(now, item.receiveTime, item.ttl) then events + [Reclaimed(item.frameId, TTL_EXPIRED)]
    else
      var routed := Refresh(routes, item);
      if routed.None? then events + [Reclaimed(item.frameId, NO_ROUTE)]
      else Transmit(events, routed.value, RetryLimit(item.priority), sink, 0)
  }

  function AfterSchedule(s: State, now: u32, sink: nat -> bool): State
    requires Valid(s) && s.queue.items != []
  {
    assert ClassOf(s) < PRIORITY_COUNT;
    var (queue, item) := Q.Dequeue(s.queue);
    s.(queue := queue, events := Dispatched(s.routes, s.events, item, now, sink))
  }

  function ClassOf(s: State): (p: nat)
    requires Valid(s) && s.queue.items != []
    ensures p < PRIORITY_COUNT && p == Q.Dequeue(s.queue).1.priority
  {
    Q.Served(s.queue)
  }

  function AfterReclaim(s: State, reason: nat): State
    requires Valid(s) && s.queue.items != []
  {
    var (queue, item) := Q.Dequeue(s.queue);
    Note(s.(queue := queue), Reclaimed(item.frameId, reason))
  }

  lemma SubmitSplits(s: State, input: Input, now: u32, stamp: u32)
    ensures var t, f, r := Note(s, Submitted(input.frameId)), input.frameId, Refusal(s, input, now);
      r.Some? ==> r.value < REASONS && AfterSubmit(s, input, now, stamp) == GiveBack(t, f, r.value)
    ensures Refusal(s, input, now).None? ==> Lookup(s.routes, input.destination).Some?
    ensures var t, f, target := Note(s, Submitted(input.frameId)), input.frameId, Lookup(s.routes, input.destination);
      Refusal(s, input, now).None? ==>
        AfterSubmit(s, input, now, stamp) == Admitted(t, f, ItemOf(input, target.value, stamp, s.routes.routeEpoch))
  {
    hide IsInvalid, Expired, Admitted, GiveBack;
  }

  lemma SubmitKeepsValid(s: State, input: Input, now: u32, stamp: u32)
    requires Valid(s)
    ensures Valid(AfterSubmit(s, input, now, stamp))
  {
    var target := Lookup(s.routes, input.destination);
    if target.Some? {
      Q.EnqueueKeepsValid(s.queue, ItemOf(input, target.value, stamp, s.routes.routeEpoch));
    }
  }

  lemma DequeueKeepsTargets(s: State)
    requires Valid(s) && s.queue.items != []
    ensures Valid(s.(queue := Q.Dequeue(s.queue).0)) && Q.Dequeue(s.queue).1.target < INTERFACE_COUNT
  {
    Q.DequeueKeepsValid(s.queue);
  }

  // ------------------------------------------------------------------
  // Counting events
  // ------------------------------------------------------------------

  /** What a counter counts; a frame of None stands for all frames. */
  datatype Kind =
    | Submissions(who: Option<u32>)
    | Routings(who: Option<u32>)
    | Reclaims(who: Option<u32>)
    | RoutingsTo(target: nat)
    | RoutingsAt(priority: nat)
    | ReclaimsFor(reason: nat)
    | Enqueues | Heartbeats | Evictions | Retries

  predicate Names(who: Option<u32>, frame: u32) {
    who == None || who == Some(frame)
  }

  predicate Matches(e: Event, kind: Kind) {
    match kind
    case Submissions(who) => e.Submitted? && Names(who, e.frame)
    case Routings(who) => e.Routed? && Names(who, e.frame)
    case Reclaims(who) => e.Reclaimed? && Names(who, e.frame)
    case RoutingsTo(target) => e.Routed? && e.target == target
    case RoutingsAt(priority) => e.Routed? && e.priority == priority
    case ReclaimsFor(reason) => e.Reclaimed? && e.reason == reason
    case Enqueues => e.Enqueued?
    case Heartbeats => e.Heartbeat?
    case Evictions => e.Evicted?
    case Retries => e.Retried?
  }

  function Count(events: seq<Event>, kind: Kind): nat {
    if events == [] then 0
    else Count(events[..|events| - 1], kind) + if Matches(events[|events| - 1], kind) then 1 else 0
  }

  lemma CountOneMore(events: seq<Event>, e: Event, kind: Kind)
    ensures Count(events + [e], kind) == Count(events, kind) + if Matches(e, kind) then 1 else 0
  {
    assert (events + [e])[..|events|] == events;
  }

  function Stored(items: seq<QueueItem>, who: Option<u32>): nat {
    if items == [] then 0
    else (if Names(who, items[0].frameId) then 1 else 0) + Stored(items[1..], who)
  }

  lemma {:induction false} StoredConcat(a: seq<QueueItem>, b: seq<QueueItem>, who: Option<u32>)
    ensures Stored(a + b, who) == Stored(a, who) + Stored(b, who)
  {
    if a == [] {
      assert a + b == b;
    } else {
      assert (a + b)[0] == a[0] && (a + b)[1..] == a[1..] + b;
      StoredConcat(a[1..], b, who);
    }
  }

  lemma {:induction false} StoredAll(items: seq<QueueItem>)
    ensures Stored(items, None) == |items|
  {
    if items != [] {
      StoredAll(items[1..]);
    }
  }

  lemma StoredWithout(items: seq<QueueItem>, k: nat, who: Option<u32>)
    requires k < |items|
    ensures Stored(items, who) == Stored(Q.Without(items, k), who) + if Names(who, items[k].frameId) then 1 else 0
  {
    var a, b := items[..k], items[k + 1..];
    assert items == a + ([items[k]] + b);
    StoredConcat(a, [items[k]] + b, who);
    StoredConcat([items[k]], b, who);
    StoredConcat(a, b, who);
    assert Stored([items[k]], who) == (if Names(who, items[k].frameId) then 1 else 0) + Stored([], who);
  }

  // ------------------------------------------------------------------
  // Conservation
  // ------------------------------------------------------------------

  /** Every submission of a frame has been routed, reclaimed, or is queued. */
  predicate Conserved(s: State, who: Option<u32>) {
    Count(s.events, Submissions(who)) ==
      Count(s.events, Routings(who)) + Count(s.events, Reclaims(who)) + Stored(s.queue.items, who)
  }

  /** How far the books are off: submissions not yet accounted for. */
  function Balance(events: seq<Event>, who: Option<u32>): int {
    Count(events, Submissions(who)) - Count(events, Routings(who)) - Count(events, Reclaims(who))
  }

  function Weight(e: Event, who: Option<u32>): int {
    if !Names(who, e.frame) then 0 else if e.Submitted? then 1 else if e.Routed? || e.Reclaimed? then -1 else 0
  }

  lemma BalanceOneMore(events: seq<Event>, e: Event, who: Option<u32>)
    ensures Balance(events + [e], who) == Balance(events, who) + Weight(e, who)
  {
    CountOneMore(events, e, Submissions(who));
    CountOneMore(events, e, Routings(who));
    CountOneMore(events, e, Reclaims(who));
  }

  function One(who: Option<u32>, frame: u32): nat {
    if Names(who, frame) then 1 else 0
  }

  /** However often the sink refuses, an offered item ends routed or reclaimed. */
  lemma {:induction false} TransmitBalance(events: seq<Event>, item: QueueItem, limit: nat, sink: nat -> bool, k: nat,
                                           who: Option<u32>)
    requires limit <= 3
    ensures Balance(Transmit(events, item, limit, sink, k), who) == Balance(events, who) - One(who, item.frameId)
    decreases limit - item.retryCount
  {
    if sink(k) {
      BalanceOneMore(events, Routed(item.frameId, item.target, item.priority), who);
    } else if item.retryCount >= limit {
      BalanceOneMore(events, Reclaimed(item.frameId, QUEUE_FULL), who);
    } else {
      BalanceOneMore(events, Retried(item.frameId), who);
      TransmitBalance(events + [Retried(item.frameId)], item.(retryCount := item.retryCount + 1), limit, sink, k + 1, who);
    }
  }

  /** What an enqueue adds to the queue. */
  function Gain(outcome: Q.Outcome, item: QueueItem, who: Option<u32>): int {
    if outcome.Accepted? then One(who, item.frameId)
    else if outcome.Evicted? then One(who, item.frameId) - One(who, outcome.victim.frameId)
    else 0
  }

  lemma EnqueueStored(q: Q.State, item: QueueItem, who: Option<u32>)
    requires Q.Valid(q)
    ensures var (r, outcome) := Q.Enqueue(q, item);
      Stored(r.items, who) == Stored(q.items, who) + Gain(outcome, item, who)
  {
    var (r, outcome) := Q.Enqueue(q, item);
    assert Stored([item], who) == One(who, item.frameId) + Stored([], who);
    match outcome
    case Accepted => StoredConcat(q.items, [item], who);
    case Evicted(victim) =>
      var k := Q.EvictionExact(q, item);
      StoredWithout(q.items, k, who);
      StoredConcat(Q.Without(q.items, k), [item], who);
    case _ =>
  }

  lemma GiveBackBalance(s: State, frame: u32, reason: nat, who: Option<u32>)
    ensures Balance(GiveBack(s, frame, reason).events, who) == Balance(s.events, who) - One(who, frame)
  {
    hide Balance, Count;
    BalanceOneMore(s.events, Heartbeat(frame), who);
    BalanceOneMore(s.events, Reclaimed(frame, reason), who);
    BalanceOneMore(s.events + [Heartbeat(frame)], Reclaimed(frame, reason), who);
  }

  /** Conservation in terms of the balance. */
  lemma ConservedIs(s: State, who: Option<u32>)
    ensures Conserved(s, who) <==> Balance(s.events, who) == Stored(s.queue.items, who)
  {
    hide Count, Stored;
  }

  lemma SubmitConserves(s: State, input: Input, now: u32, stamp: u32, who: Option<u32>)
    requires Valid(s) && Conserved(s, who)
    ensures Conserved(AfterSubmit(s, input, now, stamp), who)
  {
    var refusal := Refusal(s, input, now);
    ConservedIs(s, who);
    ConservedIs(AfterSubmit(s, input, now, stamp), who);
    BalanceOneMore(s.events, Submitted(input.frameId), who);
    hide Count, Stored, Balance, Conserved, Valid, Refusal;
    if refusal.Some? {
      GiveBackBalance(Note(s, Submitted(input.frameId)), input.frameId, refusal.value, who);
    } else {
      AdmitBalance(s, input, now, stamp, who);
    }
  }

  lemma AdmitBalance(s: State, input: Input, now: u32, stamp: u32, who: Option<u32>)
    requires Valid(s) && Refusal(s, input, now).None?
    requires Balance(s.events + [Submitted(input.frameId)], who) == Stored(s.queue.items, who) + One(who, input.frameId)
    ensures var t := AfterSubmit(s, input, now, stamp); Balance(t.events, who) == Stored(t.queue.items, who)
  {
    SubmitSplits(s, input, now, stamp);
    assert Q.Valid(s.queue);
    var t := Note(s, Submitted(input.frameId));
    var item := ItemOf(input, Lookup(s.routes, input.destination).value, stamp, s.routes.routeEpoch);
    hide Balance, Stored, Valid, Q.Valid, AfterSubmit, Refusal, Admitted, Lookup;
    AdmittedBalance(t, input.frameId, item, who);
  }

  lemma AdmittedBalance(t: State, f: u32, item: QueueItem, who: Option<u32>)
    requires Q.Valid(t.queue) && item.frameId == f
    requires Balance(t.events, who) == Stored(t.queue.items, who) + One(who, f)
    ensures var u := Admitted(t, f, item); Balance(u.events, who) == Stored(u.queue.items, who)
  {
    hide Count;
    EnqueueStored(t.queue, item, who);
    BalanceOneMore(t.events, Enqueued(f), who);
    BalanceOneMore(t.events, Reclaimed(f, QUEUE_FULL), who);
    var (queue, outcome) := Q.Enqueue(t.queue, item);
    if outcome.Evicted? {
      EvictionBalance(t.events, outcome.victim.frameId, f, who);
    }
    FullKeepsQueue(t.queue, item);
    hide Stored, Balance, Q.Enqueue, Q.Valid;
  }

  lemma FullKeepsQueue(q: Q.State, item: QueueItem)
    ensures Q.Enqueue(q, item).1.Full? || Q.Enqueue(q, item).1.BadPriority? ==> Q.Enqueue(q, item).0 == q
  {
    hide Q.VictimClass, Q.OldestIndex;
  }

  lemma EvictionBalance(events: seq<Event>, victim: u32, f: u32, who: Option<u32>)
    ensures Balance(events + [Evicted(victim)] + [Reclaimed(victim, QUEUE_FULL)] + [Enqueued(f)], who) ==
      Balance(events, who) - One(who, victim)
  {
    BalanceOneMore(events, Evicted(victim), who);
    BalanceOneMore(events + [Evicted(victim)], Reclaimed(victim, QUEUE_FULL), who);
    BalanceOneMore(events + [Evicted(victim)] + [Reclaimed(victim, QUEUE_FULL)], Enqueued(f), who);
  }

  lemma DequeueStored(s: State, who: Option<u32>)
    requires Valid(s) && s.queue.items != []
    ensures var (r, item) := Q.Dequeue(s.queue);
      Stored(s.queue.items, who) == Stored(r.items, who) + One(who, item.frameId)
  {
    StoredWithout(s.queue.items, Q.OldestIndex(s.queue.items, Q.Served(s.queue)), who);
  }

  lemma ScheduleConserves(s: State, now: u32, sink: nat -> bool, who: Option<u32>)
    requires Valid(s) && s.queue.items != [] && Conserved(s, who)
    ensures Conserved(AfterSchedule(s, now, sink), who)
  {
    assert ClassOf(s) < PRIORITY_COUNT;
    DequeueStored(s, who);
    hide Balance, Count, Stored, Valid, Dispatched;
    DispatchBalance(s.routes, s.events, Q.Dequeue(s.queue).1, now, sink, who);
    ConservedIs(s, who);
    ConservedIs(AfterSchedule(s, now, sink), who);
  }

  lemma DispatchBalance(routes: RouteTable, events: seq<Event>, item: QueueItem, now: u32, sink: nat -> bool,
                        who: Option<u32>)
    requires item.priority < PRIORITY_COUNT
    ensures Balance(Dispatched(routes, events, item, now, sink), who) == Balance(events, who) - One(who, item.frameId)
  {
    BalanceOneMore(events, Reclaimed(item.frameId, TTL_EXPIRED), who);
    BalanceOneMore(events, Reclaimed(item.frameId, NO_ROUTE), who);
    var routed := Refresh(routes, item);
    if routed.Some? {
      TransmitBalance(events, routed.value, RetryLimit(item.priority), sink, 0, who);
    }
  }

  lemma ReclaimConserves(s: State, reason: nat, who: Option<u32>)
    requires Valid(s) && s.queue.items != [] && Conserved(s, who)
    ensures Conserved(AfterReclaim(s, reason), who)
  {
    DequeueStored(s, who);
    BalanceOneMore(s.events, Reclaimed(Q.Dequeue(s.queue).1.frameId, reason), who);
  }

  /** Whether an input ends up in the queue. */
  predicate Queues(s: State, input: Input, now: u32, stamp: u32) {
    Refusal(s, input, now).None? &&
    var item := ItemOf(input, Lookup(s.routes, input.destination).value, stamp, s.routes.routeEpoch);
    var outcome := Q.Enqueue(s.queue, item).1;
    outcome.Accepted? || outcome.Evicted?
  }

  /** A submission ends in exactly one way. If the input is not queued, the queue
      stays as it is and the last event gives the input back. If it is, it is the
      last in the queue, and either nothing else changes there or exactly one
      queued item is removed and given back. */
  lemma SubmitExact(s: State, input: Input, now: u32, stamp: u32) returns (k: nat)
    requires Valid(s)
    ensures var t, f := AfterSubmit(s, input, now, stamp), input.frameId;
      !Queues(s, input, now, stamp) ==>
        t.queue == s.queue && exists r: Reason :: t.events[|t.events| - 1..] == [Reclaimed(f, r)]
    ensures var t, f, was := AfterSubmit(s, input, now, stamp), input.frameId, s.queue.items;
      Queues(s, input, now, stamp) ==>
        && t.queue.items != [] && t.queue.items[|t.queue.items| - 1].frameId == f
        && var others := t.queue.items[..|t.queue.items| - 1];
        (others == was && t.events == s.events + [Submitted(f), Enqueued(f)]) ||
        (k < |was| && others == Q.Without(was, k) &&
         t.events == s.events +
           [Submitted(f), Evicted(was[k].frameId), Reclaimed(was[k].frameId, QUEUE_FULL), Enqueued(f)])
  {
    SubmitSplits(s, input, now, stamp);
    k := 0;
    if Refusal(s, input, now).None? {
      var item := ItemOf(input, Lookup(s.routes, input.destination).value, stamp, s.routes.routeEpoch);
      hide AfterSubmit, Refusal, Lookup;
      k := AdmitExact(Note(s, Submitted(input.frameId)), input.frameId, item);
    } else {
      hide AfterSubmit, Refusal, Lookup;
      var t, f, r := Note(s, Submitted(input.frameId)), input.frameId, Refusal(s, input, now).value;
      var u: State := GiveBack(t, f, r);
      assert u.events[|u.events| - 1..] == [Reclaimed(f, r)];
    }
  }

  lemma AdmitExact(t: State, f: u32, item: QueueItem) returns (k: nat)
    requires Q.Valid(t.queue) && item.frameId == f
    ensures var u, outcome, was := Admitted(t, f, item), Q.Enqueue(t.queue, item).1, t.queue.items;
      if outcome.Accepted? then u.queue.items == was + [item] && u.events == t.events + [Enqueued(f)]
      else if outcome.Evicted? then
        k < |was| && u.queue.items == Q.Without(was, k) + [item] &&
        u.events == t.events + [Evicted(was[k].frameId), Reclaimed(was[k].frameId, QUEUE_FULL), Enqueued(f)]
      else u.queue == t.queue && u.events == t.events + [Reclaimed(f, QUEUE_FULL)]
  {
    k := 0;
    FullKeepsQueue(t.queue, item);
    AcceptedIsLast(t.queue, item);
    if Q.Enqueue(t.queue, item).1.Evicted? {
      k := Q.EvictionExact(t.queue, item);
      assert Q.EvictsAt(t.queue, item, k);
    }
    hide Q.Valid, Q.Enqueue;
  }

  lemma AcceptedIsLast(q: Q.State, item: QueueItem)
    ensures Q.Enqueue(q, item).1.Accepted? ==> Q.Enqueue(q, item).0.items == q.items + [item]
  {
    hide Q.VictimClass, Q.OldestIndex;
  }

  // ------------------------------------------------------------------
  // Attempts
  // ------------------------------------------------------------------

  /** How often the sink refuses in a row, up to `most` offers. */
  function Refusals(sink: nat -> bool, k: nat, most: nat): nat
    decreases most
  {
    if most == 0 || sink(k) then 0 else 1 + Refusals(sink, k + 1, most - 1)
  }

  lemma {:induction false} RefusalsExact(sink: nat -> bool, k: nat, most: nat)
    ensures var n := Refusals(sink, k, most);
      && n <= most && (n < most ==> sink(k + n))
      && (forall i :: k <= i < k + n ==> !sink(i))
    decreases most
  {
    if most > 0 && !sink(k) {
      RefusalsExact(sink, k + 1, most - 1);
    }
  }

  /** An item fresh from the queue is offered at most limit + 1 times: once per
      refusal and once more, and it is routed exactly when one of those offers is
      taken. */
  lemma {:induction false} TransmitExact(events: seq<Event>, item: QueueItem, limit: nat, sink: nat -> bool, k: nat)
    requires item.retryCount <= limit <= 3
    ensures var n := Refusals(sink, k, limit - item.retryCount + 1);
      Transmit(events, item, limit, sink, k) == events +
        (if n <= limit - item.retryCount
         then Repeat(Retried(item.frameId), n) + [Routed(item.frameId, item.target, item.priority)]
         else Repeat(Retried(item.frameId), limit - item.retryCount) + [Reclaimed(item.frameId, QUEUE_FULL)])
    decreases limit - item.retryCount
  {
    RefusalsExact(sink, k, limit - item.retryCount + 1);
    if !sink(k) && item.retryCount < limit {
      var e := Retried(item.frameId);
      TransmitExact(events + [e], item.(retryCount := item.retryCount + 1), limit, sink, k + 1);
      var n := Refusals(sink, k + 1, limit - item.retryCount);
      RepeatMore(events, e, n, [Routed(item.frameId, item.target, item.priority)]);
      RepeatMore(events, e, limit - item.retryCount - 1, [Reclaimed(item.frameId, QUEUE_FULL)]);
    }
  }

  /** How many times an item can be offered. */
  function Chances(item: QueueItem, limit: nat): nat {
    if item.retryCount > limit then 1 else limit - item.retryCount + 1
  }

  lemma TransmitEnds(events: seq<Event>, item: QueueItem, limit: nat, sink: nat -> bool) returns (n: nat, last: Event)
    requires limit <= 3
    ensures n < Chances(item, limit)
    ensures Transmit(events, item, limit, sink, 0) == events + Repeat(Retried(item.frameId), n) + [last]
    ensures last == if exists i :: 0 <= i < Chances(item, limit) && sink(i)
                    then Routed(item.frameId, item.target, item.priority) else Reclaimed(item.frameId, QUEUE_FULL)
  {
    if item.retryCount > limit {
      n := 0;
      last := if sink(0) then Routed(item.frameId, item.target, item.priority) else Reclaimed(item.frameId, QUEUE_FULL);
    } else {
      var most := Chances(item, limit);
      RefusalsExact(sink, 0, most);
      TransmitExact(events, item, limit, sink, 0);
      n := Refusals(sink, 0, most);
      if n < most {
        assert sink(n);
        last := Routed(item.frameId, item.target, item.priority);
      } else {
        n := most - 1;
        last := Reclaimed(item.frameId, QUEUE_FULL);
      }
      hide Transmit, Refusals;
    }
  }

  /** A scheduled item leaves the queue and ends routed or given back, after the
      refusals that came before: it is routed exactly when it has not expired, has
      a route, and one of its offers is taken. */
  lemma ScheduleExact(s: State, now: u32, sink: nat -> bool) returns (n: nat, last: Event)
    requires Valid(s) && s.queue.items != []
    ensures ClassOf(s) < PRIORITY_COUNT
    ensures var (queue, item) := Q.Dequeue(s.queue);
      var t := AfterSchedule(s, now, sink);
      && t.queue == queue && t.events == s.events + Repeat(Retried(item.frameId), n) + [last] && n <= 3
      && ((last.Routed? || last.Reclaimed?) && last.frame == item.frameId)
      && (last.Routed? <==> !Expired(now, item.receiveTime, item.ttl) && Refresh(s.routes, item).Some?
                            && exists i :: 0 <= i < Chances(item, RetryLimit(ClassOf(s))) && sink(i))
  {
    var item, limit := Q.Dequeue(s.queue).1, RetryLimit(ClassOf(s));
    hide Q.Dequeue, Valid, Expired, Lookup, Transmit, RetryLimit;
    if Expired(now, item.receiveTime, item.ttl) {
      n, last := 0, Reclaimed(item.frameId, TTL_EXPIRED);
    } else if Refresh(s.routes, item).None? {
      n, last := 0, Reclaimed(item.frameId, NO_ROUTE);
    } else {
      n, last := TransmitEnds(s.events, Refresh(s.routes, item).value, limit, sink);
    }
  }

  function Repeat(e: Event, n: nat): (r: seq<Event>)
    ensures |r| == n && forall i :: 0 <= i < n ==> r[i] == e
  {
    seq(n, _ => e)
  }

  lemma RepeatMore(events: seq<Event>, e: Event, n: nat, last: seq<Event>)
    ensures events + [e] + (Repeat(e, n) + last) == events + (Repeat(e, n + 1) + last)
  {
    assert [e] + Repeat(e, n) == Repeat(e, n + 1);
  }

  // ------------------------------------------------------------------
  // Totals and their parts
  // ------------------------------------------------------------------

  /** Reasons, targets and priorities are among those that have a counter. */
  predicate Proper(e: Event) {
    (e.Reclaimed? ==> e.reason < REASONS) && (e.Routed? ==> e.target < INTERFACE_COUNT && e.priority < PRIORITY_COUNT)
  }

  predicate AllProper(events: seq<Event>) {
    forall i :: 0 <= i < |events| ==> Proper(events[i])
  }

  function SumReasons(events: seq<Event>): nat {
    Count(events, ReclaimsFor(0)) + Count(events, ReclaimsFor(1)) + Count(events, ReclaimsFor(2)) +
    Count(events, ReclaimsFor(3)) + Count(events, ReclaimsFor(4)) + Count(events, ReclaimsFor(5)) +
    Count(events, ReclaimsFor(6))
  }

  function SumInterfaces(events: seq<Event>): nat {
    Count(events, RoutingsTo(0)) + Count(events, RoutingsTo(1)) + Count(events, RoutingsTo(2)) +
    Count(events, RoutingsTo(3)) + Count(events, RoutingsTo(4)) + Count(events, RoutingsTo(5))
  }

  function SumPriorities(events: seq<Event>): nat {
    Count(events, RoutingsAt(0)) + Count(events, RoutingsAt(1)) + Count(events, RoutingsAt(2)) +
    Count(events, RoutingsAt(3))
  }

  /** The drop reasons add up to the reclaims; the interfaces, and the priorities,
      add up to the routings. */
  lemma {:induction false} PartsAddUp(events: seq<Event>)
    requires AllProper(events)
    ensures SumReasons(events) == Count(events, Reclaims(None))
    ensures SumInterfaces(events) == SumPriorities(events) == Count(events, Routings(None))
  {
    if events != [] {
      var before, e := events[..|events| - 1], events[|events| - 1];
      assert events == before + [e] && Proper(e);
      PartsAddUp(before);
      ReasonsStep(before, e);
      InterfacesStep(before, e);
      PrioritiesStep(before, e);
      CountOneMore(before, e, Reclaims(None));
      CountOneMore(before, e, Routings(None));
      hide Count, SumReasons, SumInterfaces, SumPriorities;
    }
  }

  lemma ReasonsStep(events: seq<Event>, e: Event)
    requires Proper(e)
    ensures SumReasons(events + [e]) == SumReasons(events) + if e.Reclaimed? then 1 else 0
  {
    hide Count;
    CountOneMore(events, e, ReclaimsFor(0)); CountOneMore(events, e, ReclaimsFor(1));
    CountOneMore(events, e, ReclaimsFor(2)); CountOneMore(events, e, ReclaimsFor(3));
    CountOneMore(events, e, ReclaimsFor(4)); CountOneMore(events, e, ReclaimsFor(5));
    CountOneMore(events, e, ReclaimsFor(6));
  }

  lemma InterfacesStep(events: seq<Event>, e: Event)
    requires Proper(e)
    ensures SumInterfaces(events + [e]) == SumInterfaces(events) + if e.Routed? then 1 else 0
  {
    hide Count;
    CountOneMore(events, e, RoutingsTo(0)); CountOneMore(events, e, RoutingsTo(1));
    CountOneMore(events, e, RoutingsTo(2)); CountOneMore(events, e, RoutingsTo(3));
    CountOneMore(events, e, RoutingsTo(4)); CountOneMore(events, e, RoutingsTo(5));
  }

  lemma PrioritiesStep(events: seq<Event>, e: Event)
    requires Proper(e)
    ensures SumPriorities(events + [e]) == SumPriorities(events) + if e.Routed? then 1 else 0
  {
    hide Count;
    CountOneMore(events, e, RoutingsAt(0)); CountOneMore(events, e, RoutingsAt(1));
    CountOneMore(events, e, RoutingsAt(2)); CountOneMore(events, e, RoutingsAt(3));
  }

  // ------------------------------------------------------------------
  // Runs
  // ------------------------------------------------------------------

  type Reason = r: nat | r < REASONS

  datatype Call =
    | DoSubmit(input: Input, now: u32, stamp: u32)
    | DoSchedule(now: u32, sink: nat -> bool)
    | DoReclaim(reason: Reason)
    | SetRoutes(table: RouteTable)
    | SetEpoch(epoch: u32)

  function Apply(s: State, call: Call): State
    requires Valid(s)
  {
    match call
    case DoSubmit(input, now, stamp) => AfterSubmit(s, input, now, stamp)
    case DoSchedule(now, sink) => if s.queue.items == [] then s else AfterSchedule(s, now, sink)
    case DoReclaim(reason) => if s.queue.items == [] then s else AfterReclaim(s, reason)
    case SetRoutes(table) => s.(routes := table)
    case SetEpoch(epoch) => s.(epoch := epoch)
  }

  lemma {:induction false} TransmitProper(events: seq<Event>, item: QueueItem, limit: nat, sink: nat -> bool, k: nat)
    requires limit <= 3 && AllProper(events) && item.target < INTERFACE_COUNT && item.priority < PRIORITY_COUNT
    ensures AllProper(Transmit(events, item, limit, sink, k))
    decreases limit - item.retryCount
  {
    if !sink(k) && item.retryCount < limit {
      TransmitProper(events + [Retried(item.frameId)], item.(retryCount := item.retryCount + 1), limit, sink, k + 1);
    }
  }

  lemma DequeuedItem(s: State)
    requires Valid(s) && s.queue.items != []
    ensures var (r, item) := Q.Dequeue(s.queue);
      Valid(s.(queue := r)) && item.target < INTERFACE_COUNT && item.priority < PRIORITY_COUNT
  {
    DequeueKeepsTargets(s);
    assert ClassOf(s) < PRIORITY_COUNT;
  }

  lemma ScheduleKeeps(s: State, now: u32, sink: nat -> bool)
    requires Valid(s) && s.queue.items != [] && AllProper(s.events)
    ensures Valid(AfterSchedule(s, now, sink)) && AllProper(AfterSchedule(s, now, sink).events)
  {
    DequeuedItem(s);
    var routed := Refresh(s.routes, Q.Dequeue(s.queue).1);
    if routed.Some? {
      TransmitProper(s.events, routed.value, RetryLimit(Q.Dequeue(s.queue).1.priority), sink, 0);
    }
    hide Q.Valid, Q.Dequeue;
  }

  lemma SubmitKeeps(s: State, input: Input, now: u32, stamp: u32)
    requires Valid(s) && AllProper(s.events)
    ensures Valid(AfterSubmit(s, input, now, stamp)) && AllProper(AfterSubmit(s, input, now, stamp).events)
  {
    SubmitKeepsValid(s, input, now, stamp);
    hide Q.Valid, Valid;
  }

  lemma ApplyKeeps(s: State, call: Call)
    requires Valid(s) && AllProper(s.events)
    ensures Valid(Apply(s, call)) && AllProper(Apply(s, call).events)
  {
    match call
    case DoSubmit(input, now, stamp) => SubmitKeeps(s, input, now, stamp);
    case DoSchedule(now, sink) => if s.queue.items != [] { ScheduleKeeps(s, now, sink); }
    case DoReclaim(reason) => if s.queue.items != [] { DequeuedItem(s); }
    case SetRoutes(table) =>
    case SetEpoch(epoch) =>
  }

  function Run(s: State, calls: seq<Call>): (t: State)
    requires Valid(s) && AllProper(s.events)
    ensures Valid(t) && AllProper(t.events)
    decreases |calls|
  {
    if calls == [] then s
    else
      ApplyKeeps(s, calls[0]);
      Run(Apply(s, calls[0]), calls[1..])
  }

  lemma ApplyConserves(s: State, call: Call, who: Option<u32>)
    requires Valid(s) && Conserved(s, who)
    ensures Conserved(Apply(s, call), who)
  {
    match call
    case DoSubmit(input, now, stamp) => SubmitConserves(s, input, now, stamp, who);
    case DoSchedule(now, sink) => if s.queue.items != [] { ScheduleConserves(s, now, sink, who); }
    case DoReclaim(reason) => if s.queue.items != [] { ReclaimConserves(s, reason, who); }
    case SetRoutes(table) =>
    case SetEpoch(epoch) =>
  }

  /** Conservation over every run, whatever the sinks and the clock do: of every
      single frame number as of all together, each submission was routed, was
      reclaimed, or is queued. */
  lemma {:induction false} RunConserves(s: State, calls: seq<Call>, who: Option<u32>)
    requires Valid(s) && AllProper(s.events) && Conserved(s, who)
    ensures Conserved(Run(s, calls), who)
    decreases |calls|
  {
    hide Conserved, Valid, AllProper, Apply;
    if calls != [] {
      ApplyConserves(s, calls[0], who);
      ApplyKeeps(s, calls[0]);
      RunConserves(Apply(s, calls[0]), calls[1..], who);
    }
  }

  // ------------------------------------------------------------------
  // Budgets
  // ------------------------------------------------------------------

  /** A dispatch succeeds if the frame was sent or the reclaim sink took it. */
  predicate Succeeded(events: seq<Event>, given: bool) {
    given || (events != [] && events[|events| - 1].Routed?)
  }

  /** Schedule up to `budget` items, stopping at the first failure; the clock and
      the sinks answer for the k-th item. */
  function AfterDrain(s: State, budget: nat, now: nat -> u32, sink: nat -> nat -> bool, given: nat -> bool, k: nat):
    (r: (State, nat))
    requires Valid(s) && AllProper(s.events)
    ensures Valid(r.0) && AllProper(r.0.events) && r.1 <= budget
    decreases budget
  {
    if budget == 0 || s.queue.items == [] then (s, 0)
    else
      ScheduleKeeps(s, now(k), sink(k));
      var t := AfterSchedule(s, now(k), sink(k));
      if !Succeeded(t.events, given(k)) then (t, 0)
      else
        var (u, n) := AfterDrain(t, budget - 1, now, sink, given, k + 1);
        (u, n + 1)
  }

  /** One round of a drain. */
  lemma DrainStep(s: State, budget: nat, now: nat -> u32, sink: nat -> nat -> bool, given: nat -> bool, k: nat)
    requires Valid(s) && AllProper(s.events)
    ensures budget == 0 || s.queue.items == [] ==> AfterDrain(s, budget, now, sink, given, k) == (s, 0)
    ensures budget > 0 && s.queue.items != [] ==>
      var t := AfterSchedule(s, now(k), sink(k));
      && Valid(t) && AllProper(t.events)
      && (!Succeeded(t.events, given(k)) ==> AfterDrain(s, budget, now, sink, given, k) == (t, 0))
      && (Succeeded(t.events, given(k)) ==>
           var r := AfterDrain(t, budget - 1, now, sink, given, k + 1);
           AfterDrain(s, budget, now, sink, given, k) == (r.0, r.1 + 1))
  {
    if budget > 0 && s.queue.items != [] {
      ScheduleKeeps(s, now(k), sink(k));
    }
  }

  lemma DequeueShrinks(s: State)
    requires Valid(s) && s.queue.items != []
    ensures |Q.Dequeue(s.queue).0.items| == |s.queue.items| - 1
  {
  }

  /** A drain conserves, never exceeds its budget, and when the reclaim sink takes
      everything it handles as many items as there are, up to the budget. */
  lemma {:induction false} DrainConserves(s: State, budget: nat, now: nat -> u32, sink: nat -> nat -> bool,
                                          given: nat -> bool, k: nat, who: Option<u32>)
    requires Valid(s) && AllProper(s.events) && Conserved(s, who)
    ensures var (t, n) := AfterDrain(s, budget, now, sink, given, k);
      && Conserved(t, who) && n <= |s.queue.items| - |t.queue.items| <= n + 1
      && ((forall i :: given(i)) ==> n == if budget < |s.queue.items| then budget else |s.queue.items|)
    decreases budget
  {
    hide Conserved, Valid, AllProper, Q.Dequeue, Dispatched;
    if budget > 0 && s.queue.items != [] {
      ScheduleKeeps(s, now(k), sink(k));
      ScheduleConserves(s, now(k), sink(k), who);
      DequeueShrinks(s);
      var t := AfterSchedule(s, now(k), sink(k));
      if Succeeded(t.events, given(k)) {
        DrainConserves(t, budget - 1, now, sink, given, k + 1, who);
      }
    }
  }

  /** Give back up to `budget` queued items, stopping when the sink refuses one. */
  function AfterReclaims(s: State, budget: nat, reason: Reason, given: nat -> bool, k: nat): (r: (State, nat))
    requires Valid(s) && AllProper(s.events)
    ensures Valid(r.0) && AllProper(r.0.events) && r.1 <= budget
    decreases budget
  {
    if budget == 0 || s.queue.items == [] then (s, 0)
    else
      DequeuedItem(s);
      var t := AfterReclaim(s, reason);
      if !given(k) then (t, 0)
      else
        var (u, n) := AfterReclaims(t, budget - 1, reason, given, k + 1);
        (u, n + 1)
  }

  lemma ReclaimsStep(s: State, budget: nat, reason: Reason, given: nat -> bool, k: nat)
    requires Valid(s) && AllProper(s.events)
    ensures budget == 0 || s.queue.items == [] ==> AfterReclaims(s, budget, reason, given, k) == (s, 0)
    ensures budget > 0 && s.queue.items != [] ==>
      var t := AfterReclaim(s, reason);
      && Valid(t) && AllProper(t.events)
      && (!given(k) ==> AfterReclaims(s, budget, reason, given, k) == (t, 0))
      && (given(k) ==>
           var r := AfterReclaims(t, budget - 1, reason, given, k + 1);
           AfterReclaims(s, budget, reason, given, k) == (r.0, r.1 + 1))
  {
    if budget > 0 && s.queue.items != [] {
      DequeuedItem(s);
    }
  }

  /** Reclaiming queued items conserves, and it stops only when the budget or the
      queue is used up or the sink refuses an item. */
  lemma {:induction false} ReclaimsConserve(s: State, budget: nat, reason: Reason, given: nat -> bool, k: nat,
                                            who: Option<u32>)
    requires Valid(s) && AllProper(s.events) && Conserved(s, who)
    ensures var (t, n) := AfterReclaims(s, budget, reason, given, k);
      && Conserved(t, who) && n <= Least(budget, |s.queue.items|) && (forall i :: k <= i < k + n ==> given(i))
      && (if n < Least(budget, |s.queue.items|) then !given(k + n) && |t.queue.items| == |s.queue.items| - n - 1
          else |t.queue.items| == |s.queue.items| - n)
    decreases budget
  {
    hide Conserved, Valid, AllProper, Q.Dequeue, AfterReclaims;
    ReclaimsStep(s, budget, reason, given, k);
    if budget > 0 && s.queue.items != [] {
      ReclaimConserves(s, reason, who);
      DequeueShrinks(s);
      if given(k) {
        ReclaimsConserve(AfterReclaim(s, reason), budget - 1, reason, given, k + 1, who);
      }
    }
  }
}
