/** Which inputs the router queues, why it gives the others back, and where it
    sends what it queued, told on the fields of inputs and items alone. The
    conditions here are written apart from the checks of the router. */
module Admission {
  import opened Types
  import opened Router
  import Q = PriorityQueue

  // ------------------------------------------------------------------
  // Conditions
  // ------------------------------------------------------------------

  /** A broken header, a failed trust check, a type outside the forwarded ranges,
      or a priority that does not exist. A heartbeat needs no priority. */
  predicate Malformed(input: Input) {
    || !input.headerValid
    || input.trust.AuthFailed? || input.trust.IntegrityFailed? || input.trust.ReplayDropped?
    || 0x0A < input.kind < 0x0D || 0x12 < input.kind < 0x15 || 0x1E < input.kind < 0x47 || 0x4E < input.kind
    || (input.priority > 3 && input.kind != 0)
  }

  /** Milliseconds since `since` on a 32-bit clock that wraps. */
  function Age(now: u32, since: u32): nat {
    if since <= now then now - since else now + 0x1_0000_0000 - since
  }

  /** A lifetime of 0 never ends. */
  predicate Late(now: u32, since: u32, ttl: byte) {
    0 < ttl && ttl <= Age(now, since)
  }

  /** The six address segments in use start at 0x20, 0x40, .. 0xC0; the table
      names an interface for each. */
  predicate Reaches(table: RouteTable, destination: byte, target: byte) {
    table.valid && target < 6 &&
    exists segment :: 1 <= segment <= 6 && segment < |table.targets| && table.targets[segment] == target &&
                      0x20 * segment <= destination < 0x20 * segment + 0x20
  }

  predicate Routable(table: RouteTable, destination: byte) {
    table.valid && 0x20 <= destination < 0xE0 && destination / 0x20 < |table.targets| &&
    table.targets[destination / 0x20] < 6
  }

  /** An item that may give way: not more important than the newcomer, and not
      of priority 0. */
  predicate GivesWay(item: QueueItem, input: Input) {
    input.priority <= item.priority && item.priority != 0
  }

  predicate HasRoom(items: seq<QueueItem>, input: Input) {
    |items| < 64 || exists i :: 0 <= i < |items| && GivesWay(items[i], input)
  }

  predicate Sound(s: State, input: Input, now: u32) {
    !Malformed(input) && input.epoch == s.epoch && !Late(now, input.receiveTime, input.ttl) && input.kind != 0 &&
    Routable(s.routes, input.destination)
  }

  /** The router queues the input. */
  predicate Taken(s: State, input: Input, now: u32) {
    Sound(s, input, now) && HasRoom(s.queue.items, input)
  }

  /** The last event of a submission names its outcome, and each reason is given
      exactly when its own condition is the first that applies: 5 malformed,
      4 another epoch, 3 too old, 1 a heartbeat, 2 no route, 6 no room. */
  predicate Judged(s: State, input: Input, now: u32, last: Event) {
    var frame, late := input.frameId, Late(now, input.receiveTime, input.ttl);
    && (last == Reclaimed(frame, 5) <==> Malformed(input))
    && (last == Reclaimed(frame, 4) <==> !Malformed(input) && input.epoch != s.epoch)
    && (last == Reclaimed(frame, 3) <==> !Malformed(input) && input.epoch == s.epoch && late)
    && (last == Reclaimed(frame, 1) <==> !Malformed(input) && input.epoch == s.epoch && !late && input.kind == 0)
    && (last == Reclaimed(frame, 2) <==> !Malformed(input) && input.epoch == s.epoch && !late && input.kind != 0 &&
                                         !Routable(s.routes, input.destination))
    && (last == Reclaimed(frame, 6) <==> Sound(s, input, now) && !HasRoom(s.queue.items, input))
    && (last == Enqueued(frame) <==> Taken(s, input, now))
  }

  // ------------------------------------------------------------------
  // The checks of the router decide these conditions
  // ------------------------------------------------------------------

  lemma ExpiredIsLate(now: u32, since: u32, ttl: byte)
    ensures Expired(now, since, ttl) <==> Late(now, since, ttl)
  {
    assert (now - since) % U32 == Age(now, since);
  }

  /** Which interface each address reaches. */
  lemma LookupExact(table: RouteTable, destination: byte)
    ensures Lookup(table, destination).Some? <==> Routable(table, destination)
    ensures forall target: byte :: Lookup(table, destination) == Some(target) <==> Reaches(table, destination, target)
  {
    var mine := destination / 0x20;
    assert 0x20 * mine <= destination < 0x20 * mine + 0x20;
    forall segment | 0x20 * segment <= destination < 0x20 * segment + 0x20
      ensures segment == mine
    {
    }
  }

  /** In the table a router starts with, segment k leads to interface k - 1: CAN,
      Ethernet, Wi-Fi, Bluetooth, 4G and RS-485 in this order. */
  lemma DefaultRoutes(destination: byte, target: byte)
    ensures Lookup(DEFAULT_ROUTES, destination) == Some(target) <==>
      target < 6 && 0x20 * target + 0x20 <= destination < 0x20 * target + 0x40
  {
  }

  lemma InvalidIsMalformed(input: Input)
    ensures IsInvalid(input) <==> Malformed(input)
  {
  }

  lemma RefusalExact(s: State, input: Input, now: u32)
    ensures var r, late := Refusal(s, input, now), Late(now, input.receiveTime, input.ttl);
      && (r == None <==> Sound(s, input, now))
      && (r == Some(5) <==> Malformed(input))
      && (r == Some(4) <==> !Malformed(input) && input.epoch != s.epoch)
      && (r == Some(3) <==> !Malformed(input) && input.epoch == s.epoch && late)
      && (r == Some(1) <==> !Malformed(input) && input.epoch == s.epoch && !late && input.kind == 0)
      && (r == Some(2) <==> !Malformed(input) && input.epoch == s.epoch && !late && input.kind != 0 &&
                            !Routable(s.routes, input.destination))
      && r != Some(6)
  {
    InvalidIsMalformed(input);
    ExpiredIsLate(now, input.receiveTime, input.ttl);
    LookupExact(s.routes, input.destination);
    hide IsInvalid, Malformed, Expired, Late, Lookup, Routable, Reaches;
  }

  lemma RoomExact(s: State, input: Input, item: QueueItem)
    requires Q.Valid(s.queue) && item.priority == input.priority < PRIORITY_COUNT
    ensures var outcome := Q.Enqueue(s.queue, item).1;
      (outcome.Accepted? || outcome.Evicted? <==> HasRoom(s.queue.items, input)) &&
      (outcome.Full? <==> !HasRoom(s.queue.items, input))
  {
    var items := s.queue.items;
    if |items| == 64 {
      Q.FullExactlyWhen(s.queue, item);
      assert (exists i :: 0 <= i < |items| && GivesWay(items[i], input)) <==>
        !(forall i :: 0 <= i < |items| ==> items[i].priority < input.priority || items[i].priority == 0);
    }
  }

  // ------------------------------------------------------------------
  // The outcome of a submission
  // ------------------------------------------------------------------

  lemma GivenBackJudged(s: State, input: Input, now: u32, stamp: u32)
    requires Refusal(s, input, now).Some?
    ensures var events := AfterSubmit(s, input, now, stamp).events;
      events != [] && Judged(s, input, now, events[|events| - 1])
  {
    SubmitSplits(s, input, now, stamp);
    RefusalExact(s, input, now);
    var t := Note(s, Submitted(input.frameId));
    var u: State := GiveBack(t, input.frameId, Refusal(s, input, now).value);
    assert u.events[|u.events| - 1] == Reclaimed(input.frameId, Refusal(s, input, now).value);
    hide AfterSubmit, Refusal, Malformed, Late, Routable, HasRoom;
  }

  lemma AdmittedJudged(s: State, input: Input, now: u32, stamp: u32)
    requires Valid(s) && Refusal(s, input, now).None?
    ensures var events := AfterSubmit(s, input, now, stamp).events;
      events != [] && Judged(s, input, now, events[|events| - 1])
  {
    SubmitSplits(s, input, now, stamp);
    RefusalExact(s, input, now);
    assert input.priority < PRIORITY_COUNT;
    var t := Note(s, Submitted(input.frameId));
    var item := ItemOf(input, Lookup(s.routes, input.destination).value, stamp, s.routes.routeEpoch);
    RoomExact(s, input, item);
    hide AfterSubmit, Refusal, Malformed, Late, Routable, HasRoom, Lookup, Q.Valid, Q.Enqueue;
    var u := Admitted(t, input.frameId, item);
    assert u.events[|u.events| - 1] ==
      if HasRoom(s.queue.items, input) then Enqueued(input.frameId) else Reclaimed(input.frameId, 6);
  }

  /** Every submission is judged by its own fields, in both directions, for each
      of the seven outcomes. */
  lemma SubmissionJudged(s: State, input: Input, now: u32, stamp: u32)
    requires Valid(s)
    ensures var events := AfterSubmit(s, input, now, stamp).events;
      events != [] && Judged(s, input, now, events[|events| - 1])
  {
    hide *;
    if Refusal(s, input, now).Some? {
      GivenBackJudged(s, input, now, stamp);
    } else {
      AdmittedJudged(s, input, now, stamp);
    }
  }

  /** What a submission that is not queued leaves behind: nothing but its own
      reason, and before it the heartbeat it may have been. */
  lemma GivenBackEvents(s: State, input: Input, now: u32, stamp: u32)
    requires Valid(s) && !Taken(s, input, now)
    ensures var events, frame := AfterSubmit(s, input, now, stamp).events, input.frameId;
      events != [] && var last := events[|events| - 1];
      events == s.events + [Submitted(frame)] + (if last == Reclaimed(frame, 1) then [Heartbeat(frame)] else []) + [last]
  {
    QueuesIsTaken(s, input, now, stamp);
    SubmitSplits(s, input, now, stamp);
    var t := Note(s, Submitted(input.frameId));
    if Refusal(s, input, now).None? {
      var item := ItemOf(input, Lookup(s.routes, input.destination).value, stamp, s.routes.routeEpoch);
      assert Admitted(t, input.frameId, item).events == t.events + [Reclaimed(input.frameId, 6)];
    }
    hide AfterSubmit, Refusal, Taken, Lookup, Q.Valid, Q.Enqueue;
  }

  /** The router's own test of whether an input was queued is this condition. */
  lemma QueuesIsTaken(s: State, input: Input, now: u32, stamp: u32)
    requires Valid(s)
    ensures Queues(s, input, now, stamp) <==> Taken(s, input, now)
  {
    RefusalExact(s, input, now);
    if Refusal(s, input, now).None? {
      assert input.priority < PRIORITY_COUNT;
      RoomExact(s, input, ItemOf(input, Lookup(s.routes, input.destination).value, stamp, s.routes.routeEpoch));
    }
    hide Refusal, Malformed, Late, Routable, HasRoom, Lookup, Q.Valid, Q.Enqueue;
  }

  /** What is stored for an input: the input itself, the interface its address
      reaches, no retries yet, and the route epoch of the table. */
  predicate StoredFor(item: QueueItem, s: State, input: Input, stamp: u32) {
    && item.frameId == input.frameId && item.source == input.source && item.destination == input.destination
    && item.kind == input.kind && item.priority == input.priority && item.ttl == input.ttl
    && item.epoch == input.epoch && item.flags == input.flags && item.receiveTime == input.receiveTime
    && item.enqueueTime == stamp && item.retryCount == 0 && item.routeEpoch == s.routes.routeEpoch
    && Reaches(s.routes, input.destination, item.target)
  }

  /** A queued input is the last item and carries the input's own fields; one that
      is not queued leaves the queue alone. */
  lemma StoredExact(s: State, input: Input, now: u32, stamp: u32)
    requires Valid(s)
    ensures var items := AfterSubmit(s, input, now, stamp).queue.items;
      if Taken(s, input, now) then items != [] && StoredFor(items[|items| - 1], s, input, stamp) &&
        forall i :: 0 <= i < |items| - 1 ==> items[i] in s.queue.items
      else items == s.queue.items
  {
    QueuesIsTaken(s, input, now, stamp);
    var k := SubmitExact(s, input, now, stamp);
    SubmitSplits(s, input, now, stamp);
    if Taken(s, input, now) {
      var target := Lookup(s.routes, input.destination).value;
      LookupExact(s.routes, input.destination);
      assert Reaches(s.routes, input.destination, target);
      LastIsItem(Note(s, Submitted(input.frameId)), input.frameId, ItemOf(input, target, stamp, s.routes.routeEpoch));
      hide AfterSubmit, Refusal, Taken, Admitted, Lookup, Q.Valid, Reaches;
    }
  }

  lemma LastIsItem(t: State, frame: u32, item: QueueItem)
    requires Q.Valid(t.queue)
    ensures var outcome, items := Q.Enqueue(t.queue, item).1, Admitted(t, frame, item).queue.items;
      outcome.Accepted? || outcome.Evicted? ==>
        items != [] && items[|items| - 1] == item && forall i :: 0 <= i < |items| - 1 ==> items[i] in t.queue.items
  {
    hide Q.Valid, Q.VictimClass, Q.OldestIndex;
  }

  // ------------------------------------------------------------------
  // Where scheduled items go
  // ------------------------------------------------------------------

  /** An item whose route was looked up in the table's own epoch carries the
      interface the table names, and no item has been retried yet. */
  predicate Current(items: seq<QueueItem>, table: RouteTable) {
    forall i :: 0 <= i < |items| ==>
      items[i].retryCount == 0 &&
      (items[i].routeEpoch == table.routeEpoch ==> Reaches(table, items[i].destination, items[i].target))
  }

  /** A new table is announced by a route epoch no queued item carries. */
  predicate Announced(s: State, call: Call) {
    call.SetRoutes? ==>
      forall i :: 0 <= i < |s.queue.items| ==> s.queue.items[i].routeEpoch != call.table.routeEpoch
  }

  lemma DequeueTakes(q: Q.State)
    requires Q.Valid(q) && q.items != []
    ensures var (r, item) := Q.Dequeue(q); item in q.items && forall i :: 0 <= i < |r.items| ==> r.items[i] in q.items
  {
    hide Q.Valid;
  }

  lemma SubsetCurrent(items: seq<QueueItem>, fewer: seq<QueueItem>, table: RouteTable)
    requires Current(items, table) && forall i :: 0 <= i < |fewer| ==> fewer[i] in items
    ensures Current(fewer, table)
  {
    hide Reaches;
  }

  /** Every call keeps the queue current, as long as new tables are announced. */
  lemma CurrentKept(s: State, call: Call)
    requires Valid(s) && Current(s.queue.items, s.routes) && Announced(s, call)
    ensures Current(Apply(s, call).queue.items, Apply(s, call).routes)
  {
    match call
    case DoSubmit(input, now, stamp) =>
      StoredExact(s, input, now, stamp);
      RoutesKept(s, input, now, stamp);
      hide AfterSubmit, Reaches, Taken;
    case DoSchedule(now, sink) =>
      if s.queue.items != [] {
        DequeueTakes(s.queue);
        SubsetCurrent(s.queue.items, Q.Dequeue(s.queue).0.items, s.routes);
      }
      hide Current;
    case DoReclaim(reason) =>
      if s.queue.items != [] {
        DequeueTakes(s.queue);
        SubsetCurrent(s.queue.items, Q.Dequeue(s.queue).0.items, s.routes);
      }
      hide Current;
    case SetRoutes(table) =>
    case SetEpoch(epoch) =>
  }

  /** Every new table of a run is announced. */
  predicate AllAnnounced(s: State, calls: seq<Call>)
    requires Valid(s) && AllProper(s.events)
    decreases |calls|
  {
    calls == [] ||
    (Announced(s, calls[0]) && (ApplyKeeps(s, calls[0]); AllAnnounced(Apply(s, calls[0]), calls[1..])))
  }

  /** Over every run that announces its tables the queue stays current, so every
      scheduled item goes where the table of the moment says. */
  lemma {:induction false} RunCurrent(s: State, calls: seq<Call>)
    requires Valid(s) && AllProper(s.events) && Current(s.queue.items, s.routes) && AllAnnounced(s, calls)
    ensures Current(Run(s, calls).queue.items, Run(s, calls).routes)
    decreases |calls|
  {
    hide Current, Valid, AllProper, Apply, Announced;
    if calls != [] {
      ApplyKeeps(s, calls[0]);
      CurrentKept(s, calls[0]);
      RunCurrent(Apply(s, calls[0]), calls[1..]);
    }
  }

  lemma RoutesKept(s: State, input: Input, now: u32, stamp: u32)
    ensures AfterSubmit(s, input, now, stamp).routes == s.routes
  {
    hide Refusal, Lookup;
  }

  /** How often an item is offered: four times at priority 0, down to once at
      priority 3. */
  lemma OffersExact(priority: nat)
    requires priority < PRIORITY_COUNT
    ensures RetryLimit(priority) == 3 - priority
  {
  }

  /** What becomes of the item taken from a current queue: given back with 3 if it
      is too old, with 2 if its address has no route in the table of the moment,
      and otherwise routed to the interface that table names if one of its
      4 - priority offers is taken, or given back with 6. */
  lemma ScheduledExact(s: State, now: u32, sink: nat -> bool) returns (n: nat, last: Event)
    requires Valid(s) && s.queue.items != [] && Current(s.queue.items, s.routes)
    ensures var item := Q.Dequeue(s.queue).1;
      var late, frame := Late(now, item.receiveTime, item.ttl), item.frameId;
      var offers := 4 - item.priority;
      && AfterSchedule(s, now, sink).events == s.events + Repeat(Retried(frame), n) + [last] && n < 4
      && (last == Reclaimed(frame, 3) <==> late)
      && (last == Reclaimed(frame, 2) <==> !late && !Routable(s.routes, item.destination))
      && (last == Reclaimed(frame, 6) <==> !late && Routable(s.routes, item.destination) &&
                                           forall i :: 0 <= i < offers ==> !sink(i))
      && (forall target: byte :: last == Routed(frame, target, item.priority) <==>
           !late && Reaches(s.routes, item.destination, target) && exists i :: 0 <= i < offers && sink(i))
  {
    var item := Q.Dequeue(s.queue).1;
    assert ClassOf(s) < PRIORITY_COUNT;
    DequeueTakes(s.queue);
    ItemCurrent(s.queue.items, item, s.routes);
    ExpiredIsLate(now, item.receiveTime, item.ttl);
    LookupExact(s.routes, item.destination);
    OffersExact(item.priority);
    hide Q.Dequeue, Q.Valid, Expired, Late, Lookup, Reaches, Routable, Transmit, RetryLimit, Current;
    if Expired(now, item.receiveTime, item.ttl) {
      n, last := 0, Reclaimed(item.frameId, 3);
    } else if Refresh(s.routes, item).None? {
      n, last := 0, Reclaimed(item.frameId, 2);
    } else {
      n, last := TransmitEnds(s.events, Refresh(s.routes, item).value, RetryLimit(item.priority), sink);
    }
  }

  /** Without that hypothesis: a routed item went where the table of the moment
      says if and only if it was not queued under the table's route epoch or its
      own target is the one the table names. */
  lemma RoutedByTableExactlyWhen(s: State, now: u32, sink: nat -> bool) returns (n: nat, last: Event)
    requires Valid(s) && s.queue.items != []
    ensures var item := Q.Dequeue(s.queue).1;
      && AfterSchedule(s, now, sink).events == s.events + Repeat(Retried(item.frameId), n) + [last]
      && (last.Routed? ==> last.target < 6)
      && (last.Routed? ==>
           (Reaches(s.routes, item.destination, last.target) <==>
             item.routeEpoch != s.routes.routeEpoch || Reaches(s.routes, item.destination, item.target)))
  {
    var item := Q.Dequeue(s.queue).1;
    assert ClassOf(s) < PRIORITY_COUNT;
    DequeueKeepsTargets(s);
    LookupExact(s.routes, item.destination);
    hide Q.Dequeue, Q.Valid, Expired, Lookup, Reaches, Routable, Transmit, RetryLimit;
    if Expired(now, item.receiveTime, item.ttl) {
      n, last := 0, Reclaimed(item.frameId, 3);
    } else if Refresh(s.routes, item).None? {
      n, last := 0, Reclaimed(item.frameId, 2);
    } else {
      n, last := TransmitEnds(s.events, Refresh(s.routes, item).value, RetryLimit(item.priority), sink);
    }
  }

  lemma ItemCurrent(items: seq<QueueItem>, item: QueueItem, table: RouteTable)
    requires Current(items, table) && item in items
    ensures item.retryCount == 0
    ensures item.routeEpoch == table.routeEpoch ==> Reaches(table, item.destination, item.target)
  {
    hide Reaches;
  }
}
