/** The RTOS scheduling queue: an array kept in arrival order, served by
    priority class with a quota per class and round. */
module PriorityQueue {
  import opened Types

  const CAPACITY: nat := 64
  const DEFAULT_QUOTA: seq<nat> := [16, 12, 8, 4]

  // ------------------------------------------------------------------
  // Specification on values
  // ------------------------------------------------------------------

  datatype State = State(items: seq<QueueItem>, quota: seq<nat>, used: seq<nat>, scheduler: nat)

  predicate HasClass(items: seq<QueueItem>, p: nat) {
    exists i :: 0 <= i < |items| && items[i].priority == p
  }

  /** k is the item of class p that a strict `<` scan on the enqueue time keeps. */
  predicate IsOldest(items: seq<QueueItem>, p: nat, k: nat) {
    && k < |items|
    && items[k].priority == p
    && (forall j :: 0 <= j < |items| && items[j].priority == p ==> items[k].enqueueTime <= items[j].enqueueTime)
    && (forall j :: 0 <= j < k && items[j].priority == p ==> items[k].enqueueTime < items[j].enqueueTime)
  }

  /** The index IsOldest describes; |items| when the class is empty. */
  function OldestIndex(items: seq<QueueItem>, p: nat): (k: nat)
    ensures HasClass(items, p) ==> IsOldest(items, p, k)
    ensures !HasClass(items, p) ==> k == |items|
  {
    if items == [] then 0
    else
      var n := |items| - 1;
      var before := items[..n];
      var k := OldestIndex(before, p);
      assert forall i :: 0 <= i < n ==> items[i] == before[i];
      if items[n].priority == p && (k == n || items[n].enqueueTime < items[k].enqueueTime) then n
      else if k == n then n + 1
      else k
  }

  function Without(items: seq<QueueItem>, k: nat): (r: seq<QueueItem>)
    requires k < |items|
    ensures |r| == |items| - 1
  {
    items[..k] + items[k + 1..]
  }

  /** The invariant every operation keeps. The last two lines are what makes
      dequeue total: a class the round has not reached yet has used nothing,
      and the class it stands on has quota left. */
  predicate Valid(s: State) {
    && |s.quota| == |s.used| == PRIORITY_COUNT
    && |s.items| <= CAPACITY
    && s.scheduler <= PRIORITY_COUNT
    && (forall i :: 0 <= i < |s.items| ==> s.items[i].priority < PRIORITY_COUNT)
    && (forall q :: 0 <= q < PRIORITY_COUNT ==> 0 < s.quota[q] < 256 && s.used[q] <= s.quota[q])
    && (forall q :: s.scheduler < q < PRIORITY_COUNT ==> s.used[q] == 0)
    && (s.scheduler < PRIORITY_COUNT ==> s.used[s.scheduler] < s.quota[s.scheduler])
  }

  /** First non-empty class at or after p. */
  function NextClass(items: seq<QueueItem>, p: nat): (c: nat)
    requires p <= PRIORITY_COUNT
    ensures p <= c <= PRIORITY_COUNT
    ensures c < PRIORITY_COUNT ==> HasClass(items, c)
    ensures forall q :: p <= q < c ==> !HasClass(items, q)
    decreases PRIORITY_COUNT - p
  {
    if p == PRIORITY_COUNT || HasClass(items, p) then p else NextClass(items, p + 1)
  }

  predicate Wraps(s: State)
    requires s.scheduler <= PRIORITY_COUNT
  {
    NextClass(s.items, s.scheduler) == PRIORITY_COUNT
  }

  /** The class a dequeue serves: the next non-empty one, cyclically. */
  function Served(s: State): (c: nat)
    requires Valid(s) && s.items != []
    ensures c < PRIORITY_COUNT && HasClass(s.items, c)
  {
    if Wraps(s) then
      assert HasClass(s.items, s.items[0].priority);
      NextClass(s.items, 0)
    else NextClass(s.items, s.scheduler)
  }

  const NONE_USED: seq<nat> := [0, 0, 0, 0]

  function NewRound(s: State): (t: State) {
    s.(used := NONE_USED, scheduler := 0)
  }

  function Dequeue(s: State): (r: (State, QueueItem))
    requires Valid(s) && s.items != []
  {
    var c := Served(s);
    var k := OldestIndex(s.items, c);
    Take(s.items, s.quota, if Wraps(s) then NONE_USED else s.used, c, k)
  }

  /** Serve item k of class c and move the round on if the class is done. */
  function Take(items: seq<QueueItem>, quota: seq<nat>, used: seq<nat>, c: nat, k: nat): (r: (State, QueueItem))
    requires c < |used| == |quota| && k < |items|
  {
    var rest := Without(items, k);
    var after := used[c := used[c] + 1];
    var scheduler := if after[c] >= quota[c] || !HasClass(rest, c) then c + 1 else c;
    (State(rest, quota, after, scheduler), items[k])
  }

  lemma DequeueKeepsValid(s: State)
    requires Valid(s) && s.items != []
    ensures Valid(Dequeue(s).0)
  {
  }

  // ------------------------------------------------------------------
  // The scan of the implementation, with its bound on position changes
  // ------------------------------------------------------------------

  /** At most n scheduler positions are tried. None means the scan gave up. */
  function Scan(s: State, n: nat): (r: Option<(State, QueueItem)>)
    requires |s.used| == |s.quota| == PRIORITY_COUNT && s.scheduler <= PRIORITY_COUNT
    decreases n
  {
    if n == 0 then None
    else
      var t := if s.scheduler >= PRIORITY_COUNT then NewRound(s) else s;
      var p := t.scheduler;
      if t.used[p] < t.quota[p] && HasClass(t.items, p) then Some(Take(t.items, t.quota, t.used, p, OldestIndex(t.items, p)))
      else Scan(t.(scheduler := p + 1), n - 1)
  }

  /** No class from the current position on has exhausted its quota. */
  predicate OpenAhead(s: State) {
    && |s.used| == |s.quota| == PRIORITY_COUNT
    && s.scheduler <= PRIORITY_COUNT
    && forall q :: s.scheduler <= q < PRIORITY_COUNT ==> s.used[q] < s.quota[q]
  }

  lemma ScanSkips(s: State, n: nat)
    requires |s.used| == |s.quota| == PRIORITY_COUNT && n > 0
    requires s.scheduler < PRIORITY_COUNT && !HasClass(s.items, s.scheduler)
    ensures Scan(s, n) == Scan(s.(scheduler := s.scheduler + 1), n - 1)
  {
  }

  lemma ScanHits(s: State, n: nat)
    requires |s.used| == |s.quota| == PRIORITY_COUNT && n > 0
    requires s.scheduler < PRIORITY_COUNT && HasClass(s.items, s.scheduler)
    requires s.used[s.scheduler] < s.quota[s.scheduler]
    ensures Scan(s, n) == Some(Take(s.items, s.quota, s.used, s.scheduler, OldestIndex(s.items, s.scheduler)))
  {
  }

  /** From the current position, a class in front of the round is met directly. */
  lemma {:induction false} ScanAhead(s: State, c: nat, n: nat)
    requires OpenAhead(s)
    requires s.scheduler <= c < PRIORITY_COUNT && HasClass(s.items, c)
    requires forall q :: s.scheduler <= q < c ==> !HasClass(s.items, q)
    requires n > c - s.scheduler
    ensures Scan(s, n) == Some(Take(s.items, s.quota, s.used, c, OldestIndex(s.items, c)))
    decreases n
  {
    if s.scheduler == c {
      ScanHits(s, n);
    } else {
      ScanSkips(s, n);
      ScanAhead(s.(scheduler := s.scheduler + 1), c, n - 1);
    }
  }

  /** Otherwise the scan runs off the end, starts a new round and meets it there. */
  lemma {:induction false} ScanWrap(s: State, c: nat, n: nat)
    requires |s.used| == |s.quota| == PRIORITY_COUNT && s.scheduler <= PRIORITY_COUNT
    requires forall q :: 0 <= q < PRIORITY_COUNT ==> 0 < s.quota[q]
    requires c < PRIORITY_COUNT && HasClass(s.items, c)
    requires forall q :: 0 <= q < c || s.scheduler <= q < PRIORITY_COUNT ==> !HasClass(s.items, q)
    requires n > PRIORITY_COUNT - s.scheduler + c
    ensures Scan(s, n) == Some(Take(s.items, s.quota, NONE_USED, c, OldestIndex(s.items, c)))
    decreases PRIORITY_COUNT - s.scheduler
  {
    if s.scheduler == PRIORITY_COUNT {
      var t := NewRound(s);
      assert Scan(s, n) == Scan(t, n);
      ScanAhead(t, c, n);
    } else {
      ScanSkips(s, n);
      ScanWrap(s.(scheduler := s.scheduler + 1), c, n - 1);
    }
  }

  /** Dequeue is total: on every valid non-empty queue four positions already
      suffice, so the eight allowed are never used up and the implementation
      never calls itself again. */
  lemma ScanSucceeds(s: State, n: nat)
    requires Valid(s) && s.items != [] && n >= PRIORITY_COUNT
    ensures Scan(s, n) == Some(Dequeue(s))
  {
    var c := Served(s);
    if Wraps(s) {
      assert c < s.scheduler;
      ScanWrap(s, c, n);
    } else {
      ScanAhead(s, c, n);
    }
  }

  // ------------------------------------------------------------------
  // Enqueue and eviction
  // ------------------------------------------------------------------

  datatype Outcome = Accepted | Evicted(victim: QueueItem) | Full | BadPriority

  /** Class to evict from for a newcomer of class p: the scan goes from the
      least important class q down to p, and never looks at class 0 for a
      newcomer of class 0. */
  function VictimClass(items: seq<QueueItem>, p: nat, q: nat): Option<nat>
    requires p < PRIORITY_COUNT
  {
    if q < p then None
    else if !(q == 0 && p == 0) && HasClass(items, q) then Some(q)
    else if q == 0 then None
    else VictimClass(items, p, q - 1)
  }

  function Enqueue(s: State, item: QueueItem): (r: (State, Outcome))
  {
    if item.priority >= PRIORITY_COUNT then (s, BadPriority)
    else if |s.items| < CAPACITY then (s.(items := s.items + [item]), Accepted)
    else
      match VictimClass(s.items, item.priority, PRIORITY_COUNT - 1)
      case None => (s, Full)
      case Some(q) =>
        var k := OldestIndex(s.items, q);
        if k < |s.items| then (s.(items := Without(s.items, k) + [item]), Evicted(s.items[k]))
        else (s, Full)
  }

  lemma {:induction false} VictimClassFound(items: seq<QueueItem>, p: nat, q: nat)
    requires p < PRIORITY_COUNT
    ensures VictimClass(items, p, q) == None <==> (forall c :: p <= c <= q && c != 0 ==> !HasClass(items, c))
    ensures VictimClass(items, p, q).Some? ==>
      var c := VictimClass(items, p, q).value;
      p <= c <= q && c != 0 && HasClass(items, c) && forall d :: c < d <= q ==> !HasClass(items, d)
  {
    if q >= p && !(q != 0 && HasClass(items, q)) && q > 0 {
      VictimClassFound(items, p, q - 1);
    }
  }

  /** A newcomer is turned away from a full queue exactly when every stored
      item is more important than it or of priority 0. */
  lemma FullExactlyWhen(s: State, item: QueueItem)
    requires Valid(s) && |s.items| == CAPACITY && item.priority < PRIORITY_COUNT
    ensures Enqueue(s, item).1 == Full <==>
      forall i :: 0 <= i < |s.items| ==> s.items[i].priority < item.priority || s.items[i].priority == 0
  {
    VictimClassFound(s.items, item.priority, PRIORITY_COUNT - 1);
    forall i | 0 <= i < |s.items|
      ensures HasClass(s.items, s.items[i].priority)
    {
    }
  }

  /** The item at k makes room for the newcomer and nothing else is lost. */
  predicate EvictsAt(s: State, item: QueueItem, k: nat) {
    && k < |s.items|
    && IsOldest(s.items, s.items[k].priority, k)
    && Enqueue(s, item) == (s.(items := Without(s.items, k) + [item]), Evicted(s.items[k]))
  }

  /** An eviction takes the oldest item of the least important class present,
      which is not more important than the newcomer and never priority 0. */
  lemma EvictionExact(s: State, item: QueueItem) returns (k: nat)
    requires Valid(s) && Enqueue(s, item).1.Evicted?
    ensures |s.items| == CAPACITY && EvictsAt(s, item, k)
    ensures item.priority <= s.items[k].priority && s.items[k].priority != 0
    ensures forall i :: 0 <= i < |s.items| ==> s.items[i].priority <= s.items[k].priority
  {
    VictimClassFound(s.items, item.priority, PRIORITY_COUNT - 1);
    var c := VictimClass(s.items, item.priority, PRIORITY_COUNT - 1).value;
    k := OldestIndex(s.items, c);
    forall i | 0 <= i < |s.items|
      ensures s.items[i].priority <= c
    {
      assert HasClass(s.items, s.items[i].priority);
    }
  }

  lemma EnqueueKeepsValid(s: State, item: QueueItem)
    requires Valid(s)
    ensures Valid(Enqueue(s, item).0)
  {
  }

  // ------------------------------------------------------------------
  // Runs
  // ------------------------------------------------------------------

  datatype Op = Put(item: QueueItem) | Get

  /** What a run leaves behind: the final state, the items that entered and the
      items that left (served or evicted), each in order. */
  datatype Log = Log(state: State, entered: seq<QueueItem>, left: seq<QueueItem>)

  function Apply(s: State, op: Op): (r: Log)
    requires Valid(s)
    ensures Valid(r.state)
  {
    match op
    case Get =>
      if s.items == [] then Log(s, [], [])
      else
        DequeueKeepsValid(s);
        Log(Dequeue(s).0, [], [Dequeue(s).1])
    case Put(item) =>
      EnqueueKeepsValid(s, item);
      var (t, outcome) := Enqueue(s, item);
      match outcome
      case Accepted => Log(t, [item], [])
      case Evicted(victim) => Log(t, [item], [victim])
      case Full => Log(t, [], [])
      case BadPriority => Log(t, [], [])
  }

  function Run(s: State, ops: seq<Op>): (r: Log)
    requires Valid(s)
    ensures Valid(r.state)
    decreases |ops|
  {
    if ops == [] then Log(s, [], [])
    else
      var first := Apply(s, ops[0]);
      var rest := Run(first.state, ops[1..]);
      Log(rest.state, first.entered + rest.entered, first.left + rest.left)
  }

  // ------------------------------------------------------------------
  // One FIFO per class
  // ------------------------------------------------------------------

  function Keep(item: QueueItem, p: nat): seq<QueueItem> {
    if item.priority == p then [item] else []
  }

  function ClassOf(items: seq<QueueItem>, p: nat): (r: seq<QueueItem>) {
    if items == [] then []
    else Keep(items[0], p) + ClassOf(items[1..], p)
  }

  lemma {:induction false} ClassOfConcat(a: seq<QueueItem>, b: seq<QueueItem>, p: nat)
    ensures ClassOf(a + b, p) == ClassOf(a, p) + ClassOf(b, p)
  {
    if a == [] {
      assert a + b == b;
    } else {
      assert (a + b)[0] == a[0] && (a + b)[1..] == a[1..] + b;
      ClassOfConcat(a[1..], b, p);
      Regroup(Keep(a[0], p), ClassOf(a[1..], p), ClassOf(b, p));
    }
  }

  lemma {:induction false} ClassOfEmpty(items: seq<QueueItem>, p: nat)
    requires !HasClass(items, p)
    ensures ClassOf(items, p) == []
  {
    if items != [] {
      assert items[0].priority != p;
      forall i | 0 <= i < |items[1..]|
        ensures items[1..][i].priority != p
      {
        assert items[1..][i] == items[i + 1];
      }
      ClassOfEmpty(items[1..], p);
    }
  }

  predicate IsHead(items: seq<QueueItem>, p: nat, k: nat) {
    k < |items| && items[k].priority == p && forall j :: 0 <= j < k ==> items[j].priority != p
  }

  /** Removing the item at k takes it out of its class and out of no other; it
      was at the front of its class when nothing of the class comes before it. */
  lemma RemoveFromClass(items: seq<QueueItem>, k: nat, p: nat)
    requires k < |items|
    ensures items[k].priority != p ==> ClassOf(Without(items, k), p) == ClassOf(items, p)
    ensures IsHead(items, p, k) ==> ClassOf(items, p) == [items[k]] + ClassOf(Without(items, k), p)
  {
    var a, b := items[..k], items[k + 1..];
    ClassOfAround(items, k, p);
    ClassOfConcat(a, b, p);
    if IsHead(items, p, k) {
      ClassOfEmpty(a, p);
    }
  }

  lemma ClassOfAround(items: seq<QueueItem>, k: nat, p: nat)
    requires k < |items|
    ensures ClassOf(items, p) == ClassOf(items[..k], p) + (Keep(items[k], p) + ClassOf(items[k + 1..], p))
  {
    var a, b := items[..k], items[k..];
    assert items == a + b && b[0] == items[k] && b[1..] == items[k + 1..];
    ClassOfConcat(a, b, p);
  }

  /** A dequeue is FIFO in its class exactly when no later item of the class
      carries a strictly smaller enqueue time than the head: the comparison is
      on raw 32-bit times. */
  lemma FifoExactlyWhen(items: seq<QueueItem>, p: nat, head: nat)
    requires IsHead(items, p, head)
    ensures OldestIndex(items, p) == head <==>
      forall j :: head < j < |items| && items[j].priority == p ==> items[head].enqueueTime <= items[j].enqueueTime
  {
    assert HasClass(items, p);
    var k := OldestIndex(items, p);
    assert k >= head;
  }

  /** The order breaks when the millisecond clock wraps between two arrivals. */
  lemma WrappedClockReorders(first: QueueItem, second: QueueItem)
    requires first.priority == second.priority < PRIORITY_COUNT
    requires first.enqueueTime == U32 - 1 && second.enqueueTime == 0
    ensures OldestIndex([first, second], first.priority) == 1
  {
    FifoExactlyWhen([first, second], first.priority, 0);
    assert HasClass([first, second], first.priority);
  }

  predicate Ordered(items: seq<QueueItem>) {
    forall i, j :: 0 <= i < j < |items| ==> items[i].enqueueTime <= items[j].enqueueTime
  }

  lemma OldestIsHead(items: seq<QueueItem>, p: nat)
    requires Ordered(items) && HasClass(items, p)
    ensures IsHead(items, p, OldestIndex(items, p))
  {
    var k := OldestIndex(items, p);
    forall j | 0 <= j < k
      ensures items[j].priority != p
    {
      assert items[j].enqueueTime <= items[k].enqueueTime;
    }
  }

  /** Arrival times never run backwards, from time `now` on. */
  predicate Clocked(now: nat, ops: seq<Op>)
    decreases |ops|
  {
    ops == [] ||
    match ops[0]
    case Get => Clocked(now, ops[1..])
    case Put(item) => now <= item.enqueueTime && Clocked(item.enqueueTime, ops[1..])
  }

  predicate NoneAfter(items: seq<QueueItem>, now: nat) {
    forall i :: 0 <= i < |items| ==> items[i].enqueueTime <= now
  }

  predicate Balanced(before: seq<QueueItem>, entered: seq<QueueItem>, left: seq<QueueItem>,
                     after: seq<QueueItem>, p: nat) {
    ClassOf(before, p) + ClassOf(entered, p) == ClassOf(left, p) + ClassOf(after, p)
  }

  predicate ClassBalance(before: seq<QueueItem>, log: Log, p: nat) {
    Balanced(before, log.entered, log.left, log.state.items, p)
  }

  lemma TakeBalance(items: seq<QueueItem>, c: nat, p: nat)
    requires Ordered(items) && HasClass(items, c)
    ensures var k := OldestIndex(items, c);
      ClassOf(items, p) == ClassOf([items[k]], p) + ClassOf(Without(items, k), p)
  {
    OldestIsHead(items, c);
    RemoveFromClass(items, OldestIndex(items, c), p);
  }

  lemma SwapBalance(items: seq<QueueItem>, item: QueueItem, c: nat, p: nat)
    requires Ordered(items) && HasClass(items, c)
    ensures var k := OldestIndex(items, c); Balanced(items, [item], [items[k]], Without(items, k) + [item], p)
  {
    var k := OldestIndex(items, c);
    TakeBalance(items, c, p);
    ClassOfConcat(Without(items, k), [item], p);
    Regroup(ClassOf([items[k]], p), ClassOf(Without(items, k), p), ClassOf([item], p));
  }

  lemma Regroup(x: seq<QueueItem>, y: seq<QueueItem>, z: seq<QueueItem>)
    ensures (x + y) + z == x + (y + z)
  {
  }

  lemma EvictionBalance(s: State, item: QueueItem, p: nat)
    requires Valid(s) && Ordered(s.items) && Enqueue(s, item).1.Evicted?
    ensures ClassBalance(s.items, Apply(s, Put(item)), p)
  {
    VictimClassFound(s.items, item.priority, PRIORITY_COUNT - 1);
    var c := VictimClass(s.items, item.priority, PRIORITY_COUNT - 1).value;
    SwapBalance(s.items, item, c, p);
  }

  lemma StepBalance(s: State, op: Op, p: nat)
    requires Valid(s) && Ordered(s.items)
    ensures ClassBalance(s.items, Apply(s, op), p)
  {
    match op
    case Get =>
      if s.items != [] {
        TakeBalance(s.items, Served(s), p);
        assert ClassOf(s.items, p) + [] == ClassOf(s.items, p);
      }
    case Put(item) =>
      var (t, outcome) := Enqueue(s, item);
      match outcome
      case Accepted => ClassOfConcat(s.items, [item], p);
      case Full =>
      case BadPriority =>
      case Evicted(victim) =>
        EvictionBalance(s, item, p);
  }

  lemma KeepsOrder(items: seq<QueueItem>, k: nat, now: nat)
    requires k < |items| && Ordered(items) && NoneAfter(items, now)
    ensures Ordered(Without(items, k)) && NoneAfter(Without(items, k), now)
  {
  }

  lemma AppendKeepsOrder(items: seq<QueueItem>, item: QueueItem, now: nat)
    requires Ordered(items) && NoneAfter(items, now) && now <= item.enqueueTime
    ensures Ordered(items + [item]) && NoneAfter(items + [item], item.enqueueTime)
  {
  }

  lemma StepOrdered(s: State, op: Op, now: nat)
    requires Valid(s) && Ordered(s.items) && NoneAfter(s.items, now)
    requires op.Put? ==> now <= op.item.enqueueTime
    ensures var t := Apply(s, op).state;
      Ordered(t.items) && NoneAfter(t.items, if op.Put? then op.item.enqueueTime else now)
  {
    match op
    case Get =>
      if s.items != [] {
        KeepsOrder(s.items, OldestIndex(s.items, Served(s)), now);
      }
    case Put(item) =>
      match Enqueue(s, item).1
      case Accepted => AppendKeepsOrder(s.items, item, now);
      case Full =>
      case BadPriority =>
      case Evicted(_) =>
        var k := OldestIndex(s.items, VictimClass(s.items, item.priority, PRIORITY_COUNT - 1).value);
        KeepsOrder(s.items, k, now);
        AppendKeepsOrder(Without(s.items, k), item, now);
  }

  /** Each class is a FIFO over every run: as long as arrival times do not run
      backwards, what left the class (served or evicted) followed by what is
      still stored is what was stored followed by what entered, in order. */
  lemma {:induction false} RunIsFifoPerClass(s: State, ops: seq<Op>, now: nat, p: nat)
    requires Valid(s) && Ordered(s.items) && NoneAfter(s.items, now) && Clocked(now, ops)
    ensures ClassBalance(s.items, Run(s, ops), p)
    decreases |ops|
  {
    if ops == [] {
    } else {
      var first := Apply(s, ops[0]);
      StepBalance(s, ops[0], p);
      StepOrdered(s, ops[0], now);
      RunIsFifoPerClass(first.state, ops[1..], if ops[0].Put? then ops[0].item.enqueueTime else now, p);
      LogsCompose(s.items, first, Run(first.state, ops[1..]), p);
    }
  }

  lemma LogsCompose(before: seq<QueueItem>, first: Log, rest: Log, p: nat)
    requires ClassBalance(before, first, p) && ClassBalance(first.state.items, rest, p)
    ensures ClassBalance(before, Log(rest.state, first.entered + rest.entered, first.left + rest.left), p)
  {
    ClassOfConcat(first.entered, rest.entered, p);
    ClassOfConcat(first.left, rest.left, p);
    BalanceComposes(ClassOf(before, p), ClassOf(first.entered, p), ClassOf(first.left, p),
                    ClassOf(first.state.items, p), ClassOf(rest.entered, p), ClassOf(rest.left, p),
                    ClassOf(rest.state.items, p));
  }

  lemma BalanceComposes(a: seq<QueueItem>, inA: seq<QueueItem>, outA: seq<QueueItem>, b: seq<QueueItem>,
                        inB: seq<QueueItem>, outB: seq<QueueItem>, c: seq<QueueItem>)
    requires a + inA == outA + b && b + inB == outB + c
    ensures a + (inA + inB) == (outA + outB) + c
  {
    assert a + (inA + inB) == (a + inA) + inB;
    assert (outA + b) + inB == outA + (b + inB);
    assert outA + (outB + c) == (outA + outB) + c;
  }

  // ------------------------------------------------------------------
  // No starvation
  // ------------------------------------------------------------------

  /** Items of class q that may still be served before class p is reached: what
      is left of its quota this round, or a whole quota of the next round. */
  function Share(s: State, p: nat, q: nat): nat
    requires Valid(s) && p < PRIORITY_COUNT && q < PRIORITY_COUNT
  {
    if s.scheduler <= p then
      if s.scheduler <= q < p then s.quota[q] - s.used[q] else 0
    else if s.scheduler <= q then s.quota[q] - s.used[q]
    else if q < p then s.quota[q]
    else 0
  }

  function Budget(s: State, p: nat): nat
    requires Valid(s) && p < PRIORITY_COUNT
  {
    Share(s, p, 0) + Share(s, p, 1) + Share(s, p, 2) + Share(s, p, 3)
  }

  function Total(quota: seq<nat>): nat
    requires |quota| == PRIORITY_COUNT
  {
    quota[0] + quota[1] + quota[2] + quota[3]
  }

  /** Class p has an item at every point of the run and is never served. */
  predicate Waits(s: State, ops: seq<Op>, p: nat)
    requires Valid(s)
    decreases |ops|
  {
    ops == [] ||
    (&& HasClass(s.items, p)
     && (ops[0].Get? ==> s.items != [] && Served(s) != p)
     && Waits(Apply(s, ops[0]).state, ops[1..], p))
  }

  function Gets(ops: seq<Op>): nat
    decreases |ops|
  {
    if ops == [] then 0 else (if ops[0].Get? then 1 else 0) + Gets(ops[1..])
  }

  lemma ShareFalls(s: State, p: nat, q: nat)
    requires Valid(s) && s.items != [] && p < PRIORITY_COUNT && q < PRIORITY_COUNT
    requires HasClass(s.items, p) && Served(s) != p
    ensures Valid(Dequeue(s).0)
    ensures Share(Dequeue(s).0, p, q) + (if q == Served(s) then 1 else 0) <= Share(s, p, q)
  {
    DequeueKeepsValid(s);
    var c := Served(s);
    var t := Dequeue(s).0;
    assert t.scheduler == c || t.scheduler == c + 1;
    assert Wraps(s) ==> p < s.scheduler && c < p;
    assert !Wraps(s) ==> s.scheduler <= c && (s.scheduler <= p ==> c < p);
  }

  lemma BudgetFalls(s: State, p: nat)
    requires Valid(s) && s.items != [] && p < PRIORITY_COUNT
    requires HasClass(s.items, p) && Served(s) != p
    ensures Valid(Dequeue(s).0)
    ensures Budget(Dequeue(s).0, p) < Budget(s, p)
  {
    ShareFalls(s, p, 0);
    ShareFalls(s, p, 1);
    ShareFalls(s, p, 2);
    ShareFalls(s, p, 3);
  }

  lemma BudgetBound(s: State, p: nat)
    requires Valid(s) && p < PRIORITY_COUNT
    ensures Budget(s, p) <= Total(s.quota) - s.quota[p]
  {
    forall q | 0 <= q < PRIORITY_COUNT
      ensures Share(s, p, q) <= if q == p then 0 else s.quota[q]
    {
    }
  }

  lemma PutKeepsBudget(s: State, item: QueueItem, p: nat)
    requires Valid(s) && p < PRIORITY_COUNT
    ensures var t := Apply(s, Put(item)).state;
      t.quota == s.quota && Budget(t, p) == Budget(s, p)
  {
    var t := Apply(s, Put(item)).state;
    assert t.quota == s.quota && t.used == s.used && t.scheduler == s.scheduler;
  }

  lemma {:induction false} WaitIsBudgeted(s: State, ops: seq<Op>, p: nat)
    requires Valid(s) && p < PRIORITY_COUNT && Waits(s, ops, p)
    ensures Gets(ops) <= Budget(s, p)
    decreases |ops|
  {
    if ops == [] {
    } else {
      var t := Apply(s, ops[0]).state;
      if ops[0].Get? {
        BudgetFalls(s, p);
      } else {
        PutKeepsBudget(s, ops[0].item, p);
      }
      WaitIsBudgeted(t, ops[1..], p);
    }
  }

  /** No starvation: from any reachable scheduler state, and whatever arrives in
      between, a class that keeps an item waiting sees at most all the other
      quotas served before its own turn. */
  lemma NoStarvation(s: State, ops: seq<Op>, p: nat)
    requires Valid(s) && p < PRIORITY_COUNT && Waits(s, ops, p)
    ensures Gets(ops) <= Total(s.quota) - s.quota[p]
    ensures s.quota == DEFAULT_QUOTA ==> Gets(ops) <= [24, 28, 32, 36][p]
  {
    WaitIsBudgeted(s, ops, p);
    BudgetBound(s, p);
  }

  // ------------------------------------------------------------------
  // The queue as it is kept: one array compacted in place
  // ------------------------------------------------------------------

  lemma ExtendOldest(items: seq<QueueItem>, x: QueueItem, p: nat)
    ensures HasClass(items + [x], p) <==> HasClass(items, p) || x.priority == p
  {
    var all := items + [x];
    assert all[|items|] == x;
    if i :| 0 <= i < |items| && items[i].priority == p {
      assert all[i].priority == p;
    }
  }

  lemma OldestIsUnique(items: seq<QueueItem>, p: nat, i: nat, j: nat)
    requires IsOldest(items, p, i) && IsOldest(items, p, j)
    ensures i == j
  {
  }

  class Queue {
    const items: array<QueueItem>
    const quota: seq<nat>
    const used: array<nat>
    var scheduler: nat
    var count: nat

    ghost predicate Shaped()
      reads this, items, used
    {
      items.Length == CAPACITY && used.Length == PRIORITY_COUNT && |quota| == PRIORITY_COUNT
      && count <= CAPACITY && scheduler <= PRIORITY_COUNT
    }

    ghost function View(): State
      reads this, items, used
      requires Shaped()
    {
      State(items[..count], quota, used[..], scheduler)
    }

    ghost predicate Ok()
      reads this, items, used
    {
      Shaped() && Valid(View())
    }

    constructor ()
      ensures Ok() && fresh(items) && fresh(used)
      ensures View() == State([], [16, 12, 8, 4], [0, 0, 0, 0], 0)
    {
      items := new QueueItem[CAPACITY];
      quota := DEFAULT_QUOTA;
      used := new nat[PRIORITY_COUNT](_ => 0);
      scheduler, count := 0, 0;
      new;
      assert used[..] == NONE_USED;
      assert items[..0] == [];
    }

    method HasPriority(p: nat) returns (found: bool)
      requires Shaped()
      ensures found == (p < PRIORITY_COUNT && HasClass(View().items, p))
    {
      if p >= PRIORITY_COUNT { return false; }
      for i := 0 to count
        invariant forall j :: 0 <= j < i ==> items[j].priority != p
      {
        if items[i].priority == p {
          assert View().items[i].priority == p;
          return true;
        }
      }
      return false;
    }

    method FindOldest(p: nat) returns (found: bool, index: nat)
      requires Shaped()
      ensures found == (p < PRIORITY_COUNT && HasClass(View().items, p))
      ensures found ==> index == OldestIndex(View().items, p) && index < count
    {
      found, index := false, 0;
      if p >= PRIORITY_COUNT { return; }
      for i := 0 to count
        invariant found == HasClass(items[..i], p)
        invariant found ==> IsOldest(items[..i], p, index)
      {
        assert items[..i + 1] == items[..i] + [items[i]];
        ghost var was := found;
        if items[i].priority == p {
          if !found || items[i].enqueueTime < items[index].enqueueTime {
            index := i;
            found := true;
          }
        }
        ExtendOldest(items[..i], items[i], p);
      }
      if found {
        OldestIsUnique(items[..count], p, index, OldestIndex(items[..count], p));
      }
    }

    /** Shift everything behind `index` down by one. */
    method RemoveIndex(index: nat) returns (removed: QueueItem)
      requires Shaped() && index < count
      modifies this`count, items
      ensures Shaped() && removed == old(items[index])
      ensures View() == old(View()).(items := Without(old(View().items), index))
    {
      removed := items[index];
      for i := index to count - 1
        invariant Shaped() && count == old(count)
        invariant forall j :: 0 <= j < index ==> items[j] == old(items[j])
        invariant forall j :: index <= j < i ==> items[j] == old(items[j + 1])
        invariant forall j :: i <= j < count ==> items[j] == old(items[j])
      {
        items[i] := items[i + 1];
      }
      count := count - 1;
      assert items[..count] == Without(old(items[..count]), index);
    }

    method FindVictim(p: nat) returns (found: bool, index: nat)
      requires Shaped() && p < PRIORITY_COUNT
      ensures found == VictimClass(View().items, p, PRIORITY_COUNT - 1).Some?
      ensures found ==> index < count
      ensures found ==> index == OldestIndex(View().items, VictimClass(View().items, p, PRIORITY_COUNT - 1).value)
    {
      var c: int := PRIORITY_COUNT - 1;
      found, index := false, 0;
      while c >= p
        invariant p - 1 <= c < PRIORITY_COUNT
        invariant c >= 0 ==> VictimClass(View().items, p, PRIORITY_COUNT - 1) == VictimClass(View().items, p, c)
        invariant c < 0 ==> VictimClass(View().items, p, PRIORITY_COUNT - 1) == None
      {
        if !(c == 0 && p == 0) {
          found, index := FindOldest(c);
          if found { return; }
        }
        c := c - 1;
      }
      found := false;
    }

    method Put(item: QueueItem) returns (outcome: Outcome)
      requires Ok()
      modifies this`count, items
      ensures Ok()
      ensures (View(), outcome) == Enqueue(old(View()), item)
    {
      EnqueueKeepsValid(View(), item);
      if item.priority >= PRIORITY_COUNT { return BadPriority; }
      if count < CAPACITY {
        items[count] := item;
        count := count + 1;
        assert items[..count] == old(items[..count]) + [item];
        return Accepted;
      }
      var found, index := FindVictim(item.priority);
      if !found { return Full; }
      var victim := RemoveIndex(index);
      ghost var rest := items[..count];
      items[count] := item;
      count := count + 1;
      assert items[..count] == rest + [item];
      return Evicted(victim);
    }

    method StartRound()
      requires Shaped()
      modifies this`scheduler, used
      ensures Shaped() && View() == NewRound(old(View()))
    {
      forall q | 0 <= q < PRIORITY_COUNT { used[q] := 0; }
      scheduler := 0;
      assert used[..] == NONE_USED;
    }

    /** Take the item at `index` out of class p and charge its quota. */
    method Serve(p: nat, index: nat) returns (item: QueueItem)
      requires Shaped() && scheduler == p < PRIORITY_COUNT && index < count
      modifies this, items, used
      ensures Shaped()
      ensures (View(), item) == Take(old(View().items), quota, old(View().used), p, index)
    {
      item := RemoveIndex(index);
      used[p] := used[p] + 1;
      var more := HasPriority(p);
      if used[p] >= quota[p] || !more {
        scheduler := scheduler + 1;
      }
      assert used[..] == old(used[..])[p := old(used[p]) + 1];
    }

    /** One position of the scan, of which n are left: serve the class it stands
        on, or move on. */
    method TryPosition(ghost n: nat) returns (item: Option<QueueItem>)
      requires Shaped() && n > 0
      modifies this, items, used
      ensures Shaped()
      ensures item.Some? ==> Scan(old(View()), n) == Some((View(), item.value))
      ensures item.None? ==> Scan(old(View()), n) == Scan(View(), n - 1)
    {
      if scheduler >= PRIORITY_COUNT { StartRound(); }
      var p := scheduler;
      var present := HasPriority(p);
      if used[p] < quota[p] && present {
        var _, index := FindOldest(p);
        var taken := Serve(p, index);
        return Some(taken);
      }
      scheduler := scheduler + 1;
      return None;
    }

    /** None when the queue is empty. */
    method TakeNext() returns (next: Option<QueueItem>)
      requires Ok()
      modifies this, items, used
      ensures Ok()
      ensures old(View().items) == [] ==> next == None && View() == old(View())
      ensures old(View().items) != [] ==> next.Some? && (View(), next.value) == Dequeue(old(View()))
    {
      if count == 0 { return None; }
      ghost var expected := Dequeue(View());
      DequeueKeepsValid(View());
      ScanSucceeds(View(), 2 * PRIORITY_COUNT);
      hide Valid, Dequeue;
      for scan := 0 to 2 * PRIORITY_COUNT
        invariant Shaped() && Scan(View(), 2 * PRIORITY_COUNT - scan) == Some(expected)
      {
        next := TryPosition(2 * PRIORITY_COUNT - scan);
        if next.Some? { return; }
      }
      assert false;
    }
  }
}
