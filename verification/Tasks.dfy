/** The RTOS tasks that own frames: the references they keep, the reclaims they
    freeze while the reclaim ring is full, and recovery. */
module Tasks {
  import opened Types

  datatype Mode = Normal | Degraded | DegradedReclaimFull | ReclaimBlocked | Recovery

  /** What writing to the reclaim ring comes to. */
  datatype Reply = Took | Full | Broken

  /** Everything outside the RTOS, by the tick at which it is asked about: how the
      reclaim ring replies, whether the TX ring takes a descriptor, which queued
      frame the scheduler picks, which RX descriptor is next and whether it is
      routable, and what the shared region looks like: its header, its ring
      headers, and the rest of its layout. */
  datatype World = World(
    reclaim: nat -> Reply, txRoom: nat -> bool, pick: nat -> nat, rx: nat -> Option<nat>, routable: nat -> bool,
    headerSound: nat -> bool, ringsSound: nat -> bool, layoutSound: nat -> bool, regionEpoch: nat -> u32)

  /** What the error monitor checks. */
  predicate Sound(w: World, k: nat) {
    w.headerSound(k) && w.ringsSound(k)
  }

  /** What attaching to the region checks: offsets, counts and sizes as well. */
  predicate Attaches(w: World, k: nat) {
    Sound(w, k) && w.layoutSound(k)
  }

  /** `out` lists every frame published to a TX ring or the reclaim ring. */
  datatype State = State(
    mode: Mode, refs: set<nat>, queue: seq<nat>, frozen: seq<nat>, pending: bool, active: bool,
    routerEpoch: u32, lastEpoch: u32, tick: nat, out: seq<nat>)

  function Drop(s: seq<nat>, k: nat): (r: seq<nat>)
    requires k < |s|
    ensures |r| == |s| - 1
    ensures forall i :: 0 <= i < |r| ==> r[i] == if i < k then s[i] else s[i + 1]
  {
    s[..k] + s[k + 1..]
  }

  predicate Distinct(s: seq<nat>) {
    forall i, j :: 0 <= i < j < |s| ==> s[i] != s[j]
  }

  /** Queued and frozen frames are referenced, each once and in one of the two. */
  ghost predicate Owned(s: State) {
    && (forall f :: f in s.refs ==> f < BLOCK_COUNT)
    && (forall f :: f in s.queue ==> f in s.refs && f !in s.frozen)
    && (forall f :: f in s.frozen ==> f in s.refs)
    && Distinct(s.queue) && Distinct(s.frozen)
  }

  /** Nothing is frozen in NORMAL, an active recovery is not NORMAL, and unless a
      recovery is due the router runs on the epoch last seen. */
  predicate Moded(s: State) {
    && (s.mode.Normal? ==> s.frozen == [] && !s.active && s.routerEpoch == s.lastEpoch)
    && (!s.pending && !s.active ==> s.routerEpoch == s.lastEpoch)
  }

  ghost predicate Inv(s: State) {
    Owned(s) && Moded(s)
  }

  // ------------------------------------------------------------------
  // Giving a frame back
  // ------------------------------------------------------------------

  function Tick(s: State): State {
    s.(tick := s.tick + 1)
  }

  function FullMode(m: Mode): Mode {
    if m.Recovery? then ReclaimBlocked else DegradedReclaimFull
  }

  /** Keep a reclaim for later. The result is false when there is no room left. */
  function Store(s: State, f: nat): (State, bool) {
    if f in s.frozen then (s.(mode := FullMode(s.mode)), true)
    else if |s.frozen| >= BLOCK_COUNT then (s.(mode := FullMode(s.mode)), false)
    else (s.(frozen := s.frozen + [f], mode := FullMode(s.mode)), true)
  }

  function Published(s: State, f: nat): State {
    Tick(s.(refs := s.refs - {f}, out := s.out + [f]))
  }

  function ReclaimSink(s: State, f: nat, w: World): (State, bool) {
    if f !in s.refs then (s, false)
    else match w.reclaim(s.tick)
      case Took => (Published(s, f), true)
      case Full => Store(Tick(s), f)
      case Broken => (Tick(s), false)
  }

  function TxSink(s: State, f: nat, w: World): (State, bool) {
    if f !in s.refs then (s, false)
    else if w.txRoom(s.tick) then (Published(s, f), true)
    else (Tick(s), false)
  }

  /** The reclaim ring can always be used. */
  ghost predicate Usable(w: World) {
    forall k :: !w.reclaim(k).Broken?
  }

  /** f is in nobody's list. */
  ghost predicate InHand(s: State, f: nat) {
    f in s.refs && f !in s.queue && f !in s.frozen
  }

  lemma {:induction false} Fewer(s: seq<nat>, others: set<nat>)
    requires Distinct(s) && forall f :: f in s ==> f in others
    ensures |s| <= |others|
  {
    if s != [] {
      var n := |s| - 1;
      forall f | f in s[..n]
        ensures f in others - {s[n]}
      {
      }
      Fewer(s[..n], others - {s[n]});
      assert others == (others - {s[n]}) + {s[n]};
    }
  }

  function Below(n: nat): (r: set<nat>)
    ensures |r| == n && forall f: nat :: f in r <==> f < n
  {
    if n == 0 then {} else Below(n - 1) + {n - 1}
  }

  lemma Apart(a: seq<nat>, b: seq<nat>)
    requires Distinct(a) && Distinct(b) && forall f :: f in a ==> f !in b
    ensures Distinct(a + b)
  {
    forall i, j | 0 <= i < j < |a + b|
      ensures (a + b)[i] != (a + b)[j]
    {
      if i < |a| <= j {
        assert a[i] in a && b[j - |a|] in b;
      }
    }
  }

  /** Pigeonhole: a frame in hand always finds room in the frozen list and in the
      queue, so neither overflow branch is ever taken. */
  lemma RoomForOneMore(s: State, f: nat)
    requires Owned(s) && InHand(s, f)
    ensures |s.frozen| < BLOCK_COUNT && |s.queue| < BLOCK_COUNT && |s.frozen| + |s.queue| < BLOCK_COUNT
  {
    var others := Below(BLOCK_COUNT) - {f};
    assert f in Below(BLOCK_COUNT) && |others| == BLOCK_COUNT - 1;
    ListedElsewhere(s, f, others);
    Apart(s.queue, s.frozen);
    hide *;
    Fewer(s.queue + s.frozen, others);
  }

  lemma ListedElsewhere(s: State, f: nat, others: set<nat>)
    requires Owned(s) && InHand(s, f) && others == Below(BLOCK_COUNT) - {f}
    ensures forall g :: g in s.queue + s.frozen ==> g in others
  {
    forall g | g in s.queue + s.frozen
      ensures g in others
    {
      assert g in s.refs && g != f;
    }
  }

  /** A frame in hand is given back, or frozen if the ring is full; only a ring
      that cannot be used at all makes the sink fail, and then the reference
      stays. */
  lemma SinkTakes(s: State, f: nat, w: World)
    requires Owned(s) && InHand(s, f)
    ensures var (t, ok) := ReclaimSink(s, f, w);
      && Owned(t) && t.queue == s.queue && t.pending == s.pending && t.active == s.active
      && t.routerEpoch == s.routerEpoch && t.lastEpoch == s.lastEpoch && (ok <==> !w.reclaim(s.tick).Broken?)
      && (w.reclaim(s.tick).Took? ==> t.frozen == s.frozen && t.refs == s.refs - {f} && t.mode == s.mode)
      && (w.reclaim(s.tick).Full? ==> t.frozen == s.frozen + [f] && t.refs == s.refs)
      && (w.reclaim(s.tick).Full? ==> t.mode == if s.mode.Recovery? then ReclaimBlocked else DegradedReclaimFull)
      && (w.reclaim(s.tick).Broken? ==> t == Tick(s) && InHand(t, f))
  {
    RoomForOneMore(s, f);
  }

  // ------------------------------------------------------------------
  // Writing frozen reclaims after all
  // ------------------------------------------------------------------

  function RetryEnd(s: State): State {
    if s.frozen != [] then s else s.(mode := if s.pending || s.active then Recovery else Normal)
  }

  function StillFullMode(m: Mode): Mode {
    if m.Recovery? || m.ReclaimBlocked? then ReclaimBlocked else DegradedReclaimFull
  }

  /** The mode after the reclaim ring did not take a frozen reclaim. */
  function UnwrittenMode(m: Mode, reply: Reply): Mode {
    if reply.Full? then StillFullMode(m) else m
  }

  /** Up to `budget` frozen reclaims, oldest first, until the ring does not take one. */
  function Retry(s: State, budget: nat, w: World): (State, nat)
    decreases budget
  {
    if budget == 0 || s.frozen == [] then (RetryEnd(s), 0)
    else if !w.reclaim(s.tick).Took? then (RetryEnd(Tick(s).(mode := UnwrittenMode(s.mode, w.reclaim(s.tick)))), 0)
    else
      var (t, n) := Retry(Published(s, s.frozen[0]).(frozen := s.frozen[1..]), budget - 1, w);
      (t, n + 1)
  }

  /** One round of a retry. */
  lemma RetryStep(s: State, budget: nat, w: World)
    ensures budget == 0 || s.frozen == [] ==> Retry(s, budget, w) == (RetryEnd(s), 0)
    ensures budget > 0 && s.frozen != [] && !w.reclaim(s.tick).Took? ==>
      Retry(s, budget, w) == (Tick(s).(mode := UnwrittenMode(s.mode, w.reclaim(s.tick))), 0)
    ensures budget > 0 && s.frozen != [] && w.reclaim(s.tick).Took? ==>
      var r := Retry(Published(s, s.frozen[0]).(frozen := s.frozen[1..]), budget - 1, w);
      Retry(s, budget, w) == (r.0, r.1 + 1)
  {
  }

  /** What a task that only gives frames back can have done. */
  ghost predicate GaveBack(s: State, t: State) {
    && t.refs <= s.refs && t.pending == s.pending && t.active == s.active
    && t.routerEpoch == s.routerEpoch && t.lastEpoch == s.lastEpoch && t.tick >= s.tick
  }

  /** The frozen list is written oldest first, the rest keeps its order, and with
      room and budget something is always given back. */
  lemma {:induction false} RetryGives(s: State, budget: nat, w: World)
    requires Owned(s)
    ensures var (t, n) := Retry(s, budget, w);
      && Owned(t) && GaveBack(s, t) && t.queue == s.queue && n <= budget && n <= |s.frozen|
      && t.frozen == s.frozen[n..] && t.out == s.out + s.frozen[..n]
      && (t.frozen == [] ==> t.mode == if s.pending || s.active then Recovery else Normal)
    ensures budget > 0 && s.frozen != [] && w.reclaim(s.tick).Took? ==> |Retry(s, budget, w).0.refs| < |s.refs|
    decreases budget
  {
    if budget > 0 && s.frozen != [] && w.reclaim(s.tick).Took? {
      var u := Published(s, s.frozen[0]).(frozen := s.frozen[1..]);
      OneWritten(s, u);
      hide *;
      RetryStep(s, budget, w);
      RetryGives(u, budget - 1, w);
      var (t, n) := Retry(u, budget - 1, w);
      GaveMore(s, u, t);
      TakeFirst(s.frozen, n, s.out);
    } else {
      hide *;
      NothingWritten(s, budget, w);
    }
  }

  lemma OneWritten(s: State, u: State)
    requires Owned(s) && s.frozen != []
    requires u == Published(s, s.frozen[0]).(frozen := s.frozen[1..])
    ensures Owned(u) && GaveBack(s, u) && |u.refs| < |s.refs|
    ensures u.queue == s.queue && u.frozen == s.frozen[1..] && u.out == s.out + [s.frozen[0]]
  {
    OneFrozenLess(s, u);
    hide Owned;
    Smaller(u.refs, s.refs, s.frozen[0]);
  }

  lemma NothingWritten(s: State, budget: nat, w: World)
    requires Owned(s) && (budget == 0 || s.frozen == [] || !w.reclaim(s.tick).Took?)
    ensures var (t, n) := Retry(s, budget, w);
      && n == 0 && Owned(t) && GaveBack(s, t) && t.queue == s.queue
      && t.frozen == s.frozen[0..] && t.out == s.out + s.frozen[..0]
      && (t.frozen == [] ==> t.mode == if s.pending || s.active then Recovery else Normal)
  {
    assert s.frozen[0..] == s.frozen && s.out + s.frozen[..0] == s.out;
  }

  lemma TakeFirst(s: seq<nat>, n: nat, out: seq<nat>)
    requires s != [] && n <= |s| - 1
    ensures s[1..][n..] == s[n + 1..] && out + [s[0]] + s[1..][..n] == out + s[..n + 1]
  {
  }

  lemma OneFrozenLess(s: State, u: State)
    requires Owned(s) && s.frozen != []
    requires u == Published(s, s.frozen[0]).(frozen := s.frozen[1..])
    ensures Owned(u) && s.frozen[0] in s.refs && s.frozen[0] !in u.refs
  {
    assert s.frozen[0] in s.frozen;
    forall f | f in u.frozen
      ensures f in u.refs
    {
      assert f in s.frozen;
    }
  }

  lemma Smaller(a: set<nat>, b: set<nat>, f: nat)
    requires a <= b - {f} && f in b
    ensures |a| < |b|
  {
    SubsetCount(a, b - {f});
  }

  lemma {:induction false} SubsetCount(a: set<nat>, b: set<nat>)
    requires a <= b
    ensures |a| <= |b|
  {
    var rest := b - a;
    assert b == a + rest && a !! rest;
  }

  // ------------------------------------------------------------------
  // Emptying the queue
  // ------------------------------------------------------------------

  /** The frame the scheduler takes next. */
  function Chosen(s: State, w: World): (k: nat)
    requires s.queue != []
    ensures k < |s.queue|
  {
    w.pick(s.tick) % |s.queue|
  }

  function Taken(s: State, w: World): State
    requires s.queue != []
  {
    s.(queue := Drop(s.queue, Chosen(s, w)))
  }

  /** Recovery gives back up to `budget` queued frames. */
  function ReclaimQueued(s: State, budget: nat, w: World): (State, nat)
    decreases budget
  {
    if budget == 0 || s.queue == [] then (s, 0)
    else
      var (t, ok) := ReclaimSink(Taken(s, w), s.queue[Chosen(s, w)], w);
      if !ok then (t, 0)
      else
        var (u, n) := ReclaimQueued(t, budget - 1, w);
        (u, n + 1)
  }

  lemma TakenInHand(s: State, w: World)
    requires Owned(s) && s.queue != []
    ensures Owned(Taken(s, w)) && InHand(Taken(s, w), s.queue[Chosen(s, w)])
  {
    var k := Chosen(s, w);
    var t := Taken(s, w);
    assert s.queue[k] in s.queue;
    forall f | f in t.queue
      ensures f in s.refs && f !in s.frozen && f != s.queue[k]
    {
      var i :| 0 <= i < |t.queue| && t.queue[i] == f;
      assert f == s.queue[if i < k then i else i + 1];
    }
  }

  /** Modes a task passes through while it gives frames back in recovery. */
  predicate Recovering(s: State, t: State) {
    (t.mode == s.mode && t.frozen == s.frozen) || ((t.mode.ReclaimBlocked? || t.mode.DegradedReclaimFull?) && t.frozen != [])
  }

  lemma {:induction false} ReclaimQueuedGives(s: State, budget: nat, w: World)
    requires Owned(s)
    ensures var (t, n) := ReclaimQueued(s, budget, w);
      && Owned(t) && GaveBack(s, t) && Recovering(s, t) && n <= budget
      && |t.queue| <= |s.queue| - n <= |t.queue| + 1
      && (Usable(w) ==>
           n == (if budget < |s.queue| then budget else |s.queue|) && |t.queue| == |s.queue| - n)
    ensures budget > 0 && s.queue != [] && w.reclaim(s.tick).Took? ==> |ReclaimQueued(s, budget, w).0.refs| < |s.refs|
    decreases budget
  {
    hide Owned, ReclaimSink, Chosen, Taken, Usable;
    if budget > 0 && s.queue != [] {
      var f, t := s.queue[Chosen(s, w)], ReclaimSink(Taken(s, w), s.queue[Chosen(s, w)], w).0;
      OneQueuedLess(s, f, t, w);
      if !w.reclaim(s.tick).Broken? {
        ReclaimQueuedGives(t, budget - 1, w);
      } else {
        BrokenIsUnusable(w, s.tick);
      }
      if w.reclaim(s.tick).Took? {
        Smaller(ReclaimQueued(t, budget - 1, w).0.refs, s.refs, f);
      }
    }
  }

  lemma BrokenIsUnusable(w: World, k: nat)
    requires w.reclaim(k).Broken?
    ensures !Usable(w)
  {
  }

  lemma OneQueuedLess(s: State, f: nat, t: State, w: World)
    requires Owned(s) && s.queue != [] && f == s.queue[Chosen(s, w)] && t == ReclaimSink(Taken(s, w), f, w).0
    ensures ReclaimSink(Taken(s, w), f, w).1 <==> !w.reclaim(s.tick).Broken?
    ensures f in s.refs && |t.queue| == |s.queue| - 1
    ensures Owned(t) && GaveBack(s, t) && Recovering(s, t) && (w.reclaim(s.tick).Took? ==> t.refs == s.refs - {f})
  {
    TakenInHand(s, w);
    SinkTakes(Taken(s, w), f, w);
    assert t.tick >= s.tick;
    hide Owned, ReclaimSink, Chosen, Drop;
  }

  // ------------------------------------------------------------------
  // References that nothing holds
  // ------------------------------------------------------------------

  /** Recovery gives back references, from block f on, that are not frozen. It
      runs with an empty queue only. */
  function Orphans(s: State, f: nat, budget: nat, w: World): (State, nat)
    decreases BLOCK_COUNT - f
  {
    if f >= BLOCK_COUNT || budget == 0 then (s, 0)
    else if f !in s.refs || f in s.frozen then Orphans(s, f + 1, budget, w)
    else
      var (t, ok) := ReclaimSink(s, f, w);
      if !ok then (t, 0)
      else
        var (u, n) := Orphans(t, f + 1, budget - 1, w);
        (u, n + 1)
  }

  /** One round of the orphan scan. */
  lemma OrphansStep(s: State, f: nat, budget: nat, w: World)
    ensures f >= BLOCK_COUNT || budget == 0 ==> Orphans(s, f, budget, w) == (s, 0)
    ensures f < BLOCK_COUNT && budget > 0 && (f !in s.refs || f in s.frozen) ==>
      Orphans(s, f, budget, w) == Orphans(s, f + 1, budget, w)
    ensures f < BLOCK_COUNT && budget > 0 && f in s.refs && f !in s.frozen ==>
      var (t, ok) := ReclaimSink(s, f, w);
      var r := Orphans(t, f + 1, budget - 1, w);
      Orphans(s, f, budget, w) == if ok then (r.0, r.1 + 1) else (t, 0)
  {
  }

  /** The first orphan at or after block f, if any. */
  ghost predicate FirstOrphan(s: State, f: nat, g: nat) {
    f <= g < BLOCK_COUNT && g in s.refs && g !in s.frozen && forall h :: f <= h < g ==> h !in s.refs || h in s.frozen
  }

  lemma {:induction false} OrphansGive(s: State, f: nat, budget: nat, w: World)
    requires Owned(s) && s.queue == []
    ensures var (t, n) := Orphans(s, f, budget, w);
      Owned(t) && GaveBack(s, t) && Recovering(s, t) && t.queue == [] && n <= budget
    ensures budget > 0 && (exists g :: FirstOrphan(s, f, g)) && w.reclaim(s.tick).Took? ==>
      |Orphans(s, f, budget, w).0.refs| < |s.refs|
    decreases BLOCK_COUNT - f
  {
    if f < BLOCK_COUNT && budget > 0 {
      if f !in s.refs || f in s.frozen {
        OrphansGive(s, f + 1, budget, w);
        if g :| FirstOrphan(s, f, g) {
          assert FirstOrphan(s, f + 1, g);
        }
      } else {
        SinkTakes(s, f, w);
        var t := ReclaimSink(s, f, w).0;
        assert t.tick >= s.tick;
        hide Owned, ReclaimSink;
        if !w.reclaim(s.tick).Broken? {
          OrphansGive(t, f + 1, budget - 1, w);
        }
        if w.reclaim(s.tick).Took? {
          Smaller(Orphans(s, f, budget, w).0.refs, s.refs, f);
        }
      }
    }
  }

  // ------------------------------------------------------------------
  // Recovery
  // ------------------------------------------------------------------

  function Less(budget: nat, used: nat): nat {
    if used >= budget then 0 else budget - used
  }

  function EnterRecovery(s: State): State {
    var t := s.(mode := Recovery);
    if s.active then t else t.(pending := false, active := true)
  }

  function RewriteFrozen(s: State, budget: nat, w: World): (State, nat) {
    if budget > 0 && s.frozen != [] then Retry(s, budget, w) else (s, 0)
  }

  function EmptyQueue(s: State, budget: nat, w: World): (State, nat) {
    if budget > 0 && s.frozen == [] then ReclaimQueued(s, budget, w) else (s, 0)
  }

  function CollectOrphans(s: State, budget: nat, w: World): State {
    if budget > 0 && s.queue == [] && s.frozen == [] then Orphans(s, 0, budget, w).0 else s
  }

  /** The three clearing phases under one budget. */
  function Clear(s: State, budget: nat, w: World): State {
    var (a, n) := RewriteFrozen(s, budget, w);
    var (b, m) := EmptyQueue(a, Less(budget, n), w);
    CollectOrphans(b, Less(budget, n + m), w)
  }

  predicate Unclaimed(s: State) {
    exists f :: f in s.refs && f !in s.frozen
  }

  function Conclude(s: State, w: World): State {
    if s.frozen != [] || s.mode.ReclaimBlocked? then s.(mode := ReclaimBlocked)
    else if s.queue != [] || Unclaimed(s) then s.(mode := Recovery)
    else if !Attaches(w, s.tick) then Tick(s).(mode := Degraded)
    else
      Tick(s).(mode := Normal, pending := false, active := false,
               lastEpoch := w.regionEpoch(s.tick), routerEpoch := w.regionEpoch(s.tick))
  }

  /** One call of the recovery task. */
  function Recover(s: State, budget: nat, w: World): State {
    if !s.mode.Recovery? && !s.pending && !s.active then s
    else Conclude(Clear(EnterRecovery(s), budget, w), w)
  }

  /** What each clearing phase guarantees. */
  ghost predicate Cleared(s: State, t: State) {
    Owned(t) && GaveBack(s, t) && (t.frozen == [] ==> t.mode.Recovery?)
  }

  ghost predicate Ready(s: State) {
    Owned(s) && s.active && (s.frozen == [] ==> s.mode.Recovery?)
  }

  lemma RewriteFrozenGives(s: State, budget: nat, w: World)
    requires Ready(s)
    ensures Cleared(s, RewriteFrozen(s, budget, w).0)
    ensures s.frozen == [] ==> RewriteFrozen(s, budget, w) == (s, 0)
    ensures budget > 0 && s.frozen != [] && w.reclaim(s.tick).Took? ==> |RewriteFrozen(s, budget, w).0.refs| < |s.refs|
  {
    RetryGives(s, budget, w);
    hide Owned, Retry;
  }

  lemma EmptyQueueGives(s: State, budget: nat, w: World)
    requires Ready(s)
    ensures Cleared(s, EmptyQueue(s, budget, w).0)
    ensures s.queue == [] ==> EmptyQueue(s, budget, w) == (s, 0)
    ensures budget > 0 && s.frozen == [] && s.queue != [] && w.reclaim(s.tick).Took? ==>
      |EmptyQueue(s, budget, w).0.refs| < |s.refs|
  {
    ReclaimQueuedGives(s, budget, w);
    hide Owned;
  }

  lemma CollectOrphansGives(s: State, budget: nat, w: World)
    requires Ready(s)
    ensures Cleared(s, CollectOrphans(s, budget, w))
    ensures budget > 0 && s.frozen == [] && s.queue == [] && s.refs != {} && w.reclaim(s.tick).Took? ==>
      |CollectOrphans(s, budget, w).refs| < |s.refs|
  {
    if s.queue == [] {
      OrphansGive(s, 0, budget, w);
    }
    if s.refs != {} && s.frozen == [] {
      SomeOrphan(s);
    }
    hide Owned, Orphans, FirstOrphan;
  }

  /** A clearing round keeps the books, and with budget and room for its first
      reclaim it gives back at least one of the references that remain. */
  lemma ClearGives(s: State, budget: nat, w: World)
    requires Owned(s) && s.mode.Recovery? && s.active
    ensures var t := Clear(s, budget, w);
      && Owned(t) && GaveBack(s, t) && (t.frozen == [] ==> t.mode.Recovery?)
      && (budget > 0 && s.refs != {} && w.reclaim(s.tick).Took? ==> |t.refs| < |s.refs|)
  {
    assert Ready(s);
    hide RewriteFrozen, EmptyQueue, CollectOrphans, Owned, GaveBack, Ready, Cleared;
    RewriteFrozenGives(s, budget, w);
    var (a, n) := RewriteFrozen(s, budget, w);
    ReadyStill(s, a);
    EmptyQueueGives(a, Less(budget, n), w);
    var (b, m) := EmptyQueue(a, Less(budget, n), w);
    ReadyStill(a, b);
    CollectOrphansGives(b, Less(budget, n + m), w);
    var c := Clear(s, budget, w);
    ReadyStill(b, c);
    GaveMore(s, a, b);
    GaveMore(s, b, c);
  }

  lemma ReadyStill(s: State, t: State)
    requires s.active && Cleared(s, t)
    ensures Ready(t) && GaveBack(s, t) && t.active && Owned(t) && (t.frozen == [] ==> t.mode.Recovery?)
  {
  }

  lemma GaveMore(s: State, a: State, b: State)
    requires GaveBack(s, a) && GaveBack(a, b)
    ensures GaveBack(s, b) && |b.refs| <= |a.refs| <= |s.refs|
  {
    SubsetCount(b.refs, a.refs);
    SubsetCount(a.refs, s.refs);
  }

  lemma SomeOrphan(s: State)
    requires s.refs != {} && s.frozen == [] && forall f :: f in s.refs ==> f < BLOCK_COUNT
    ensures exists g :: FirstOrphan(s, 0, g)
  {
    var f :| f in s.refs;
    var g := LeastOrphan(s, f);
  }

  lemma {:induction false} LeastOrphan(s: State, f: nat) returns (g: nat)
    requires f in s.refs && s.frozen == [] && forall h :: h in s.refs ==> h < BLOCK_COUNT
    ensures FirstOrphan(s, 0, g)
    decreases f
  {
    if h: nat :| h < f && h in s.refs {
      g := LeastOrphan(s, h);
    } else {
      g := f;
    }
  }

  /** A recovery call keeps the invariant; it ends in NORMAL only with an empty
      queue, nothing frozen, no reference left, and the router on the region's
      epoch; and it gives something back whenever it can. */
  lemma RecoverExact(s: State, budget: nat, w: World)
    requires Inv(s) && (s.mode.Recovery? || s.pending || s.active)
    ensures var t := Recover(s, budget, w);
      && Inv(t) && t.refs <= s.refs
      && (t.mode.Normal? ==> t.queue == [] && t.frozen == [] && t.refs == {} && t.routerEpoch == t.lastEpoch
                             && !t.pending && !t.active)
      && (t.mode.Normal? ==> exists k :: s.tick <= k && Attaches(w, k) && t.routerEpoch == w.regionEpoch(k))
      && (!t.mode.Normal? ==> t.active && t.lastEpoch == s.lastEpoch)
      && (t.mode.Degraded? ==> exists k :: !Attaches(w, k))
      && (t.mode.ReclaimBlocked? <==> t.frozen != [])
      && (t.mode.Recovery? <==> t.frozen == [] && t.refs != {})
      && (t.mode.Normal? || t.mode.Degraded? <==> t.refs == {})
      && (budget > 0 && s.refs != {} && w.reclaim(s.tick).Took? ==> |t.refs| < |s.refs|)
      && (t.refs == {} && (forall k :: Attaches(w, k)) ==> t.mode.Normal?)
  {
    var a := EnterRecovery(s);
    ClearGives(a, budget, w);
    var c := Clear(a, budget, w);
    ConcludeExact(c, w);
    assert c.frozen != [] ==> c.frozen[0] in c.refs;
    hide Clear, Owned, Inv, Conclude;
    assert Recover(s, budget, w) == Conclude(c, w);
    assert c.tick >= s.tick;
  }

  lemma ConcludeExact(c: State, w: World)
    requires Owned(c) && c.active && (c.frozen == [] ==> c.mode.Recovery?)
    ensures var t := Conclude(c, w);
      && Inv(t) && t.refs == c.refs && t.frozen == c.frozen && t.queue == c.queue
      && (t.mode.Normal? ==> t.queue == [] && t.frozen == [] && t.refs == {} && !t.pending && !t.active)
      && (t.mode.Normal? ==> Attaches(w, c.tick) && t.routerEpoch == t.lastEpoch == w.regionEpoch(c.tick))
      && (!t.mode.Normal? ==> t.active && t.lastEpoch == c.lastEpoch)
      && t.mode == (if c.frozen != [] then ReclaimBlocked else if c.refs != {} then Recovery
                    else if Attaches(w, c.tick) then Normal else Degraded)
  {
    if c.frozen != [] {
      assert c.frozen[0] in c.frozen;
    }
    if c.queue != [] {
      assert c.queue[0] in c.queue;
    }
  }

  // ------------------------------------------------------------------
  // Recovery comes to an end
  // ------------------------------------------------------------------

  /** n recovery calls in a row, as far as they are needed. */
  function RecoverTimes(s: State, budget: nat, w: World, n: nat): State
    decreases n
  {
    if n == 0 || s.mode.Normal? then s else RecoverTimes(Recover(s, budget, w), budget, w, n - 1)
  }

  /** Linux drains: whenever one of these calls makes its first attempt, the
      reclaim ring takes it. */
  predicate Drained(s: State, budget: nat, w: World, n: nat)
    decreases n
  {
    n == 0 || s.mode.Normal? || (w.reclaim(s.tick).Took? && Drained(Recover(s, budget, w), budget, w, n - 1))
  }

  predicate Due(s: State) {
    !s.mode.Normal? && (s.mode.Recovery? || s.pending || s.active)
  }

  function AtLeastOne(n: nat): nat {
    if n == 0 then 1 else n
  }

  /** One recovery call ends the recovery or leaves fewer references to give back. */
  lemma OneRecovery(s: State, budget: nat, w: World)
    requires Inv(s) && Due(s) && budget > 0 && w.reclaim(s.tick).Took? && forall k :: Attaches(w, k)
    ensures var t := Recover(s, budget, w);
      !s.mode.Normal? && Inv(t) && (t.mode.Normal? || (Due(t) && 1 <= |t.refs| < |s.refs|))
  {
    RecoverExact(s, budget, w);
    hide Inv, Recover;
  }

  lemma {:induction false} RecoveryEnds(s: State, budget: nat, w: World, n: nat)
    requires Inv(s) && Due(s) && budget > 0 && n >= AtLeastOne(|s.refs|)
    requires Drained(s, budget, w, n) && forall k :: Attaches(w, k)
    ensures RecoverTimes(s, budget, w, n).mode.Normal?
    decreases n
  {
    assert !s.mode.Normal? && n > 0;
    AtLeastOneIs(|s.refs|);
    hide *;
    var t := Recover(s, budget, w);
    OneCallMore(s, budget, w, n);
    OneRecovery(s, budget, w);
    if t.mode.Normal? {
      NoCallMore(t, budget, w, n - 1);
    } else {
      AtLeastOneIs(|t.refs|);
      RecoveryEnds(t, budget, w, n - 1);
    }
  }

  lemma AtLeastOneIs(n: nat)
    ensures AtLeastOne(n) >= 1 && AtLeastOne(n) >= n && (n >= 1 ==> AtLeastOne(n) == n)
  {
  }

  lemma OneCallMore(s: State, budget: nat, w: World, n: nat)
    requires n > 0 && !s.mode.Normal? && Drained(s, budget, w, n)
    ensures RecoverTimes(s, budget, w, n) == RecoverTimes(Recover(s, budget, w), budget, w, n - 1)
    ensures w.reclaim(s.tick).Took? && Drained(Recover(s, budget, w), budget, w, n - 1)
  {
    hide Recover;
  }

  lemma NoCallMore(s: State, budget: nat, w: World, n: nat)
    requires s.mode.Normal?
    ensures RecoverTimes(s, budget, w, n) == s
  {
    hide Recover;
  }

  lemma RefsFit(s: State)
    requires Inv(s)
    ensures |s.refs| <= BLOCK_COUNT
  {
    assert s.refs <= Below(BLOCK_COUNT);
    SubsetCount(s.refs, Below(BLOCK_COUNT));
  }

  /** Recovery terminates: at most 64 references can be left, so 64 calls with a
      positive budget are enough if Linux drains and the region stays sound. */
  lemma RecoveryTerminates(s: State, budget: nat, w: World)
    requires Inv(s) && Due(s) && budget > 0
    requires Drained(s, budget, w, BLOCK_COUNT) && forall k :: Attaches(w, k)
    ensures RecoverTimes(s, budget, w, BLOCK_COUNT).mode.Normal?
  {
    hide Inv, RecoverTimes, Drained, Recover;
    RefsFit(s);
    RecoveryEnds(s, budget, w, BLOCK_COUNT);
  }

  // ------------------------------------------------------------------
  // The other tasks
  // ------------------------------------------------------------------

  /** One RX descriptor: registered, then queued or given back. An empty ring, a
      bad frame number or a frame already referenced leaves the books alone. */
  function ReceiveOne(s: State, w: World): (State, bool) {
    var next, t := w.rx(s.tick), Tick(s);
    if next.None? || next.value >= BLOCK_COUNT || next.value in s.refs then (t, true)
    else
      var f := next.value;
      var u := t.(refs := t.refs + {f});
      if w.routable(t.tick) && |u.queue| < BLOCK_COUNT then (Tick(u.(queue := u.queue + [f])), true)
      else ReclaimSink(Tick(u), f, w)
  }

  /** Descriptors are taken in NORMAL only, up to the budget. */
  function DrainRx(s: State, budget: nat, w: World): State
    decreases budget
  {
    if budget == 0 || !s.mode.Normal? then s
    else
      var (t, ok) := ReceiveOne(s, w);
      if !ok then t else DrainRx(t, budget - 1, w)
  }

  const RX_BUDGET: nat := 64

  function EventTask(s: State, w: World): State {
    if s.mode.Normal? then DrainRx(s, RX_BUDGET, w)
    else if s.frozen != [] then Retry(s, BLOCK_COUNT, w).0
    else s
  }

  /** Send up to `budget` queued frames; a frame that cannot be sent is given back. */
  function Dispatch(s: State, budget: nat, w: World): State
    decreases budget
  {
    if budget == 0 || s.queue == [] then s
    else
      var f := s.queue[Chosen(s, w)];
      var (t, sent) := TxSink(Taken(s, w), f, w);
      if sent then Dispatch(t, budget - 1, w)
      else
        var (u, ok) := ReclaimSink(t, f, w);
        if !ok then u else Dispatch(u, budget - 1, w)
  }

  function SchedulerTask(s: State, budget: nat, w: World): State {
    if s.frozen != [] then Retry(s, budget, w).0
    else if !s.mode.Normal? then s
    else Dispatch(s, budget, w)
  }

  /** A heartbeat that came back makes a recovery due. */
  function Observe(s: State, recovered: bool): State {
    if recovered then s.(pending := true) else s
  }

  function HeartbeatTask(s: State, lost: bool): State {
    var t := if lost && s.mode.Normal? then s.(mode := Degraded) else s;
    if t.pending then t.(mode := Recovery) else t
  }

  function Monitor(s: State, w: World): State {
    var t := Tick(s);
    if !Sound(w, s.tick) then t.(pending := true, mode := Degraded)
    else if w.regionEpoch(s.tick) != s.lastEpoch then
      t.(lastEpoch := w.regionEpoch(s.tick), pending := true, mode := Recovery)
    else t
  }

  lemma ReceiveOneKeeps(s: State, w: World)
    requires Inv(s) && s.mode.Normal?
    ensures var t := ReceiveOne(s, w).0;
      && Inv(t) && t.pending == s.pending && t.active == s.active
      && t.routerEpoch == s.routerEpoch && t.lastEpoch == s.lastEpoch
  {
    var next := w.rx(s.tick);
    if next.Some? && next.value < BLOCK_COUNT && next.value !in s.refs {
      var f := next.value;
      var u := Tick(Tick(s).(refs := s.refs + {f}));
      assert f !in s.queue && f !in s.frozen;
      assert InHand(u, f);
      SinkTakes(u, f, w);
    }
  }

  lemma {:induction false} DrainRxKeeps(s: State, budget: nat, w: World)
    requires Inv(s)
    ensures var t := DrainRx(s, budget, w);
      Inv(t) && t.pending == s.pending && t.active == s.active
      && t.routerEpoch == s.routerEpoch && t.lastEpoch == s.lastEpoch
    decreases budget
  {
    if budget > 0 && s.mode.Normal? {
      ReceiveOneKeeps(s, w);
      hide Inv, ReceiveOne;
      if ReceiveOne(s, w).1 {
        DrainRxKeeps(ReceiveOne(s, w).0, budget - 1, w);
      }
    }
  }

  lemma RetryKeeps(s: State, budget: nat, w: World)
    requires Inv(s) && (s.mode.Normal? ==> budget == 0 || s.frozen != [])
    ensures Inv(Retry(s, budget, w).0)
  {
    RetryGives(s, budget, w);
    var t := Retry(s, budget, w).0;
    RetryMode(s, budget, w);
    hide Owned, Retry;
  }

  /** A retry that leaves something frozen keeps the mode or blocks: a recovery
      stays blocked, anything else is only degraded. */
  lemma {:induction false} RetryMode(s: State, budget: nat, w: World)
    ensures var t := Retry(s, budget, w).0;
      t.frozen != [] ==>
        t.mode == s.mode ||
        t.mode == if s.mode.Recovery? || s.mode.ReclaimBlocked? then ReclaimBlocked else DegradedReclaimFull
    decreases budget
  {
    if budget > 0 && s.frozen != [] && w.reclaim(s.tick).Took? {
      RetryMode(Published(s, s.frozen[0]).(frozen := s.frozen[1..]), budget - 1, w);
    }
  }

  /** Dispatching freezes something and leaves NORMAL, or does neither. */
  predicate Dispatches(s: State, t: State) {
    (t.mode == s.mode && t.frozen == s.frozen) || (t.frozen != [] && !t.mode.Normal?)
  }

  /** One queued frame sent or given back. */
  function DispatchOne(s: State, w: World): (State, bool)
    requires s.queue != []
  {
    var f := s.queue[Chosen(s, w)];
    var (t, sent) := TxSink(Taken(s, w), f, w);
    if sent then (t, true) else ReclaimSink(t, f, w)
  }

  lemma DispatchOneKeeps(s: State, w: World)
    requires Owned(s) && s.queue != []
    ensures var t := DispatchOne(s, w).0; Owned(t) && GaveBack(s, t) && Dispatches(s, t)
  {
    TakenInHand(s, w);
    OneDispatched(Taken(s, w), s.queue[Chosen(s, w)], w);
    hide Owned, TxSink, ReclaimSink, Chosen, Drop, InHand;
  }

  lemma DispatchUnfolds(s: State, budget: nat, w: World)
    requires budget > 0 && s.queue != []
    ensures Dispatch(s, budget, w) ==
      if DispatchOne(s, w).1 then Dispatch(DispatchOne(s, w).0, budget - 1, w) else DispatchOne(s, w).0
  {
    hide TxSink, ReclaimSink, Chosen, Taken;
  }

  lemma {:induction false} DispatchKeeps(s: State, budget: nat, w: World)
    requires Owned(s)
    ensures var t := Dispatch(s, budget, w); Owned(t) && GaveBack(s, t) && Dispatches(s, t)
    decreases budget
  {
    hide *;
    if budget == 0 || s.queue == [] {
      DispatchStops(s, budget, w);
    } else {
      DispatchOneKeeps(s, w);
      DispatchUnfolds(s, budget, w);
      var u := DispatchOne(s, w).0;
      if DispatchOne(s, w).1 {
        DispatchKeeps(u, budget - 1, w);
        GaveMore(s, u, Dispatch(u, budget - 1, w));
        DispatchesMore(s, u, Dispatch(u, budget - 1, w));
      }
    }
  }

  lemma DispatchStops(s: State, budget: nat, w: World)
    requires budget == 0 || s.queue == []
    ensures Dispatch(s, budget, w) == s && GaveBack(s, s) && Dispatches(s, s)
  {
  }

  lemma DispatchesMore(s: State, u: State, t: State)
    requires Dispatches(s, u) && Dispatches(u, t)
    ensures Dispatches(s, t)
  {
  }

  lemma OneDispatched(s: State, f: nat, w: World)
    requires Owned(s) && InHand(s, f)
    ensures var (t, sent) := TxSink(s, f, w);
      var u := if sent then t else ReclaimSink(t, f, w).0;
      Owned(u) && GaveBack(s, u) && Dispatches(s, u)
  {
    if !w.txRoom(s.tick) {
      SinkTakes(Tick(s), f, w);
    }
  }

  // ------------------------------------------------------------------
  // Every run
  // ------------------------------------------------------------------

  datatype Task =
    | Events
    | Schedule(budget: nat)
    | RetryFirst(budget: nat)
    | RunRecovery(budget: nat)
    | SeeHeartbeat(recovered: bool)
    | RunHeartbeat(lost: bool)
    | RunMonitor

  /** The runtime retries first only while reclaims are blocked. */
  function Perform(s: State, task: Task, w: World): State {
    match task
    case Events => EventTask(s, w)
    case Schedule(budget) => SchedulerTask(s, budget, w)
    case RetryFirst(budget) => if s.mode.ReclaimBlocked? || s.mode.DegradedReclaimFull? then Retry(s, budget, w).0 else s
    case RunRecovery(budget) => Recover(s, budget, w)
    case SeeHeartbeat(recovered) => Observe(s, recovered)
    case RunHeartbeat(lost) => HeartbeatTask(s, lost)
    case RunMonitor => Monitor(s, w)
  }

  lemma PerformKeeps(s: State, task: Task, w: World)
    requires Inv(s)
    ensures Inv(Perform(s, task, w))
  {
    match task
    case Events =>
      if s.mode.Normal? { DrainRxKeeps(s, RX_BUDGET, w); } else { RetryKeeps(s, BLOCK_COUNT, w); }
    case Schedule(budget) =>
      if s.frozen != [] { RetryKeeps(s, budget, w); } else { DispatchKeeps(s, budget, w); }
    case RetryFirst(budget) =>
      if !s.mode.Normal? { RetryKeeps(s, budget, w); }
    case RunRecovery(budget) =>
      if s.mode.Recovery? || s.pending || s.active { RecoverExact(s, budget, w); }
    case _ =>
  }

  function Run(s: State, tasks: seq<Task>, w: World): State
    decreases |tasks|
  {
    if tasks == [] then s else Run(Perform(s, tasks[0], w), tasks[1..], w)
  }

  predicate Initial(s: State) {
    s.mode.Normal? && s.refs == {} && s.queue == s.frozen == [] && !s.pending && !s.active && s.routerEpoch == s.lastEpoch
  }

  /** Over every run, with the tasks in any order and in any world: NORMAL means
      nothing is frozen, an active recovery is not NORMAL, queued and frozen frames
      are referenced, each once and in one list only, and the router is on the last
      epoch seen unless a recovery is due. */
  lemma {:induction false} RunKeeps(s: State, tasks: seq<Task>, w: World)
    requires Inv(s)
    ensures Inv(Run(s, tasks, w))
    decreases |tasks|
  {
    hide Inv, Perform;
    if tasks != [] {
      PerformKeeps(s, tasks[0], w);
      RunKeeps(Perform(s, tasks[0], w), tasks[1..], w);
    }
  }

  lemma InitialKeeps(s: State, tasks: seq<Task>, w: World)
    requires Initial(s)
    ensures Inv(Run(s, tasks, w))
  {
    assert Inv(s);
    RunKeeps(s, tasks, w);
  }

  /** Outside NORMAL no task takes on a new reference. */
  lemma OnlyNormalTakesOn(s: State, task: Task, w: World)
    requires Inv(s) && !s.mode.Normal?
    ensures Perform(s, task, w).refs <= s.refs
  {
    match task
    case Events => RetryGives(s, BLOCK_COUNT, w);
    case Schedule(budget) => RetryGives(s, budget, w);
    case RetryFirst(budget) => RetryGives(s, budget, w);
    case RunRecovery(budget) =>
      if s.mode.Recovery? || s.pending || s.active { RecoverExact(s, budget, w); }
    case _ =>
  }

  // ------------------------------------------------------------------
  // The RTOS context as it is kept
  // ------------------------------------------------------------------

  class Context {
    const references: array<bool>
    const pendingReclaims: array<nat>
    var pendingCount: nat
    var mode: Mode
    var queue: seq<nat>
    var pending: bool
    var active: bool
    var routerEpoch: u32
    var lastEpoch: u32
    var tick: nat
    var out: seq<nat>

    ghost predicate Shaped()
      reads this
    {
      references.Length == BLOCK_COUNT && pendingReclaims.Length == BLOCK_COUNT && pendingCount <= BLOCK_COUNT
    }

    ghost function Refs(): set<nat>
      reads references
    {
      set f: nat | f < references.Length && references[f]
    }

    ghost function View(): State
      reads this, references, pendingReclaims
      requires Shaped()
    {
      State(mode, Refs(), queue, pendingReclaims[..pendingCount], pending, active, routerEpoch, lastEpoch, tick, out)
    }

    constructor (epoch: u32)
      ensures Shaped() && Initial(View()) && lastEpoch == epoch && fresh(references) && fresh(pendingReclaims)
    {
      references := new bool[BLOCK_COUNT](_ => false);
      pendingReclaims := new nat[BLOCK_COUNT](_ => 0);
      pendingCount, mode, queue, pending, active := 0, Normal, [], false, false;
      routerEpoch, lastEpoch, tick, out := epoch, epoch, 0, [];
      new;
      assert Refs() == {};
    }

    method PendingExists(f: nat) returns (found: bool)
      requires Shaped()
      ensures found == (f in View().frozen)
    {
      for i := 0 to pendingCount
        invariant f !in pendingReclaims[..i]
      {
        assert pendingReclaims[..i + 1] == pendingReclaims[..i] + [pendingReclaims[i]];
        if pendingReclaims[i] == f { return true; }
      }
      return false;
    }

    method StorePending(f: nat) returns (ok: bool)
      requires Shaped()
      modifies this`mode, this`pendingCount, pendingReclaims
      ensures Shaped() && (View(), ok) == Store(old(View()), f)
    {
      var known := PendingExists(f);
      if known {
        mode := if mode == Recovery then ReclaimBlocked else DegradedReclaimFull;
        return true;
      }
      if pendingCount >= BLOCK_COUNT {
        mode := if mode == Recovery then ReclaimBlocked else DegradedReclaimFull;
        return false;
      }
      pendingReclaims[pendingCount] := f;
      pendingCount := pendingCount + 1;
      mode := if mode == Recovery then ReclaimBlocked else DegradedReclaimFull;
      assert pendingReclaims[..pendingCount] == old(pendingReclaims[..pendingCount]) + [f];
      return true;
    }

    /** Shift the list down over its first entry. */
    method RemoveFirstPending()
      requires Shaped() && pendingCount > 0
      modifies this`pendingCount, pendingReclaims
      ensures Shaped() && View() == old(View()).(frozen := old(View().frozen)[1..])
    {
      var i := 0;
      while i + 1 < pendingCount
        invariant Shaped() && pendingCount == old(pendingCount) && i < pendingCount
        invariant forall j :: 0 <= j < i ==> pendingReclaims[j] == old(pendingReclaims[j + 1])
        invariant forall j :: i <= j < pendingCount ==> pendingReclaims[j] == old(pendingReclaims[j])
      {
        pendingReclaims[i] := pendingReclaims[i + 1];
        i := i + 1;
      }
      pendingCount := pendingCount - 1;
      assert pendingReclaims[..pendingCount] == old(pendingReclaims[..pendingCount])[1..];
    }

    /** The frame has left: the ring took it and the reference is cleared. */
    method Publish(f: nat)
      requires Shaped()
      modifies this`tick, this`out, references
      ensures Shaped() && View() == Published(old(View()), f)
    {
      tick := tick + 1;
      out := out + [f];
      if f < BLOCK_COUNT {
        references[f] := false;
      }
      assert Refs() == old(Refs()) - {f};
    }

    method SinkReclaim(f: nat, w: World) returns (ok: bool)
      requires Shaped()
      modifies this`tick, this`out, this`mode, this`pendingCount, references, pendingReclaims
      ensures Shaped() && (View(), ok) == ReclaimSink(old(View()), f, w)
    {
      if f >= BLOCK_COUNT { return false; }
      if !references[f] { return false; }
      var reply := w.reclaim(tick);
      if reply == Took {
        Publish(f);
        return true;
      }
      tick := tick + 1;
      if reply == Broken { return false; }
      ok := StorePending(f);
    }

    /** The ring did not take a frozen reclaim. */
    method StayBlocked(reply: Reply)
      requires Shaped()
      modifies this`mode, this`tick
      ensures Shaped() && View() == Tick(old(View())).(mode := UnwrittenMode(old(View()).mode, reply))
    {
      if reply == Full {
        mode := if mode == Recovery || mode == ReclaimBlocked then ReclaimBlocked else DegradedReclaimFull;
      }
      tick := tick + 1;
    }

    method EndRetry()
      requires Shaped()
      modifies this`mode
      ensures Shaped() && View() == RetryEnd(old(View()))
    {
      if pendingCount == 0 {
        mode := if pending || active then Recovery else Normal;
      }
    }

    /** Write frozen reclaims, oldest first, while the ring has room. */
    method RetryPending(budget: nat, w: World) returns (written: nat)
      requires Shaped()
      modifies this`tick, this`out, this`mode, this`pendingCount, references, pendingReclaims
      ensures Shaped() && (View(), written) == Retry(old(View()), budget, w)
    {
      hide *;
      ghost var expected := Retry(View(), budget, w);
      written := 0;
      while written < budget && pendingCount > 0
        invariant Shaped() && written <= budget
        invariant Retry(View(), budget - written, w).0 == expected.0
        invariant Retry(View(), budget - written, w).1 + written == expected.1
      {
        ViewShape();
        RetryStep(View(), budget - written, w);
        var reply := w.reclaim(tick);
        if reply != Took {
          StayBlocked(reply);
          return;
        }
        PublishFirst();
        written := written + 1;
      }
      ViewShape();
      RetryStep(View(), budget - written, w);
      EndRetry();
    }

    lemma ViewShape()
      requires Shaped()
      ensures View().tick == tick && |View().frozen| == pendingCount
    {
    }

    method PublishFirst()
      requires Shaped() && pendingCount > 0
      modifies this`tick, this`out, this`pendingCount, references, pendingReclaims
      ensures Shaped()
      ensures View() == Published(old(View()), old(View()).frozen[0]).(frozen := old(View()).frozen[1..])
    {
      assert View().frozen[0] == pendingReclaims[0];
      Publish(pendingReclaims[0]);
      RemoveFirstPending();
    }

    /** Give back references that are not frozen, in block order. */
    method ReclaimOrphans(budget: nat, w: World) returns (reclaimed: nat)
      requires Shaped()
      modifies this`tick, this`out, this`mode, this`pendingCount, references, pendingReclaims
      ensures Shaped() && (View(), reclaimed) == Orphans(old(View()), 0, budget, w)
    {
      hide ReclaimSink, Orphans;
      reclaimed := 0;
      var f := 0;
      while f < BLOCK_COUNT && reclaimed < budget
        invariant Shaped() && f <= BLOCK_COUNT && reclaimed <= budget
        invariant var (t, n) := Orphans(View(), f, budget - reclaimed, w);
          Orphans(old(View()), 0, budget, w) == (t, n + reclaimed)
      {
        OrphansStep(View(), f, budget - reclaimed, w);
        var frozen := PendingExists(f);
        if references[f] && !frozen {
          var ok := SinkReclaim(f, w);
          if !ok { return; }
          reclaimed := reclaimed + 1;
        }
        f := f + 1;
      }
      OrphansStep(View(), f, budget - reclaimed, w);
    }

    /** Give back queued frames in the order the scheduler serves them. */
    method ReclaimQueue(budget: nat, w: World) returns (processed: nat)
      requires Shaped()
      modifies this`tick, this`out, this`mode, this`queue, this`pendingCount, references, pendingReclaims
      ensures Shaped() && (View(), processed) == ReclaimQueued(old(View()), budget, w)
    {
      hide ReclaimSink, Chosen, Drop;
      processed := 0;
      while processed < budget && queue != []
        invariant Shaped() && processed <= budget
        invariant var (t, n) := ReclaimQueued(View(), budget - processed, w);
          ReclaimQueued(old(View()), budget, w) == (t, n + processed)
      {
        var k := Pick(w);
        var f := queue[k];
        queue := Drop(queue, k);
        var ok := SinkReclaim(f, w);
        if !ok { return; }
        processed := processed + 1;
      }
    }

    method Pick(w: World) returns (k: nat)
      requires Shaped() && queue != []
      ensures k == Chosen(View(), w) && k < |queue|
    {
      k := w.pick(tick) % |queue|;
    }

    /** Some reference is held that is not frozen. */
    method AnyUnclaimed() returns (found: bool)
      requires Shaped()
      ensures found == Unclaimed(View())
    {
      for f := 0 to BLOCK_COUNT
        invariant forall g :: 0 <= g < f && g in View().refs ==> g in View().frozen
      {
        var frozen := PendingExists(f);
        if references[f] && !frozen {
          assert f in View().refs;
          return true;
        }
      }
      return false;
    }

    /** One call of the recovery task. */
    method RecoveryTask(budget: nat, w: World) returns (processed: nat)
      requires Shaped()
      modifies this, references, pendingReclaims
      ensures Shaped() && View() == Recover(old(View()), budget, w)
    {
      hide Retry, ReclaimQueued, Orphans;
      processed := 0;
      if mode != Recovery {
        if !pending && !active { return; }
        mode := Recovery;
      }
      if !active {
        pending, active := false, true;
      }
      assert View() == EnterRecovery(old(View()));
      processed := ClearAll(budget, w);
      FinishRecovery(w);
    }

    method ClearAll(budget: nat, w: World) returns (processed: nat)
      requires Shaped()
      modifies this`tick, this`out, this`mode, this`queue, this`pendingCount, references, pendingReclaims
      ensures Shaped() && View() == Clear(old(View()), budget, w)
    {
      hide Retry, ReclaimQueued, Orphans;
      processed := 0;
      var left := budget;
      if left > 0 && pendingCount > 0 {
        processed := RetryPending(left, w);
        left := if processed >= budget then 0 else budget - processed;
      }
      assert (View(), processed) == RewriteFrozen(old(View()), budget, w) && left == Less(budget, processed);
      ghost var a := View();
      var m := 0;
      if left > 0 && pendingCount == 0 {
        m := ReclaimQueue(left, w);
      }
      assert (View(), m) == EmptyQueue(a, left, w);
      processed := processed + m;
      left := if processed >= budget then 0 else budget - processed;
      if left > 0 && queue == [] && pendingCount == 0 {
        var n := ReclaimOrphans(left, w);
        processed := processed + n;
      }
    }

    method FinishRecovery(w: World)
      requires Shaped()
      modifies this`mode, this`tick, this`pending, this`active, this`lastEpoch, this`routerEpoch
      ensures Shaped() && View() == Conclude(old(View()), w)
    {
      if pendingCount > 0 || mode == ReclaimBlocked {
        mode := ReclaimBlocked;
        return;
      }
      var held := AnyUnclaimed();
      if queue != [] || held {
        mode := Recovery;
        return;
      }
      var sound, epoch := Attaches(w, tick), w.regionEpoch(tick);
      tick := tick + 1;
      if !sound {
        mode := Degraded;
        return;
      }
      lastEpoch, routerEpoch := epoch, epoch;
      pending, active := false, false;
      mode := Normal;
    }
  }
}
