/** The order in which the scheduling queue serves its classes, told from what a
    run shows: the classes served and which classes had items. */
module QueueRounds {
  import opened Types
  import opened PriorityQueue

  /** One service: the class served, the classes that had items just before, and
      whether the class still had items just after. */
  datatype Service = Service(served: nat, present: set<nat>, more: bool)

  function Present(items: seq<QueueItem>): set<nat> {
    set p: nat | p < PRIORITY_COUNT && HasClass(items, p)
  }

  /** What a run of operations shows of the services in it. */
  function Services(s: State, ops: seq<Op>): seq<Service>
    requires Valid(s)
    decreases |ops|
  {
    if ops == [] then []
    else
      var step := Apply(s, ops[0]);
      if ops[0].Get? && step.left != [] then
        [Shown(s, step.state, step.left[0].priority)] + Services(step.state, ops[1..])
      else Services(step.state, ops[1..])
  }

  function Shown(before: State, after: State, p: nat): Service {
    Service(p, Present(before.items), HasClass(after.items, p))
  }

  // ------------------------------------------------------------------
  // Turns and rounds
  // ------------------------------------------------------------------

  /** How many items of its class the turn has served, service i included. A turn
      goes on with a service of the same class unless it was over. */
  function Turn(trace: seq<Service>, quota: seq<nat>, i: nat): (n: nat)
    requires i < |trace|
    decreases i
  {
    if i > 0 && trace[i].served == trace[i - 1].served && !Over(trace[i - 1], quota, Turn(trace, quota, i - 1))
    then Turn(trace, quota, i - 1) + 1 else 1
  }

  /** After its n-th service the turn is over: the quota is used up or the class
      is empty. */
  predicate Over(v: Service, quota: seq<nat>, n: nat) {
    !v.more || v.served >= |quota| || n >= quota[v.served]
  }

  predicate OverAt(trace: seq<Service>, quota: seq<nat>, i: nat)
    requires i < |trace|
  {
    Over(trace[i], quota, Turn(trace, quota, i))
  }

  /** How far class d lies behind class c in the cyclic order: 1 for the next
      class, 4 for c itself. */
  function Behind(c: nat, d: nat): int {
    if d > c then d - c else d + PRIORITY_COUNT - c
  }

  /** d is the first class after c, cyclically, that has items. */
  predicate NextPresent(c: nat, d: nat, present: set<nat>) {
    d < PRIORITY_COUNT && d in present &&
    forall e :: e in present && e < PRIORITY_COUNT ==> Behind(c, d) <= Behind(c, e)
  }

  // ------------------------------------------------------------------
  // The queue follows the turns
  // ------------------------------------------------------------------

  /** The services are those of a weighted round robin that stands on class c, of
      which n items were served already. */
  predicate Follows(trace: seq<Service>, quota: seq<nat>, c: nat, n: nat)
    decreases |trace|
  {
    trace == [] ||
    var v := trace[0];
    var m := if v.served == c then n + 1 else 1;
    && NextPresent(Before(c), v.served, v.present) && v.served < |quota| && m <= quota[v.served]
    && (if Over(v, quota, m) then Follows(trace[1..], quota, v.served + 1, 0) else Follows(trace[1..], quota, v.served, m))
  }

  function Before(c: nat): nat {
    (c + PRIORITY_COUNT - 1) % PRIORITY_COUNT
  }

  function UsedHere(s: State): nat
    requires Valid(s)
  {
    if s.scheduler < PRIORITY_COUNT then s.used[s.scheduler] else 0
  }

  lemma GetFollows(s: State)
    requires Valid(s) && s.items != []
    ensures var step := Apply(s, Get);
      var t, p := step.state, step.left[0].priority as nat;
      var v, m := Shown(s, t, p), if p == s.scheduler then UsedHere(s) + 1 else 1;
      && NextPresent(Before(s.scheduler), p, v.present) && m <= s.quota[p] && t.quota == s.quota
      && (if Over(v, s.quota, m) then t.scheduler == p + 1 && UsedHere(t) == 0 else t.scheduler == p && UsedHere(t) == m)
  {
    DequeueKeepsValid(s);
    var c := Served(s);
    assert Dequeue(s).1.priority as nat == c;
  }

  lemma PutFollows(s: State, item: QueueItem)
    requires Valid(s)
    ensures var t := Apply(s, Put(item)).state;
      t.quota == s.quota && t.scheduler == s.scheduler && UsedHere(t) == UsedHere(s)
  {
  }

  lemma ServicesFirst(s: State, ops: seq<Op>)
    requires Valid(s) && ops != []
    ensures var step := Apply(s, ops[0]);
      var rest := Services(step.state, ops[1..]);
      Services(s, ops) ==
        if ops[0].Get? && s.items != [] then [Shown(s, step.state, step.left[0].priority)] + rest else rest
  {
    hide Valid, Shown, Dequeue;
  }

  lemma FollowsFirst(v: Service, rest: seq<Service>, quota: seq<nat>, c: nat, n: nat)
    requires var m := if v.served == c then n + 1 else 1;
      && NextPresent(Before(c), v.served, v.present) && v.served < |quota| && m <= quota[v.served]
      && (if Over(v, quota, m) then Follows(rest, quota, v.served + 1, 0) else Follows(rest, quota, v.served, m))
    ensures Follows([v] + rest, quota, c, n)
  {
    assert ([v] + rest)[1..] == rest;
    hide NextPresent, Over, Before;
  }

  lemma {:induction false} RunFollows(s: State, ops: seq<Op>)
    requires Valid(s)
    ensures Follows(Services(s, ops), s.quota, s.scheduler, UsedHere(s))
    decreases |ops|
  {
    if ops != [] {
      hide *;
      var t := Apply(s, ops[0]).state;
      ServicesFirst(s, ops);
      RunFollows(t, ops[1..]);
      if ops[0].Put? {
        PutFollows(s, ops[0].item);
      } else if s.items != [] {
        GetFollows(s);
        QuotaSize(s);
        var p := Apply(s, Get).left[0].priority;
        FollowsFirst(Shown(s, t, p), Services(t, ops[1..]), s.quota, s.scheduler, UsedHere(s));
      } else {
        NothingToGet(s);
      }
    }
  }

  lemma QuotaSize(s: State)
    requires Valid(s) && s.items != []
    ensures |s.quota| == PRIORITY_COUNT && forall p, t :: Shown(s, t, p).served == p
    ensures Apply(s, Get).left != [] && Apply(s, Get).left[0].priority < PRIORITY_COUNT
  {
    DequeueKeepsValid(s);
  }

  lemma NothingToGet(s: State)
    requires Valid(s) && s.items == []
    ensures Apply(s, Get).state == s
  {
  }

  // ------------------------------------------------------------------
  // What holds at every service of a run
  // ------------------------------------------------------------------

  /** Where the round robin stands before service i. */
  function Stands(trace: seq<Service>, quota: seq<nat>, i: nat): (nat, nat)
    requires i <= |trace|
  {
    if i == 0 then (0, 0)
    else if OverAt(trace, quota, i - 1) then (trace[i - 1].served + 1, 0)
    else (trace[i - 1].served, Turn(trace, quota, i - 1))
  }

  lemma {:induction false} FollowsAt(trace: seq<Service>, quota: seq<nat>, i: nat)
    requires Follows(trace, quota, 0, 0) && i <= |trace|
    ensures Follows(trace[i..], quota, Stands(trace, quota, i).0, Stands(trace, quota, i).1)
    decreases i
  {
    hide NextPresent, Over;
    if i == 0 {
      assert trace[0..] == trace;
    } else {
      FollowsAt(trace, quota, i - 1);
      assert trace[i - 1..][1..] == trace[i..] && trace[i - 1..][0] == trace[i - 1];
    }
  }

  lemma ServiceAt(trace: seq<Service>, quota: seq<nat>, i: nat)
    requires Follows(trace, quota, 0, 0) && i < |trace|
    ensures NextPresent(Before(Stands(trace, quota, i).0), trace[i].served, trace[i].present)
    ensures trace[i].served < |quota| && trace[i].served < PRIORITY_COUNT && Turn(trace, quota, i) <= quota[trace[i].served]
  {
    FollowsAt(trace, quota, i);
    assert trace[i..][0] == trace[i];
    hide Over, Follows;
    if i > 0 && !OverAt(trace, quota, i - 1) {
      assert Stands(trace, quota, i).1 == Turn(trace, quota, i - 1);
    }
  }

  /** A turn that is not over goes on: the next service is of the same class if
      the class still has items then. */
  lemma TurnIsKept(trace: seq<Service>, quota: seq<nat>, i: nat)
    requires Follows(trace, quota, 0, 0) && i + 1 < |trace|
    requires !OverAt(trace, quota, i) && trace[i].served in trace[i + 1].present
    ensures trace[i + 1].served == trace[i].served && Turn(trace, quota, i + 1) == Turn(trace, quota, i) + 1
  {
    ServiceAt(trace, quota, i);
    ServiceAt(trace, quota, i + 1);
    hide Over, Follows;
  }

  /** When it is over, or the class has no items, the next class that has items is
      served, in cyclic order, and a new turn starts. */
  lemma TurnMovesOn(trace: seq<Service>, quota: seq<nat>, i: nat)
    requires Follows(trace, quota, 0, 0) && i + 1 < |trace|
    requires OverAt(trace, quota, i) || trace[i].served !in trace[i + 1].present
    ensures NextPresent(trace[i].served, trace[i + 1].served, trace[i + 1].present)
    ensures Turn(trace, quota, i + 1) == 1
  {
    ServiceAt(trace, quota, i);
    ServiceAt(trace, quota, i + 1);
    hide Over, Follows;
  }

  lemma FirstService(trace: seq<Service>, quota: seq<nat>)
    requires Follows(trace, quota, 0, 0) && trace != []
    ensures trace[0].served in trace[0].present && forall q :: q in trace[0].present ==> trace[0].served <= q
  {
    ServiceAt(trace, quota, 0);
  }

  /** A round starts with the first service of all and whenever a new turn is not
      of a later class than the turn before it. */
  predicate RoundStarts(trace: seq<Service>, quota: seq<nat>, i: nat)
    requires i < |trace|
  {
    Turn(trace, quota, i) == 1 && (i == 0 || trace[i].served <= trace[i - 1].served)
  }

  /** Services i and j start rounds that follow each other. */
  predicate OneRound(trace: seq<Service>, quota: seq<nat>, i: nat, j: nat) {
    && i < j < |trace| && RoundStarts(trace, quota, i) && RoundStarts(trace, quota, j)
    && forall k :: i < k < j ==> !RoundStarts(trace, quota, k)
  }

  /** Class q has items at every service from i to j, and after each of its own. */
  predicate StaysPresent(trace: seq<Service>, i: nat, j: nat, q: nat) {
    j < |trace| && (forall k :: i <= k <= j ==> q in trace[k].present) &&
    forall k :: i <= k < j && trace[k].served == q ==> trace[k].more
  }

  /** How many of the services from i up to but not including k were of class q. */
  function Count(trace: seq<Service>, i: nat, k: nat, q: nat): nat
    requires i <= k <= |trace|
    decreases k
  {
    if k == i then 0 else Count(trace, i, k - 1, q) + if trace[k - 1].served == q then 1 else 0
  }

  /** What class q got so far in a round whose last service was of class p. */
  function SoFar(p: nat, q: nat, quota: nat, turn: nat): nat {
    if q < p then quota else if q == p then turn else 0
  }

  lemma {:induction false} WithinRound(trace: seq<Service>, quota: seq<nat>, i: nat, j: nat, k: nat, q: nat)
    requires Follows(trace, quota, 0, 0) && OneRound(trace, quota, i, j) && StaysPresent(trace, i, j, q)
    requires i <= k < j && q < PRIORITY_COUNT <= |quota|
    ensures Count(trace, i, k + 1, q) == SoFar(trace[k].served, q, quota[q], Turn(trace, quota, k))
    decreases k
  {
    ServiceAt(trace, quota, k);
    if k == i {
      RoundOpens(trace, quota, i, q);
    } else {
      WithinRound(trace, quota, i, j, k - 1, q);
      RoundGoesOn(trace, quota, k - 1, q);
    }
  }

  /** The first service of a round passes over no class that has items. */
  lemma RoundOpens(trace: seq<Service>, quota: seq<nat>, i: nat, q: nat)
    requires Follows(trace, quota, 0, 0) && i < |trace| && RoundStarts(trace, quota, i)
    requires q in trace[i].present && q < PRIORITY_COUNT
    ensures trace[i].served <= q
  {
    if i == 0 {
      FirstService(trace, quota);
    } else {
      ServiceAt(trace, quota, i - 1);
      if !OverAt(trace, quota, i - 1) && trace[i - 1].served in trace[i].present {
        TurnIsKept(trace, quota, i - 1);
      } else {
        TurnMovesOn(trace, quota, i - 1);
      }
    }
  }

  lemma RoundGoesOn(trace: seq<Service>, quota: seq<nat>, k: nat, q: nat)
    requires Follows(trace, quota, 0, 0) && k + 1 < |trace| && !RoundStarts(trace, quota, k + 1)
    requires q < PRIORITY_COUNT <= |quota| && q in trace[k + 1].present && (trace[k].served == q ==> trace[k].more)
    ensures SoFar(trace[k + 1].served, q, quota[q], Turn(trace, quota, k + 1)) ==
      SoFar(trace[k].served, q, quota[q], Turn(trace, quota, k)) + if trace[k + 1].served == q then 1 else 0
  {
    ServiceAt(trace, quota, k);
    ServiceAt(trace, quota, k + 1);
    if !OverAt(trace, quota, k) && trace[k].served in trace[k + 1].present {
      TurnIsKept(trace, quota, k);
    } else {
      TurnMovesOn(trace, quota, k);
    }
    hide Follows, Turn;
  }

  /** In every full round a class that always has items is served exactly as often
      as its quota says. */
  lemma QuotaServed(trace: seq<Service>, quota: seq<nat>, i: nat, j: nat, q: nat)
    requires Follows(trace, quota, 0, 0) && OneRound(trace, quota, i, j) && StaysPresent(trace, i, j, q)
    requires q < PRIORITY_COUNT <= |quota|
    ensures Count(trace, i, j, q) == quota[q]
  {
    WithinRound(trace, quota, i, j, j - 1, q);
    ServiceAt(trace, quota, j - 1);
    RoundOpens(trace, quota, j, q);
    if !OverAt(trace, quota, j - 1) && trace[j - 1].served in trace[j].present {
      TurnIsKept(trace, quota, j - 1);
    } else {
      TurnMovesOn(trace, quota, j - 1);
    }
    hide Follows, Turn, Count;
  }

  // ------------------------------------------------------------------
  // Runs from a fresh queue
  // ------------------------------------------------------------------

  /** The services of any run of a fresh queue. */
  function Trace(quota: seq<nat>, ops: seq<Op>): seq<Service>
    requires Valid(State([], quota, NONE_USED, 0))
  {
    Services(State([], quota, NONE_USED, 0), ops)
  }

  /** From a fresh queue, whatever arrives when, a class once taken up is served
      until its quota is used up or it is empty, and then the next class that has
      items has its turn. */
  lemma ServedInTurns(quota: seq<nat>, ops: seq<Op>, i: nat)
    requires Valid(State([], quota, NONE_USED, 0)) && i + 1 < |Trace(quota, ops)|
    ensures var trace := Trace(quota, ops);
      && trace[i].served < PRIORITY_COUNT && Turn(trace, quota, i) <= quota[trace[i].served]
      && (if trace[i].more && Turn(trace, quota, i) < quota[trace[i].served] && trace[i].served in trace[i + 1].present
          then trace[i + 1].served == trace[i].served
          else NextPresent(trace[i].served, trace[i + 1].served, trace[i + 1].present))
  {
    RunFollows(State([], quota, NONE_USED, 0), ops);
    var trace := Trace(quota, ops);
    ServiceAt(trace, quota, i);
    hide Follows, Turn, Services, NextPresent, Valid;
    if !OverAt(trace, quota, i) && trace[i].served in trace[i + 1].present {
      TurnIsKept(trace, quota, i);
    } else {
      TurnMovesOn(trace, quota, i);
    }
  }

  /** From a fresh queue, in every full round a class that always has items gets
      exactly its quota. */
  lemma RoundSharesExact(quota: seq<nat>, ops: seq<Op>, i: nat, j: nat, q: nat)
    requires Valid(State([], quota, NONE_USED, 0)) && q < PRIORITY_COUNT
    requires OneRound(Trace(quota, ops), quota, i, j) && StaysPresent(Trace(quota, ops), i, j, q)
    ensures Count(Trace(quota, ops), i, j, q) == quota[q]
  {
    RunFollows(State([], quota, NONE_USED, 0), ops);
    assert |quota| == PRIORITY_COUNT;
    hide *;
    QuotaServed(Trace(quota, ops), quota, i, j, q);
  }
}
