/** The runtime's round over the RTOS tasks, and how long recovery takes in it. */
module Runtime {
  import opened Types
  import opened Tasks

  datatype Budgets = Budgets(scheduler: nat, recovery: nat)

  const DEFAULT_BUDGET: nat := 16

  /** A budget configured as zero means the default. */
  function Resolve(configured: nat): nat {
    if configured == 0 then DEFAULT_BUDGET else configured
  }

  function Resolved(configured: Budgets): Budgets {
    Budgets(Resolve(configured.scheduler), Resolve(configured.recovery))
  }

  /** The checks made before any descriptor is taken. */
  function Preflight(s: State, w: World): State {
    if !w.headerSound(s.tick) || w.regionEpoch(s.tick) != s.lastEpoch then Monitor(s, w) else Tick(s)
  }

  /** Up to the point where RX descriptors are drained. */
  function BeforeDrain(s: State, configured: Budgets, w: World): State {
    var budget := Resolved(configured).recovery;
    var a := Perform(Preflight(s, w), RetryFirst(budget), w);
    if a.mode.Recovery? then Recover(a, budget, w) else a
  }

  function AfterEvents(s: State, configured: Budgets, w: World): State {
    var b := BeforeDrain(s, configured, w);
    if b.mode.ReclaimBlocked? then b else EventTask(b, w)
  }

  function AfterRouting(s: State, configured: Budgets, w: World): State {
    SchedulerTask(AfterEvents(s, configured, w), Resolved(configured).scheduler, w)
  }

  /** What a periodic round adds. */
  function PeriodicEnd(s: State, configured: Budgets, lost: bool, w: World): State {
    var e := Monitor(HeartbeatTask(s, lost), w);
    if e.mode.Recovery? then Recover(e, Resolved(configured).recovery, w) else e
  }

  function RunOnce(s: State, configured: Budgets, periodic: bool, lost: bool, w: World): State {
    var d := AfterRouting(s, configured, w);
    if periodic then PeriodicEnd(d, configured, lost, w) else d
  }

  lemma PreflightKeeps(s: State, w: World)
    requires Inv(s)
    ensures Inv(Preflight(s, w))
    ensures var t := Preflight(s, w);
      t.mode.Normal? ==> w.headerSound(s.tick) && t.lastEpoch == w.regionEpoch(s.tick)
  {
  }

  /** A round keeps the invariant. */
  lemma RunOnceKeeps(s: State, configured: Budgets, periodic: bool, lost: bool, w: World)
    requires Inv(s)
    ensures Inv(RunOnce(s, configured, periodic, lost, w))
  {
    hide Inv, AfterRouting, AfterEvents, PeriodicEnd;
    RoutingKeeps(s, configured, w);
    PeriodicEndKeeps(AfterRouting(s, configured, w), configured, lost, w);
  }

  lemma PeriodicEndKeeps(d: State, configured: Budgets, lost: bool, w: World)
    requires Inv(d)
    ensures Inv(PeriodicEnd(d, configured, lost, w))
  {
    hide Inv, HeartbeatTask, Monitor, Recover, Resolved;
    PerformKeeps(d, RunHeartbeat(lost), w);
    PerformKeeps(HeartbeatTask(d, lost), RunMonitor, w);
    var e := Monitor(HeartbeatTask(d, lost), w);
    PerformKeeps(e, RunRecovery(Resolved(configured).recovery), w);
  }

  lemma RoutingKeeps(s: State, configured: Budgets, w: World)
    requires Inv(s)
    ensures Inv(AfterEvents(s, configured, w)) && Inv(AfterRouting(s, configured, w))
  {
    hide Inv, BeforeDrain, EventTask, SchedulerTask;
    BeforeDrainKeeps(s, configured, w);
    PerformKeeps(BeforeDrain(s, configured, w), Events, w);
    PerformKeeps(AfterEvents(s, configured, w), Schedule(Resolved(configured).scheduler), w);
  }

  lemma BeforeDrainKeeps(s: State, configured: Budgets, w: World)
    requires Inv(s)
    ensures Inv(BeforeDrain(s, configured, w))
  {
    hide Inv, Preflight, Recover, Retry;
    PreflightKeeps(s, w);
    var p, budget := Preflight(s, w), Resolved(configured).recovery;
    PerformKeeps(p, RetryFirst(budget), w);
    PerformKeeps(Perform(p, RetryFirst(budget), w), RunRecovery(budget), w);
  }

  /** Descriptors are drained only while the router runs on the epoch of the
      region, as long as the region does not change in the middle of a round. */
  lemma DrainsCurrentEpoch(s: State, configured: Budgets, w: World, epoch: u32)
    requires Inv(s) && forall k :: w.regionEpoch(k) == epoch
    ensures var b := BeforeDrain(s, configured, w);
      b.mode.Normal? ==> b.routerEpoch == b.lastEpoch == epoch
    ensures !BeforeDrain(s, configured, w).mode.Normal? ==>
      var b := BeforeDrain(s, configured, w); EventTask(b, w).refs <= b.refs
  {
    PreflightKeeps(s, w);
    BeforeDrainKeeps(s, configured, w);
    var p, budget := Preflight(s, w), Resolved(configured).recovery;
    PerformKeeps(p, RetryFirst(budget), w);
    var a := Perform(p, RetryFirst(budget), w);
    EpochAfterRetry(p, budget, w);
    if a.mode.Recovery? {
      RecoverExact(a, budget, w);
    }
    var b := BeforeDrain(s, configured, w);
    if !b.mode.Normal? {
      OnlyNormalTakesOn(b, Events, w);
    }
  }

  lemma EpochAfterRetry(p: State, budget: nat, w: World)
    requires Inv(p)
    ensures Perform(p, RetryFirst(budget), w).lastEpoch == p.lastEpoch
    ensures Perform(p, RetryFirst(budget), w).pending == p.pending
  {
    RetryGives(p, budget, w);
  }

  // ------------------------------------------------------------------
  // How many rounds a recovery takes
  // ------------------------------------------------------------------

  /** The region stays as it is and can be attached to. */
  ghost predicate Steady(w: World, epoch: u32) {
    forall k :: Attaches(w, k) && w.regionEpoch(k) == epoch
  }

  /** A recovery that no round will resume: attaching failed, nothing is frozen,
      and nothing has asked for a recovery since. */
  predicate Stranded(s: State, epoch: u32) {
    s.mode.Degraded? && !s.pending && s.frozen == [] && s.lastEpoch == epoch
  }

  /** A recovery that is due and not stranded, on the region's epoch. */
  ghost predicate Going(s: State, epoch: u32) {
    && Inv(s) && !s.mode.Normal? && (s.pending || s.active) && s.lastEpoch == epoch
    && (!s.mode.Recovery? ==> s.pending || s.frozen != [])
  }

  lemma RetryGoing(s: State, budget: nat, w: World, epoch: u32)
    requires Going(s, epoch) && s.frozen != []
    ensures var t := Retry(s, budget, w).0;
      && Going(t, epoch) && t.refs <= s.refs
      && (budget > 0 && w.reclaim(s.tick).Took? ==> |t.refs| < |s.refs|)
  {
    RetryKeeps(s, budget, w);
    RetryGives(s, budget, w);
    RetryMode(s, budget, w);
    hide Inv, Owned, Retry;
  }

  lemma RecoverGoing(s: State, budget: nat, w: World, epoch: u32)
    requires Inv(s) && s.mode.Recovery? && s.lastEpoch == epoch && Steady(w, epoch)
    ensures var t := Recover(s, budget, w);
      && (t.mode.Normal? || (Going(t, epoch) && t.refs != {})) && t.refs <= s.refs
      && (budget > 0 && w.reclaim(s.tick).Took? ==> t.mode.Normal? || |t.refs| < |s.refs|)
  {
    RecoverExact(s, budget, w);
    hide Inv, Recover;
  }

  /** The state after the checks of a round in which a recovery is due. */
  lemma PreflightDue(s: State, w: World, epoch: u32)
    requires Inv(s) && Due(s) && !Stranded(s, epoch) && Steady(w, epoch)
    ensures var p := Preflight(s, w);
      && Inv(p) && Due(p) && p.lastEpoch == epoch && p.refs == s.refs && p.tick == s.tick + 1
      && (p.mode.Recovery? || p.pending || p.active) && (p.mode.Degraded? ==> p.pending || p.frozen != [])
  {
    PreflightKeeps(s, w);
    hide Owned;
    assert Attaches(w, s.tick);
  }

  /** Up to the drain, a due recovery ends, or gives a frame back, or, in
      DEGRADED, waits. */
  lemma BeforeDrainDue(s: State, configured: Budgets, w: World, epoch: u32)
    requires Inv(s) && Due(s) && !Stranded(s, epoch) && Steady(w, epoch) && w.reclaim(s.tick + 1).Took?
    ensures var b := BeforeDrain(s, configured, w);
      b.mode.Normal? ||
      (Going(b, epoch) && b.refs <= s.refs &&
       (|b.refs| < |s.refs| || (b.mode.Degraded? && b.refs == s.refs && b.tick == s.tick + 1)))
  {
    PreflightDue(s, w, epoch);
    var p, budget := Preflight(s, w), Resolved(configured).recovery;
    var a := Perform(p, RetryFirst(budget), w);
    hide Preflight, Inv, Recover, Retry, Owned, Steady, Moded;
    if p.mode.ReclaimBlocked? || p.mode.DegradedReclaimFull? {
      FirstRetry(p, budget, w, epoch);
    }
    if a.mode.Recovery? {
      RecoverGoing(a, budget, w, epoch);
      SubsetCount(a.refs, p.refs);
      SubsetCount(Recover(a, budget, w).refs, a.refs);
    }
  }

  /** The retry of a round that starts blocked. */
  lemma FirstRetry(p: State, budget: nat, w: World, epoch: u32)
    requires Inv(p) && (p.mode.ReclaimBlocked? || p.mode.DegradedReclaimFull?)
    requires p.lastEpoch == epoch && (p.pending || p.active) && budget > 0
    requires w.reclaim(p.tick).Took?
    ensures var a := Retry(p, budget, w).0;
      && Going(a, epoch) && a.refs <= p.refs && !a.mode.Degraded?
      && (|a.refs| < |p.refs| || (a.mode.Recovery? && a.tick == p.tick && a.refs == p.refs))
  {
    if p.frozen != [] {
      RetryGoing(p, budget, w, epoch);
      RetryMode(p, budget, w);
      RetryGives(p, budget, w);
      hide Inv, Owned, Retry;
    } else {
      RetryStep(p, budget, w);
      hide Retry;
    }
  }

  lemma EventsGoing(b: State, w: World, epoch: u32)
    requires Going(b, epoch)
    ensures var c := if b.mode.ReclaimBlocked? then b else EventTask(b, w);
      && Going(c, epoch) && c.refs <= b.refs
      && (b.mode.Degraded? && w.reclaim(b.tick).Took? ==> |c.refs| < |b.refs| || (c == b && b.frozen == []))
  {
    if b.frozen != [] {
      RetryGoing(b, BLOCK_COUNT, w, epoch);
    }
    hide Inv, Retry;
  }

  lemma SchedulerGoing(c: State, budget: nat, w: World, epoch: u32)
    requires Going(c, epoch)
    ensures var d := SchedulerTask(c, budget, w);
      && Going(d, epoch) && d.refs <= c.refs && (c.frozen == [] ==> d == c)
  {
    if c.frozen != [] {
      RetryGoing(c, budget, w, epoch);
    }
    hide Inv, Retry;
  }

  /** The heartbeat and the monitor leave a due recovery alone, or resume it. */
  lemma WatchGoing(d: State, lost: bool, w: World, epoch: u32)
    requires Going(d, epoch) && Steady(w, epoch)
    ensures var e := Monitor(HeartbeatTask(d, lost), w);
      && Going(e, epoch) && e.refs == d.refs && e.frozen == d.frozen && e.tick == d.tick + 1
      && (!e.mode.Recovery? ==> e.frozen != [] && e.refs != {})
  {
    NothingListed(d);
    PerformKeeps(d, RunHeartbeat(lost), w);
    PerformKeeps(HeartbeatTask(d, lost), RunMonitor, w);
    assert Attaches(w, d.tick);
    hide Inv;
  }

  lemma PeriodicEndGoing(d: State, configured: Budgets, lost: bool, w: World, epoch: u32)
    requires Going(d, epoch) && Steady(w, epoch)
    ensures var e := PeriodicEnd(d, configured, lost, w);
      && (e.mode.Normal? || (Going(e, epoch) && e.refs != {})) && e.refs <= d.refs
      && (d.mode.Degraded? && d.frozen == [] && w.reclaim(d.tick + 1).Took? ==> e.mode.Normal? || |e.refs| < |d.refs|)
  {
    WatchGoing(d, lost, w, epoch);
    hide Inv, Recover, HeartbeatTask, Monitor, Steady;
    var e := Monitor(HeartbeatTask(d, lost), w);
    if e.mode.Recovery? {
      RecoverGoing(e, Resolved(configured).recovery, w, epoch);
    }
  }

  /** Some task of the round leaves the RTOS in NORMAL. */
  predicate PassesNormal(s: State, configured: Budgets, lost: bool, w: World) {
    BeforeDrain(s, configured, w).mode.Normal? || AfterEvents(s, configured, w).mode.Normal? ||
    AfterRouting(s, configured, w).mode.Normal? || RunOnce(s, configured, true, lost, w).mode.Normal?
  }

  /** A round with room for its first reclaim brings NORMAL or gives a frame back. */
  lemma RoundProgress(s: State, configured: Budgets, lost: bool, w: World, epoch: u32)
    requires Inv(s) && Due(s) && !Stranded(s, epoch) && Steady(w, epoch)
    requires w.reclaim(s.tick + 1).Took? && w.reclaim(s.tick + 2).Took?
    ensures var t := RunOnce(s, configured, true, lost, w);
      PassesNormal(s, configured, lost, w) || (Going(t, epoch) && t.refs != {} && |t.refs| < |s.refs|)
  {
    BeforeDrainDue(s, configured, w, epoch);
    var b := BeforeDrain(s, configured, w);
    hide Inv, Going, Steady, BeforeDrain, EventTask, SchedulerTask, PeriodicEnd, Stranded;
    if !b.mode.Normal? {
      EventsGoing(b, w, epoch);
      var c := AfterEvents(s, configured, w);
      SchedulerGoing(c, Resolved(configured).scheduler, w, epoch);
      var d := AfterRouting(s, configured, w);
      PeriodicEndGoing(d, configured, lost, w, epoch);
      var t := RunOnce(s, configured, true, lost, w);
      SubsetCount(b.refs, s.refs);
      SubsetCount(c.refs, b.refs);
      SubsetCount(d.refs, c.refs);
      SubsetCount(t.refs, d.refs);
    }
  }

  /** NORMAL is reached within n periodic rounds; `lost` tells in which of them
      Linux's heartbeat is missing. */
  predicate BackWithin(s: State, configured: Budgets, lost: nat -> bool, w: World, n: nat)
    decreases n
  {
    n > 0 && (PassesNormal(s, configured, lost(n), w) ||
              BackWithin(RunOnce(s, configured, true, lost(n), w), configured, lost, w, n - 1))
  }

  /** Linux drains: the reclaim ring takes the first reclaim of each round. */
  predicate RoundsDrained(s: State, configured: Budgets, lost: nat -> bool, w: World, n: nat)
    decreases n
  {
    n == 0 || (w.reclaim(s.tick + 1).Took? && w.reclaim(s.tick + 2).Took? &&
               RoundsDrained(RunOnce(s, configured, true, lost(n), w), configured, lost, w, n - 1))
  }

  lemma {:induction false} RoundsBack(s: State, configured: Budgets, lost: nat -> bool, w: World, n: nat, epoch: u32)
    requires Inv(s) && Due(s) && !Stranded(s, epoch) && Steady(w, epoch)
    requires RoundsDrained(s, configured, lost, w, n) && n >= AtLeastOne(|s.refs|)
    ensures BackWithin(s, configured, lost, w, n)
    decreases n
  {
    hide Inv, Steady, PassesNormal, RunOnce, Due, Stranded, Going;
    RoundProgress(s, configured, lost(n), w, epoch);
    if !PassesNormal(s, configured, lost(n), w) {
      var t := RunOnce(s, configured, true, lost(n), w);
      GoingIsDue(t, epoch);
      RoundsBack(t, configured, lost, w, n - 1, epoch);
    }
  }

  lemma GoingIsDue(s: State, epoch: u32)
    requires Going(s, epoch)
    ensures Inv(s) && Due(s) && !Stranded(s, epoch)
  {
  }

  /** A stranded recovery stays stranded. */
  lemma StrandedStays(s: State, configured: Budgets, lost: bool, w: World, epoch: u32)
    requires Stranded(s, epoch) && Steady(w, epoch)
    ensures !PassesNormal(s, configured, lost, w)
    ensures Stranded(RunOnce(s, configured, true, lost, w), epoch)
  {
    assert Attaches(w, s.tick) && Attaches(w, s.tick + 1);
    assert BeforeDrain(s, configured, w) == Tick(s);
    assert AfterRouting(s, configured, w) == Tick(s);
    hide Retry, Recover, DrainRx, Dispatch;
  }

  lemma {:induction false} StrandedForever(s: State, configured: Budgets, lost: nat -> bool, w: World, n: nat, epoch: u32)
    requires Stranded(s, epoch) && Steady(w, epoch)
    ensures !BackWithin(s, configured, lost, w, n)
    decreases n
  {
    hide Stranded, Steady, PassesNormal, RunOnce;
    if n > 0 {
      StrandedStays(s, configured, lost(n), w, epoch);
      StrandedForever(RunOnce(s, configured, true, lost(n), w), configured, lost, w, n - 1, epoch);
    }
  }

  /** With Linux draining and a region that can be attached to, a due recovery is
      back in NORMAL within 64 periodic rounds if and only if it is not stranded. */
  lemma RoundsRecoverExactlyWhen(s: State, configured: Budgets, lost: nat -> bool, w: World, epoch: u32)
    requires Inv(s) && Due(s) && Steady(w, epoch) && RoundsDrained(s, configured, lost, w, BLOCK_COUNT)
    ensures BackWithin(s, configured, lost, w, BLOCK_COUNT) <==> !Stranded(s, epoch)
  {
    RefsFit(s);
    hide Inv, Due, Stranded, Steady, BackWithin, RoundsDrained;
    if Stranded(s, epoch) {
      StrandedForever(s, configured, lost, w, BLOCK_COUNT, epoch);
    } else {
      RoundsBack(s, configured, lost, w, BLOCK_COUNT, epoch);
    }
  }

  /** What strands a recovery: attaching fails once everything has been given
      back, for a reason the error monitor does not check or that is gone when it
      looks. */
  lemma FailedAttachStrands(s: State, budget: nat, w: World)
    requires Inv(s) && s.mode.Recovery? && !(s.active && s.pending)
    requires var c := Clear(EnterRecovery(s), budget, w); c.refs == {} && !Attaches(w, c.tick)
    ensures Due(Recover(s, budget, w)) && Stranded(Recover(s, budget, w), s.lastEpoch)
  {
    var a := EnterRecovery(s);
    ClearGives(a, budget, w);
    var c := Clear(a, budget, w);
    NothingListed(c);
    hide Owned, Clear;
  }

  lemma NothingListed(s: State)
    requires Owned(s)
    ensures s.frozen != [] || s.queue != [] ==> s.refs != {}
  {
    if s.frozen != [] {
      assert s.frozen[0] in s.frozen;
    }
    if s.queue != [] {
      assert s.queue[0] in s.queue;
    }
  }
}
