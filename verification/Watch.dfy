/** What makes the RTOS leave NORMAL, and what it then does, round by round. */
module Watch {
  import opened Types
  import opened Tasks
  import opened Runtime

  /** Recovery was entered in this state or is over with everything given back. */
  predicate RecoveryRan(t: State) {
    if t.mode.Normal? then !t.active && !t.pending && t.refs == {} && t.queue == [] && t.frozen == []
    else t.active
  }

  lemma RecoverRuns(s: State, budget: nat, w: World)
    requires Inv(s) && s.mode.Recovery?
    ensures var t := Recover(s, budget, w);
      RecoveryRan(t) && t.refs <= s.refs && (!t.mode.Normal? ==> t.lastEpoch == s.lastEpoch)
  {
    RecoverExact(s, budget, w);
    hide Inv, Recover;
  }

  /** At the door: a round that starts in NORMAL goes on as it is exactly when the
      region's header is sound and its epoch is the known one. A broken header, or
      a new epoch with broken rings, degrades it and makes a recovery due; a new
      epoch in a sound region runs a recovery for it before anything is drained. */
  lemma DoorExact(s: State, configured: Budgets, w: World)
    requires Inv(s) && s.mode.Normal?
    ensures var b, known := BeforeDrain(s, configured, w), w.regionEpoch(s.tick) == s.lastEpoch;
      && (w.headerSound(s.tick) && known ==> b == s.(tick := s.tick + 1))
      && (!w.headerSound(s.tick) || (!known && !w.ringsSound(s.tick)) ==>
           b == s.(tick := s.tick + 1, mode := Degraded, pending := true))
      && (w.headerSound(s.tick) && w.ringsSound(s.tick) && !known ==>
           RecoveryRan(b) && b.refs <= s.refs && (!b.mode.Normal? ==> b.lastEpoch == w.regionEpoch(s.tick)))
  {
    PreflightKeeps(s, w);
    var p := Preflight(s, w);
    if p.mode.Recovery? {
      RecoverRuns(p, Resolved(configured).recovery, w);
    }
    hide Inv, Recover, Retry, RecoveryRan;
  }

  /** At the end of a periodic round: NORMAL stays exactly when the heartbeat is
      there, the region is sound on the known epoch, and no recovery is due. A
      missing heartbeat alone only degrades; a broken region degrades and makes a
      recovery due; a due recovery or a new epoch runs the recovery at once. */
  lemma PeriodicEndExact(d: State, configured: Budgets, lost: bool, w: World)
    requires Inv(d) && d.mode.Normal?
    ensures var t, sound := PeriodicEnd(d, configured, lost, w), w.headerSound(d.tick) && w.ringsSound(d.tick);
      var known := w.regionEpoch(d.tick) == d.lastEpoch;
      && (!sound ==> t == d.(tick := d.tick + 1, mode := Degraded, pending := true))
      && (sound && known && !d.pending ==> t == d.(tick := d.tick + 1, mode := if lost then Degraded else Normal))
      && (sound && (!known || d.pending) ==>
           RecoveryRan(t) && t.refs <= d.refs && (!t.mode.Normal? ==> t.lastEpoch == w.regionEpoch(d.tick)))
  {
    PerformKeeps(d, RunHeartbeat(lost), w);
    PerformKeeps(HeartbeatTask(d, lost), RunMonitor, w);
    var e := Monitor(HeartbeatTask(d, lost), w);
    if e.mode.Recovery? {
      RecoverRuns(e, Resolved(configured).recovery, w);
    }
    hide Inv, Recover, RecoveryRan;
  }

  /** A heartbeat that came back runs a recovery in the next periodic round that
      finds the region sound, even if nothing else went wrong. */
  lemma ReturnedHeartbeatRecovers(d: State, configured: Budgets, w: World)
    requires Inv(d) && (d.mode.Normal? || d.mode.Degraded?) && Sound(w, d.tick)
    ensures RecoveryRan(PeriodicEnd(Observe(d, true), configured, false, w))
  {
    var o := Observe(d, true);
    PerformKeeps(d, SeeHeartbeat(true), w);
    PerformKeeps(o, RunHeartbeat(false), w);
    PerformKeeps(HeartbeatTask(o, false), RunMonitor, w);
    RecoverRuns(Monitor(HeartbeatTask(o, false), w), Resolved(configured).recovery, w);
    hide Inv, Recover, RecoveryRan;
  }
}
