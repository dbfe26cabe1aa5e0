/** The calls Linux's adapters and egress workers make on the frame pool and the
    rings, as they run: local bookkeeping updated in place. */
module LinuxIpc {
  import opened Types
  import opened Tracking
  import opened LinuxPool
  import opened RingProtocol
  import G = Gateway

  datatype Answer = Done(item: Descriptor) | Empty | RingFull | Rejected | WrongLength

  /** A commit, as one call. */
  function Commit(p: Pool, items: seq<Descriptor>, depth: nat, d: Descriptor): (Pool, seq<Descriptor>, Answer)
    requires |p.bitmap| == |p.frames| == BLOCK_COUNT
  {
    if !Committable(p, d.frame, d.source, d.target) then (p, items, Rejected)
    else if !LengthOk(d.length) then (p, items, WrongLength)
    else if |items| >= depth then (p, items, RingFull)
    else (MarkQueued(p, d.frame, d.target), items + [d], Done(d))
  }

  /** Taking the head of TX ring i, as one call; `intact` says whether the CRC of
      the descriptor found in the slot is right. */
  function Take(p: Pool, items: seq<Descriptor>, i: nat, intact: bool): (Pool, seq<Descriptor>, Answer)
    requires |p.bitmap| == |p.frames| == BLOCK_COUNT
  {
    if items == [] then (p, items, Empty)
    else if !intact || !TxAcceptable(p, items[0], i) then (p, items[1..], Rejected)
    else (MarkReady(p, items[0].frame), items[1..], Done(items[0]))
  }

  /** Taking the head of the reclaim ring, as one call: the block is freed. Here
      `intact` says that the CRC is right and the reason is a known one. */
  function TakeBack(p: Pool, items: seq<Descriptor>, intact: bool): (Pool, seq<Descriptor>, Answer)
    requires |p.bitmap| == |p.frames| == BLOCK_COUNT && |p.quota| == |p.quotaUsed| == INTERFACE_COUNT
  {
    if items == [] then (p, items, Empty)
    else if !intact || !ReclaimAcceptable(p, items[0]) then (p, items[1..], Rejected)
    else (Release(BeginReclaim(p, items[0].frame), items[0].frame).0, items[1..], Done(items[0]))
  }

  // ------------------------------------------------------------------
  // When a call succeeds, on the block's own fields
  // ------------------------------------------------------------------

  /** A commit is refused for a block that is not allocated to the interface or an
      interface that does not exist, then for its length, then for a full ring, in
      this order; otherwise the block is queued and its descriptor is last. */
  lemma CommitExact(p: Pool, items: seq<Descriptor>, depth: nat, d: Descriptor)
    requires Valid(p)
    ensures var (q, now, answer) := Commit(p, items, depth, d);
      var mine := d.frame < 64 && d.source < 6 && d.target < 6 && p.frames[d.frame].state == Allocated
                  && p.frames[d.frame].source == d.source;
      var fits := 40 <= d.length <= 512;
      && (answer == Rejected <==> !mine) && (answer == WrongLength <==> mine && !fits)
      && (answer == RingFull <==> mine && fits && depth <= |items|)
      && (answer == Done(d) <==> mine && fits && |items| < depth)
      && (answer != Done(d) ==> q == p && now == items)
      && (answer == Done(d) ==> now == items + [d] && Valid(q) && q.used == p.used)
      && (answer == Done(d) ==> q.frames == p.frames[d.frame := Meta(RxQueued, d.source, d.target, false)])
  {
    if d.frame < BLOCK_COUNT {
      assert FrameOk(p.bitmap[d.frame], p.frames[d.frame]);
      if !p.frames[d.frame].state.Free? && !p.frames[d.frame].pendingReclaim {
        MarkKeepsValid(p, d.frame, d.target);
      }
    }
    hide Count;
  }

  /** The head of TX ring i is accepted exactly when its CRC is right, it is meant
      for this ring, its extent is that of a block, and the block is with the RTOS
      on behalf of the interface it names. It is consumed either way. */
  lemma TakeExact(p: Pool, items: seq<Descriptor>, i: nat, intact: bool)
    requires Valid(p) && items != []
    ensures var (q, now, answer) := Take(p, items, i, intact);
      var d := items[0];
      var sound := intact && d.target == i && i < 6 && d.frame < 64 && d.offset == 512 * d.frame
                   && 40 <= d.length <= 512 && p.frames[d.frame].state == RxQueued
                   && p.frames[d.frame].source == d.source;
      && now == items[1..] && answer == (if sound then Done(d) else Rejected)
      && (!sound ==> q == p)
      && (sound ==> q.frames == p.frames[d.frame := p.frames[d.frame].(state := TxReady)] && q.used == p.used)
  {
    if items[0].frame < BLOCK_COUNT {
      assert FrameOk(p.bitmap[items[0].frame], p.frames[items[0].frame]);
    }
    hide Count;
  }

  /** The head of the reclaim ring frees its block exactly when it is intact and
      names a block that is with the RTOS and was queued with the same source and
      target. It is consumed either way. */
  lemma TakeBackExact(p: Pool, items: seq<Descriptor>, intact: bool)
    requires Valid(p) && items != []
    ensures var (q, now, answer) := TakeBack(p, items, intact);
      var d := items[0];
      var sound := intact && d.frame < 64 && p.frames[d.frame].state == RxQueued
                   && p.frames[d.frame].source == d.source && p.frames[d.frame].target == d.target;
      && now == items[1..] && answer == (if sound then Done(d) else Rejected)
      && (!sound ==> q == p)
      && (sound ==> Valid(q) && q.frames == p.frames[d.frame := NO_META])
  {
    var d := items[0];
    if d.frame < BLOCK_COUNT {
      assert FrameOk(p.bitmap[d.frame], p.frames[d.frame]);
      if p.frames[d.frame].state.RxQueued? {
        MarkKeepsValid(p, d.frame, 0);
        ReleaseExact(BeginReclaim(p, d.frame), d.frame);
        assert BeginReclaim(p, d.frame).frames[d.frame := NO_META] == p.frames[d.frame := NO_META];
      }
    }
    hide Count, Release;
  }

  /** Uninterrupted, the steps of a commit are the call. */
  lemma CommitIsSteps(s: G.System, d: Descriptor)
    requires G.Inv(s) && s.linux.LinuxIdle? && d.source < INTERFACE_COUNT
    requires d.offset == d.frame * BLOCK_SIZE && d.number == |s.log|
    ensures var t := G.Run(s, [G.Commit(d.frame, d.length, d.source, d.target, d.priority), G.MarkCommitted]);
      (t.pool, t.rx[d.source]) ==
        (Commit(s.pool, s.rx[d.source], G.RING_DEPTH, d).0, Commit(s.pool, s.rx[d.source], G.RING_DEPTH, d).1)
  {
    G.InvShape(s);
    G.RunTwo(s, G.Commit(d.frame, d.length, d.source, d.target, d.priority), G.MarkCommitted);
    hide G.Inv;
  }

  /** Uninterrupted, the steps of taking a TX descriptor are the call. */
  lemma TakeIsSteps(s: G.System, i: nat)
    requires G.Inv(s) && s.linux.LinuxIdle? && i < INTERFACE_COUNT
    ensures var t := G.Run(s, [G.TakeTx(i), G.FinishTx]);
      (t.pool, t.tx[i]) == (Take(s.pool, s.tx[i], i, true).0, Take(s.pool, s.tx[i], i, true).1) && t.linux.LinuxIdle?
  {
    G.InvShape(s);
    G.RunTwo(s, G.TakeTx(i), G.FinishTx);
    hide G.Inv;
  }

  /** Uninterrupted, the steps of taking a reclaim descriptor are the call. */
  lemma TakeBackIsSteps(s: G.System)
    requires G.Inv(s) && s.linux.LinuxIdle?
    ensures var t := G.Run(s, [G.TakeReclaim, G.FinishReclaim]);
      (t.pool, t.reclaim) == (TakeBack(s.pool, s.reclaim, true).0, TakeBack(s.pool, s.reclaim, true).1) && t.linux.LinuxIdle?
  {
    G.InvShape(s);
    G.RunTwo(s, G.TakeReclaim, G.FinishReclaim);
    hide G.Inv, Release, BeginReclaim;
  }

  class FramePool {
    const bitmap: array<bool>
    const frames: array<Meta>
    const quota: array<nat>
    const quotaUsed: array<nat>
    var used: nat
    var allocations: nat
    var releases: nat
    var pending: nat

    ghost predicate Shaped()
      reads this
    {
      && bitmap.Length == frames.Length == BLOCK_COUNT
      && quota.Length == quotaUsed.Length == INTERFACE_COUNT && quota != quotaUsed
    }

    ghost function View(): Pool
      reads this, bitmap, frames, quota, quotaUsed
    {
      Pool(bitmap[..], frames[..], used, allocations, releases, pending, quota[..], quotaUsed[..])
    }

    ghost predicate Ok()
      reads this, bitmap, frames, quota, quotaUsed
    {
      Shaped() && Valid(View())
    }

    constructor ()
      ensures Ok() && View() == EmptyPool()
      ensures fresh(bitmap) && fresh(frames) && fresh(quota) && fresh(quotaUsed)
    {
      bitmap := new bool[BLOCK_COUNT](_ => false);
      frames := new Meta[BLOCK_COUNT](_ => NO_META);
      quota := new nat[INTERFACE_COUNT](_ => BLOCK_COUNT);
      quotaUsed := new nat[INTERFACE_COUNT](_ => 0);
      used, allocations, releases, pending := 0, 0, 0, 0;
      new;
      assert bitmap[..] == EmptyPool().bitmap && frames[..] == EmptyPool().frames;
      assert quota[..] == EmptyPool().quota && quotaUsed[..] == EmptyPool().quotaUsed;
      hide Valid;
      EmptyPoolValid();
    }

    method Allocate(source: nat) returns (status: Status, frame: nat)
      requires Shaped()
      modifies this, bitmap, frames, quotaUsed
      ensures Shaped() && (View(), status, frame) == Alloc(old(View()), source)
    {
      if source >= INTERFACE_COUNT { return BadArgument, 0; }
      if quotaUsed[source] >= quota[source] { return PoolFull, 0; }
      frame := 0;
      while frame < BLOCK_COUNT
        invariant frame <= BLOCK_COUNT && FirstFree(bitmap[..], 0) == FirstFree(bitmap[..], frame)
        invariant View() == old(View())
      {
        if !bitmap[frame] { break; }
        frame := frame + 1;
      }
      if frame == BLOCK_COUNT { return PoolFull, 0; }
      ghost var p := View();
      bitmap[frame] := true;
      frames[frame] := Meta(Allocated, source, 0, false);
      used, allocations := used + 1, allocations + 1;
      quotaUsed[source] := quotaUsed[source] + 1;
      status := Fine;
      assert bitmap[..] == p.bitmap[frame := true] && frames[..] == p.frames[frame := Meta(Allocated, source, 0, false)];
      assert quotaUsed[..] == p.quotaUsed[source := p.quotaUsed[source] + 1] && quota[..] == p.quota;
    }

    method ReleaseFrame(f: nat) returns (status: Status)
      requires Shaped()
      modifies this, bitmap, frames, quotaUsed
      ensures Shaped() && (View(), status) == Release(old(View()), f)
    {
      ghost var p := View();
      if f >= BLOCK_COUNT { return BadArgument; }
      if !bitmap[f] { return BadArgument; }
      var m := frames[f];
      if m.state.RxQueued? && !m.pendingReclaim { return BadArgument; }
      if !m.state.Allocated? && !m.state.TxReady? && !m.state.PendingReclaim? && !m.pendingReclaim { return BadArgument; }
      if m.pendingReclaim && pending > 0 { pending := pending - 1; }
      if m.source < INTERFACE_COUNT && quotaUsed[m.source] > 0 {
        quotaUsed[m.source] := quotaUsed[m.source] - 1;
      }
      bitmap[f] := false;
      frames[f] := NO_META;
      if used > 0 { used := used - 1; }
      releases := releases + 1;
      status := Fine;
      assert bitmap[..] == p.bitmap[f := false] && frames[..] == p.frames[f := NO_META] && quota[..] == p.quota;
      assert quotaUsed[..] == if m.source < INTERFACE_COUNT
        then p.quotaUsed[m.source := Lower(p.quotaUsed[m.source])] else p.quotaUsed;
    }

    /** Publish an allocated block on the RX ring of its interface. `heard` is the
        outcome of the notify callback, which does not matter to the result. */
    method CommitRx(ring: DescriptorRing<Descriptor>, d: Descriptor, heard: bool) returns (answer: Answer)
      requires Shaped() && ring.Valid()
      requires d.offset == d.frame * BLOCK_SIZE
      modifies frames, ring, ring.slots
      ensures Shaped() && ring.Valid()
      ensures (View(), ring.Contents(), answer) == Commit(old(View()), old(ring.Contents()), ring.slots.Length, d)
    {
      ghost var p := View();
      if d.frame >= BLOCK_COUNT || d.source >= INTERFACE_COUNT || d.target >= INTERFACE_COUNT { return Rejected; }
      if !bitmap[d.frame] || !frames[d.frame].state.Allocated? || frames[d.frame].source != d.source { return Rejected; }
      if d.length < HEADER_SIZE || d.length > BLOCK_SIZE { return WrongLength; }
      UsedIs(ring.View());
      var full := ring.Enqueue(d, heard);
      if full { return RingFull; }
      frames[d.frame] := frames[d.frame].(state := RxQueued, target := d.target);
      assert frames[..] == MarkQueued(p, d.frame, d.target).frames;
      return Done(d);
    }

    method AcceptsTx(d: Descriptor, i: nat) returns (ok: bool)
      requires Shaped()
      ensures ok == TxAcceptable(View(), d, i)
    {
      if d.source >= INTERFACE_COUNT || d.target >= INTERFACE_COUNT || d.frame >= BLOCK_COUNT { return false; }
      if d.offset != d.frame * BLOCK_SIZE || d.length < HEADER_SIZE || d.length > BLOCK_SIZE { return false; }
      if d.target != i || !bitmap[d.frame] { return false; }
      return frames[d.frame].state.RxQueued? && frames[d.frame].source == d.source;
    }

    method AcceptsReclaim(d: Descriptor) returns (ok: bool)
      requires Shaped()
      ensures ok == ReclaimAcceptable(View(), d)
    {
      if d.frame >= BLOCK_COUNT || !bitmap[d.frame] || !frames[d.frame].state.RxQueued? { return false; }
      return frames[d.frame].source == d.source && frames[d.frame].target == d.target;
    }

    method Ready(f: nat)
      requires Shaped() && f < BLOCK_COUNT
      modifies frames
      ensures Shaped() && View() == MarkReady(old(View()), f)
    {
      ghost var p := View();
      frames[f] := frames[f].(state := TxReady);
      assert frames[..] == MarkReady(p, f).frames;
    }

    /** Take the oldest TX descriptor. One that fails a check is consumed. */
    method TakeTx(ring: DescriptorRing<Descriptor>, i: nat, intact: bool) returns (answer: Answer)
      requires Shaped() && ring.Valid()
      modifies frames, ring, ring.slots
      ensures Shaped() && ring.Valid()
      ensures (View(), ring.Contents(), answer) == Take(old(View()), old(ring.Contents()), i, intact)
    {
      hide TxAcceptable, MarkReady, Inv, Run;
      var next := ring.Peek();
      if next.None? { return Empty; }
      var ok := AcceptsTx(next.value, i);
      if !intact || !ok {
        ring.Consume();
        return Rejected;
      }
      BoundsOf(View(), next.value, i);
      Ready(next.value.frame);
      ring.Consume();
      return Done(next.value);
    }

    /** Take the oldest reclaim descriptor and free the block it names. */
    method TakeReclaim(ring: DescriptorRing<Descriptor>, intact: bool) returns (answer: Answer)
      requires Shaped() && ring.Valid()
      modifies this, bitmap, frames, quotaUsed, ring, ring.slots
      ensures Shaped() && ring.Valid()
      ensures (View(), ring.Contents(), answer) == TakeBack(old(View()), old(ring.Contents()), intact)
    {
      hide ReclaimAcceptable, Inv, Run, Release;
      var next := ring.Peek();
      if next.None? { return Empty; }
      var ok := AcceptsReclaim(next.value);
      if !intact || !ok {
        ring.Consume();
        return Rejected;
      }
      ReclaimBounds(View(), next.value);
      StartReclaim(next.value.frame);
      var _ := ReleaseFrame(next.value.frame);
      ring.Consume();
      return Done(next.value);
    }

    method StartReclaim(f: nat)
      requires Shaped() && f < BLOCK_COUNT
      modifies this`pending, frames
      ensures Shaped() && View() == BeginReclaim(old(View()), f)
    {
      ghost var p := View();
      frames[f] := frames[f].(state := PendingReclaim, pendingReclaim := true);
      pending := pending + 1;
      assert frames[..] == BeginReclaim(p, f).frames;
    }
  }

  lemma BoundsOf(p: Pool, d: Descriptor, i: nat)
    requires |p.bitmap| == |p.frames| == BLOCK_COUNT && TxAcceptable(p, d, i)
    ensures d.frame < BLOCK_COUNT
  {
  }

  lemma ReclaimBounds(p: Pool, d: Descriptor)
    requires |p.bitmap| == |p.frames| == BLOCK_COUNT && ReclaimAcceptable(p, d)
    ensures d.frame < BLOCK_COUNT
  {
  }

  // ------------------------------------------------------------------
  // The egress worker
  // ------------------------------------------------------------------

  const DEFAULT_BUDGET: nat := 16

  /** What happens to each dequeued frame: the outside world decides. */
  datatype Verdict = Invalid | Disabled | NoAdapter | SendFailed | SendOk

  datatype Drained = Drained(dequeued: nat, ipcErrors: nat, validationFailed: nat, txFailed: nat, txOk: nat,
                             releaseErrors: nat)

  function ReadyBlocks(p: Pool): set<nat>
    requires |p.frames| == BLOCK_COUNT
  {
    set f: nat | f < BLOCK_COUNT && p.frames[f].state.TxReady?
  }

  lemma TakeAndRelease(p: Pool, items: seq<Descriptor>, i: nat, intact: bool)
    requires Valid(p) && Take(p, items, i, intact).2.Done?
    ensures var q := Take(p, items, i, intact).0;
      var (r, status) := Release(q, items[0].frame);
      && Valid(q) && Valid(r) && status == LinuxPool.Fine && r.releases == p.releases + 1 && r.used == p.used - 1
      && ReadyBlocks(r) == ReadyBlocks(p)
  {
    var f := items[0].frame;
    assert FrameOk(p.bitmap[f], p.frames[f]);
    CountBounded(p.frames, f, InUse);
    MarkKeepsValid(p, f, 0);
    ReleaseReady(MarkReady(p, f), f);
    hide Valid, Release, Count;
    ReadySame(p, Release(MarkReady(p, f), f).0, f);
  }

  lemma ReadySame(p: Pool, r: Pool, f: nat)
    requires |p.frames| == BLOCK_COUNT && f < BLOCK_COUNT && r.frames == p.frames[f := NO_META]
    requires !p.frames[f].state.TxReady?
    ensures ReadyBlocks(r) == ReadyBlocks(p)
  {
  }

  lemma ReleaseReady(q: Pool, f: nat)
    requires Valid(q) && f < BLOCK_COUNT && q.frames[f].state.TxReady? && q.used > 0
    ensures var (r, status) := Release(q, f);
      && Valid(r) && status == LinuxPool.Fine && r.releases == q.releases + 1 && r.used == q.used - 1
      && r.frames == q.frames[f := NO_META]
  {
    ReleaseExact(q, f);
    hide Valid, Count;
  }

  /** Every dequeued frame is accounted for and was released without error. */
  predicate Tallied(r: Drained) {
    r.dequeued == r.validationFailed + r.txFailed + r.txOk && r.releaseErrors == 0
  }

  /** One frame, validated and sent or not, and released either way. */
  method HandleOne(pool: FramePool, ring: DescriptorRing<Descriptor>, i: nat, intact: bool, verdict: Verdict,
                   before: Drained)
    returns (empty: bool, after: Drained)
    requires pool.Ok() && ring.Valid() && Tallied(before)
    modifies pool, pool.bitmap, pool.frames, pool.quotaUsed, ring, ring.slots
    ensures pool.Ok() && ring.Valid() && Tallied(after)
    ensures empty == (old(ring.Contents()) == [])
    ensures ring.Contents() == if empty then [] else old(ring.Contents())[1..]
    ensures after.dequeued + after.ipcErrors == before.dequeued + before.ipcErrors + if empty then 0 else 1
    ensures after.dequeued == before.dequeued ==> after == before.(ipcErrors := after.ipcErrors)
    ensures after.dequeued > before.dequeued ==>
      after.validationFailed == before.validationFailed + (if verdict.Invalid? then 1 else 0) &&
      after.txOk == before.txOk + if verdict.SendOk? then 1 else 0
    ensures pool.releases - old(pool.releases) == after.dequeued - before.dequeued
    ensures old(pool.used) - pool.used == after.dequeued - before.dequeued
    ensures ReadyBlocks(pool.View()) == old(ReadyBlocks(pool.View()))
  {
    ghost var p, items := pool.View(), ring.Contents();
    empty, after := false, before;
    var answer := pool.TakeTx(ring, i, intact);
    if answer.Empty? { return true, before; }
    if !answer.Done? {
      after := after.(ipcErrors := after.ipcErrors + 1);
      return;
    }
    TakeAndRelease(p, items, i, intact);
    hide Valid, Release, Inv, Run, TxAcceptable, ReadyBlocks;
    after := after.(dequeued := after.dequeued + 1);
    match verdict {
      case Invalid => after := after.(validationFailed := after.validationFailed + 1);
      case SendOk => after := after.(txOk := after.txOk + 1);
      case _ => after := after.(txFailed := after.txFailed + 1);
    }
    hide Tallied;
    var status := pool.ReleaseFrame(answer.item.frame);
    after := after.(releaseErrors := after.releaseErrors + if status == LinuxPool.Fine then 0 else 1);
  }

  /** One pass of the worker for TX ring i. `intact` says of the k-th descriptor
      whether its CRC is right, and `verdict` of its frame whether it was valid and
      whether the adapter sent it. Every dequeued frame
      is released exactly once whatever the verdict, no release fails, and no
      block stays behind in state TX_READY. */
  method DrainOnce(pool: FramePool, ring: DescriptorRing<Descriptor>, i: nat, budget: nat, intact: nat -> bool,
                  verdict: nat -> Verdict)
    returns (result: Drained)
    requires pool.Ok() && ring.Valid()
    modifies pool, pool.bitmap, pool.frames, pool.quotaUsed, ring, ring.slots
    ensures pool.Ok() && ring.Valid() && Tallied(result)
    ensures pool.releases == old(pool.releases) + result.dequeued && pool.used == old(pool.used) - result.dequeued
    ensures ReadyBlocks(pool.View()) == old(ReadyBlocks(pool.View()))
    ensures result.dequeued + result.ipcErrors <= |old(ring.Contents())|
    ensures ring.Contents() == old(ring.Contents())[result.dequeued + result.ipcErrors..]
    ensures ring.Contents() == [] || result.dequeued + result.ipcErrors == if budget == 0 then 16 else budget
  {
    hide Valid, Release, Inv, Run, TxAcceptable, ReadyBlocks;
    result := Drained(0, 0, 0, 0, 0, 0);
    var limit := if budget == 0 then DEFAULT_BUDGET else budget;
    for k := 0 to limit
      invariant pool.Ok() && ring.Valid() && Tallied(result)
      invariant pool.releases == old(pool.releases) + result.dequeued && pool.used == old(pool.used) - result.dequeued
      invariant ReadyBlocks(pool.View()) == old(ReadyBlocks(pool.View()))
      invariant result.dequeued + result.ipcErrors == k <= |old(ring.Contents())|
      invariant ring.Contents() == old(ring.Contents())[k..]
    {
      var empty: bool;
      empty, result := HandleOne(pool, ring, i, intact(k), verdict(k), result);
      if empty { return; }
    }
  }
}
