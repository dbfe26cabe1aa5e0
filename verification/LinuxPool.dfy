/** Linux's side of the frame pool: which of the 64 shared blocks is in whose
    hands, the per-interface quotas and the pool counters. */
module LinuxPool {
  import opened Types
  import opened Tracking

  datatype FrameState = Free | Allocated | RxQueued | PendingReclaim | TxReady

  datatype Meta = Meta(state: FrameState, source: nat, target: nat, pendingReclaim: bool)

  const NO_META := Meta(Free, 0, 0, false)

  datatype Status = Fine | PoolFull | BadArgument | BadLength

  datatype Pool = Pool(
    bitmap: seq<bool>, frames: seq<Meta>,
    used: nat, allocations: nat, releases: nat, pending: nat,
    quota: seq<nat>, quotaUsed: seq<nat>)

  // ------------------------------------------------------------------
  // Counting blocks
  // ------------------------------------------------------------------

  datatype Kind = InUse | From(source: nat) | Reclaiming

  predicate Is(m: Meta, kind: Kind) {
    match kind
    case InUse => !m.state.Free?
    case From(s) => !m.state.Free? && m.source == s
    case Reclaiming => m.pendingReclaim
  }

  function One(m: Meta, kind: Kind): nat {
    if Is(m, kind) then 1 else 0
  }

  function Count(frames: seq<Meta>, kind: Kind): (n: nat)
    ensures n <= |frames|
  {
    if frames == [] then 0 else Count(frames[..|frames| - 1], kind) + One(frames[|frames| - 1], kind)
  }

  /** Changing one block changes each count by what that block contributes. */
  lemma {:induction false} CountUpdate(frames: seq<Meta>, i: nat, m: Meta, kind: Kind)
    requires i < |frames|
    ensures Count(frames[i := m], kind) + One(frames[i], kind) == Count(frames, kind) + One(m, kind)
  {
    var n := |frames| - 1;
    var after := frames[i := m];
    if i == n {
      assert after[..n] == frames[..n];
    } else {
      CountUpdate(frames[..n], i, m, kind);
      assert after[..n] == frames[..n][i := m];
    }
  }

  lemma {:induction false} CountAll(frames: seq<Meta>)
    ensures Count(frames, InUse) == |frames| <==> forall i :: 0 <= i < |frames| ==> !frames[i].state.Free?
  {
    if frames != [] {
      CountAll(frames[..|frames| - 1]);
    }
  }

  lemma {:induction false} CountBounded(frames: seq<Meta>, i: nat, kind: Kind)
    requires i < |frames| && Is(frames[i], kind)
    ensures Count(frames, kind) > 0
  {
    if i < |frames| - 1 {
      CountBounded(frames[..|frames| - 1], i, kind);
    }
  }

  predicate Sourced(frames: seq<Meta>) {
    forall i :: 0 <= i < |frames| && !frames[i].state.Free? ==> frames[i].source < INTERFACE_COUNT
  }

  /** Every block in use is charged to exactly one interface. */
  lemma {:induction false} CountBySource(frames: seq<Meta>)
    requires Sourced(frames)
    ensures Count(frames, InUse) == Count(frames, From(0)) + Count(frames, From(1)) + Count(frames, From(2)) +
                                    Count(frames, From(3)) + Count(frames, From(4)) + Count(frames, From(5))
  {
    if frames != [] {
      CountBySource(frames[..|frames| - 1]);
      assert frames[|frames| - 1].state.Free? || frames[|frames| - 1].source < INTERFACE_COUNT;
    }
  }

  // ------------------------------------------------------------------
  // Operations
  // ------------------------------------------------------------------

  /** The books balance: every counter is the number of blocks it stands for. */
  predicate Valid(p: Pool) {
    && |p.bitmap| == |p.frames| == BLOCK_COUNT
    && |p.quota| == |p.quotaUsed| == INTERFACE_COUNT
    && (forall i :: 0 <= i < BLOCK_COUNT ==> FrameOk(p.bitmap[i], p.frames[i]))
    && p.used == Count(p.frames, InUse) == p.allocations - p.releases
    && p.pending == Count(p.frames, Reclaiming)
    && (forall s :: 0 <= s < INTERFACE_COUNT ==> p.quotaUsed[s] == Count(p.frames, From(s)))
  }

  predicate FrameOk(bit: bool, m: Meta) {
    && (bit <==> !m.state.Free?)
    && (m.state.Free? ==> m == NO_META)
    && (m.pendingReclaim <==> m.state.PendingReclaim?)
    && m.source < INTERFACE_COUNT
  }

  function FirstFree(bitmap: seq<bool>, from: nat): (i: nat)
    requires from <= |bitmap|
    ensures from <= i <= |bitmap|
    ensures i < |bitmap| ==> !bitmap[i]
    ensures forall j :: from <= j < i ==> bitmap[j]
    decreases |bitmap| - from
  {
    if from == |bitmap| || !bitmap[from] then from else FirstFree(bitmap, from + 1)
  }

  function Alloc(p: Pool, s: nat): (Pool, Status, nat)
    requires |p.bitmap| == |p.frames| == BLOCK_COUNT && |p.quota| == |p.quotaUsed| == INTERFACE_COUNT
  {
    if s >= INTERFACE_COUNT then (p, BadArgument, 0)
    else if p.quotaUsed[s] >= p.quota[s] then (p, PoolFull, 0)
    else
      var f := FirstFree(p.bitmap, 0);
      if f == BLOCK_COUNT then (p, PoolFull, 0)
      else (p.(bitmap := p.bitmap[f := true], frames := p.frames[f := Meta(Allocated, s, 0, false)],
               used := p.used + 1, allocations := p.allocations + 1,
               quotaUsed := p.quotaUsed[s := p.quotaUsed[s] + 1]), Fine, f)
  }

  /** A block that may be published by the interface it was allocated for. */
  predicate Committable(p: Pool, f: nat, source: nat, target: nat)
    requires |p.bitmap| == |p.frames| == BLOCK_COUNT
  {
    && f < BLOCK_COUNT && source < INTERFACE_COUNT && target < INTERFACE_COUNT
    && p.bitmap[f] && p.frames[f].state.Allocated? && p.frames[f].source == source
  }

  predicate LengthOk(length: nat) {
    HEADER_SIZE <= length <= BLOCK_SIZE
  }

  /** Everything Linux checks before it accepts a TX descriptor. */
  predicate TxAcceptable(p: Pool, d: Descriptor, ring: nat)
    requires |p.bitmap| == |p.frames| == BLOCK_COUNT
  {
    && InBounds(d) && d.target == ring && p.bitmap[d.frame]
    && p.frames[d.frame].state.RxQueued? && p.frames[d.frame].source == d.source
  }

  /** Everything Linux checks before it accepts a reclaim descriptor. */
  predicate ReclaimAcceptable(p: Pool, d: Descriptor)
    requires |p.bitmap| == |p.frames| == BLOCK_COUNT
  {
    && d.frame < BLOCK_COUNT && p.bitmap[d.frame] && p.frames[d.frame].state.RxQueued?
    && p.frames[d.frame].source == d.source && p.frames[d.frame].target == d.target
  }

  predicate Releasable(m: Meta) {
    (m.state.RxQueued? ==> m.pendingReclaim) &&
    (m.state.Allocated? || m.state.TxReady? || m.state.PendingReclaim? || m.pendingReclaim)
  }

  function Lower(n: nat): nat {
    if n > 0 then n - 1 else 0
  }

  function Release(p: Pool, f: nat): (Pool, Status)
    requires |p.bitmap| == |p.frames| == BLOCK_COUNT && |p.quota| == |p.quotaUsed| == INTERFACE_COUNT
  {
    if f >= BLOCK_COUNT || !p.bitmap[f] || !Releasable(p.frames[f]) then (p, BadArgument)
    else
      var s := p.frames[f].source;
      (p.(bitmap := p.bitmap[f := false], frames := p.frames[f := NO_META],
          used := Lower(p.used), releases := p.releases + 1,
          pending := if p.frames[f].pendingReclaim then Lower(p.pending) else p.pending,
          quotaUsed := if s < INTERFACE_COUNT then p.quotaUsed[s := Lower(p.quotaUsed[s])] else p.quotaUsed), Fine)
  }

  /** The block leaves Linux's hands: write_seq has been advanced over it. */
  function MarkQueued(p: Pool, f: nat, target: nat): Pool
    requires f < |p.frames|
  {
    p.(frames := p.frames[f := p.frames[f].(state := RxQueued, target := target)])
  }

  /** The block is back for sending. */
  function MarkReady(p: Pool, f: nat): Pool
    requires f < |p.frames|
  {
    p.(frames := p.frames[f := p.frames[f].(state := TxReady)])
  }

  function BeginReclaim(p: Pool, f: nat): Pool
    requires f < |p.frames|
  {
    p.(frames := p.frames[f := p.frames[f].(state := PendingReclaim, pendingReclaim := true)], pending := p.pending + 1)
  }

  function EmptyPool(): Pool {
    Pool(seq(BLOCK_COUNT, _ => false), seq(BLOCK_COUNT, _ => NO_META), 0, 0, 0, 0,
         seq(INTERFACE_COUNT, _ => BLOCK_COUNT), seq(INTERFACE_COUNT, _ => 0))
  }

  lemma {:induction false} CountNone(frames: seq<Meta>, kind: Kind)
    requires forall i :: 0 <= i < |frames| ==> frames[i] == NO_META
    ensures Count(frames, kind) == 0
  {
    if frames != [] {
      CountNone(frames[..|frames| - 1], kind);
    }
  }

  lemma EmptyPoolValid()
    ensures Valid(EmptyPool())
  {
    forall kind: Kind
      ensures Count(EmptyPool().frames, kind) == 0
    {
      CountNone(EmptyPool().frames, kind);
    }
  }

  /** What a changed block does to every count. */
  lemma CountsAfter(p: Pool, f: nat, m: Meta)
    requires Valid(p) && f < BLOCK_COUNT
    ensures Count(p.frames[f := m], InUse) == p.used - One(p.frames[f], InUse) + One(m, InUse)
    ensures Count(p.frames[f := m], Reclaiming) == p.pending - One(p.frames[f], Reclaiming) + One(m, Reclaiming)
    ensures forall s :: 0 <= s < INTERFACE_COUNT ==>
      Count(p.frames[f := m], From(s)) == p.quotaUsed[s] - One(p.frames[f], From(s)) + One(m, From(s))
  {
    CountUpdate(p.frames, f, m, InUse);
    CountUpdate(p.frames, f, m, Reclaiming);
    forall s | 0 <= s < INTERFACE_COUNT
      ensures Count(p.frames[f := m], From(s)) == p.quotaUsed[s] - One(p.frames[f], From(s)) + One(m, From(s))
    {
      CountUpdate(p.frames, f, m, From(s));
    }
  }

  /** Allocation succeeds exactly when the interface has quota left and a block is
      free; it hands out the lowest free block, and the books still balance. */
  lemma AllocExact(p: Pool, s: nat)
    requires Valid(p) && s < INTERFACE_COUNT
    ensures Valid(Alloc(p, s).0)
    ensures Alloc(p, s).1 == Fine <==> p.quotaUsed[s] < p.quota[s] && p.used < BLOCK_COUNT
    ensures Alloc(p, s).1 != Fine ==> Alloc(p, s).0 == p
    ensures Alloc(p, s).1 == Fine ==> var f := Alloc(p, s).2;
      f < BLOCK_COUNT && p.frames[f].state.Free? && Alloc(p, s).0.frames == p.frames[f := Meta(Allocated, s, 0, false)]
    ensures Alloc(p, s).1 == Fine ==> forall j :: 0 <= j < Alloc(p, s).2 ==> !p.frames[j].state.Free?
  {
    var f := FirstFree(p.bitmap, 0);
    CountAll(p.frames);
    assert forall j :: 0 <= j < BLOCK_COUNT ==> FrameOk(p.bitmap[j], p.frames[j]);
    if f == BLOCK_COUNT {
      assert forall j :: 0 <= j < BLOCK_COUNT ==> !p.frames[j].state.Free?;
    } else {
      assert FrameOk(p.bitmap[f], p.frames[f]);
      CountsAfter(p, f, Meta(Allocated, s, 0, false));
    }
  }

  /** A release succeeds exactly for a block that is allocated and not with the
      RTOS, so a second release of the same block is refused. */
  lemma ReleaseExact(p: Pool, f: nat)
    requires Valid(p)
    ensures Valid(Release(p, f).0)
    ensures Release(p, f).1 == Fine <==>
      f < BLOCK_COUNT && !p.frames[f].state.Free? && !p.frames[f].state.RxQueued?
    ensures Release(p, f).1 != Fine ==> Release(p, f).0 == p
    ensures Release(p, f).1 == Fine ==> Release(p, f).0.frames == p.frames[f := NO_META]
    ensures Release(p, f).1 == Fine ==> Release(Release(p, f).0, f) == (Release(p, f).0, BadArgument)
  {
    if f < BLOCK_COUNT {
      assert FrameOk(p.bitmap[f], p.frames[f]);
      CountsAfter(p, f, NO_META);
      if !p.frames[f].state.Free? {
        CountBounded(p.frames, f, InUse);
        CountBounded(p.frames, f, From(p.frames[f].source));
      }
      if p.frames[f].pendingReclaim {
        CountBounded(p.frames, f, Reclaiming);
      }
    }
  }

  lemma MarkKeepsValid(p: Pool, f: nat, target: nat)
    requires Valid(p) && f < BLOCK_COUNT && !p.frames[f].state.Free? && !p.frames[f].pendingReclaim
    ensures Valid(MarkQueued(p, f, target)) && Valid(MarkReady(p, f)) && Valid(BeginReclaim(p, f))
  {
    assert FrameOk(p.bitmap[f], p.frames[f]);
    CountsAfter(p, f, MarkQueued(p, f, target).frames[f]);
    CountsAfter(p, f, MarkReady(p, f).frames[f]);
    CountsAfter(p, f, BeginReclaim(p, f).frames[f]);
  }

  /** The quota counters add up to the pool's own. */
  lemma QuotasAddUp(p: Pool)
    requires Valid(p)
    ensures p.used == p.quotaUsed[0] + p.quotaUsed[1] + p.quotaUsed[2] + p.quotaUsed[3] + p.quotaUsed[4] + p.quotaUsed[5]
    ensures p.used <= BLOCK_COUNT
  {
    assert forall i :: 0 <= i < BLOCK_COUNT ==> FrameOk(p.bitmap[i], p.frames[i]);
    CountBySource(p.frames);
  }
}
