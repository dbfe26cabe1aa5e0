/** The whole gateway as one state machine: Linux and the RTOS take single steps
    on the shared frame pool and rings, in any order. Linux's calls exclude each
    other; the RTOS may step in the middle of any of them. Each ring is the
    bounded FIFO that RingProtocol shows it to be, an append happening when
    write_seq advances and a removal when read_seq does. */
module Gateway {
  import opened Types
  import opened Tracking
  import opened PipelineOrder
  import opened LinuxPool

  const RING_DEPTH: nat := 8

  /** Inside which Linux call, and how far. */
  datatype LinuxPc =
    | LinuxIdle
    | Published(frame: nat, target: nat)   // write_seq advanced, block not yet marked
    | TxTaken(ring: nat)                   // verdict reached, read_seq not yet advanced
    | ReclaimTaken                         // likewise for the reclaim ring

  datatype RtosPc =
    | RtosIdle
    | Holding(item: Descriptor)            // taken from an RX ring, not yet routed
    | InHand(item: Descriptor)             // taken from the queue
    | Gone(frame: nat)                     // published; reference not yet cleared
    | Rewritten(frame: nat)                // a frozen reclaim published, not yet forgotten

  datatype Committed = Committed(frame: nat, source: nat, priority: nat, bytes: seq<byte>)

  datatype Fate = InFlight | Out(ring: nat, bytes: seq<byte>) | Dropped

  /** The last four fields are history: where each block is, what was committed,
      what became of it, and what each TX ring delivered. No step reads them.
      `faults` counts every rejection and every lost reference. */
  datatype System = System(
    pool: Pool, memory: seq<seq<byte>>,
    rx: seq<seq<Descriptor>>, tx: seq<seq<Descriptor>>, reclaim: seq<Descriptor>,
    linux: LinuxPc,
    refs: seq<Option<Descriptor>>, queue: seq<Descriptor>, frozen: seq<Descriptor>, rtos: RtosPc,
    faults: nat,
    track: seq<Track>, log: seq<Committed>, fate: seq<Fate>, delivered: seq<seq<Descriptor>>)

  datatype Action =
    | Allocate(source: nat)
    | Fill(frame: nat, bytes: seq<byte>)
    | Commit(frame: nat, length: nat, source: nat, target: nat, priority: nat)
    | MarkCommitted
    | TakeTx(ring: nat)
    | FinishTx
    | TakeReclaim
    | FinishReclaim
    | ReleaseFrame(frame: nat)
    | TakeRx(ring: nat)
    | Enqueue(target: nat)
    | Schedule(priority: nat, route: Option<nat>)
    | SendTx
    | SendReclaim
    | Freeze
    | ClearReference
    | RetryFrozen
    | ForgetFrozen

  predicate Shape(s: System) {
    && |s.pool.bitmap| == |s.pool.frames| == |s.memory| == |s.refs| == |s.track| == BLOCK_COUNT
    && |s.pool.quota| == |s.pool.quotaUsed| == |s.rx| == |s.tx| == |s.delivered| == INTERFACE_COUNT
    && |s.fate| == |s.log|
    && (forall f :: 0 <= f < |s.memory| ==> |s.memory[f]| == BLOCK_SIZE)
  }

  // ------------------------------------------------------------------
  // Linux steps
  // ------------------------------------------------------------------

  function DoCommit(s: System, f: nat, length: nat, source: nat, target: nat, priority: nat): System
    requires Shape(s)
  {
    if !Committable(s.pool, f, source, target) || !LengthOk(length) || |s.rx[source]| >= RING_DEPTH then s
    else
      var d := Descriptor(f, f * BLOCK_SIZE, length, source, target, priority, |s.log|);
      s.(rx := s.rx[source := s.rx[source] + [d]], linux := Published(f, target),
         track := s.track[f := At(Rx(source), d)],
         log := s.log + [Committed(f, source, priority, s.memory[f][..length])], fate := s.fate + [InFlight])
  }

  function Settle(fate: seq<Fate>, number: nat, outcome: Fate): seq<Fate> {
    if number < |fate| then fate[number := outcome] else fate
  }

  function DoTakeTx(s: System, i: nat): System
    requires Shape(s)
  {
    if i >= INTERFACE_COUNT || s.tx[i] == [] then s
    else
      var d := s.tx[i][0];
      if !TxAcceptable(s.pool, d, i) then s.(linux := TxTaken(i), faults := s.faults + 1)
      else
        s.(linux := TxTaken(i), pool := MarkReady(s.pool, d.frame), track := s.track[d.frame := Away],
           fate := Settle(s.fate, d.number, Out(i, s.memory[d.frame][..d.length])),
           delivered := s.delivered[i := s.delivered[i] + [d]])
  }

  function DoTakeReclaim(s: System): System
    requires Shape(s)
  {
    if s.reclaim == [] then s
    else
      var d := s.reclaim[0];
      if !ReclaimAcceptable(s.pool, d) then s.(linux := ReclaimTaken, faults := s.faults + 1)
      else
        var (pool, status) := Release(BeginReclaim(s.pool, d.frame), d.frame);
        s.(linux := ReclaimTaken, pool := pool, track := s.track[d.frame := Away],
           fate := Settle(s.fate, d.number, Dropped), faults := s.faults + if status == Fine then 0 else 1)
  }

  function DoFill(s: System, f: nat, bytes: seq<byte>): System
    requires Shape(s)
  {
    if f < BLOCK_COUNT && |bytes| == BLOCK_SIZE && s.pool.frames[f].state.Allocated?
    then s.(memory := s.memory[f := bytes]) else s
  }

  function LinuxStep(s: System, a: Action): System
    requires Shape(s)
  {
    match (a, s.linux)
    case (Allocate(source), LinuxIdle) => s.(pool := Alloc(s.pool, source).0)
    case (ReleaseFrame(f), LinuxIdle) => s.(pool := Release(s.pool, f).0)
    case (Fill(f, bytes), LinuxIdle) => DoFill(s, f, bytes)
    case (Commit(f, length, source, target, priority), LinuxIdle) => DoCommit(s, f, length, source, target, priority)
    case (MarkCommitted, Published(f, target)) =>
      if f < BLOCK_COUNT then s.(pool := MarkQueued(s.pool, f, target), linux := LinuxIdle) else s
    case (TakeTx(i), LinuxIdle) => DoTakeTx(s, i)
    case (FinishTx, TxTaken(i)) =>
      if i < INTERFACE_COUNT && s.tx[i] != [] then s.(tx := s.tx[i := s.tx[i][1..]], linux := LinuxIdle) else s
    case (TakeReclaim, LinuxIdle) => DoTakeReclaim(s)
    case (FinishReclaim, ReclaimTaken) =>
      if s.reclaim != [] then s.(reclaim := s.reclaim[1..], linux := LinuxIdle) else s
    case _ => s
  }

  // ------------------------------------------------------------------
  // RTOS steps
  // ------------------------------------------------------------------

  function Relocate(track: seq<Track>, f: nat, x: Place): seq<Track> {
    if f < |track| && track[f].At? then track[f := At(x, track[f].original)] else track
  }

  function DoTakeRx(s: System, i: nat): System
    requires Shape(s)
  {
    if i >= INTERFACE_COUNT || s.rx[i] == [] then s
    else
      var d := s.rx[i][0];
      var t := s.(rx := s.rx[i := s.rx[i][1..]]);
      if !InBounds(d) || d.source != i || s.refs[d.frame].Some? then t.(faults := s.faults + 1)
      else t.(refs := s.refs[d.frame := Some(d)], rtos := Holding(d), track := Relocate(s.track, d.frame, Held))
  }

  function FirstOf(queue: seq<Descriptor>, priority: nat): (k: nat)
    ensures k <= |queue|
    ensures k < |queue| ==> queue[k].priority == priority
    ensures forall j :: 0 <= j < k ==> queue[j].priority != priority
  {
    if queue == [] || queue[0].priority == priority then 0 else 1 + FirstOf(queue[1..], priority)
  }

  /** Take the first item of a class; if routes changed, look its target up anew. */
  function DoSchedule(s: System, priority: nat, route: Option<nat>): System {
    var k := FirstOf(s.queue, priority);
    if k == |s.queue| then s
    else
      var d := s.queue[k];
      var routed := if route.Some? && route.value < INTERFACE_COUNT then d.(target := route.value) else d;
      s.(queue := Without(s.queue, k), rtos := InHand(routed), track := Relocate(s.track, d.frame, Hand))
  }

  /** The descriptor the RTOS sends: extent from the reference it kept, addresses
      from the routed item. */
  function TxDescriptor(reference: Descriptor, item: Descriptor): Descriptor {
    Descriptor(item.frame, reference.offset, reference.length, item.source, item.target, item.priority, reference.number)
  }

  function Reference(s: System, f: nat): Option<Descriptor> {
    if f < |s.refs| then s.refs[f] else None
  }

  function DoSendTx(s: System, item: Descriptor): System
    requires Shape(s)
  {
    var kept := Reference(s, item.frame);
    if kept.None? then s.(faults := s.faults + 1)
    else
      var d := TxDescriptor(kept.value, item);
      if !InBounds(d) then s.(faults := s.faults + 1)
      else if |s.tx[d.target]| >= RING_DEPTH then s
      else s.(tx := s.tx[d.target := s.tx[d.target] + [d]], rtos := Gone(d.frame),
              track := Relocate(s.track, d.frame, Tx(d.target)))
  }

  /** A reclaim carries the addresses of the original RX descriptor. */
  function DoSendReclaim(s: System, item: Descriptor): System {
    var kept := Reference(s, item.frame);
    if kept.None? || !InBounds(kept.value) then s.(faults := s.faults + 1, rtos := RtosIdle)
    else if |s.reclaim| >= RING_DEPTH then s
    else s.(reclaim := s.reclaim + [kept.value], rtos := Gone(item.frame),
            track := Relocate(s.track, item.frame, Reclaim))
  }

  /** The reclaim ring looked full: the reclaim is kept for later. */
  function DoFreeze(s: System, item: Descriptor): System {
    var kept := Reference(s, item.frame);
    if kept.None? || HasFrame(s.frozen, item.frame) || |s.frozen| >= BLOCK_COUNT
    then s.(faults := s.faults + 1, rtos := RtosIdle)
    else s.(frozen := s.frozen + [kept.value], rtos := RtosIdle, track := Relocate(s.track, item.frame, Frozen))
  }

  function RtosStep(s: System, a: Action): System
    requires Shape(s)
  {
    match (a, s.rtos)
    case (TakeRx(i), RtosIdle) => DoTakeRx(s, i)
    case (Enqueue(target), Holding(d)) =>
      if target >= INTERFACE_COUNT then s
      else if |s.queue| >= BLOCK_COUNT then s.(faults := s.faults + 1)
      else s.(queue := s.queue + [d.(target := target)], rtos := RtosIdle, track := Relocate(s.track, d.frame, Queue))
    case (Schedule(priority, route), RtosIdle) => DoSchedule(s, priority, route)
    case (SendTx, InHand(d)) => DoSendTx(s, d)
    case (SendReclaim, Holding(d)) => DoSendReclaim(s, d)
    case (SendReclaim, InHand(d)) => DoSendReclaim(s, d)
    case (Freeze, Holding(d)) => DoFreeze(s, d)
    case (Freeze, InHand(d)) => DoFreeze(s, d)
    case (ClearReference, Gone(f)) =>
      if f < BLOCK_COUNT then s.(refs := s.refs[f := None], rtos := RtosIdle) else s
    case (RetryFrozen, RtosIdle) =>
      if s.frozen == [] || |s.reclaim| >= RING_DEPTH then s
      else s.(reclaim := s.reclaim + [s.frozen[0]], rtos := Rewritten(s.frozen[0].frame),
              track := Relocate(s.track, s.frozen[0].frame, Reclaim))
    case (ForgetFrozen, Rewritten(f)) =>
      if f < BLOCK_COUNT && s.frozen != []
      then s.(refs := s.refs[f := None], frozen := s.frozen[1..], rtos := RtosIdle) else s
    case _ => s
  }

  predicate IsLinux(a: Action) {
    a.Allocate? || a.Fill? || a.Commit? || a.MarkCommitted? || a.TakeTx? || a.FinishTx? || a.TakeReclaim? ||
    a.FinishReclaim? || a.ReleaseFrame?
  }

  function Step(s: System, a: Action): System
    requires Shape(s)
  {
    if IsLinux(a) then LinuxStep(s, a) else RtosStep(s, a)
  }

  lemma LinuxStepShape(s: System, a: Action)
    requires Shape(s)
    ensures Shape(LinuxStep(s, a))
  {
  }

  lemma RtosStepShape(s: System, a: Action)
    requires Shape(s)
    ensures Shape(RtosStep(s, a))
  {
  }

  lemma StepShape(s: System, a: Action)
    requires Shape(s)
    ensures Shape(Step(s, a))
  {
    hide LinuxStep, RtosStep, Shape;
    LinuxStepShape(s, a);
    RtosStepShape(s, a);
  }

  function Run(s: System, actions: seq<Action>): (t: System)
    requires Shape(s)
    ensures Shape(t)
    decreases |actions|
  {
    if actions == [] then s
    else
      StepShape(s, actions[0]);
      Run(Step(s, actions[0]), actions[1..])
  }

  lemma RunTwo(s: System, a: Action, b: Action)
    requires Shape(s)
    ensures Shape(Step(s, a)) && Run(s, [a, b]) == Step(Step(s, a), b)
  {
    hide Step, Shape;
    StepShape(s, a);
    StepShape(Step(s, a), b);
    assert [b][1..] == [];
    assert Run(Step(s, a), [b]) == Step(Step(s, a), b);
    assert [a, b][0] == a && [a, b][1..] == [b];
  }

  lemma {:induction false} RunConcat(s: System, a: seq<Action>, b: seq<Action>)
    requires Shape(s)
    ensures Run(s, a + b) == Run(Run(s, a), b)
    decreases |a|
  {
    hide Step, Shape;
    if a == [] {
      assert a + b == b;
    } else {
      StepShape(s, a[0]);
      assert (a + b)[0] == a[0] && (a + b)[1..] == a[1..] + b;
      RunConcat(Step(s, a[0]), a[1..], b);
    }
  }

  function Blank(): (block: seq<byte>)
    ensures |block| == BLOCK_SIZE
  {
    seq(BLOCK_SIZE, _ => 0)
  }

  /** A freshly formatted region and a freshly attached RTOS. */
  function Boot(): (s: System)
    ensures Shape(s)
  {
    System(EmptyPool(), seq(BLOCK_COUNT, _ => Blank()),
           [[], [], [], [], [], []], [[], [], [], [], [], []], [], LinuxIdle,
           seq(BLOCK_COUNT, _ => None), [], [], RtosIdle, 0,
           seq(BLOCK_COUNT, _ => Away), [], [], [[], [], [], [], [], []])
  }

  /** The state after a run from boot. */
  function Reached(actions: seq<Action>): (s: System)
    ensures Shape(s)
  {
    Run(Boot(), actions)
  }

  // ------------------------------------------------------------------
  // Invariants
  // ------------------------------------------------------------------

  function Rest(ds: seq<Descriptor>, taken: bool): seq<Descriptor> {
    if taken && ds != [] then ds[1..] else ds
  }

  /** What a place holds. A descriptor whose fate is decided but which has not
      been removed yet no longer counts. */
  function Contents(s: System, x: Place): seq<Descriptor>
    requires Shape(s)
  {
    match x
    case Rx(i) => if i < INTERFACE_COUNT then s.rx[i] else []
    case Tx(i) => if i < INTERFACE_COUNT then Rest(s.tx[i], s.linux == TxTaken(i)) else []
    case Reclaim => Rest(s.reclaim, s.linux.ReclaimTaken?)
    case Held => if s.rtos.Holding? then [s.rtos.item] else []
    case Hand => if s.rtos.InHand? then [s.rtos.item] else []
    case Queue => s.queue
    case Frozen => Rest(s.frozen, s.rtos.Rewritten?)
  }

  ghost predicate Placed(s: System)
    requires Shape(s)
  {
    forall x: Place :: Holds(Contents(s, x), s.track, x)
  }

  predicate Sensible(s: System) {
    && (s.linux.TxTaken? && s.linux.ring < |s.tx| ==> s.tx[s.linux.ring] != [])
    && (s.linux.ReclaimTaken? ==> s.reclaim != [])
    && (s.linux.Published? ==> s.linux.frame < BLOCK_COUNT)
    && (s.rtos.Rewritten? ==> s.frozen != [] && s.frozen[0].frame == s.rtos.frame)
    && (s.rtos.Rewritten? || s.rtos.Gone? ==> s.rtos.frame < BLOCK_COUNT)
  }

  predicate IsPublished(s: System, f: nat) {
    s.linux.Published? && s.linux.frame == f
  }

  /** A block's bookkeeping agrees with where it is. */
  predicate Tied(s: System, f: nat)
    requires Shape(s) && f < BLOCK_COUNT
  {
    var m := s.pool.frames[f];
    && !m.pendingReclaim
    && (s.track[f].Away? ==> !m.state.RxQueued? && !IsPublished(s, f))
    && (s.track[f].At? ==>
         && (if IsPublished(s, f) then m.state.Allocated? && s.linux.target == s.track[f].original.target
             else m.state.RxQueued? && m.target == s.track[f].original.target)
         && Stamped(s, f, s.track[f].original) && m.source == s.track[f].original.source)
  }

  ghost predicate AllTied(s: System)
    requires Shape(s)
  {
    forall f :: 0 <= f < BLOCK_COUNT ==> Tied(s, f)
  }

  /** The committed message a block still carries, unchanged. */
  predicate Stamped(s: System, f: nat, d: Descriptor)
    requires Shape(s) && f < BLOCK_COUNT
  {
    && InBounds(d) && d.frame == f
    && d.number < |s.log| && s.fate[d.number] == InFlight
    && s.log[d.number] == Committed(f, d.source, d.priority, s.memory[f][..d.length])
  }

  predicate Local(t: Track) {
    t.At? && (t.place.Held? || t.place.Hand? || t.place.Queue? || t.place.Frozen?)
  }

  predicate Leftover(pc: RtosPc, f: nat) {
    (pc.Gone? || pc.Rewritten?) && pc.frame == f
  }

  /** The RTOS keeps a reference exactly to the blocks it answers for. */
  predicate Referenced(s: System, f: nat)
    requires Shape(s) && f < BLOCK_COUNT
  {
    if Leftover(s.rtos, f) then s.refs[f].Some? && !Local(s.track[f])
    else s.refs[f] == if Local(s.track[f]) then Some(s.track[f].original) else None
  }

  ghost predicate AllReferenced(s: System)
    requires Shape(s)
  {
    forall f :: 0 <= f < BLOCK_COUNT ==> Referenced(s, f)
  }

  /** Everything on the way from one RX ring to one TX ring, front first. */
  function Line(s: System, source: nat, ring: nat): seq<Tag>
    requires Shape(s) && source < INTERFACE_COUNT && ring < INTERFACE_COUNT
  {
    PipelineLine(Tags(s.delivered[ring] + Contents(s, Tx(ring))), Tags(Contents(s, Hand)), Tags(s.queue),
         Tags(Contents(s, Held)), Tags(s.rx[source]))
  }

  function PipelineLine(out: seq<Tag>, hand: seq<Tag>, queue: seq<Tag>, held: seq<Tag>, rx: seq<Tag>): seq<Tag> {
    out + hand + queue + held + rx
  }

  ghost predicate InOrder(s: System)
    requires Shape(s)
  {
    forall source: nat, ring: nat, priority: nat | source < INTERFACE_COUNT && ring < INTERFACE_COUNT ::
      Ordered(Line(s, source, ring), source, priority, |s.log|)
  }

  /** A delivery is the committed message, byte for byte. */
  predicate Delivered(s: System, ring: nat, d: Descriptor) {
    && d.number < |s.log| == |s.fate| && d.source < INTERFACE_COUNT
    && s.log[d.number].source == d.source && s.log[d.number].priority == d.priority
    && s.fate[d.number] == Out(ring, s.log[d.number].bytes)
  }

  ghost predicate Deliveries(s: System)
    requires Shape(s)
  {
    && (forall i, k :: 0 <= i < INTERFACE_COUNT && 0 <= k < |s.delivered[i]| ==> Delivered(s, i, s.delivered[i][k]))
    && (forall i, j, k :: 0 <= i < INTERFACE_COUNT && 0 <= j < k < |s.delivered[i]| ==>
         s.delivered[i][j].number != s.delivered[i][k].number)
  }

  predicate Numbered(ds: seq<Descriptor>, n: nat) {
    exists k :: 0 <= k < |ds| && ds[k].number == n
  }

  /** Message n is still in its block, or it was delivered, or it was reclaimed. */
  predicate AccountedFor(s: System, n: nat)
    requires Shape(s) && n < |s.log|
  {
    var f := s.log[n].frame;
    match s.fate[n]
    case InFlight => f < BLOCK_COUNT && s.track[f].At? && s.track[f].original.number == n
    case Out(ring, _) => ring < INTERFACE_COUNT && Numbered(s.delivered[ring], n)
    case Dropped => true
  }

  ghost predicate Accounted(s: System)
    requires Shape(s)
  {
    forall n :: 0 <= n < |s.log| ==> AccountedFor(s, n)
  }

  ghost predicate Inv(s: System) {
    && Shape(s) && Valid(s.pool) && Sensible(s) && s.faults == 0 && Accounted(s)
    && Placed(s)
    && AllTied(s)
    && AllReferenced(s)
    && InOrder(s)
    && Deliveries(s)
  }

  lemma InvShape(s: System)
    requires Inv(s)
    ensures Shape(s)
  {
  }
}
