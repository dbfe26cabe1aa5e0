/** A message gets through: the steps that carry one message from an adapter over
    the RTOS to another adapter, and the state they lead to. */
module Delivery {
  import opened Types
  import opened Tracking
  import opened LinuxPool
  import opened Gateway
  import GatewayLaws
  import GatewayRtos

  datatype Message = Message(source: nat, target: nat, priority: nat, bytes: seq<byte>, length: nat)

  /** Both sides are between two calls, the message is well formed, a block can be
      had for it, and nothing is ahead of it on its way. */
  ghost predicate Clear(s: System, m: Message) {
    && Inv(s) && s.linux.LinuxIdle? && s.rtos.RtosIdle?
    && m.source < INTERFACE_COUNT && m.target < INTERFACE_COUNT
    && |m.bytes| == BLOCK_SIZE && HEADER_SIZE <= m.length <= BLOCK_SIZE
    && s.pool.quotaUsed[m.source] < s.pool.quota[m.source] && s.pool.used < BLOCK_COUNT
    && s.rx[m.source] == [] && s.tx[m.target] == [] && FirstOf(s.queue, m.priority) == |s.queue|
  }

  /** The block the message travels in: the lowest free one. */
  function Block(s: System, m: Message): nat
    requires Shape(s)
  {
    Alloc(s.pool, m.source).2
  }

  function Card(s: System, m: Message): Descriptor
    requires Shape(s)
  {
    Descriptor(Block(s, m), Block(s, m) * BLOCK_SIZE, m.length, m.source, m.target, m.priority, |s.log|)
  }

  function Entry(s: System, m: Message): Committed
    requires Shape(s) && m.length <= |m.bytes|
  {
    Committed(Block(s, m), m.source, m.priority, m.bytes[..m.length])
  }

  /** The state with the message committed and nobody working on it. */
  function Handed(s: System, m: Message): System
    requires Shape(s) && m.source < INTERFACE_COUNT && Block(s, m) < BLOCK_COUNT && m.length <= |m.bytes|
  {
    var f := Block(s, m);
    s.(pool := MarkQueued(Alloc(s.pool, m.source).0, f, m.target), memory := s.memory[f := m.bytes],
       rx := s.rx[m.source := [Card(s, m)]], track := s.track[f := At(Rx(m.source), Card(s, m))],
       log := s.log + [Entry(s, m)], fate := s.fate + [InFlight])
  }

  lemma RunCons(s: System, a: Action, rest: seq<Action>)
    requires Shape(s)
    ensures Shape(Step(s, a)) && Run(s, [a] + rest) == Run(Step(s, a), rest)
  {
    StepShape(s, a);
    hide Step, Shape;
    assert ([a] + rest)[0] == a && ([a] + rest)[1..] == rest;
  }

  lemma RunFour(s: System, a: Action, b: Action, c: Action, d: Action)
    requires Shape(s)
    ensures Shape(Step(s, a)) && Shape(Step(Step(s, a), b)) && Shape(Step(Step(Step(s, a), b), c))
    ensures Run(s, [a, b, c, d]) == Step(Step(Step(Step(s, a), b), c), d)
  {
    hide *;
    RunCons(s, a, [b, c, d]);
    RunCons(Step(s, a), b, [c, d]);
    RunTwo(Step(Step(s, a), b), c, d);
    assert [a] + [b, c, d] == [a, b, c, d] && [b] + [c, d] == [b, c, d];
  }

  /** A block that can be allocated is known to nobody. */
  lemma FreshBlock(s: System, m: Message)
    requires Clear(s, m)
    ensures Block(s, m) < BLOCK_COUNT && Alloc(s.pool, m.source).1 == Fine
    ensures s.pool.frames[Block(s, m)] == NO_META && !s.pool.bitmap[Block(s, m)]
    ensures s.refs[Block(s, m)] == None && s.track[Block(s, m)] == Away
  {
    AllocExact(s.pool, m.source);
    var f := Block(s, m);
    assert FrameOk(s.pool.bitmap[f], s.pool.frames[f]);
    assert Tied(s, f);
    assert Referenced(s, f);
    hide Accounted, Placed, InOrder, Deliveries, Alloc, Count;
  }

  // ------------------------------------------------------------------
  // Linux commits
  // ------------------------------------------------------------------

  lemma PublishIs(b: System, f: nat, length: nat, source: nat, target: nat, priority: nat)
    requires Shape(b) && b.linux.LinuxIdle? && Committable(b.pool, f, source, target)
    requires HEADER_SIZE <= length <= BLOCK_SIZE && b.rx[source] == []
    ensures var d := Descriptor(f, f * BLOCK_SIZE, length, source, target, priority, |b.log|);
      Step(b, Commit(f, length, source, target, priority)) ==
        b.(rx := b.rx[source := [d]], linux := Published(f, target), track := b.track[f := At(Rx(source), d)],
           log := b.log + [Committed(f, source, priority, b.memory[f][..length])], fate := b.fate + [InFlight])
  {
    var d := Descriptor(f, f * BLOCK_SIZE, length, source, target, priority, |b.log|);
    assert b.rx[source] + [d] == [d];
  }

  /** What Linux does for a message up to the marked block. */
  lemma CommitSteps(s: System, m: Message)
    requires Clear(s, m)
    ensures Block(s, m) < BLOCK_COUNT
    ensures Run(s, [Allocate(m.source), Fill(Block(s, m), m.bytes),
                    Commit(Block(s, m), m.length, m.source, m.target, m.priority), MarkCommitted]) == Handed(s, m)
  {
    FreshBlock(s, m);
    var f := Block(s, m);
    var fill, send := Fill(f, m.bytes), Commit(f, m.length, m.source, m.target, m.priority);
    RunFour(s, Allocate(m.source), fill, send, MarkCommitted);
    var a, b := Step(s, Allocate(m.source)), Step(Step(s, Allocate(m.source)), fill);
    AllocatedBlock(s, m);
    hide Inv, Run, Alloc, Shape;
    assert b.pool == a.pool && b.memory == s.memory[f := m.bytes] && b.rx == s.rx && b.log == s.log && b.track == s.track;
    PublishIs(b, f, m.length, m.source, m.target, m.priority);
    hide Committable;
  }

  /** An allocation and a fill, and the block can be committed. */
  lemma AllocatedBlock(s: System, m: Message)
    requires Clear(s, m)
    ensures Shape(Step(s, Allocate(m.source))) && Block(s, m) < BLOCK_COUNT
    ensures var f := Block(s, m);
      var a := Step(s, Allocate(m.source)); var b := Step(a, Fill(f, m.bytes));
      && a == s.(pool := Alloc(s.pool, m.source).0) && b == a.(memory := s.memory[f := m.bytes])
      && Shape(b) && Committable(b.pool, f, m.source, m.target)
  {
    FreshBlock(s, m);
    StepShape(s, Allocate(m.source));
    var f := Block(s, m);
    var a := Step(s, Allocate(m.source));
    assert a == s.(pool := Alloc(s.pool, m.source).0);
    StepShape(a, Fill(f, m.bytes));
    hide Inv;
  }

  // ------------------------------------------------------------------
  // The RTOS carries it over
  // ------------------------------------------------------------------

  lemma TakenIs(h: System, i: nat, d: Descriptor)
    requires Shape(h) && h.rtos.RtosIdle? && i < INTERFACE_COUNT && h.rx[i] == [d]
    requires InBounds(d) && d.source == i && h.refs[d.frame] == None && h.track[d.frame] == At(Rx(i), d)
    ensures Step(h, TakeRx(i)) ==
      h.(rx := h.rx[i := []], refs := h.refs[d.frame := Some(d)], rtos := Holding(d),
         track := h.track[d.frame := At(Held, d)])
  {
    assert h.rx[i][1..] == [];
  }

  lemma QueuedIs(h: System, d: Descriptor)
    requires Shape(h) && h.rtos == Holding(d) && InBounds(d) && |h.queue| < BLOCK_COUNT
    requires h.track[d.frame] == At(Held, d)
    ensures Step(h, Enqueue(d.target)) ==
      h.(queue := h.queue + [d], rtos := RtosIdle, track := h.track[d.frame := At(Queue, d)])
  {
    assert d.(target := d.target) == d;
  }

  lemma {:induction false} FirstOfNew(queue: seq<Descriptor>, d: Descriptor)
    requires FirstOf(queue, d.priority) == |queue|
    ensures FirstOf(queue + [d], d.priority) == |queue|
  {
    var k := FirstOf(queue + [d], d.priority);
    assert (queue + [d])[|queue|] == d;
    assert forall j :: 0 <= j < |queue| ==> (queue + [d])[j] == queue[j];
  }

  lemma PickedIs(h: System, queue: seq<Descriptor>, d: Descriptor)
    requires Shape(h) && h.rtos.RtosIdle? && h.queue == queue + [d] && FirstOf(queue, d.priority) == |queue|
    requires d.frame < BLOCK_COUNT && h.track[d.frame] == At(Queue, d)
    ensures Step(h, Schedule(d.priority, None)) ==
      h.(queue := queue, rtos := InHand(d), track := h.track[d.frame := At(Hand, d)])
  {
    ScheduleCalls(h, d.priority);
    hide Step, Shape;
    FirstOfNew(queue, d);
    assert Without(queue + [d], |queue|) == queue;
    hide FirstOf;
  }

  lemma ScheduleCalls(h: System, priority: nat)
    requires Shape(h) && h.rtos.RtosIdle?
    ensures Step(h, Schedule(priority, None)) == DoSchedule(h, priority, None)
  {
    hide DoSchedule, Shape;
  }

  lemma SentIs(h: System, d: Descriptor)
    requires Shape(h) && h.rtos == InHand(d) && InBounds(d) && h.refs[d.frame] == Some(d) && h.tx[d.target] == []
    requires h.track[d.frame] == At(Hand, d)
    ensures Step(h, SendTx) ==
      h.(tx := h.tx[d.target := [d]], rtos := Gone(d.frame), track := h.track[d.frame := At(Tx(d.target), d)])
  {
    assert TxDescriptor(d, d) == d && h.tx[d.target] + [d] == [d];
  }

  lemma ClearedIs(h: System, f: nat)
    requires Shape(h) && h.rtos == Gone(f) && f < BLOCK_COUNT
    ensures Step(h, ClearReference) == h.(refs := h.refs[f := None], rtos := RtosIdle)
  {
  }

  /** The descriptor d is alone in its ring and nothing is ahead of it. */
  predicate Alone(h: System, d: Descriptor) {
    && Shape(h) && h.rtos.RtosIdle? && InBounds(d) && h.rx[d.source] == [d] && h.tx[d.target] == []
    && h.refs[d.frame] == None && h.track[d.frame] == At(Rx(d.source), d)
    && |h.queue| < BLOCK_COUNT && FirstOf(h.queue, d.priority) == |h.queue|
  }

  function OnHold(h: System, d: Descriptor): System
    requires Alone(h, d)
  {
    h.(rx := h.rx[d.source := []], refs := h.refs[d.frame := Some(d)], rtos := Holding(d),
       track := h.track[d.frame := At(Held, d)])
  }

  function InQueue(h: System, d: Descriptor): System
    requires Alone(h, d)
  {
    h.(rx := h.rx[d.source := []], refs := h.refs[d.frame := Some(d)], queue := h.queue + [d],
       track := h.track[d.frame := At(Queue, d)])
  }

  function Chosen(h: System, d: Descriptor): System
    requires Alone(h, d)
  {
    h.(rx := h.rx[d.source := []], refs := h.refs[d.frame := Some(d)], rtos := InHand(d),
       track := h.track[d.frame := At(Hand, d)])
  }

  function Sent(h: System, d: Descriptor): System
    requires Alone(h, d)
  {
    h.(rx := h.rx[d.source := []], tx := h.tx[d.target := [d]], refs := h.refs[d.frame := Some(d)],
       rtos := Gone(d.frame), track := h.track[d.frame := At(Tx(d.target), d)])
  }

  function Over(h: System, d: Descriptor): System
    requires Alone(h, d)
  {
    h.(rx := h.rx[d.source := []], tx := h.tx[d.target := [d]], track := h.track[d.frame := At(Tx(d.target), d)])
  }

  lemma Taking(h: System, d: Descriptor)
    requires Alone(h, d)
    ensures Step(h, TakeRx(d.source)) == OnHold(h, d) && Shape(OnHold(h, d))
  {
    TakenIs(h, d.source, d);
    hide Step, FirstOf;
  }

  lemma Queueing(h: System, d: Descriptor)
    requires Alone(h, d)
    ensures Step(OnHold(h, d), Enqueue(d.target)) == InQueue(h, d) && Shape(InQueue(h, d))
  {
    QueuedIs(OnHold(h, d), d);
    hide Step, FirstOf;
  }

  lemma Choosing(h: System, d: Descriptor)
    requires Alone(h, d)
    ensures Step(InQueue(h, d), Schedule(d.priority, None)) == Chosen(h, d) && Shape(Chosen(h, d))
  {
    hide Step, FirstOf;
    PickedIs(InQueue(h, d), h.queue, d);
  }

  lemma Sending(h: System, d: Descriptor)
    requires Alone(h, d)
    ensures Step(Chosen(h, d), SendTx) == Sent(h, d) && Shape(Sent(h, d))
  {
    SentIs(Chosen(h, d), d);
    hide Step, FirstOf;
  }

  lemma Clearing(h: System, d: Descriptor)
    requires Alone(h, d)
    ensures Step(Sent(h, d), ClearReference) == Over(h, d) && Shape(Over(h, d))
  {
    ClearedIs(Sent(h, d), d.frame);
    assert h.refs[d.frame := Some(d)][d.frame := None] == h.refs;
    hide Step, FirstOf;
  }

  /** What the RTOS does for a descriptor that is alone, in five steps. */
  lemma CrossSteps(h: System, d: Descriptor)
    requires Alone(h, d)
    ensures Shape(h)
    ensures Run(h, [TakeRx(d.source), Enqueue(d.target), Schedule(d.priority, None), SendTx, ClearReference]) ==
      Over(h, d)
  {
    assert Shape(h);
    hide *;
    Taking(h, d);
    Queueing(h, d);
    Choosing(h, d);
    Sending(h, d);
    Clearing(h, d);
    var rest := [Enqueue(d.target), Schedule(d.priority, None), SendTx, ClearReference];
    RunCons(h, TakeRx(d.source), rest);
    RunFour(OnHold(h, d), Enqueue(d.target), Schedule(d.priority, None), SendTx, ClearReference);
    assert [TakeRx(d.source)] + rest ==
      [TakeRx(d.source), Enqueue(d.target), Schedule(d.priority, None), SendTx, ClearReference];
  }

  // ------------------------------------------------------------------
  // Linux sends it out
  // ------------------------------------------------------------------

  /** The descriptor d is alone in its TX ring and Linux would accept it. */
  predicate Waiting(o: System, d: Descriptor) {
    && Shape(o) && o.linux.LinuxIdle? && d.target < INTERFACE_COUNT && o.tx[d.target] == [d]
    && TxAcceptable(o.pool, d, d.target) && d.number < |o.fate|
  }

  function Accepted(o: System, d: Descriptor): System
    requires Waiting(o, d)
  {
    o.(linux := TxTaken(d.target), pool := MarkReady(o.pool, d.frame), track := o.track[d.frame := Away],
       fate := o.fate[d.number := Out(d.target, o.memory[d.frame][..d.length])],
       delivered := o.delivered[d.target := o.delivered[d.target] + [d]])
  }

  function Dequeued(o: System, d: Descriptor): System
    requires Waiting(o, d)
  {
    Accepted(o, d).(linux := LinuxIdle, tx := o.tx[d.target := []])
  }

  function Freed(o: System, d: Descriptor): System
    requires Waiting(o, d)
  {
    Dequeued(o, d).(pool := Release(MarkReady(o.pool, d.frame), d.frame).0)
  }

  lemma Accepting(o: System, d: Descriptor)
    requires Waiting(o, d)
    ensures Step(o, TakeTx(d.target)) == Accepted(o, d) && Shape(Accepted(o, d))
  {
    assert o.tx[d.target][0] == d;
  }

  lemma Dequeuing(o: System, d: Descriptor)
    requires Waiting(o, d)
    ensures Step(Accepted(o, d), FinishTx) == Dequeued(o, d) && Shape(Dequeued(o, d))
  {
    assert o.tx[d.target][1..] == [];
  }

  lemma Freeing(o: System, d: Descriptor)
    requires Waiting(o, d)
    ensures Step(Dequeued(o, d), ReleaseFrame(d.frame)) == Freed(o, d)
  {
    hide Release, TxAcceptable;
  }

  /** What Linux does for a waiting descriptor, in three steps. */
  lemma SendOutSteps(o: System, d: Descriptor)
    requires Waiting(o, d)
    ensures Shape(o) && Run(o, [TakeTx(d.target), FinishTx, ReleaseFrame(d.frame)]) == Freed(o, d)
  {
    assert Shape(o);
    hide *;
    Accepting(o, d);
    Dequeuing(o, d);
    Freeing(o, d);
    var rest := [FinishTx, ReleaseFrame(d.frame)];
    RunCons(o, TakeTx(d.target), rest);
    RunTwo(Accepted(o, d), FinishTx, ReleaseFrame(d.frame));
    assert [TakeTx(d.target)] + rest == [TakeTx(d.target), FinishTx, ReleaseFrame(d.frame)];
  }

  // ------------------------------------------------------------------
  // All of it
  // ------------------------------------------------------------------

  function Commits(s: System, m: Message): seq<Action>
    requires Shape(s)
  {
    [Allocate(m.source), Fill(Block(s, m), m.bytes),
     Commit(Block(s, m), m.length, m.source, m.target, m.priority), MarkCommitted]
  }

  function Crosses(m: Message): seq<Action> {
    [TakeRx(m.source), Enqueue(m.target), Schedule(m.priority, None), SendTx, ClearReference]
  }

  function SendsOut(s: System, m: Message): seq<Action>
    requires Shape(s)
  {
    [TakeTx(m.target), FinishTx, ReleaseFrame(Block(s, m))]
  }

  lemma HandedAlone(s: System, m: Message)
    requires Clear(s, m)
    ensures Block(s, m) < BLOCK_COUNT
    ensures Alone(Handed(s, m), Card(s, m)) && Inv(Handed(s, m))
  {
    FreshBlock(s, m);
    CommitSteps(s, m);
    GatewayLaws.RunInv(s, Commits(s, m));
    var h, d := Handed(s, m), Card(s, m);
    InvShape(h);
    GatewayLaws.StepInv(h, TakeRx(m.source));
    hide Inv, Run, Alloc, Shape;
    TakenIs(h, m.source, d);
    GatewayRtos.QueueHasRoom(Step(h, TakeRx(m.source)));
    hide Step, FirstOf;
  }

  lemma OverWaiting(s: System, m: Message)
    requires Clear(s, m)
    ensures Block(s, m) < BLOCK_COUNT && Alone(Handed(s, m), Card(s, m))
    ensures Waiting(Over(Handed(s, m), Card(s, m)), Card(s, m))
  {
    FreshBlock(s, m);
    HandedAlone(s, m);
    AllocatedBlock(s, m);
    hide Inv, Alloc, Step, FirstOf;
  }

  /** What is left when the message is out: the block is free again and only the
      history, the memory and the counters show it. */
  lemma FreedIs(s: System, m: Message)
    requires Clear(s, m) && Block(s, m) < BLOCK_COUNT && Alone(Handed(s, m), Card(s, m))
    requires Waiting(Over(Handed(s, m), Card(s, m)), Card(s, m))
    ensures var t, d := Freed(Over(Handed(s, m), Card(s, m)), Card(s, m)), Card(s, m);
      && t == s.(pool := t.pool, memory := s.memory[d.frame := m.bytes], track := s.track,
                 log := s.log + [Committed(d.frame, m.source, m.priority, m.bytes[..m.length])],
                 fate := s.fate + [Out(m.target, m.bytes[..m.length])],
                 delivered := s.delivered[m.target := s.delivered[m.target] + [d]])
      && t.pool.frames == s.pool.frames && t.pool.used == s.pool.used && t.pool.quotaUsed == s.pool.quotaUsed
  {
    FreshBlock(s, m);
    var f, d := Block(s, m), Card(s, m);
    var t := Freed(Over(Handed(s, m), d), d);
    assert s.rx[m.source := [d]][m.source := []] == s.rx;
    assert s.tx[m.target := [d]][m.target := []] == s.tx;
    assert t.track == s.track;
    assert t.fate == s.fate + [Out(m.target, m.bytes[..m.length])];
    PoolRestored(s.pool, m.source, m.target);
    hide Inv, Alloc, Release, Step, FirstOf;
  }

  /** Allocating, queueing, sending and releasing a block leaves the blocks and the
      charges as they were. */
  lemma PoolRestored(p: Pool, source: nat, target: nat)
    requires Valid(p) && source < INTERFACE_COUNT && Alloc(p, source).1 == Fine
    ensures Alloc(p, source).2 < BLOCK_COUNT
    ensures var (q, _, f) := Alloc(p, source);
      var r := Release(MarkReady(MarkQueued(q, f, target), f), f).0;
      r.frames == p.frames && r.used == p.used && r.quotaUsed == p.quotaUsed
  {
    AllocExact(p, source);
    var f := Alloc(p, source).2;
    assert FrameOk(p.bitmap[f], p.frames[f]);
    hide Count, FirstFree;
    var r := Release(MarkReady(MarkQueued(Alloc(p, source).0, f, target), f), f).0;
    assert r.frames == p.frames && r.quotaUsed == p.quotaUsed;
  }

  /** A message gets through. From every state that is clear for it, these twelve
      steps carry it from its adapter over the RTOS to the adapter of its target:
      its bytes go out there unchanged, behind what went out there before, the
      block it travelled in is free again, and nothing else is different. */
  lemma MessageGetsThrough(s: System, m: Message)
    requires Clear(s, m)
    ensures Shape(s) && Block(s, m) < BLOCK_COUNT && s.pool.frames[Block(s, m)].state.Free?
    ensures var t, f := Run(s, Commits(s, m) + (Crosses(m) + SendsOut(s, m))), Block(s, m);
      var bytes := m.bytes[..m.length];
      && Inv(t)
      && t.delivered == s.delivered[m.target := s.delivered[m.target] +
           [Descriptor(f, f * BLOCK_SIZE, m.length, m.source, m.target, m.priority, |s.log|)]]
      && t.log == s.log + [Committed(f, m.source, m.priority, bytes)] && t.fate == s.fate + [Out(m.target, bytes)]
      && t == s.(pool := t.pool, memory := s.memory[f := m.bytes], log := t.log, fate := t.fate,
                 delivered := t.delivered)
      && t.pool.frames == s.pool.frames && t.pool.used == s.pool.used && t.pool.quotaUsed == s.pool.quotaUsed
  {
    InvShape(s);
    FreshBlock(s, m);
    HandedAlone(s, m);
    OverWaiting(s, m);
    FreedIs(s, m);
    GatewayLaws.RunInv(s, Commits(s, m) + (Crosses(m) + SendsOut(s, m)));
    hide Inv, Run, Alloc, Release, Step, FirstOf, Shape, Alone, Waiting;
    CommitSteps(s, m);
    CrossSteps(Handed(s, m), Card(s, m));
    SendOutSteps(Over(Handed(s, m), Card(s, m)), Card(s, m));
    RunConcat(s, Commits(s, m), Crosses(m) + SendsOut(s, m));
    RunConcat(Handed(s, m), Crosses(m), SendsOut(s, m));
  }
}
