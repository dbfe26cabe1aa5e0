/** CAN fragmentation and reassembly: a message of 40 to 512 bytes travels as
    one start frame and up to 103 data frames of five payload bytes each. */
module CanReassembly {
  import opened Types
  import Crc16

  // ------------------------------------------------------------------
  // Frames
  // ------------------------------------------------------------------

  type Data8 = d: seq<byte> | |d| == 8 witness [0, 0, 0, 0, 0, 0, 0, 0]

  datatype CanFrame = CanFrame(id: bv32, dlc: nat, data: Data8)

  const SOF_BYTE: byte := 0xA0
  const DATA_BYTE: byte := 0xD0
  const CLASSIC_DLC: nat := 8
  const PAYLOAD: nat := 5
  const SESSIONS: nat := 8
  const BITMAP_BYTES: nat := 16
  const MAX_FRAGMENTS: nat := 103
  const DEFAULT_TIMEOUT: nat := 500

  const RTR_FLAG: bv32 := 0x4000_0000
  const EFF_FLAG: bv32 := 0x8000_0000
  const EFF_MASK: bv32 := 0x1FFF_FFFF
  const SFF_MASK: bv32 := 0x0000_07FF

  predicate IsRemote(id: bv32) {
    id & RTR_FLAG != 0
  }

  function Normalize(id: bv32): bv32 {
    if id & EFF_FLAG != 0 then (id & EFF_MASK) | EFF_FLAG else id & SFF_MASK
  }

  /** The identifier a sender puts on its frames. */
  function TxId(id: bv32, extended: bool): bv32 {
    if extended then (id & EFF_MASK) | EFF_FLAG else id & SFF_MASK
  }

  /** A receiver knows a sender by the identifier the sender transmits. */
  lemma TxIdIsNormal(id: bv32, extended: bool)
    ensures Normalize(TxId(id, extended)) == TxId(id, extended)
    ensures !IsRemote(TxId(id, extended))
  {
  }

  datatype Key = Key(source: bv32, sessionId: byte)

  function KeyOf(f: CanFrame): Key {
    Key(Normalize(f.id), f.data[1])
  }

  datatype Verdict = Fine | BadLength | BadArgument | BadDlc | BadCrc

  datatype Kind = Sof | Data | Rejected(why: Verdict)

  function KindOf(f: CanFrame): Kind {
    if IsRemote(f.id) then Rejected(BadArgument)
    else if f.dlc != CLASSIC_DLC then Rejected(BadDlc)
    else if f.data[0] == SOF_BYTE then Sof
    else if f.data[0] == DATA_BYTE then Data
    else Rejected(BadArgument)
  }

  function Fragments(total: nat): nat {
    (total + PAYLOAD - 1) / PAYLOAD
  }

  function Bits(bytes: seq<byte>): seq<bv8> {
    seq(|bytes|, i requires 0 <= i < |bytes| => bytes[i] as bv8)
  }

  function CrcOf(bytes: seq<byte>): (crc: nat)
    ensures crc < 0x1_0000
  {
    Crc16.Crc(Bits(bytes)) as int
  }

  function DeclaredTotal(f: CanFrame): nat {
    Le16(f.data[2], f.data[3])
  }

  function DeclaredCrc(f: CanFrame): nat {
    Le16(f.data[4], f.data[5])
  }

  function SofCheck(f: CanFrame): Verdict {
    var total := DeclaredTotal(f);
    if total < HEADER_SIZE || total > BLOCK_SIZE || f.data[6] / 2 != 0 then BadLength
    else if f.data[7] == 0 || f.data[7] != Fragments(total) then BadArgument
    else Fine
  }

  predicate Opens(f: CanFrame) {
    KindOf(f) == Sof && SofCheck(f) == Fine
  }

  // ------------------------------------------------------------------
  // Bitmap of received fragments
  // ------------------------------------------------------------------

  /** One shifted left by `bit`. */
  function Mask(bit: nat): bv8
    requires bit < 8
  {
    if bit == 0 then 0x01 else if bit == 1 then 0x02 else if bit == 2 then 0x04 else if bit == 3 then 0x08
    else if bit == 4 then 0x10 else if bit == 5 then 0x20 else if bit == 6 then 0x40 else 0x80
  }

  predicate BitOf(bits: bv8, bit: nat)
    requires bit < 8
  {
    bits & Mask(bit) != 0
  }

  function WithBit(bits: bv8, bit: nat): bv8
    requires bit < 8
  {
    bits | Mask(bit)
  }

  predicate BitmapGet(bitmap: seq<bv8>, s: nat)
    requires s / 8 < |bitmap|
  {
    BitOf(bitmap[s / 8], s % 8)
  }

  function BitmapSet(bitmap: seq<bv8>, s: nat): seq<bv8>
    requires s / 8 < |bitmap|
  {
    bitmap[s / 8 := WithBit(bitmap[s / 8], s % 8)]
  }

  lemma BitSet(bits: bv8, a: nat, b: nat)
    requires a < 8 && b < 8
    ensures BitOf(WithBit(bits, a), b) <==> a == b || BitOf(bits, b)
  {
  }

  lemma BitmapGetSet(bitmap: seq<bv8>, s: nat, t: nat)
    requires s / 8 < |bitmap| && t / 8 < |bitmap|
    ensures BitmapGet(BitmapSet(bitmap, s), t) <==> s == t || BitmapGet(bitmap, t)
  {
    hide BitOf, WithBit;
    if s / 8 == t / 8 {
      BitSet(bitmap[s / 8], s % 8, t % 8);
    }
  }

  function NoBits(): (r: seq<bv8>)
    ensures |r| == BITMAP_BYTES
  {
    seq(BITMAP_BYTES, _ => 0)
  }

  lemma BitmapEmpty(t: nat)
    requires t / 8 < BITMAP_BYTES
    ensures !BitmapGet(NoBits(), t)
  {
    ZeroHasNone(t % 8);
  }

  lemma ZeroHasNone(b: nat)
    requires b < 8
    ensures !BitOf(0, b)
  {
  }

  /** The fragments a bitmap records. */
  function Got(bitmap: seq<bv8>, count: nat): set<nat>
    requires |bitmap| == BITMAP_BYTES && count <= MAX_FRAGMENTS
  {
    set s: nat | s < count && BitmapGet(bitmap, s)
  }

  lemma GotNone(count: nat)
    requires count <= MAX_FRAGMENTS
    ensures Got(NoBits(), count) == {}
  {
    hide BitmapGet;
    forall t: nat | t < count
      ensures !BitmapGet(NoBits(), t)
    {
      BitmapEmpty(t);
    }
  }

  lemma GotOneMore(bitmap: seq<bv8>, count: nat, s: nat)
    requires |bitmap| == BITMAP_BYTES && s < count <= MAX_FRAGMENTS
    ensures |BitmapSet(bitmap, s)| == BITMAP_BYTES
    ensures Got(BitmapSet(bitmap, s), count) == Got(bitmap, count) + {s}
  {
    var after := BitmapSet(bitmap, s);
    forall t: nat | t < count
      ensures BitmapGet(after, t) <==> s == t || BitmapGet(bitmap, t)
    {
      BitmapGetSet(bitmap, s, t);
    }
    hide BitmapGet, BitmapSet;
  }

  function All(count: nat): (r: set<nat>)
    ensures |r| == count && forall s: nat :: s in r <==> s < count
  {
    if count == 0 then {} else All(count - 1) + {count - 1}
  }

  lemma SubsetSize<T>(a: set<T>, b: set<T>)
    requires a <= b
    ensures |a| <= |b| && (|a| == |b| ==> a == b)
  {
    if a != b {
      var rest := b - a;
      assert b == a + rest && a !! rest;
      assert |b| == |a| + |rest|;
      assert rest != {};
    }
  }

  // ------------------------------------------------------------------
  // One session
  // ------------------------------------------------------------------

  datatype Session =
    | Free
    | Open(key: Key, total: nat, crc: nat, count: nat, received: nat,
           started: nat, updated: nat, buffer: seq<byte>, bitmap: seq<bv8>)

  predicate Holds(s: Session, k: Key) {
    s.Open? && s.key == k
  }

  /** The receive counter is the bitmap's population and short of complete. */
  ghost predicate Sound(s: Session) {
    s.Open? ==>
      && HEADER_SIZE <= s.total <= BLOCK_SIZE
      && s.count == Fragments(s.total)
      && |s.buffer| == BLOCK_SIZE
      && |s.bitmap| == BITMAP_BYTES
      && s.received == |Got(s.bitmap, s.count)| < s.count
  }

  lemma FragmentsFit(total: nat)
    requires HEADER_SIZE <= total <= BLOCK_SIZE
    ensures HEADER_SIZE / PAYLOAD <= Fragments(total) <= MAX_FRAGMENTS
    ensures Fragments(total) * PAYLOAD - PAYLOAD < total <= Fragments(total) * PAYLOAD
  {
  }

  function Zeros(n: nat): (r: seq<byte>)
    ensures |r| == n
  {
    seq(n, _ => 0)
  }

  function Opened(f: CanFrame, now: nat): Session {
    Open(KeyOf(f), DeclaredTotal(f), DeclaredCrc(f), f.data[7], 0, now, now, Zeros(BLOCK_SIZE), NoBits())
  }

  predicate Expired(s: Session, now: nat, timeout: nat) {
    s.Open? && now >= s.updated && now - s.updated > timeout
  }

  function Age(s: Session, now: nat, timeout: nat): Session {
    if Expired(s, now, timeout) then Free else s
  }

  function CopyLength(total: nat, s: nat): nat
    requires s * PAYLOAD <= total
  {
    if total - s * PAYLOAD > PAYLOAD then PAYLOAD else total - s * PAYLOAD
  }

  function Splice(buffer: seq<byte>, offset: nat, bytes: seq<byte>): (r: seq<byte>)
    requires offset + |bytes| <= |buffer|
    ensures |r| == |buffer|
    ensures forall i :: 0 <= i < |r| ==> r[i] == if offset <= i < offset + |bytes| then bytes[i - offset] else buffer[i]
  {
    buffer[..offset] + bytes + buffer[offset + |bytes|..]
  }

  datatype Step = Step(session: Session, verdict: Verdict, message: Option<seq<byte>>)

  /** Store one new fragment; nothing outside the declared length is written. */
  function Stored(s: Session, f: CanFrame, now: nat): (t: Session)
    requires s.Open? && Sound(s) && f.data[2] < s.count
    ensures t.Open? && |t.buffer| == BLOCK_SIZE && |t.bitmap| == BITMAP_BYTES
    ensures forall i :: s.total <= i < BLOCK_SIZE ==> t.buffer[i] == s.buffer[i]
  {
    FragmentsFit(s.total);
    var n := f.data[2];
    s.(buffer := Splice(s.buffer, n * PAYLOAD, f.data[3..3 + CopyLength(s.total, n)]),
       bitmap := BitmapSet(s.bitmap, n),
       received := s.received + 1,
       updated := now)
  }

  function Finished(t: Session): Step
    requires t.Open? && t.total <= |t.buffer|
  {
    if t.received < t.count then Step(t, Fine, None)
    else if CrcOf(t.buffer[..t.total]) != t.crc then Step(Free, BadCrc, None)
    else Step(Free, Fine, Some(t.buffer[..t.total]))
  }

  function DataStep(s: Session, f: CanFrame, now: nat): Step
    requires Sound(s)
  {
    if s.Free? then Step(Free, BadArgument, None)
    else if f.data[2] >= s.count then Step(s, BadArgument, None)
    else
      FragmentsFit(s.total);
      if BitmapGet(s.bitmap, f.data[2]) then Step(s, Fine, None)
      else Finished(Stored(s, f, now))
  }

  lemma OpenedSound(f: CanFrame, now: nat)
    requires SofCheck(f) == Fine
    ensures Sound(Opened(f, now)) && Holds(Opened(f, now), KeyOf(f))
  {
    FragmentsFit(DeclaredTotal(f));
    GotNone(f.data[7]);
    hide Got, BitmapGet;
  }

  lemma StoredGot(s: Session, f: CanFrame, now: nat)
    requires s.Open? && Sound(s) && f.data[2] < s.count <= MAX_FRAGMENTS
    ensures Got(Stored(s, f, now).bitmap, s.count) == Got(s.bitmap, s.count) + {f.data[2]}
  {
    GotOneMore(s.bitmap, s.count, f.data[2]);
  }

  lemma DataStepSound(s: Session, f: CanFrame, now: nat)
    requires Sound(s)
    ensures Sound(DataStep(s, f, now).session)
    ensures DataStep(s, f, now).session.Open? ==> s.Open? && DataStep(s, f, now).session.key == s.key
  {
    if s.Open? && f.data[2] < s.count {
      FragmentsFit(s.total);
      StoredGot(s, f, now);
      var n: nat := f.data[2];
      assert !BitmapGet(s.bitmap, n) ==> n !in Got(s.bitmap, s.count);
      hide BitmapGet, Got;
    }
  }

  // ------------------------------------------------------------------
  // The session table
  // ------------------------------------------------------------------

  predicate Distinct(ss: seq<Session>) {
    forall i, j :: 0 <= i < j < |ss| && ss[i].Open? && ss[j].Open? ==> ss[i].key != ss[j].key
  }

  ghost predicate Table(ss: seq<Session>) {
    |ss| == SESSIONS && forall i :: 0 <= i < |ss| ==> Sound(ss[i])
  }

  function Scan(ss: seq<Session>, now: nat, timeout: nat): (r: seq<Session>)
    ensures |r| == |ss| && forall i :: 0 <= i < |ss| ==> r[i] == Age(ss[i], now, timeout)
  {
    seq(|ss|, i requires 0 <= i < |ss| => Age(ss[i], now, timeout))
  }

  /** First session at or after `from` that holds k; |ss| when there is none. */
  function Find(ss: seq<Session>, k: Key, from: nat): (i: nat)
    requires from <= |ss|
    ensures from <= i <= |ss|
    ensures i < |ss| ==> Holds(ss[i], k)
    ensures forall j :: from <= j < i ==> !Holds(ss[j], k)
    decreases |ss| - from
  {
    if from == |ss| || Holds(ss[from], k) then from else Find(ss, k, from + 1)
  }

  function FirstFree(ss: seq<Session>, from: nat): (i: nat)
    requires from <= |ss|
    ensures from <= i <= |ss|
    ensures i < |ss| ==> ss[i].Free?
    ensures forall j :: from <= j < i ==> ss[j].Open?
    decreases |ss| - from
  {
    if from == |ss| || ss[from].Free? then from else FirstFree(ss, from + 1)
  }

  /** What a strict `<` scan on the start time keeps. */
  predicate IsEldest(ss: seq<Session>, i: nat) {
    && i < |ss| && ss[i].Open?
    && (forall j :: 0 <= j < |ss| && ss[j].Open? ==> ss[i].started <= ss[j].started)
    && (forall j :: 0 <= j < i && ss[j].Open? ==> ss[i].started < ss[j].started)
  }

  function Eldest(ss: seq<Session>): (i: nat)
    ensures (exists j :: 0 <= j < |ss| && ss[j].Open?) ==> IsEldest(ss, i)
    ensures (forall j :: 0 <= j < |ss| ==> ss[j].Free?) ==> i == |ss|
  {
    if ss == [] then 0
    else
      var n := |ss| - 1;
      var before := ss[..n];
      var i := Eldest(before);
      assert forall j :: 0 <= j < n ==> ss[j] == before[j];
      if ss[n].Open? && (i == n || ss[n].started < ss[i].started) then n
      else if i == n then n + 1
      else i
  }

  /** Where a start frame for a new key goes: a free session, else the eldest. */
  function NewSlot(ss: seq<Session>): (i: nat)
    requires |ss| == SESSIONS
    ensures i < |ss|
  {
    var i := FirstFree(ss, 0);
    if i < |ss| then i
    else
      assert ss[0].Open?;
      Eldest(ss)
  }

  datatype Reply = Reply(sessions: seq<Session>, verdict: Verdict, message: Option<seq<byte>>)

  function SofReply(ss: seq<Session>, timeout: nat, f: CanFrame, now: nat): Reply
    requires |ss| == SESSIONS
  {
    if SofCheck(f) != Fine then Reply(ss, SofCheck(f), None)
    else
      var i := Find(ss, KeyOf(f), 0);
      if i < |ss| then Reply(ss[i := Opened(f, now)], Fine, None)
      else
        var t := Scan(ss, now, timeout);
        Reply(t[NewSlot(t) := Opened(f, now)], Fine, None)
  }

  function DataReply(ss: seq<Session>, f: CanFrame, now: nat): Reply
    requires Table(ss)
  {
    var i := Find(ss, KeyOf(f), 0);
    if i == |ss| then Reply(ss, BadArgument, None)
    else
      var d := DataStep(ss[i], f, now);
      Reply(ss[i := d.session], d.verdict, d.message)
  }

  lemma ScanKeeps(ss: seq<Session>, now: nat, timeout: nat)
    requires Table(ss)
    ensures Table(Scan(ss, now, timeout))
    ensures Distinct(ss) ==> Distinct(Scan(ss, now, timeout))
    ensures Scan(Scan(ss, now, timeout), now, timeout) == Scan(ss, now, timeout)
  {
    hide Sound;
    forall i | 0 <= i < |ss|
      ensures Sound(Age(ss[i], now, timeout))
    {
      SoundAge(ss[i], now, timeout);
    }
  }

  lemma SoundAge(s: Session, now: nat, timeout: nat)
    requires Sound(s)
    ensures Sound(Age(s, now, timeout))
  {
  }

  function Receive(ss: seq<Session>, timeout: nat, f: CanFrame, now: nat): (r: Reply)
    requires Table(ss)
  {
    var t := Scan(ss, now, timeout);
    ScanKeeps(ss, now, timeout);
    match KindOf(f)
    case Rejected(why) => Reply(t, why, None)
    case Sof => SofReply(t, timeout, f, now)
    case Data => DataReply(t, f, now)
  }

  // ------------------------------------------------------------------
  // Every session behaves as if it were alone
  // ------------------------------------------------------------------

  /** The session that holds k, or Free. */
  function Lookup(ss: seq<Session>, k: Key): Session {
    var i := Find(ss, k, 0);
    if i < |ss| then ss[i] else Free
  }

  /** One frame seen by a receiver that has a single session, for key k. */
  function Solo(s: Session, timeout: nat, k: Key, f: CanFrame, now: nat): Step
    requires Sound(s)
  {
    var t := Age(s, now, timeout);
    SoundAge(s, now, timeout);
    if KeyOf(f) == k && KindOf(f) == Data then DataStep(t, f, now)
    else if KeyOf(f) == k && Opens(f) then Step(Opened(f, now), Fine, None)
    else Step(t, Fine, None)
  }

  /** The frame takes the session of k away: a ninth key arrives and k is eldest. */
  predicate Evicts(ss: seq<Session>, timeout: nat, f: CanFrame, now: nat, k: Key)
    requires |ss| == SESSIONS
  {
    var t := Scan(ss, now, timeout);
    Opens(f) && KeyOf(f) != k && Find(t, KeyOf(f), 0) == |t| && Holds(t[NewSlot(t)], k)
  }

  lemma LookupIs(ss: seq<Session>, k: Key, i: nat)
    requires Distinct(ss) && i < |ss| && Holds(ss[i], k)
    ensures Lookup(ss, k) == ss[i] && Find(ss, k, 0) == i
  {
    var j := Find(ss, k, 0);
    assert j <= i;
  }

  lemma LookupNone(ss: seq<Session>, k: Key)
    requires forall i :: 0 <= i < |ss| ==> !Holds(ss[i], k)
    ensures Lookup(ss, k) == Free && Find(ss, k, 0) == |ss|
  {
  }

  lemma LookupScan(ss: seq<Session>, now: nat, timeout: nat, k: Key)
    requires Distinct(ss)
    ensures Lookup(Scan(ss, now, timeout), k) == Age(Lookup(ss, k), now, timeout)
  {
    var t := Scan(ss, now, timeout);
    var i := Find(ss, k, 0);
    if i < |ss| && !Expired(ss[i], now, timeout) {
      assert Holds(t[i], k);
      LookupIs(t, k, i);
    } else {
      LookupNone(t, k);
    }
  }

  /** Writing one slot changes what is found for the key it held and the key it
      holds now, and for no other. */
  lemma LookupUpdate(ss: seq<Session>, i: nat, s: Session, k: Key)
    requires Distinct(ss) && i < |ss|
    requires s.Open? ==> forall j :: 0 <= j < |ss| && j != i ==> !Holds(ss[j], s.key)
    ensures Distinct(ss[i := s])
    ensures Lookup(ss[i := s], k) ==
      if Holds(s, k) then s else if Holds(ss[i], k) then Free else Lookup(ss, k)
  {
    var t := ss[i := s];
    if Holds(s, k) {
      LookupIs(t, k, i);
    } else if Holds(ss[i], k) {
      LookupNone(t, k);
    } else {
      var j := Find(ss, k, 0);
      if j < |ss| {
        LookupIs(t, k, j);
      } else {
        LookupNone(t, k);
      }
    }
  }

  lemma LookupSound(ss: seq<Session>, k: Key)
    requires Table(ss)
    ensures Sound(Lookup(ss, k))
  {
  }

  lemma UpdateKeepsTable(ss: seq<Session>, i: nat, s: Session)
    requires Table(ss) && i < |ss| && Sound(s)
    ensures Table(ss[i := s])
  {
    hide Sound;
  }

  lemma DataIsolated(ss: seq<Session>, f: CanFrame, now: nat, k: Key)
    requires Table(ss) && Distinct(ss)
    ensures Table(DataReply(ss, f, now).sessions) && Distinct(DataReply(ss, f, now).sessions)
    ensures Sound(Lookup(ss, k))
    ensures var r := DataReply(ss, f, now);
      if KeyOf(f) == k then Step(Lookup(r.sessions, k), r.verdict, r.message) == DataStep(Lookup(ss, k), f, now)
      else Lookup(r.sessions, k) == Lookup(ss, k)
  {
    LookupSound(ss, k);
    hide Sound;
    var i := Find(ss, KeyOf(f), 0);
    if i < |ss| {
      DataStepSound(ss[i], f, now);
      var s := DataStep(ss[i], f, now).session;
      UpdateKeepsTable(ss, i, s);
      LookupIs(ss, KeyOf(f), i);
      hide DataStep;
      LookupUpdate(ss, i, s, k);
    }
  }

  lemma SofIsolated(ss: seq<Session>, timeout: nat, f: CanFrame, now: nat, k: Key)
    requires Table(ss) && Distinct(ss) && SofCheck(f) == Fine
    ensures var r := SofReply(ss, timeout, f, now);
      var t := Scan(ss, now, timeout);
      && Table(r.sessions) && Distinct(r.sessions)
      && Lookup(r.sessions, k) ==
         (if KeyOf(f) == k then Opened(f, now)
          else if Find(ss, KeyOf(f), 0) < |ss| then Lookup(ss, k)
          else if Holds(t[NewSlot(t)], k) then Free
          else Lookup(t, k))
  {
    OpenedSound(f, now);
    hide Sound, SofCheck, Opened;
    var s := Opened(f, now);
    var i := Find(ss, KeyOf(f), 0);
    if i < |ss| {
      LookupIs(ss, KeyOf(f), i);
      UpdateKeepsTable(ss, i, s);
      LookupUpdate(ss, i, s, k);
    } else {
      ScanKeeps(ss, now, timeout);
      var t := Scan(ss, now, timeout);
      UpdateKeepsTable(t, NewSlot(t), s);
      LookupUpdate(t, NewSlot(t), s, k);
    }
  }

  /** Isolation: whatever frames arrive, what the table does for key k is what a
      receiver with one session for k would do, until a start frame for a ninth
      key takes that session. */
  lemma Isolation(ss: seq<Session>, timeout: nat, f: CanFrame, now: nat, k: Key)
    requires Table(ss) && Distinct(ss)
    ensures Table(Receive(ss, timeout, f, now).sessions) && Distinct(Receive(ss, timeout, f, now).sessions)
    ensures Sound(Lookup(ss, k))
    ensures Lookup(Receive(ss, timeout, f, now).sessions, k) ==
      if Evicts(ss, timeout, f, now, k) then Free else Solo(Lookup(ss, k), timeout, k, f, now).session
    ensures var r := Receive(ss, timeout, f, now);
      KeyOf(f) == k && KindOf(f) == Data ==>
        Step(Lookup(r.sessions, k), r.verdict, r.message) == Solo(Lookup(ss, k), timeout, k, f, now)
  {
    var t := Scan(ss, now, timeout);
    ScanKeeps(ss, now, timeout);
    LookupScan(ss, now, timeout, k);
    LookupSound(ss, k);
    match KindOf(f)
    case Rejected(_) =>
    case Data =>
      DataIsolated(t, f, now, k);
    case Sof =>
      if SofCheck(f) == Fine {
        SofIsolated(t, timeout, f, now, k);
      }
  }

  // ------------------------------------------------------------------
  // Streams
  // ------------------------------------------------------------------

  datatype Event = Event(frame: CanFrame, now: nat)

  /** The table after the first n frames of a stream. */
  function After(ss: seq<Session>, timeout: nat, events: seq<Event>, n: nat): (r: seq<Session>)
    requires Table(ss) && Distinct(ss) && n <= |events|
    ensures Table(r) && Distinct(r)
  {
    if n == 0 then ss
    else
      var before := After(ss, timeout, events, n - 1);
      var e := events[n - 1];
      Isolation(before, timeout, e.frame, e.now, KeyOf(e.frame));
      Receive(before, timeout, e.frame, e.now).sessions
  }

  /** The reply to frame n. */
  function ReplyTo(ss: seq<Session>, timeout: nat, events: seq<Event>, n: nat): Reply
    requires Table(ss) && Distinct(ss) && n < |events|
  {
    Receive(After(ss, timeout, events, n), timeout, events[n].frame, events[n].now)
  }

  function SessionAt(ss: seq<Session>, timeout: nat, events: seq<Event>, n: nat, k: Key): (s: Session)
    requires Table(ss) && Distinct(ss) && n <= |events|
    ensures Sound(s)
  {
    LookupSound(After(ss, timeout, events, n), k);
    Lookup(After(ss, timeout, events, n), k)
  }

  predicate EvictedBy(ss: seq<Session>, timeout: nat, events: seq<Event>, n: nat, k: Key)
    requires Table(ss) && Distinct(ss) && n < |events|
  {
    Evicts(After(ss, timeout, events, n), timeout, events[n].frame, events[n].now, k)
  }

  /** Isolation along a stream. */
  lemma StreamStep(ss: seq<Session>, timeout: nat, events: seq<Event>, n: nat, k: Key)
    requires Table(ss) && Distinct(ss) && n < |events|
    ensures SessionAt(ss, timeout, events, n + 1, k) ==
      if EvictedBy(ss, timeout, events, n, k) then Free
      else Solo(SessionAt(ss, timeout, events, n, k), timeout, k, events[n].frame, events[n].now).session
    ensures var r := ReplyTo(ss, timeout, events, n);
      KeyOf(events[n].frame) == k && KindOf(events[n].frame) == Data ==>
        Step(SessionAt(ss, timeout, events, n + 1, k), r.verdict, r.message) ==
        Solo(SessionAt(ss, timeout, events, n, k), timeout, k, events[n].frame, events[n].now)
  {
    hide Receive, Sound, Solo, Evicts, Lookup, Distinct;
    Isolation(After(ss, timeout, events, n), timeout, events[n].frame, events[n].now, k);
  }

  // ------------------------------------------------------------------
  // Nothing is made up
  // ------------------------------------------------------------------

  /** Frame i carries fragment t of the session started by frame j. */
  predicate Carried(events: seq<Event>, j: nat, n: nat, i: nat, k: Key, t: nat, bytes: seq<byte>) {
    && j < i < n <= |events|
    && KindOf(events[i].frame) == Data && KeyOf(events[i].frame) == k && events[i].frame.data[2] == t
    && |bytes| <= PAYLOAD
    && bytes == events[i].frame.data[3..3 + |bytes|]
  }

  predicate Declared(f: CanFrame, k: Key, total: nat, crc: nat) {
    Opens(f) && KeyOf(f) == k && DeclaredTotal(f) == total && DeclaredCrc(f) == crc
  }

  /** The bytes of fragment t. */
  function Piece(buffer: seq<byte>, total: nat, t: nat): seq<byte>
    requires t * PAYLOAD <= total <= |buffer|
  {
    buffer[t * PAYLOAD..t * PAYLOAD + CopyLength(total, t)]
  }

  ghost predicate PieceBacked(events: seq<Event>, j: nat, n: nat, k: Key, t: nat, bytes: seq<byte>) {
    exists i :: Carried(events, j, n, i, k, t, bytes)
  }

  ghost predicate PiecesBacked(events: seq<Event>, j: nat, n: nat, k: Key, buffer: seq<byte>, total: nat,
                               got: set<nat>)
  {
    forall t :: t in got ==>
      t * PAYLOAD <= total <= |buffer| && PieceBacked(events, j, n, k, t, Piece(buffer, total, t))
  }

  /** Everything a session holds was declared by the start frame j or carried by
      a data frame of its own since. */
  ghost predicate Backed(events: seq<Event>, n: nat, s: Session, j: nat)
    requires s.Open? && Sound(s)
  {
    FragmentsFit(s.total);
    j < n <= |events| && Declared(events[j].frame, s.key, s.total, s.crc) &&
    PiecesBacked(events, j, n, s.key, s.buffer, s.total, Got(s.bitmap, s.count))
  }

  lemma BackedLonger(events: seq<Event>, n: nat, s: Session, j: nat)
    requires s.Open? && Sound(s) && n < |events| && Backed(events, n, s, j)
    ensures Backed(events, n + 1, s, j)
  {
    FragmentsFit(s.total);
    forall t | t in Got(s.bitmap, s.count)
      ensures PieceBacked(events, j, n + 1, s.key, t, Piece(s.buffer, s.total, t))
    {
      PieceBackedLonger(events, j, n, s.key, t, Piece(s.buffer, s.total, t));
    }
  }

  lemma PieceBackedLonger(events: seq<Event>, j: nat, n: nat, k: Key, t: nat, bytes: seq<byte>)
    requires n < |events| && PieceBacked(events, j, n, k, t, bytes)
    ensures PieceBacked(events, j, n + 1, k, t, bytes)
  {
    var i :| Carried(events, j, n, i, k, t, bytes);
    assert Carried(events, j, n + 1, i, k, t, bytes);
  }

  lemma PiecesAfterStore(s: Session, f: CanFrame, now: nat, t: nat)
    requires s.Open? && Sound(s) && f.data[2] < s.count && t < s.count
    ensures t * PAYLOAD <= s.total <= BLOCK_SIZE
    ensures Piece(Stored(s, f, now).buffer, s.total, t) ==
      if t == f.data[2] then f.data[3..3 + CopyLength(s.total, t)] else Piece(s.buffer, s.total, t)
  {
    FragmentsFit(s.total);
    var after := Stored(s, f, now).buffer;
    var n: nat := f.data[2];
    assert after == Splice(s.buffer, n * PAYLOAD, f.data[3..3 + CopyLength(s.total, n)]);
    hide Sound, Stored;
    if t == n {
      assert Piece(after, s.total, t) == f.data[3..3 + CopyLength(s.total, t)];
    } else {
      assert t * PAYLOAD + PAYLOAD <= n * PAYLOAD || n * PAYLOAD + PAYLOAD <= t * PAYLOAD;
      assert Piece(after, s.total, t) == Piece(s.buffer, s.total, t);
    }
  }

  /** Frame n adds its own fragment; the others stay as they were. */
  lemma StoredBacked(events: seq<Event>, n: nat, s: Session, j: nat)
    requires s.Open? && Sound(s) && n < |events| && Backed(events, n, s, j)
    requires var f := events[n].frame;
      KindOf(f) == Data && KeyOf(f) == s.key && f.data[2] < s.count
    ensures s.count <= MAX_FRAGMENTS
    ensures var u := Stored(s, events[n].frame, events[n].now);
      PiecesBacked(events, j, n + 1, s.key, u.buffer, s.total, Got(u.bitmap, s.count))
  {
    FragmentsFit(s.total);
    var f := events[n].frame;
    var u := Stored(s, f, events[n].now);
    StoredGot(s, f, events[n].now);
    hide Got, Stored, Declared;
    forall t | t in Got(u.bitmap, s.count)
      ensures t * PAYLOAD <= s.total <= BLOCK_SIZE
      ensures PieceBacked(events, j, n + 1, s.key, t, Piece(u.buffer, s.total, t))
    {
      PiecesAfterStore(s, f, events[n].now, t);
      if t == f.data[2] {
        assert Carried(events, j, n + 1, n, s.key, t, Piece(u.buffer, s.total, t));
      } else {
        assert t in Got(s.bitmap, s.count);
        PieceBackedLonger(events, j, n, s.key, t, Piece(s.buffer, s.total, t));
      }
    }
  }

  predicate Vacant(ss: seq<Session>) {
    |ss| == SESSIONS && forall i :: 0 <= i < |ss| ==> ss[i].Free?
  }

  lemma VacantTable(ss: seq<Session>, timeout: nat, events: seq<Event>, k: Key)
    requires Vacant(ss)
    ensures Table(ss) && Distinct(ss) && SessionAt(ss, timeout, events, 0, k) == Free
  {
  }

  /** The start frame behind a stored session, for any stream whatever. */
  lemma {:induction false} SessionBacked(ss: seq<Session>, timeout: nat, events: seq<Event>, n: nat, k: Key)
    returns (j: nat)
    requires Vacant(ss) && Table(ss) && Distinct(ss) && n <= |events|
    ensures var s := SessionAt(ss, timeout, events, n, k);
      s.Open? ==> s.key == k && Backed(events, n, s, j)
    decreases n
  {
    hide *;
    if n == 0 {
      VacantTable(ss, timeout, events, k);
      j := 0;
    } else {
      j := SessionBacked(ss, timeout, events, n - 1, k);
      StreamStep(ss, timeout, events, n - 1, k);
      j := SoloBacked(events, n - 1, SessionAt(ss, timeout, events, n - 1, k), timeout, k, j);
    }
  }

  lemma SoloBacked(events: seq<Event>, n: nat, s: Session, timeout: nat, k: Key, j: nat) returns (i: nat)
    requires Sound(s) && n < |events|
    requires s.Open? ==> s.key == k && Backed(events, n, s, j)
    ensures var t := Solo(s, timeout, k, events[n].frame, events[n].now).session;
      Sound(t) && (t.Open? ==> t.key == k && Backed(events, n + 1, t, i))
  {
    var f, now := events[n].frame, events[n].now;
    var a := Age(s, now, timeout);
    i := j;
    if KeyOf(f) == k && KindOf(f) == Data && a.Open? {
      DataStepSound(s, f, now);
      BackedLonger(events, n, s, j);
      if f.data[2] < s.count {
        FragmentsFit(s.total);
        StoredBacked(events, n, s, j);
      }
    } else if KeyOf(f) == k && Opens(f) {
      i := n;
      OpenedSound(f, now);
      FragmentsFit(DeclaredTotal(f));
      GotNone(f.data[7]);
    } else if a.Open? {
      BackedLonger(events, n, s, j);
    }
  }

  /** Every fragment of m was carried by a data frame for k between j and n. */
  ghost predicate AllBacked(events: seq<Event>, j: nat, n: nat, k: Key, m: seq<byte>)
    requires HEADER_SIZE <= |m| <= BLOCK_SIZE
  {
    FragmentsFit(|m|);
    forall t: nat :: t < Fragments(|m|) ==> PieceBacked(events, j, n, k, t, Piece(m, |m|, t))
  }

  /** A delivered message has the length and CRC its start frame declared, and
      every fragment of it was carried by a data frame of the same session since. */
  lemma DeliveredIsBacked(ss: seq<Session>, timeout: nat, events: seq<Event>, n: nat) returns (j: nat)
    requires Vacant(ss) && n < |events|
    ensures Table(ss) && Distinct(ss)
    ensures ReplyTo(ss, timeout, events, n).message.Some? ==>
      var m, k := ReplyTo(ss, timeout, events, n).message.value, KeyOf(events[n].frame);
      && HEADER_SIZE <= |m| <= BLOCK_SIZE && j < n
      && Declared(events[j].frame, k, |m|, CrcOf(m)) && AllBacked(events, j, n + 1, k, m)
  {
    var f := events[n].frame;
    VacantTable(ss, timeout, events, KeyOf(f));
    j := SessionBacked(ss, timeout, events, n, KeyOf(f));
    hide *;
    if ReplyTo(ss, timeout, events, n).message.Some? {
      DeliveryIsStep(ss, timeout, events, n);
      var a := Age(SessionAt(ss, timeout, events, n, KeyOf(f)), events[n].now, timeout);
      CompletionFacts(a, f, events[n].now);
      BackedHeader(events, n, a, j);
      StoredAllBacked(events, n, a, j);
    }
  }

  /** The frame that leaves nothing missing leaves every fragment backed. */
  lemma StoredAllBacked(events: seq<Event>, n: nat, s: Session, j: nat)
    requires s.Open? && Sound(s) && n < |events| && Backed(events, n, s, j)
    requires KindOf(events[n].frame) == Data && KeyOf(events[n].frame) == s.key && events[n].frame.data[2] < s.count
    requires s.count <= MAX_FRAGMENTS && HEADER_SIZE <= s.total <= BLOCK_SIZE && s.count == Fragments(s.total)
    requires Got(Stored(s, events[n].frame, events[n].now).bitmap, s.count) == All(s.count)
    ensures AllBacked(events, j, n + 1, s.key, Stored(s, events[n].frame, events[n].now).buffer[..s.total])
  {
    hide *;
    StoredBacked(events, n, s, j);
    var u := Stored(s, events[n].frame, events[n].now);
    PrefixBacked(events, j, n + 1, s.key, u.buffer, s.total, Got(u.bitmap, s.count));
  }

  /** Only a data frame delivers, and what it delivers is its session's. */
  lemma DeliveryIsStep(ss: seq<Session>, timeout: nat, events: seq<Event>, n: nat)
    requires Table(ss) && Distinct(ss) && n < |events| && ReplyTo(ss, timeout, events, n).message.Some?
    ensures var f, s := events[n].frame, SessionAt(ss, timeout, events, n, KeyOf(events[n].frame));
      var a := Age(s, events[n].now, timeout);
      && KindOf(f) == Data && Sound(a) && (a.Open? ==> a == s)
      && ReplyTo(ss, timeout, events, n).message == DataStep(a, f, events[n].now).message
  {
    var f := events[n].frame;
    StreamStep(ss, timeout, events, n, KeyOf(f));
    SoundAge(SessionAt(ss, timeout, events, n, KeyOf(f)), events[n].now, timeout);
    assert KindOf(f) == Data;
    hide After, Lookup, SessionAt, DataStep, Sound;
  }

  /** What a delivery says about the step that made it. */
  lemma CompletionFacts(s: Session, f: CanFrame, now: nat)
    requires Sound(s) && DataStep(s, f, now).message.Some?
    ensures s.Open? && f.data[2] < s.count == Fragments(s.total) <= MAX_FRAGMENTS
    ensures HEADER_SIZE <= s.total <= BLOCK_SIZE
    ensures Got(Stored(s, f, now).bitmap, s.count) == All(s.count)
    ensures DataStep(s, f, now).message == Some(Stored(s, f, now).buffer[..s.total])
    ensures CrcOf(Stored(s, f, now).buffer[..s.total]) == s.crc
  {
    FragmentsFit(s.total);
    assert f.data[2] !in Got(s.bitmap, s.count);
    AllStored(s, f, now);
    hide Got, BitmapGet, CrcOf;
  }

  lemma PrefixPiece(buffer: seq<byte>, total: nat, t: nat)
    requires HEADER_SIZE <= total <= BLOCK_SIZE && total <= |buffer| && t < Fragments(total)
    ensures t * PAYLOAD < total && Piece(buffer[..total], total, t) == Piece(buffer, total, t)
  {
    FragmentsFit(total);
  }

  lemma BackedHeader(events: seq<Event>, n: nat, s: Session, j: nat)
    requires s.Open? && Sound(s) && Backed(events, n, s, j)
    ensures j < n <= |events| && Declared(events[j].frame, s.key, s.total, s.crc)
  {
  }

  lemma PrefixBacked(events: seq<Event>, j: nat, n: nat, k: Key, buffer: seq<byte>, total: nat, got: set<nat>)
    requires HEADER_SIZE <= total <= BLOCK_SIZE == |buffer| && got == All(Fragments(total))
    requires PiecesBacked(events, j, n, k, buffer, total, got)
    ensures AllBacked(events, j, n, k, buffer[..total])
  {
    var m := buffer[..total];
    hide PieceBacked;
    forall t: nat | t < Fragments(total)
      ensures t * PAYLOAD <= |m| && PieceBacked(events, j, n, k, t, Piece(m, |m|, t))
    {
      PrefixPiece(buffer, total, t);
    }
  }

  /** When the counter says complete, no fragment is missing. */
  lemma AllStored(s: Session, f: CanFrame, now: nat)
    requires s.Open? && Sound(s) && f.data[2] < s.count <= MAX_FRAGMENTS
    requires f.data[2] !in Got(s.bitmap, s.count)
    ensures Got(Stored(s, f, now).bitmap, s.count) == All(s.count) <==> s.received + 1 == s.count
  {
    StoredGot(s, f, now);
    var after := Got(Stored(s, f, now).bitmap, s.count);
    assert after <= All(s.count);
    SubsetSize(after, All(s.count));
  }

  // ------------------------------------------------------------------
  // The sender
  // ------------------------------------------------------------------

  predicate MessageOk(m: seq<byte>) {
    HEADER_SIZE <= |m| <= BLOCK_SIZE
  }

  /** An identifier as a sender transmits it. */
  predicate Sendable(id: bv32) {
    Normalize(id) == id && !IsRemote(id)
  }

  function StartFrame(m: seq<byte>, id: bv32, sessionId: byte): CanFrame
    requires MessageOk(m)
  {
    FragmentsFit(|m|);
    var crc := CrcOf(m);
    CanFrame(id, CLASSIC_DLC, [SOF_BYTE, sessionId, |m| % 0x100, |m| / 0x100, crc % 0x100, crc / 0x100,
                               if |m| % PAYLOAD == 0 then 0 else 1, Fragments(|m|)])
  }

  function DataFrame(m: seq<byte>, id: bv32, sessionId: byte, t: nat): CanFrame
    requires MessageOk(m) && t < Fragments(|m|)
  {
    FragmentsFit(|m|);
    var piece := Piece(m, |m|, t);
    CanFrame(id, CLASSIC_DLC, [DATA_BYTE, sessionId, t] + piece + Zeros(PAYLOAD - |piece|))
  }

  lemma StartFrameOpens(m: seq<byte>, id: bv32, sessionId: byte)
    requires MessageOk(m) && Sendable(id)
    ensures Declared(StartFrame(m, id, sessionId), Key(id, sessionId), |m|, CrcOf(m))
    ensures StartFrame(m, id, sessionId).data[7] == Fragments(|m|)
  {
    hide CrcOf, Normalize, IsRemote;
    FragmentsFit(|m|);
  }

  lemma DataFrameIs(m: seq<byte>, id: bv32, sessionId: byte, t: nat)
    requires MessageOk(m) && Sendable(id) && t < Fragments(|m|)
    ensures var f := DataFrame(m, id, sessionId, t);
      && KindOf(f) == Data && KeyOf(f) == Key(id, sessionId) && f.data[2] == t
      && t * PAYLOAD <= |m| && f.data[3..3 + CopyLength(|m|, t)] == Piece(m, |m|, t)
  {
    hide Normalize, IsRemote;
    FragmentsFit(|m|);
  }

  // ------------------------------------------------------------------
  // Round trip
  // ------------------------------------------------------------------

  /** The session holds the fragments `got` of m and no others. */
  ghost predicate Partial(s: Session, m: seq<byte>, k: Key, got: set<nat>, last: nat)
    requires MessageOk(m)
  {
    && Sound(s) && Holds(s, k) && s.total == |m| && s.crc == CrcOf(m) && s.updated == last
    && Got(s.bitmap, s.count) == got
    && Agrees(s.buffer, m, got)
  }

  predicate Agrees(buffer: seq<byte>, m: seq<byte>, got: set<nat>) {
    && |m| <= |buffer|
    && forall t :: t in got ==> t * PAYLOAD <= |m| && Piece(buffer, |m|, t) == Piece(m, |m|, t)
  }

  /** Every byte of a message lies in one of its fragments. */
  lemma ByteInPiece(buffer: seq<byte>, m: seq<byte>, i: nat) returns (t: nat)
    requires MessageOk(m) && i < |m| <= |buffer|
    ensures t < Fragments(|m|) && t * PAYLOAD <= |m|
    ensures Piece(buffer, |m|, t) == Piece(m, |m|, t) ==> buffer[i] == m[i]
  {
    FragmentsFit(|m|);
    t := i / PAYLOAD;
    assert i - t * PAYLOAD < CopyLength(|m|, t);
    hide Fragments, CopyLength;
    assert Piece(buffer, |m|, t)[i - t * PAYLOAD] == buffer[i];
    assert Piece(m, |m|, t)[i - t * PAYLOAD] == m[i];
  }

  lemma AgreesEverywhere(buffer: seq<byte>, m: seq<byte>)
    requires MessageOk(m) && Agrees(buffer, m, All(Fragments(|m|)))
    ensures buffer[..|m|] == m
  {
    hide Piece, Fragments;
    forall i | 0 <= i < |m|
      ensures buffer[i] == m[i]
    {
      var t := ByteInPiece(buffer, m, i);
      assert t in All(Fragments(|m|));
    }
  }

  lemma OpenedIsPartial(m: seq<byte>, id: bv32, sessionId: byte, now: nat)
    requires MessageOk(m) && Sendable(id)
    ensures Partial(Opened(StartFrame(m, id, sessionId), now), m, Key(id, sessionId), {}, now)
  {
    StartFrameOpens(m, id, sessionId);
    OpenedSound(StartFrame(m, id, sessionId), now);
    FragmentsFit(|m|);
    GotNone(Fragments(|m|));
    hide CrcOf, Got, Normalize, IsRemote, StartFrame, Sound;
  }

  lemma StoredIsPartial(s: Session, m: seq<byte>, id: bv32, sessionId: byte, got: set<nat>, last: nat, t: nat, now: nat)
    requires MessageOk(m) && Sendable(id) && t < Fragments(|m|) && t !in got
    requires Partial(s, m, Key(id, sessionId), got, last)
    ensures DataFrame(m, id, sessionId, t).data[2] == t < s.count <= MAX_FRAGMENTS
    ensures var u := Stored(s, DataFrame(m, id, sessionId, t), now);
      && u.total == |m| && u.crc == CrcOf(m) && u.updated == now && u.key == s.key && u.count == s.count
      && u.received == s.received + 1
      && Got(u.bitmap, s.count) == got + {t} && Agrees(u.buffer, m, got + {t})
  {
    FragmentsFit(|m|);
    assert forall q :: q in got ==> q < s.count;
    hide CrcOf, Got, BitmapGet, Normalize, IsRemote, KindOf;
    var f := DataFrame(m, id, sessionId, t);
    DataFrameIs(m, id, sessionId, t);
    StoredGot(s, f, now);
    forall q | q in got + {t}
      ensures q * PAYLOAD <= |m| && Piece(Stored(s, f, now).buffer, |m|, q) == Piece(m, |m|, q)
    {
      PiecesAfterStore(s, f, now, q);
    }
  }

  /** One own data frame at a session that holds the fragments `got`: a repeated
      one changes nothing, the last missing one delivers m and frees the session. */
  lemma OwnStep(s: Session, m: seq<byte>, id: bv32, sessionId: byte, got: set<nat>, last: nat, t: nat, now: nat)
    requires MessageOk(m) && Sendable(id) && t < Fragments(|m|)
    requires Partial(s, m, Key(id, sessionId), got, last)
    ensures var d := DataStep(s, DataFrame(m, id, sessionId, t), now);
      if t in got then d == Step(s, Fine, None)
      else if got + {t} == All(Fragments(|m|)) then d == Step(Free, Fine, Some(m))
      else Partial(d.session, m, Key(id, sessionId), got + {t}, now) && d.verdict == Fine && d.message == None
  {
    var f := DataFrame(m, id, sessionId, t);
    DataFrameIs(m, id, sessionId, t);
    FragmentsFit(|m|);
    assert t in got <==> BitmapGet(s.bitmap, t);
    if t !in got {
      StoredIsPartial(s, m, id, sessionId, got, last, t, now);
      AllStored(s, f, now);
      DataStepSound(s, f, now);
      var u := Stored(s, f, now);
      hide Stored, Got, BitmapGet, CrcOf, DataFrame, Agrees, Normalize, IsRemote, KindOf;
      if got + {t} == All(Fragments(|m|)) {
        AgreesEverywhere(u.buffer, m);
      }
    }
  }

  /** A message on its way: the receiver's table, the message and who sends it,
      when the start frame arrives, and every frame after it. */
  datatype Transfer = Transfer(
    table: seq<Session>, timeout: nat, message: seq<byte>, id: bv32, sessionId: byte, start: nat, events: seq<Event>)
  {
    function Owner(): Key {
      Key(id, sessionId)
    }

    predicate IsOwn(i: nat)
      requires i < |events|
    {
      KeyOf(events[i].frame) == Owner() && KindOf(events[i].frame) == Data
    }

    /** Frames of this session are the sender's data frames, in any order and
        number, and its start frame is not repeated. Other frames are arbitrary. */
    predicate Faithful()
      requires MessageOk(message)
    {
      forall i :: 0 <= i < |events| && KeyOf(events[i].frame) == Owner() ==>
        !Opens(events[i].frame) && (IsOwn(i) ==> FromSender(events[i].frame))
    }

    predicate FromSender(f: CanFrame)
      requires MessageOk(message)
    {
      f.data[2] < Fragments(|message|) && f == DataFrame(message, id, sessionId, f.data[2])
    }

    /** The fragments among the first i frames. */
    function Seen(i: nat): (r: set<nat>)
      requires i <= |events|
    {
      if i == 0 then {} else if IsOwn(i - 1) then Seen(i - 1) + {events[i - 1].frame.data[2]} else Seen(i - 1)
    }

    predicate Complete(i: nat)
      requires i <= |events|
    {
      Seen(i) == All(Fragments(|message|))
    }

    /** When the session last made progress. */
    function LastNew(i: nat): nat
      requires i <= |events|
    {
      if i == 0 then start
      else if IsOwn(i - 1) && events[i - 1].frame.data[2] !in Seen(i - 1) then events[i - 1].now
      else LastNew(i - 1)
    }

    /** Until the message is complete, no frame arrives more than the timeout
        after the last progress. */
    predicate Timely() {
      forall i :: 0 <= i < |events| && !Complete(i) ==> events[i].now <= LastNew(i) + timeout
    }

    ghost predicate Ready() {
      Table(table) && Distinct(table) && MessageOk(message) && Sendable(id)
    }

    /** The table once the start frame is in. */
    function Started(): (r: seq<Session>)
      requires Ready()
      ensures Table(r) && Distinct(r)
    {
      Isolation(table, timeout, StartFrame(message, id, sessionId), start, Owner());
      Receive(table, timeout, StartFrame(message, id, sessionId), start).sessions
    }

    function Answer(i: nat): Reply
      requires Ready() && i < |events|
    {
      ReplyTo(Started(), timeout, events, i)
    }

    /** Until the message is complete, no ninth key takes its session. */
    predicate Undisturbed()
      requires Ready()
    {
      forall i :: 0 <= i < |events| && !Complete(i) ==> !EvictedBy(Started(), timeout, events, i, Owner())
    }

    function Here(i: nat): (s: Session)
      requires Ready() && i <= |events|
      ensures Sound(s)
    {
      SessionAt(Started(), timeout, events, i, Owner())
    }
  }

  lemma TransferStarts(x: Transfer)
    requires x.Ready()
    ensures Partial(x.Here(0), x.message, x.Owner(), {}, x.start)
  {
    var f := StartFrame(x.message, x.id, x.sessionId);
    Isolation(x.table, x.timeout, f, x.start, x.Owner());
    StartFrameOpens(x.message, x.id, x.sessionId);
    OpenedIsPartial(x.message, x.id, x.sessionId, x.start);
    assert After(x.Started(), x.timeout, x.events, 0) == x.Started();
    hide Receive, Partial, StartFrame, Opened, CrcOf, Sound, Lookup, Normalize, IsRemote;
  }

  /** Where a transfer stands after i frames. */
  ghost predicate Standing(x: Transfer, i: nat)
    requires x.Ready() && i <= |x.events|
  {
    if x.Complete(i) then x.Here(i) == Free
    else Partial(x.Here(i), x.message, x.Owner(), x.Seen(i), x.LastNew(i))
  }

  lemma NotCompleteAtFirst(x: Transfer)
    requires x.Ready()
    ensures !x.Complete(0)
  {
    FragmentsFit(|x.message|);
    assert 0 in All(Fragments(|x.message|));
  }

  lemma StandsAtFirst(x: Transfer)
    requires x.Ready()
    ensures Standing(x, 0)
  {
    NotCompleteAtFirst(x);
    TransferStarts(x);
    hide Partial, SessionAt;
  }

  lemma NotExpired(s: Session, now: nat, timeout: nat)
    requires s.Open? && now <= s.updated + timeout
    ensures Age(s, now, timeout) == s
  {
  }

  lemma ForeignStep(x: Transfer, i: nat)
    requires x.Ready() && x.Faithful() && x.Timely() && x.Undisturbed() && i < |x.events|
    requires Standing(x, i) && !x.IsOwn(i)
    ensures Standing(x, i + 1)
  {
    StreamStep(x.Started(), x.timeout, x.events, i, x.Owner());
    assert KeyOf(x.events[i].frame) == x.Owner() ==> !Opens(x.events[i].frame);
    hide KindOf, Opens, CrcOf, EvictedBy, Agrees, SessionAt;
    assert x.Seen(i + 1) == x.Seen(i);
    if !x.Complete(i) {
      NotExpired(x.Here(i), x.events[i].now, x.timeout);
    }
  }

  /** The answer the sender's data frame i deserves. */
  function Deserved(x: Transfer, i: nat): (Verdict, Option<seq<byte>>)
    requires i < |x.events|
  {
    if x.Complete(i) then (BadArgument, None)
    else if x.Complete(i + 1) then (Fine, Some(x.message))
    else (Fine, None)
  }

  lemma OwnFrameStep(x: Transfer, i: nat)
    requires x.Ready() && x.Faithful() && x.Timely() && x.Undisturbed() && i < |x.events|
    requires Standing(x, i) && x.IsOwn(i)
    ensures Standing(x, i + 1)
    ensures (x.Answer(i).verdict, x.Answer(i).message) == Deserved(x, i)
  {
    var t: nat := x.events[i].frame.data[2];
    StreamStep(x.Started(), x.timeout, x.events, i, x.Owner());
    assert x.FromSender(x.events[i].frame);
    hide KindOf, CrcOf, EvictedBy, SessionAt, DataFrame, ReplyTo, Opens, Sound, Got, Agrees, DataStep;
    SeenNext(x, i);
    OwnSolo(x, i);
    if x.Complete(i) {
      AlreadySeen(x.Seen(i), t, Fragments(|x.message|));
    } else {
      OwnStep(x.Here(i), x.message, x.id, x.sessionId, x.Seen(i), x.LastNew(i), t, x.events[i].now);
    }
  }

  lemma SeenNext(x: Transfer, i: nat)
    requires i < |x.events| && x.IsOwn(i)
    ensures x.Seen(i + 1) == x.Seen(i) + {x.events[i].frame.data[2]}
    ensures x.events[i].frame.data[2] in x.Seen(i) ==> x.Seen(i + 1) == x.Seen(i)
  {
    assert x.events[i].frame.data[2] in x.Seen(i) ==> x.Seen(i) + {x.events[i].frame.data[2]} == x.Seen(i);
  }

  lemma AlreadySeen(got: set<nat>, t: nat, count: nat)
    requires got == All(count) && t < count
    ensures got + {t} == got
  {
  }

  /** An own frame meets its session unexpired while the transfer lasts. */
  lemma OwnSolo(x: Transfer, i: nat)
    requires x.Ready() && x.Timely() && i < |x.events| && Standing(x, i) && x.IsOwn(i)
    ensures var f, now := x.events[i].frame, x.events[i].now;
      Solo(x.Here(i), x.timeout, x.Owner(), f, now) == DataStep(x.Here(i), f, now)
  {
    hide KindOf, CrcOf, SessionAt, DataStep, Got, Agrees;
    if !x.Complete(i) {
      NotExpired(x.Here(i), x.events[i].now, x.timeout);
    }
  }

  lemma {:induction false} Stands(x: Transfer, i: nat)
    requires x.Ready() && x.Faithful() && x.Timely() && x.Undisturbed() && i <= |x.events|
    ensures Standing(x, i)
    decreases i
  {
    hide *;
    if i == 0 {
      StandsAtFirst(x);
    } else {
      Stands(x, i - 1);
      if x.IsOwn(i - 1) {
        OwnFrameStep(x, i - 1);
      } else {
        ForeignStep(x, i - 1);
      }
    }
  }

  /** Round trip: once the start frame is in, the sender's data frames may come in
      any order, repeated, and mixed with any other frames. Each is accepted, the
      first that leaves nothing missing returns exactly the message, and any
      later one is an orphan. */
  lemma RoundTrip(x: Transfer, i: nat)
    requires x.Ready() && x.Faithful() && x.Timely() && x.Undisturbed()
    requires i < |x.events| && x.IsOwn(i)
    ensures (x.Answer(i).verdict, x.Answer(i).message) == Deserved(x, i)
  {
    Stands(x, i);
    OwnFrameStep(x, i);
  }

  lemma {:induction false} SeenGrows(x: Transfer, i: nat, j: nat)
    requires i <= j <= |x.events|
    ensures x.Seen(i) <= x.Seen(j)
    decreases j
  {
    if i < j {
      SeenGrows(x, i, j - 1);
    }
  }

  lemma {:induction false} SeenAreFragments(x: Transfer, i: nat)
    requires MessageOk(x.message) && x.Faithful() && i <= |x.events|
    ensures x.Seen(i) <= All(Fragments(|x.message|))
    decreases i
  {
    if i > 0 {
      SeenAreFragments(x, i - 1);
      if x.IsOwn(i - 1) {
        assert x.FromSender(x.events[i - 1].frame);
      }
    }
  }

  lemma LastAnswers(x: Transfer, at: nat)
    requires x.Ready() && x.Faithful() && x.Timely() && x.Undisturbed()
    requires at < |x.events| && x.IsOwn(at) && !x.Complete(at) && x.Complete(at + 1)
    ensures x.Answer(at).message == Some(x.message)
  {
    RoundTrip(x, at);
    assert Deserved(x, at) == (Fine, Some(x.message));
    hide *;
  }

  lemma OtherAnswers(x: Transfer, at: nat, i: nat)
    requires x.Ready() && x.Faithful() && x.Timely() && x.Undisturbed()
    requires at < |x.events| && !x.Complete(at) && x.Complete(at + 1)
    requires i < |x.events| && i != at && x.IsOwn(i)
    ensures x.Answer(i).message == None
  {
    RoundTrip(x, i);
    OnceComplete(x, at + 1, i);
    OnceComplete(x, i + 1, at);
    assert Deserved(x, i).1 == None;
    hide *;
  }

  /** When every fragment arrives at least once, the message is returned once. */
  lemma ExactlyOnce(x: Transfer) returns (at: nat)
    requires x.Ready() && x.Faithful() && x.Timely() && x.Undisturbed() && x.Complete(|x.events|)
    ensures at < |x.events| && x.IsOwn(at) && x.Answer(at).message == Some(x.message)
    ensures forall i :: 0 <= i < |x.events| && i != at && x.IsOwn(i) ==> x.Answer(i).message == None
  {
    hide *;
    NotCompleteAtFirst(x);
    at := FirstComplete(x, |x.events|);
    LastAnswers(x, at);
    forall i | 0 <= i < |x.events| && i != at && x.IsOwn(i)
      ensures x.Answer(i).message == None
    {
      OtherAnswers(x, at, i);
    }
  }

  lemma OnceComplete(x: Transfer, i: nat, j: nat)
    requires MessageOk(x.message) && x.Faithful() && i <= |x.events| && j <= |x.events|
    ensures i <= j && x.Complete(i) ==> x.Complete(j)
  {
    if i <= j && x.Complete(i) {
      SeenGrows(x, i, j);
      SeenAreFragments(x, j);
    }
  }

  lemma {:induction false} FirstComplete(x: Transfer, n: nat) returns (at: nat)
    requires n <= |x.events| && x.Complete(n) && !x.Complete(0)
    ensures at < n && !x.Complete(at) && x.Complete(at + 1) && x.IsOwn(at)
    decreases n
  {
    if x.Complete(n - 1) {
      at := FirstComplete(x, n - 1);
    } else {
      at := n - 1;
    }
  }

  // ------------------------------------------------------------------
  // Eight keys never evict each other
  // ------------------------------------------------------------------

  predicate KeysWithin(ss: seq<Session>, keys: set<Key>) {
    forall i :: 0 <= i < |ss| && ss[i].Open? ==> ss[i].key in keys
  }

  predicate AllOpen(ss: seq<Session>) {
    forall i :: 0 <= i < |ss| ==> ss[i].Open?
  }

  lemma {:induction false} DistinctKeysCount(ss: seq<Session>, keys: set<Key>)
    requires AllOpen(ss) && Distinct(ss) && KeysWithin(ss, keys)
    ensures |ss| <= |keys|
  {
    if ss != [] {
      var n := |ss| - 1;
      var rest := keys - {ss[n].key};
      DistinctKeysCount(ss[..n], rest);
      assert keys == rest + {ss[n].key};
    }
  }

  lemma EightKeysFit(ss: seq<Session>, timeout: nat, f: CanFrame, now: nat, k: Key, keys: set<Key>)
    requires Table(ss) && Distinct(ss) && KeysWithin(ss, keys) && |keys| <= SESSIONS
    requires Opens(f) ==> KeyOf(f) in keys
    ensures !Evicts(ss, timeout, f, now, k)
  {
    var t := Scan(ss, now, timeout);
    hide Sound, Opens;
    if FirstFree(t, 0) == |t| && KeyOf(f) in keys {
      assert AllOpen(t);
      if KeysWithin(t, keys - {KeyOf(f)}) {
        DistinctKeysCount(t, keys - {KeyOf(f)});
        assert false;
      }
    }
  }

  lemma ReceiveKeepsKeys(ss: seq<Session>, timeout: nat, f: CanFrame, now: nat, keys: set<Key>)
    requires Table(ss) && KeysWithin(ss, keys)
    requires Opens(f) ==> KeyOf(f) in keys
    ensures KeysWithin(Receive(ss, timeout, f, now).sessions, keys)
  {
    var t := Scan(ss, now, timeout);
    ScanKeeps(ss, now, timeout);
    assert KeysWithin(t, keys);
    hide Sound;
    if KindOf(f) == Data {
      var i := Find(t, KeyOf(f), 0);
      if i < |t| {
        DataStepSound(t[i], f, now);
        hide DataStep;
      }
    }
  }

  lemma {:induction false} StreamKeepsKeys(ss: seq<Session>, timeout: nat, events: seq<Event>, n: nat, keys: set<Key>)
    requires Table(ss) && Distinct(ss) && n <= |events| && KeysWithin(ss, keys)
    requires forall i :: 0 <= i < |events| && Opens(events[i].frame) ==> KeyOf(events[i].frame) in keys
    ensures KeysWithin(After(ss, timeout, events, n), keys)
    decreases n
  {
    if n > 0 {
      StreamKeepsKeys(ss, timeout, events, n - 1, keys);
      hide Receive;
      ReceiveKeepsKeys(After(ss, timeout, events, n - 1), timeout, events[n - 1].frame, events[n - 1].now, keys);
    }
  }

  /** With at most eight keys in the table and on the bus, a transfer is never
      disturbed, so its round trip needs no more than timely frames. */
  lemma EightKeysUndisturbed(x: Transfer, keys: set<Key>)
    requires x.Ready() && KeysWithin(x.table, keys) && |keys| <= SESSIONS && x.Owner() in keys
    requires forall i :: 0 <= i < |x.events| && Opens(x.events[i].frame) ==> KeyOf(x.events[i].frame) in keys
    ensures x.Undisturbed()
  {
    var first := StartFrame(x.message, x.id, x.sessionId);
    StartFrameOpens(x.message, x.id, x.sessionId);
    ReceiveKeepsKeys(x.table, x.timeout, first, x.start, keys);
    var ss := x.Started();
    hide Opens, Receive, StartFrame, KeysWithin, Evicts;
    forall i | 0 <= i < |x.events|
      ensures !EvictedBy(ss, x.timeout, x.events, i, x.Owner())
    {
      StreamKeepsKeys(ss, x.timeout, x.events, i, keys);
      EightKeysFit(After(ss, x.timeout, x.events, i), x.timeout, x.events[i].frame, x.events[i].now, x.Owner(), keys);
    }
  }

  /** A ninth start frame can end a transfer: the eldest session goes, whatever
      it still waits for. */
  lemma NinthKeyEvicts(ss: seq<Session>, timeout: nat, f: CanFrame, now: nat, k: Key)
    requires Table(ss) && Distinct(ss) && Opens(f) && KeyOf(f) != k
    ensures Evicts(ss, timeout, f, now, k) <==>
      var t := Scan(ss, now, timeout);
      AllOpen(t) && (forall i :: 0 <= i < |t| ==> !Holds(t[i], KeyOf(f))) && exists i: nat :: IsEldest(t, i) && t[i].key == k
  {
    hide Sound, Opens, KindOf;
    var t := Scan(ss, now, timeout);
    var i := FirstFree(t, 0);
    if i == |t| {
      assert t[0].Open?;
      assert AllOpen(t);
      assert IsEldest(t, Eldest(t));
      forall j: nat | IsEldest(t, j)
        ensures j == Eldest(t)
      {
        EldestIsUnique(t, j, Eldest(t));
      }
    }
  }

  lemma EldestIsUnique(ss: seq<Session>, i: nat, j: nat)
    requires IsEldest(ss, i) && IsEldest(ss, j)
    ensures i == j
  {
  }
}
