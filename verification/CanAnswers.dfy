/** What one CAN frame does, told on its bytes and on the fields of the sessions:
    when a session times out, which frames are turned away, where a start frame
    opens its session and what a data frame stores. The conditions here are
    written apart from the functions of the receiver. */
module CanAnswers {
  import opened Types
  import opened CanReassembly
  import Crc16

  // ------------------------------------------------------------------
  // Identifiers
  // ------------------------------------------------------------------

  /** Bit 30 of an identifier marks a remote frame. */
  predicate Remote(f: CanFrame) {
    f.id & 0x4000_0000 != 0
  }

  /** Bit 31 marks an extended identifier, with 29 address bits instead of 11. */
  predicate Extends(id: bv32) {
    id & 0x8000_0000 != 0
  }

  function AddressBits(id: bv32, extended: bool): bv32 {
    if extended then id & 0x1FFF_FFFF else id & 0x7FF
  }

  function Address(id: bv32): bv32 {
    AddressBits(id, Extends(id))
  }

  /** What a sender puts on the bus has the format it was set up with and the
      address it was given. */
  lemma TransmittedIs(id: bv32, extended: bool)
    ensures Extends(TxId(id, extended)) == extended
    ensures Address(TxId(id, extended)) == AddressBits(id, extended)
  {
  }

  lemma NormalIsTransmitted(id: bv32)
    ensures Normalize(id) == TxId(id, Extends(id))
    ensures Address(id) == AddressBits(id, Extends(id))
  {
  }

  function WithFormat(address: bv32, extended: bool): bv32 {
    if extended then address | 0x8000_0000 else address
  }

  lemma ExtendedIsFormatted(id: bv32)
    ensures TxId(id, true) == WithFormat(AddressBits(id, true), true)
  {
  }

  lemma StandardIsFormatted(id: bv32)
    ensures TxId(id, false) == WithFormat(AddressBits(id, false), false)
  {
  }

  lemma TransmittedIsFormatted(id: bv32, extended: bool)
    ensures TxId(id, extended) == WithFormat(AddressBits(id, extended), extended)
  {
    hide *;
    ExtendedIsFormatted(id);
    StandardIsFormatted(id);
  }

  /** Two frames come from the same source exactly when their identifiers have the
      same format and the same address. */
  lemma SameSourceIs(a: bv32, b: bv32)
    ensures Normalize(a) == Normalize(b) <==> Extends(a) == Extends(b) && Address(a) == Address(b)
  {
    hide *;
    NormalIsTransmitted(a);
    NormalIsTransmitted(b);
    TransmittedIs(a, Extends(a));
    TransmittedIs(b, Extends(b));
    TransmittedIsFormatted(a, Extends(a));
    TransmittedIsFormatted(b, Extends(b));
  }

  // ------------------------------------------------------------------
  // Conditions
  // ------------------------------------------------------------------

  /** More than the timeout since the session last made progress. */
  predicate Late(s: Session, timeout: nat, now: nat) {
    s.Open? && s.updated + timeout < now
  }

  predicate NoneLate(ss: seq<Session>, timeout: nat, now: nat) {
    forall i :: 0 <= i < |ss| ==> !Late(ss[i], timeout, now)
  }

  /** A session the frame does not touch is kept exactly when it is not late. */
  predicate Kept(was: Session, now: nat, timeout: nat, after: Session) {
    after == if Late(was, timeout, now) then Free else was
  }

  predicate KeptBut(ss: seq<Session>, timeout: nat, now: nat, tt: seq<Session>, i: nat) {
    |tt| == |ss| && forall j :: 0 <= j < |ss| && j != i ==> Kept(ss[j], now, timeout, tt[j])
  }

  /** The live session of the frame's source and session number. */
  predicate Mine(s: Session, timeout: nat, f: CanFrame, now: nat) {
    s.Open? && s.key == Key(Normalize(f.id), f.data[1]) && !Late(s, timeout, now)
  }

  predicate HasMine(ss: seq<Session>, timeout: nat, f: CanFrame, now: nat) {
    exists i :: 0 <= i < |ss| && Mine(ss[i], timeout, f, now)
  }

  predicate Usable(s: Session, timeout: nat, now: nat) {
    s.Free? || Late(s, timeout, now)
  }

  predicate HasUsable(ss: seq<Session>, timeout: nat, now: nat) {
    exists i :: 0 <= i < |ss| && Usable(ss[i], timeout, now)
  }

  /** A start frame reuses its own live session, else it takes the first free or
      late one, else the eldest. */
  predicate Takes(ss: seq<Session>, timeout: nat, f: CanFrame, now: nat, i: nat) {
    i < |ss| &&
    if HasMine(ss, timeout, f, now) then Mine(ss[i], timeout, f, now)
    else if HasUsable(ss, timeout, now) then
      Usable(ss[i], timeout, now) && forall j :: 0 <= j < i ==> !Usable(ss[j], timeout, now)
    else IsEldest(ss, i)
  }

  /** Bytes 2 and 3 of a start frame. */
  function Length(f: CanFrame): nat {
    f.data[2] as int + 0x100 * f.data[3] as int
  }

  predicate LengthWrong(f: CanFrame) {
    Length(f) < 40 || 512 < Length(f) || 1 < f.data[6]
  }

  /** Byte 7 counts five bytes to a fragment, the last one not empty. */
  predicate CountWrong(f: CanFrame) {
    5 * (f.data[7] as int) < Length(f) || Length(f) + 5 <= 5 * (f.data[7] as int)
  }

  /** A session as a start frame opens it. */
  predicate Begun(s: Session, f: CanFrame, now: nat) {
    && s.Open? && s.key == Key(Normalize(f.id), f.data[1])
    && s.total == Length(f) && s.crc == f.data[4] as int + 0x100 * f.data[5] as int && s.count == f.data[7] as int
    && s.received == 0 && s.started == s.updated == now
    && |s.bitmap| == 16 && forall t: nat :: t < 128 ==> !BitmapGet(s.bitmap, t)
  }

  /** A session with fragment n of the frame in it: bytes 3 to 7 of the frame are
      bytes 5n to 5n + 4 of the message, as far as it goes. */
  predicate Extended(s: Session, f: CanFrame, now: nat, t: Session)
    requires s.Open? && |s.buffer| == 512 && |s.bitmap| == 16 && f.data[2] < 128
  {
    var n := f.data[2] as int;
    && t.Open? && t.key == s.key && t.total == s.total && t.crc == s.crc && t.count == s.count
    && t.started == s.started && t.received == s.received + 1 && t.updated == now
    && |t.buffer| == 512 && |t.bitmap| == 16
    && (forall i :: 0 <= i < 512 ==>
         t.buffer[i] == if 5 * n <= i < 5 * n + 5 && i < s.total then f.data[3 + i - 5 * n] else s.buffer[i])
    && (forall u: nat :: u < 128 ==> (BitmapGet(t.bitmap, u) <==> u == n || BitmapGet(s.bitmap, u)))
  }

  // ------------------------------------------------------------------
  // Answers
  // ------------------------------------------------------------------

  /** A frame that is turned away changes nothing but what has timed out. */
  predicate TurnedAway(ss: seq<Session>, timeout: nat, now: nat, r: Reply, verdict: Verdict) {
    r.verdict == verdict && r.message == None && KeptBut(ss, timeout, now, r.sessions, |ss|)
  }

  /** A sound start frame opens one session. */
  ghost predicate Starts(ss: seq<Session>, timeout: nat, f: CanFrame, now: nat, r: Reply) {
    r.verdict == Fine && r.message == None &&
    exists i: nat :: i < |r.sessions| && Takes(ss, timeout, f, now, i) && KeptBut(ss, timeout, now, r.sessions, i) &&
                     Begun(r.sessions[i], f, now)
  }

  /** A data frame at its live session s: out of range it is turned away, a repeat
      changes nothing, and a new fragment is stored; the last one ends the session
      and hands the message over if its CRC is the declared one. */
  ghost predicate Continues(s: Session, f: CanFrame, now: nat, after: Session, r: Reply)
    requires s.Open? && |s.buffer| == 512 && |s.bitmap| == 16 && s.count <= 103 && s.total <= 512
  {
    if f.data[2] >= s.count then r.verdict == BadArgument && r.message == None && after == s
    else if BitmapGet(s.bitmap, f.data[2]) then r.verdict == Fine && r.message == None && after == s
    else if s.received + 1 < s.count then r.verdict == Fine && r.message == None && Extended(s, f, now, after)
    else
      after == Free &&
      exists t: Session :: Extended(s, f, now, t) &&
        var m := t.buffer[..t.total];
        if Crc16.Crc(Bits(m)) as int == s.crc then r.verdict == Fine && r.message == Some(m)
        else r.verdict == BadCrc && r.message == None
  }

  ghost predicate Feeds(ss: seq<Session>, timeout: nat, f: CanFrame, now: nat, r: Reply)
    requires Table(ss)
  {
    if !HasMine(ss, timeout, f, now) then TurnedAway(ss, timeout, now, r, BadArgument)
    else
      forall i: nat :: i < |ss| && Mine(ss[i], timeout, f, now) ==>
        KeptBut(ss, timeout, now, r.sessions, i) &&
        (Sizes(ss[i]); Continues(ss[i], f, now, r.sessions[i], r))
  }

  lemma Sizes(s: Session)
    requires Sound(s) && s.Open?
    ensures |s.buffer| == 512 && |s.bitmap| == 16 && 8 <= s.count <= 103 && 40 <= s.total <= 512
    ensures s.count == Fragments(s.total) && 5 * s.count - 5 < s.total <= 5 * s.count
  {
    FragmentsFit(s.total);
  }

  /** The answer to any frame. */
  ghost predicate Answered(ss: seq<Session>, timeout: nat, f: CanFrame, now: nat, r: Reply)
    requires Table(ss)
  {
    if Remote(f) then TurnedAway(ss, timeout, now, r, BadArgument)
    else if f.dlc != 8 then TurnedAway(ss, timeout, now, r, BadDlc)
    else if f.data[0] == 0xA0 then
      if LengthWrong(f) then TurnedAway(ss, timeout, now, r, BadLength)
      else if CountWrong(f) then TurnedAway(ss, timeout, now, r, BadArgument)
      else Starts(ss, timeout, f, now, r)
    else if f.data[0] == 0xD0 then Feeds(ss, timeout, f, now, r)
    else TurnedAway(ss, timeout, now, r, BadArgument)
  }

  // ------------------------------------------------------------------
  // The receiver answers so
  // ------------------------------------------------------------------

  lemma ScanIs(ss: seq<Session>, timeout: nat, now: nat)
    ensures var t := Scan(ss, now, timeout);
      |t| == |ss| && NoneLate(t, timeout, now) &&
      forall i :: 0 <= i < |ss| ==> Kept(ss[i], now, timeout, t[i])
  {
  }

  lemma SofCheckIs(f: CanFrame)
    ensures SofCheck(f) == if LengthWrong(f) then BadLength else if CountWrong(f) then BadArgument else Fine
  {
    if !LengthWrong(f) {
      FragmentsFit(Length(f));
    }
  }

  lemma KindIs(f: CanFrame)
    ensures KindOf(f) ==
      if Remote(f) then Rejected(BadArgument) else if f.dlc != 8 then Rejected(BadDlc)
      else if f.data[0] == 0xA0 then Sof else if f.data[0] == 0xD0 then Data else Rejected(BadArgument)
  {
  }

  lemma OpenedIs(f: CanFrame, now: nat)
    ensures Begun(Opened(f, now), f, now)
  {
    forall t: nat | t < 128
      ensures !BitmapGet(NoBits(), t)
    {
      BitmapEmpty(t);
    }
    hide BitmapGet;
  }

  lemma StoredIs(s: Session, f: CanFrame, now: nat)
    requires Sound(s) && s.Open? && f.data[2] < s.count
    ensures |s.buffer| == 512 && |s.bitmap| == 16 && f.data[2] < 128
    ensures Extended(s, f, now, Stored(s, f, now))
  {
    Sizes(s);
    var n: nat := f.data[2];
    var t := Stored(s, f, now);
    FragmentsFit(s.total);
    StoredBytes(s, f, now);
    forall u: nat | u < 128
      ensures BitmapGet(t.bitmap, u) <==> u == n || BitmapGet(s.bitmap, u)
    {
      BitmapGetSet(s.bitmap, n, u);
    }
    hide Sound, BitmapGet, BitmapSet, Splice;
  }

  lemma StoredBytes(s: Session, f: CanFrame, now: nat)
    requires Sound(s) && s.Open? && f.data[2] < s.count && |s.buffer| == 512
    requires 5 * s.count - 5 < s.total <= 5 * s.count
    ensures var n, t := f.data[2] as int, Stored(s, f, now);
      forall i :: 0 <= i < 512 ==>
        t.buffer[i] == if 5 * n <= i < 5 * n + 5 && i < s.total then f.data[3 + i - 5 * n] else s.buffer[i]
  {
    FragmentsFit(s.total);
    hide Sound, BitmapSet;
    assert CopyLength(s.total, f.data[2]) ==
      if s.total < 5 * f.data[2] as int + 5 then s.total - 5 * f.data[2] as int else 5;
  }

  /** The first session at or after the scan that is free in the scanned table. */
  lemma FreeIsUsable(ss: seq<Session>, timeout: nat, now: nat)
    ensures var t := Scan(ss, now, timeout);
      && |t| == |ss|
      && (forall i :: 0 <= i < |ss| ==> (t[i].Free? <==> Usable(ss[i], timeout, now)))
  {
  }

  lemma MineIsFound(ss: seq<Session>, timeout: nat, f: CanFrame, now: nat)
    ensures var t := Scan(ss, now, timeout);
      && |t| == |ss|
      && (forall i :: 0 <= i < |ss| ==> (Holds(t[i], KeyOf(f)) <==> Mine(ss[i], timeout, f, now)))
      && (Find(t, KeyOf(f), 0) < |t| <==> HasMine(ss, timeout, f, now))
  {
    hide Normalize;
    var t := Scan(ss, now, timeout);
    forall i | 0 <= i < |ss|
      ensures Holds(t[i], KeyOf(f)) <==> Mine(ss[i], timeout, f, now)
    {
    }
  }

  lemma NewSlotTakes(ss: seq<Session>, timeout: nat, f: CanFrame, now: nat)
    requires |ss| == SESSIONS && !HasMine(ss, timeout, f, now)
    ensures Takes(ss, timeout, f, now, NewSlot(Scan(ss, now, timeout)))
  {
    FreeIsUsable(ss, timeout, now);
    ScanIs(ss, timeout, now);
    var t := Scan(ss, now, timeout);
    hide Scan, Usable, HasMine, NoneLate;
    if FirstFree(t, 0) == |t| {
      assert forall j :: 0 <= j < |t| ==> t[j].Open? && t[j] == ss[j];
      assert t == ss;
      assert ss[0].Open?;
    }
  }

  lemma StartAnswered(ss: seq<Session>, timeout: nat, f: CanFrame, now: nat)
    requires Table(ss) && SofCheck(f) == Fine
    ensures Starts(ss, timeout, f, now, SofReply(Scan(ss, now, timeout), timeout, f, now))
  {
    MineIsFound(ss, timeout, f, now);
    ScanIs(ss, timeout, now);
    ScanKeeps(ss, now, timeout);
    OpenedIs(f, now);
    var t := Scan(ss, now, timeout);
    var i := Find(t, KeyOf(f), 0);
    hide SofCheck, Opened, Begun, Scan, Table, Mine, Late;
    if i < |t| {
      assert Takes(ss, timeout, f, now, i);
      assert KeptBut(ss, timeout, now, t[i := Opened(f, now)], i);
    } else {
      NewSlotTakes(ss, timeout, f, now);
      var j := NewSlot(t);
      assert KeptBut(ss, timeout, now, t[j := Opened(f, now)], j);
    }
  }

  lemma StepContinues(s: Session, f: CanFrame, now: nat)
    requires Sound(s) && s.Open?
    ensures |s.buffer| == 512 && |s.bitmap| == 16 && s.count <= 103 && s.total <= 512
    ensures var d := DataStep(s, f, now);
      forall tt: seq<Session> :: Continues(s, f, now, d.session, Reply(tt, d.verdict, d.message))
  {
    Sizes(s);
    if f.data[2] < s.count {
      StoredIs(s, f, now);
      assert Extended(s, f, now, Stored(s, f, now));
    }
    hide Sound, Stored, Extended, BitmapGet;
  }

  lemma DataAnswered(ss: seq<Session>, timeout: nat, f: CanFrame, now: nat)
    requires Table(ss) && Distinct(ss)
    ensures Table(Scan(ss, now, timeout))
    ensures Feeds(ss, timeout, f, now, DataReply(Scan(ss, now, timeout), f, now))
  {
    MineIsFound(ss, timeout, f, now);
    ScanIs(ss, timeout, now);
    ScanKeeps(ss, now, timeout);
    var t := Scan(ss, now, timeout);
    var r := DataReply(t, f, now);
    var at := Find(t, KeyOf(f), 0);
    hide Scan, DataStep, Sound, HasMine, KeyOf;
    if at < |t| {
      StepContinues(t[at], f, now);
      forall i: nat | i < |ss| && Mine(ss[i], timeout, f, now)
        ensures i == at && t[i] == ss[i]
      {
      }
      hide Continues, Table, Mine, Late;
      assert KeptBut(ss, timeout, now, r.sessions, at);
    } else {
      assert KeptBut(ss, timeout, now, r.sessions, |ss|);
    }
  }

  /** Every frame is answered by its own bytes and the sessions' fields. */
  lemma ReceiveAnswered(ss: seq<Session>, timeout: nat, f: CanFrame, now: nat)
    requires Table(ss) && Distinct(ss)
    ensures Answered(ss, timeout, f, now, Receive(ss, timeout, f, now))
  {
    KindIs(f);
    SofCheckIs(f);
    ScanIs(ss, timeout, now);
    DataAnswered(ss, timeout, f, now);
    if SofCheck(f) == Fine {
      StartAnswered(ss, timeout, f, now);
    }
    hide Scan, Table, Distinct, Feeds, Starts, KindOf, SofCheck, LengthWrong, CountWrong, Remote, Late, DataReply;
  }

  // ------------------------------------------------------------------
  // Timeouts along a stream
  // ------------------------------------------------------------------

  /** An answered frame leaves no late session behind. */
  lemma AnsweredIsPrompt(ss: seq<Session>, timeout: nat, f: CanFrame, now: nat, r: Reply)
    requires Table(ss) && Answered(ss, timeout, f, now, r)
    ensures NoneLate(r.sessions, timeout, now)
  {
    hide Normalize, BitmapGet, Remote, LengthWrong, CountWrong;
    if r.sessions != [] {
      forall j | 0 <= j < |r.sessions|
        ensures !Late(r.sessions[j], timeout, now)
      {
      }
    }
  }

  /** After every frame of a stream no session is late: whatever arrives, a
      session never outlives its timeout. */
  lemma StreamIsPrompt(ss: seq<Session>, timeout: nat, events: seq<Event>, n: nat)
    requires Table(ss) && Distinct(ss) && n < |events|
    ensures NoneLate(After(ss, timeout, events, n + 1), timeout, events[n].now)
  {
    var before := After(ss, timeout, events, n);
    ReceiveAnswered(before, timeout, events[n].frame, events[n].now);
    AnsweredIsPrompt(before, timeout, events[n].frame, events[n].now, ReplyTo(ss, timeout, events, n));
    hide Table, Distinct, Receive, Answered, NoneLate;
  }

  predicate IsDataFrame(f: CanFrame) {
    !Remote(f) && f.dlc == 8 && f.data[0] == 0xD0
  }

  /** The session of the frame's key in the table, late or not. */
  predicate HasKey(s: Session, f: CanFrame) {
    s.Open? && s.key == Key(Normalize(f.id), f.data[1])
  }

  /** A data frame that comes one tick too late is an orphan: it is turned away and
      its session is gone. One that comes just in time is accepted: it is only
      turned away for a fragment number the message does not have. */
  lemma LateExactly(ss: seq<Session>, timeout: nat, events: seq<Event>, n: nat, i: nat)
    requires Table(ss) && Distinct(ss) && n < |events| && IsDataFrame(events[n].frame)
    requires var before := After(ss, timeout, events, n); i < |before| && HasKey(before[i], events[n].frame)
    ensures var s, f, r := After(ss, timeout, events, n)[i], events[n].frame, ReplyTo(ss, timeout, events, n);
      && |r.sessions| == 8
      && (r.verdict == BadArgument <==> s.updated + timeout < events[n].now || s.count <= f.data[2] as int)
      && (s.updated + timeout < events[n].now ==> r.message == None && r.sessions[i] == Free)
  {
    var before, f, now := After(ss, timeout, events, n), events[n].frame, events[n].now;
    ReceiveAnswered(before, timeout, f, now);
    var r := ReplyTo(ss, timeout, events, n);
    hide After, Receive, Remote, Normalize, Sound, BitmapGet, Extended, Crc16.Crc, Bits;
    forall j: nat | j < |before| && HasKey(before[j], f)
      ensures j == i
    {
    }
    assert HasMine(before, timeout, f, now) <==> before[i].updated + timeout >= now;
    if HasMine(before, timeout, f, now) {
      assert Mine(before[i], timeout, f, now);
    }
  }

  // ------------------------------------------------------------------
  // What the sender puts on the wire
  // ------------------------------------------------------------------

  lemma StartFrameOnWire(m: seq<byte>, id: bv32, sessionId: byte)
    requires MessageOk(m)
    ensures var f := StartFrame(m, id, sessionId);
      && f.id == id && f.dlc == 8 && f.data[0] == 0xA0 && f.data[1] == sessionId
      && Length(f) == |m| && f.data[4] as int + 0x100 * f.data[5] as int == Crc16.Crc(Bits(m)) as int
      && f.data[6] == (if |m| % 5 == 0 then 0 else 1) && !LengthWrong(f) && !CountWrong(f)
  {
    FragmentsFit(|m|);
    hide Crc16.Crc;
  }

  /** Data frame t carries bytes 5t to 5t + 4, padded with zeros at the end. */
  lemma DataFrameOnWire(m: seq<byte>, id: bv32, sessionId: byte, t: nat)
    requires MessageOk(m) && t < Fragments(|m|)
    ensures var f := DataFrame(m, id, sessionId, t);
      && f.id == id && f.dlc == 8 && f.data[0] == 0xD0 && f.data[1] == sessionId && f.data[2] == t
      && forall i :: 3 <= i < 8 ==> f.data[i] == if 5 * t + i - 3 < |m| then m[5 * t + i - 3] else 0
  {
    FragmentsFit(|m|);
  }
}
