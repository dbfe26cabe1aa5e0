/** The CAN adapter as it runs: the receiver's session table and the sender's
    frame buffer, updated in place. */
module CanAdapter {
  import opened Types
  import opened CanReassembly
  import A = CanAnswers

  // ------------------------------------------------------------------
  // The receiver as it runs
  // ------------------------------------------------------------------

  function Effective(timeout: nat): nat {
    if timeout == 0 then DEFAULT_TIMEOUT else timeout
  }

  class Receiver {
    const reassemblyTimeout: nat
    const sessions: array<Session>

    ghost predicate Valid()
      reads sessions
    {
      sessions.Length == SESSIONS && Table(sessions[..]) && Distinct(sessions[..])
    }

    constructor (timeout: nat)
      ensures Valid() && fresh(sessions) && reassemblyTimeout == Effective(timeout)
      ensures Vacant(sessions[..])
    {
      reassemblyTimeout := if timeout == 0 then DEFAULT_TIMEOUT else timeout;
      sessions := new Session[SESSIONS](_ => Free);
    }

    method ScanTimeouts(now: nat)
      modifies sessions
      ensures sessions[..] == Scan(old(sessions[..]), now, Effective(reassemblyTimeout))
    {
      var timeout := if reassemblyTimeout == 0 then DEFAULT_TIMEOUT else reassemblyTimeout;
      for i := 0 to sessions.Length
        invariant forall j :: 0 <= j < i ==> sessions[j] == Age(old(sessions[j]), now, timeout)
        invariant forall j :: i <= j < sessions.Length ==> sessions[j] == old(sessions[j])
      {
        if sessions[i].Open? && now >= sessions[i].updated && now - sessions[i].updated > timeout {
          sessions[i] := Free;
        }
      }
    }

    method FindSession(k: Key) returns (found: bool, index: nat)
      ensures index == Find(sessions[..], k, 0)
      ensures found == (index < sessions.Length)
    {
      index := 0;
      while index < sessions.Length
        invariant index <= sessions.Length && Find(sessions[..], k, 0) == Find(sessions[..], k, index)
      {
        if sessions[index].Open? && sessions[index].key == k {
          return true, index;
        }
        index := index + 1;
      }
      found := false;
    }

    method FindFree() returns (found: bool, index: nat)
      ensures index == FirstFree(sessions[..], 0)
      ensures found == (index < sessions.Length)
    {
      index := 0;
      while index < sessions.Length
        invariant index <= sessions.Length && FirstFree(sessions[..], 0) == FirstFree(sessions[..], index)
      {
        if sessions[index].Free? {
          return true, index;
        }
        index := index + 1;
      }
      found := false;
    }

    method FindEldest() returns (index: nat)
      requires sessions.Length > 0 && AllOpen(sessions[..])
      ensures index == Eldest(sessions[..]) && index < sessions.Length
    {
      var found := false;
      index := 0;
      for i := 0 to sessions.Length
        invariant found == (i > 0)
        invariant found ==> IsEldest(sessions[..i], index)
      {
        assert sessions[..][i].Open?;
        assert sessions[..i + 1] == sessions[..i] + [sessions[i]];
        if sessions[i].Open? {
          if !found || sessions[i].started < sessions[index].started {
            index := i;
            found := true;
          }
        }
      }
      assert sessions[..sessions.Length] == sessions[..];
      assert sessions[..][0].Open?;
      EldestIsUnique(sessions[..], index, Eldest(sessions[..]));
    }

    method HandleSof(f: CanFrame, now: nat) returns (verdict: Verdict)
      requires sessions.Length == SESSIONS
      modifies sessions
      ensures SofReply(old(sessions[..]), Effective(reassemblyTimeout), f, now) == Reply(sessions[..], verdict, None)
    {
      var total := Le16(f.data[2], f.data[3]);
      if total < HEADER_SIZE || total > BLOCK_SIZE || f.data[6] / 2 != 0 { return BadLength; }
      if f.data[7] == 0 || f.data[7] != Fragments(total) { return BadArgument; }
      var found, index := FindSession(KeyOf(f));
      if !found {
        ScanTimeouts(now);
        found, index := FindFree();
        if !found {
          assert AllOpen(sessions[..]);
          index := FindEldest();
        }
      }
      ghost var table := sessions[..];
      sessions[index] := Opened(f, now);
      assert sessions[..] == table[index := Opened(f, now)];
      return Fine;
    }

    /** Store a fragment and hand over the message if it was the last one. */
    method HandleData(f: CanFrame, now: nat) returns (verdict: Verdict, message: Option<seq<byte>>)
      requires Valid()
      modifies sessions
      ensures DataReply(old(sessions[..]), f, now) == Reply(sessions[..], verdict, message)
    {
      ghost var table := sessions[..];
      message := None;
      var found, index := FindSession(KeyOf(f));
      if !found { return BadArgument, None; }
      var s := sessions[index];
      assert Sound(table[index]);
      FragmentsFit(s.total);
      var n := f.data[2];
      if n >= s.count { return BadArgument, None; }
      if BitmapGet(s.bitmap, n) { return Fine, None; }
      sessions[index] := Stored(s, f, now);
      s := sessions[index];
      if s.received < s.count {
        verdict := Fine;
      } else {
        var actual := CrcOf(s.buffer[..s.total]);
        sessions[index] := Free;
        verdict := if actual != s.crc then BadCrc else Fine;
        message := if actual != s.crc then None else Some(s.buffer[..s.total]);
      }
      assert sessions[..] == table[index := sessions[index]];
    }

    /** One received frame, handled as Receive says and answered by its own bytes
        and the fields of the sessions; afterwards no session is late. */
    method Reassemble(f: CanFrame, now: nat) returns (verdict: Verdict, message: Option<seq<byte>>)
      requires Valid()
      modifies sessions
      ensures Valid()
      ensures Receive(old(sessions[..]), Effective(reassemblyTimeout), f, now) == Reply(sessions[..], verdict, message)
      ensures var timeout := if reassemblyTimeout == 0 then 500 else reassemblyTimeout;
        A.Answered(old(sessions[..]), timeout, f, now, Reply(sessions[..], verdict, message)) &&
        A.NoneLate(sessions[..], timeout, now)
    {
      ghost var before, timeout := sessions[..], Effective(reassemblyTimeout);
      Isolation(before, timeout, f, now, KeyOf(f));
      ScanKeeps(before, now, timeout);
      A.ReceiveAnswered(before, timeout, f, now);
      A.AnsweredIsPrompt(before, timeout, f, now, Receive(before, timeout, f, now));
      hide Sound, DataReply, SofReply, Distinct, A.Answered, A.NoneLate;
      ScanTimeouts(now);
      if IsRemote(f.id) { return BadArgument, None; }
      if f.dlc != CLASSIC_DLC { return BadDlc, None; }
      if f.data[0] == SOF_BYTE {
        verdict := HandleSof(f, now);
        message := None;
      } else if f.data[0] == DATA_BYTE {
        verdict, message := HandleData(f, now);
      } else {
        return BadArgument, None;
      }
    }
  }

  // ------------------------------------------------------------------
  // The sender as it runs
  // ------------------------------------------------------------------

  /** The frames of one message: the start frame, then every fragment in order. */
  predicate Carries(frames: seq<CanFrame>, m: seq<byte>, id: bv32, sessionId: byte)
    requires MessageOk(m)
  {
    && |frames| == Fragments(|m|) + 1
    && frames[0] == StartFrame(m, id, sessionId)
    && forall t :: 1 <= t < |frames| ==> frames[t] == DataFrame(m, id, sessionId, t - 1)
  }

  /** The session counter is a byte that wraps. */
  function NextSession(b: byte): byte {
    if b == 0xFF then 0 else b + 1
  }

  class Sender {
    const txCanId: bv32
    const extended: bool
    const frames: array<CanFrame>
    var nextSessionId: byte

    constructor (txCanId: bv32, extended: bool)
      ensures fresh(frames) && frames.Length == MAX_FRAGMENTS + 1 && nextSessionId == 0
      ensures this.txCanId == txCanId && this.extended == extended
    {
      this.txCanId, this.extended, nextSessionId := txCanId, extended, 0;
      frames := new CanFrame[MAX_FRAGMENTS + 1](_ => CanFrame(0, 0, [0, 0, 0, 0, 0, 0, 0, 0]));
    }

    /** The number of frames to send, None for a message of the wrong length. */
    method Fragment(m: seq<byte>) returns (count: Option<nat>)
      requires frames.Length == MAX_FRAGMENTS + 1
      modifies this`nextSessionId, frames
      ensures count.Some? <==> MessageOk(m)
      ensures count.None? ==> frames[..] == old(frames[..]) && nextSessionId == old(nextSessionId)
      ensures count.Some? ==> nextSessionId == NextSession(old(nextSessionId))
      ensures Sendable(TxId(txCanId, extended))
      ensures count.Some? ==> count.value <= frames.Length
      ensures count.Some? ==> Carries(frames[..count.value], m, TxId(txCanId, extended), old(nextSessionId))
    {
      TxIdIsNormal(txCanId, extended);
      hide StartFrame, DataFrame, Normalize, IsRemote, TxId;
      if |m| < HEADER_SIZE || |m| > BLOCK_SIZE { return None; }
      FragmentsFit(|m|);
      var total := Fragments(|m|);
      assert total + 1 <= frames.Length;
      var sessionId := nextSessionId;
      nextSessionId := NextSession(nextSessionId);
      var id := TxId(txCanId, extended);
      frames[0] := StartFrame(m, id, sessionId);
      for t := 0 to total
        invariant nextSessionId == NextSession(sessionId)
        invariant frames[0] == StartFrame(m, id, sessionId)
        invariant forall u :: 1 <= u <= t ==> frames[u] == DataFrame(m, id, sessionId, u - 1)
      {
        frames[t + 1] := DataFrame(m, id, sessionId, t);
      }
      ghost var sent := frames[..total + 1];
      assert sent[0] == frames[0] && forall t :: 1 <= t < |sent| ==> sent[t] == frames[t];
      return Some(total + 1);
    }
  }
}
