/** The TCP stream framer of the socket adapters: length-prefixed messages cut
    out of a byte stream that arrives in arbitrary reads. */
module TcpFramer {
  import opened Types

  type Frame = seq<byte>

  datatype Status = Running | LengthError | Refused

  /** Delivered frames, bytes not yet part of one, and whether to go on. */
  datatype Parsed = Parsed(delivered: seq<Frame>, rest: seq<byte>, status: Status)

  const LENGTH_FIELD: nat := 2

  function ReadLe16(bytes: seq<byte>): nat
    requires |bytes| >= LENGTH_FIELD
  {
    Le16(bytes[0], bytes[1])
  }

  predicate LengthOk(n: nat) {
    HEADER_SIZE <= n <= BLOCK_SIZE
  }

  /** What the whole stream means, without regard to how it was read. The
      handler's verdict may depend on everything delivered so far. */
  function Parse(accepts: seq<Frame> -> bool, done: seq<Frame>, stream: seq<byte>): (r: Parsed)
    decreases |stream|
  {
    if |stream| < LENGTH_FIELD then Parsed(done, stream, Running)
    else
      var n := ReadLe16(stream);
      if !LengthOk(n) then Parsed(done, [], LengthError)
      else if |stream| < n then Parsed(done, stream, Running)
      else
        var now := done + [stream[..n]];
        if accepts(now) then Parse(accepts, now, stream[n..]) else Parsed(now, [], Refused)
  }

  /** An unfinished message: nothing to deliver and nothing wrong yet. */
  predicate Unfinished(bytes: seq<byte>) {
    |bytes| >= LENGTH_FIELD ==> LengthOk(ReadLe16(bytes)) && |bytes| < ReadLe16(bytes)
  }

  lemma NothingToDeliver(accepts: seq<Frame> -> bool, done: seq<Frame>, bytes: seq<byte>)
    requires Unfinished(bytes)
    ensures Parse(accepts, done, bytes) == Parsed(done, bytes, Running)
  {
  }

  lemma {:induction false} RestUnfinished(accepts: seq<Frame> -> bool, done: seq<Frame>, stream: seq<byte>)
    ensures Unfinished(Parse(accepts, done, stream).rest)
    decreases |stream|
  {
    if |stream| >= LENGTH_FIELD && LengthOk(ReadLe16(stream)) && |stream| >= ReadLe16(stream) {
      var n := ReadLe16(stream);
      RestUnfinished(accepts, done + [stream[..n]], stream[n..]);
    }
  }

  /** Reading b after a: an error in a is final, otherwise a's unfinished
      message is continued. */
  lemma {:induction false} ParseSplit(accepts: seq<Frame> -> bool, done: seq<Frame>, a: seq<byte>, b: seq<byte>)
    ensures var p := Parse(accepts, done, a);
      Parse(accepts, done, a + b) == if p.status.Running? then Parse(accepts, p.delivered, p.rest + b) else p
    decreases |a|
  {
    if |a| >= LENGTH_FIELD {
      assert ReadLe16(a + b) == ReadLe16(a);
      var n := ReadLe16(a);
      if LengthOk(n) && |a| >= n {
        assert (a + b)[..n] == a[..n] && (a + b)[n..] == a[n..] + b;
        if accepts(done + [a[..n]]) {
          ParseSplit(accepts, done + [a[..n]], a[n..], b);
        }
      }
    }
  }

  // ------------------------------------------------------------------
  // Chunking
  // ------------------------------------------------------------------

  function Join(chunks: seq<seq<byte>>): seq<byte> {
    if chunks == [] then [] else chunks[0] + Join(chunks[1..])
  }

  lemma JoinNothing()
    ensures Join([]) == []
  {
  }

  lemma JoinFirst(before: seq<byte>, chunks: seq<seq<byte>>)
    requires chunks != []
    ensures (before + chunks[0]) + Join(chunks[1..]) == before + Join(chunks)
  {
  }

  /** One read after another; the connection is closed on the first error. */
  function Feed(accepts: seq<Frame> -> bool, p: Parsed, chunks: seq<seq<byte>>): Parsed
    decreases |chunks|
  {
    if chunks == [] || !p.status.Running? then p
    else Feed(accepts, Parse(accepts, p.delivered, p.rest + chunks[0]), chunks[1..])
  }

  /** Framing does not depend on chunking: however the stream is cut into reads,
      the same frames reach the handler and the same bytes are left over. */
  lemma {:induction false} ChunkingIrrelevant(accepts: seq<Frame> -> bool, p: Parsed, chunks: seq<seq<byte>>)
    requires p.status.Running? && Unfinished(p.rest)
    ensures Feed(accepts, p, chunks) == Parse(accepts, p.delivered, p.rest + Join(chunks))
    decreases |chunks|
  {
    hide Parse, Unfinished, Join;
    if chunks == [] {
      assert p.rest + Join(chunks) == p.rest by { JoinNothing(); }
      NothingToDeliver(accepts, p.delivered, p.rest);
    } else {
      var q := Parse(accepts, p.delivered, p.rest + chunks[0]);
      RestUnfinished(accepts, p.delivered, p.rest + chunks[0]);
      ParseSplit(accepts, p.delivered, p.rest + chunks[0], Join(chunks[1..]));
      JoinFirst(p.rest, chunks);
      if q.status.Running? {
        ChunkingIrrelevant(accepts, q, chunks[1..]);
      }
    }
  }

  // ------------------------------------------------------------------
  // Concatenated frames come back
  // ------------------------------------------------------------------

  /** A frame of 40 to 512 bytes that starts with its own length, low byte first. */
  predicate WellFormed(f: Frame) {
    40 <= |f| <= 512 && f[0] == |f| % 0x100 && f[1] == |f| / 0x100
  }

  predicate AllAccepted(accepts: seq<Frame> -> bool, done: seq<Frame>, frames: seq<Frame>) {
    forall i :: 0 < i <= |frames| ==> accepts(done + frames[..i])
  }

  predicate AllGood(accepts: seq<Frame> -> bool, done: seq<Frame>, frames: seq<Frame>) {
    (forall i :: 0 <= i < |frames| ==> WellFormed(frames[i])) && AllAccepted(accepts, done, frames)
  }

  /** Well-formed frames in front of anything are delivered and the rest is parsed
      behind them. */
  lemma {:induction false} FramesConsumed(accepts: seq<Frame> -> bool, done: seq<Frame>,
                                          frames: seq<Frame>, rest: seq<byte>)
    requires AllGood(accepts, done, frames)
    ensures Parse(accepts, done, Join(frames) + rest) == Parse(accepts, done + frames, rest)
    decreases |frames|
  {
    hide *;
    if frames == [] {
      NoFrames(done, frames, rest);
    } else {
      GoodTail(accepts, done, frames);
      JoinTwo(frames, rest);
      FirstThenRest(done, frames);
      ParseOne(accepts, done, frames[0], Join(frames[1..]) + rest);
      FramesConsumed(accepts, done + [frames[0]], frames[1..], rest);
    }
  }

  lemma NoFrames(done: seq<Frame>, frames: seq<Frame>, rest: seq<byte>)
    requires frames == []
    ensures Join(frames) + rest == rest && done + frames == done
  {
  }

  lemma GoodTail(accepts: seq<Frame> -> bool, done: seq<Frame>, frames: seq<Frame>)
    requires frames != [] && AllGood(accepts, done, frames)
    ensures WellFormed(frames[0]) && accepts(done + [frames[0]])
    ensures AllGood(accepts, done + [frames[0]], frames[1..])
  {
    AcceptedTail(accepts, done, frames);
    hide WellFormed, AllAccepted;
  }

  lemma JoinTwo(frames: seq<Frame>, rest: seq<byte>)
    requires frames != []
    ensures Join(frames) + rest == frames[0] + (Join(frames[1..]) + rest)
  {
    assert Join(frames) == frames[0] + Join(frames[1..]);
    hide Join;
  }

  lemma FirstThenRest(done: seq<Frame>, frames: seq<Frame>)
    requires frames != []
    ensures (done + [frames[0]]) + frames[1..] == done + frames
  {
  }

  /** A concatenation of well-formed frames, followed by an unfinished one, is
      delivered as exactly those frames. */
  lemma FramesRecovered(accepts: seq<Frame> -> bool, done: seq<Frame>, frames: seq<Frame>, tail: seq<byte>)
    requires AllGood(accepts, done, frames)
    requires |tail| < 2 || var n := tail[0] as int + 0x100 * tail[1] as int; 40 <= n <= 512 && |tail| < n
    ensures Parse(accepts, done, Join(frames) + tail) == Parsed(done + frames, tail, Running)
  {
    FramesConsumed(accepts, done, frames, tail);
    NothingToDeliver(accepts, done + frames, tail);
    hide AllGood, Join;
  }

  /** A length outside 40..512 ends the connection after the frames before it. */
  lemma BadLengthStops(accepts: seq<Frame> -> bool, done: seq<Frame>, frames: seq<Frame>,
                       low: byte, high: byte, more: seq<byte>)
    requires AllGood(accepts, done, frames)
    requires low + 0x100 * high < 40 || 512 < low + 0x100 * high
    ensures Parse(accepts, done, Join(frames) + ([low, high] + more)) == Parsed(done + frames, [], LengthError)
  {
    FramesConsumed(accepts, done, frames, [low, high] + more);
    hide AllGood, Join;
  }

  /** A frame the handler refuses is the last one it sees. */
  lemma RefusalStops(accepts: seq<Frame> -> bool, done: seq<Frame>, frames: seq<Frame>, f: Frame, more: seq<byte>)
    requires AllGood(accepts, done, frames) && WellFormed(f) && !accepts(done + frames + [f])
    ensures Parse(accepts, done, Join(frames) + (f + more)) == Parsed(done + frames + [f], [], Refused)
  {
    FramesConsumed(accepts, done, frames, f + more);
    hide AllGood, Join;
    assert (f + more)[..|f|] == f;
  }

  lemma ParseOne(accepts: seq<Frame> -> bool, done: seq<Frame>, f: Frame, rest: seq<byte>)
    requires WellFormed(f) && accepts(done + [f])
    ensures Parse(accepts, done, f + rest) == Parse(accepts, done + [f], rest)
  {
    var stream := f + rest;
    assert ReadLe16(stream) == |f| && stream[..|f|] == f && stream[|f|..] == rest;
  }

  lemma AcceptedTail(accepts: seq<Frame> -> bool, done: seq<Frame>, frames: seq<Frame>)
    requires frames != [] && AllAccepted(accepts, done, frames)
    ensures accepts(done + [frames[0]]) && AllAccepted(accepts, done + [frames[0]], frames[1..])
  {
    assert frames[..1] == [frames[0]];
    forall i | 0 < i <= |frames[1..]|
      ensures accepts(done + [frames[0]] + frames[1..][..i])
    {
      assert done + [frames[0]] + frames[1..][..i] == done + frames[..i + 1];
    }
  }

  // ------------------------------------------------------------------
  // The framer
  // ------------------------------------------------------------------

  class Stream {
    const accepts: seq<Frame> -> bool
    const buffer: array<byte>
    var buffered: nat
    var delivered: seq<Frame>

    ghost predicate Valid()
      reads this, buffer
    {
      buffer.Length == BLOCK_SIZE && buffered <= BLOCK_SIZE && Unfinished(buffer[..buffered])
    }

    ghost function Content(): seq<byte>
      reads this, buffer
      requires buffered <= buffer.Length
    {
      buffer[..buffered]
    }

    constructor (accepts: seq<Frame> -> bool)
      ensures Valid() && fresh(buffer) && this.accepts == accepts
      ensures Content() == [] && delivered == []
    {
      this.accepts := accepts;
      buffer := new byte[BLOCK_SIZE];
      buffered, delivered := 0, [];
    }

    /** Move input bytes into the buffer until it holds `target` bytes or the
        input runs out. */
    method FillTo(target: nat, input: seq<byte>, from: nat) returns (to: nat)
      requires buffer.Length == BLOCK_SIZE && buffered <= target <= BLOCK_SIZE && from <= |input|
      modifies this`buffered, buffer
      ensures from <= to <= |input| && buffered <= target
      ensures to == from + (buffered - old(buffered))
      ensures buffered == target || to == |input|
      ensures Content() + input[to..] == old(Content()) + input[from..]
      ensures forall i :: 0 <= i < old(buffered) ==> buffer[i] == old(buffer[i])
    {
      var needed, available := target - buffered, |input| - from;
      var count := if available < needed then available else needed;
      forall i | 0 <= i < count {
        buffer[buffered + i] := input[from + i];
      }
      buffered := buffered + count;
      to := from + count;
    }

    method Deliver(n: nat, ghost more: seq<byte>) returns (accepted: bool)
      requires buffer.Length == BLOCK_SIZE && buffered == n
      requires LENGTH_FIELD <= n && LengthOk(n) && ReadLe16(buffer[..n]) == n
      modifies this`buffered, this`delivered
      ensures buffered == 0
      ensures var now := old(delivered) + [old(Content())];
        delivered == now && accepted == accepts(now)
        && Parse(accepts, old(delivered), old(Content()) + more) ==
           if accepted then Parse(accepts, now, more) else Parsed(now, [], Refused)
    {
      ghost var all := Content() + more;
      assert all[..n] == Content() && all[n..] == more;
      delivered := delivered + [buffer[..n]];
      buffered := 0;
      accepted := accepts(delivered);
    }

    /** Drop what is held: its length field is out of range. */
    method Reject(ghost more: seq<byte>)
      requires LENGTH_FIELD <= buffered <= buffer.Length && !LengthOk(ReadLe16(Content()))
      modifies this`buffered
      ensures buffered == 0
      ensures Parse(accepts, delivered, old(Content()) + more) == Parsed(delivered, [], LengthError)
    {
      assert (Content() + more)[0] == buffer[0] && (Content() + more)[1] == buffer[1];
      buffered := 0;
    }

    /** Feeding bytes to the framer is parsing them behind what it holds. */
    method HandleBytes(input: seq<byte>) returns (status: Status)
      requires Valid()
      modifies this, buffer
      ensures Valid()
      ensures Parsed(delivered, Content(), status) == Parse(accepts, old(delivered), old(Content()) + input)
    {
      ghost var expected := Parse(accepts, delivered, Content() + input);
      var offset := 0;
      hide Parse;
      while offset < |input|
        invariant Valid() && offset <= |input|
        invariant Parse(accepts, delivered, Content() + input[offset..]) == expected
        decreases |input| - offset
      {
        if buffered < LENGTH_FIELD {
          offset := FillTo(LENGTH_FIELD, input, offset);
          if buffered < LENGTH_FIELD { continue; }
        }
        var n := Le16(buffer[0], buffer[1]);
        if n < HEADER_SIZE || n > BLOCK_SIZE {
          Reject(input[offset..]);
          return LengthError;
        }
        offset := FillTo(n, input, offset);
        if buffered < n { continue; }
        var accepted := Deliver(n, input[offset..]);
        if !accepted { return Refused; }
        assert Content() + input[offset..] == input[offset..];
      }
      assert Content() + input[offset..] == Content();
      NothingToDeliver(accepts, delivered, Content());
      return Running;
    }
  }

  /** The reads of a connection up to the first empty one, which is the peer
      closing it. */
  function BeforeClose(arrivals: seq<seq<byte>>): seq<seq<byte>> {
    if arrivals == [] || arrivals[0] == [] then [] else [arrivals[0]] + BeforeClose(arrivals[1..])
  }

  /** One client connection: read until the peer closes or the first error. */
  method ServeClient(accepts: seq<Frame> -> bool, arrivals: seq<seq<byte>>) returns (delivered: seq<Frame>)
    ensures delivered == Parse(accepts, [], Join(BeforeClose(arrivals))).delivered
  {
    var stream := new Stream(accepts);
    ghost var start := Parsed([], [], Running);
    ChunkingIrrelevant(accepts, start, BeforeClose(arrivals));
    assert [] + Join(BeforeClose(arrivals)) == Join(BeforeClose(arrivals));
    ghost var expected := Feed(accepts, start, BeforeClose(arrivals));
    var i := 0;
    hide Parse;
    while i < |arrivals|
      invariant i <= |arrivals| && stream.Valid() && stream.accepts == accepts
      invariant Feed(accepts, Parsed(stream.delivered, stream.Content(), Running), BeforeClose(arrivals[i..])) == expected
    {
      if |arrivals[i]| == 0 { break; }
      assert arrivals[i..][0] == arrivals[i] && arrivals[i..][1..] == arrivals[i + 1..];
      var status := stream.HandleBytes(arrivals[i]);
      i := i + 1;
      if status != Running {
        return stream.delivered;
      }
    }
    return stream.delivered;
  }
}
