/**
 The asynchronous reader of a session: read_frame_size, read_header and read_body chained through
 completion handlers (src/connection/session.cpp).
 */
module SessionReader {
  import opened Bytes
  import opened Frame
  import opened Decoder

  /** How many bytes the outstanding read asks for. */
  function Wanted(phase: Phase): (n: nat) {
    match phase
    case Size => 8
    case Head(n) => n
    case Body(h) => h.bodySize
  }

  /** What the completion handler of a successful read does next. */
  datatype Next = Read(phase: Phase) | Deliver(message: Message) | Refuse(reason: Reason)

  function OnRead(cfg: Config, phase: Phase, data: seq<Byte>): (next: Next)
    requires |data| == Wanted(phase)
  {
    match phase
    case Size =>
      var n := FrameSize(cfg, data);
      if TooBig(cfg.cap, n) then Refuse(HeaderTooBig) else Read(Head(n))
    case Head(_) =>
      var header := cfg.codec.decode(data);
      if header.None? then Refuse(BadHeader)
      else if TooBig(cfg.cap, header.value.bodySize) then Refuse(BodyTooBig)
      else Read(Body(header.value))
    case Body(h) => Deliver(Message(h.id, h.isSystem, data))
  }

  /** Runs completion handlers for as long as `buf` fills the outstanding read. */
  function Pump(cfg: Config, frames: seq<Message>, phase: Phase, buf: seq<Byte>): (d: Decoded)
    decreases |buf|, match phase case Size => 0 case Head(_) => 2 case Body(_) => 1
  {
    var n := Wanted(phase);
    if |buf| < n then Decoded(frames, Waiting(phase, buf))
    else
      match OnRead(cfg, phase, buf[..n])
      case Read(next) => Pump(cfg, frames, next, buf[n..])
      case Deliver(m) => Pump(cfg, frames + [m], Size, buf[n..])
      case Refuse(reason) => Decoded(frames, Failed(reason))
  }

  /** A reader reacting to one more chunk of the stream. */
  function Feed(cfg: Config, r: Decoded, chunk: seq<Byte>): (d: Decoded) {
    if r.stop.Failed? then r else Pump(cfg, r.frames, r.stop.phase, r.stop.got + chunk)
  }

  function FeedAll(cfg: Config, r: Decoded, chunks: seq<seq<Byte>>): (d: Decoded)
    decreases |chunks|
  {
    if chunks == [] then r else FeedAll(cfg, Feed(cfg, r, chunks[0]), chunks[1..])
  }

  const START: Decoded := Decoded([], Waiting(Size, []))

  /** The reader is between reads: the outstanding one is not yet filled. */
  predicate Parked(r: Decoded) {
    r.stop.Waiting? ==> |r.stop.got| < Wanted(r.stop.phase)
  }

  /** The three reads of the first frame, in one step. */
  lemma PumpFirst(cfg: Config, frames: seq<Message>, s: seq<Byte>)
    ensures var first := DecodeFirst(cfg, s);
            Pump(cfg, frames, Size, s) ==
            if first.Complete? then Pump(cfg, frames + [first.message], Size, s[first.size..])
            else Decoded(frames, first.stop)
  {
    if |s| >= 8 {
      var n: int := FrameSize(cfg, s[..8]);
      var s1 := s[8..];
      if !TooBig(cfg.cap, n) && |s1| >= n {
        assert s1[..n] == s[8..8 + n];
        var header := cfg.codec.decode(s1[..n]);
        var s2 := s1[n..];
        assert s2 == s[8 + n..];
        if header.Some? && !TooBig(cfg.cap, header.value.bodySize) {
          var k: int := header.value.bodySize;
          assert Pump(cfg, frames, Size, s) == Pump(cfg, frames, Body(header.value), s2);
          if |s2| >= k {
            assert s2[..k] == s[8 + n..8 + n + k];
            assert s2[k..] == s[8 + n + k..];
          }
        }
      }
    }
  }

  /** Pumping a whole stream is decoding it. */
  lemma {:induction false} PumpIsDecode(cfg: Config, frames: seq<Message>, s: seq<Byte>)
    ensures Pump(cfg, frames, Size, s) == Decoded(frames + Decode(cfg, s).frames, Decode(cfg, s).stop)
    decreases |s|
  {
    PumpFirst(cfg, frames, s);
    var first := DecodeFirst(cfg, s);
    if first.Complete? {
      PumpIsDecode(cfg, frames + [first.message], s[first.size..]);
    }
  }

  /** Pumping a then b is pumping a + b: where the stream is split does not matter. */
  lemma {:induction false} PumpSplit(cfg: Config, frames: seq<Message>, phase: Phase, a: seq<Byte>, b: seq<Byte>)
    ensures Parked(Pump(cfg, frames, phase, a))
    ensures Pump(cfg, frames, phase, a + b) == Feed(cfg, Pump(cfg, frames, phase, a), b)
    decreases |a|, match phase case Size => 0 case Head(_) => 2 case Body(_) => 1
  {
    var n := Wanted(phase);
    if |a| >= n {
      assert (a + b)[..n] == a[..n];
      assert (a + b)[n..] == a[n..] + b;
      match OnRead(cfg, phase, a[..n])
      case Read(next) => PumpSplit(cfg, frames, next, a[n..], b);
      case Deliver(m) => PumpSplit(cfg, frames + [m], Size, a[n..], b);
      case Refuse(_) =>
    }
  }

  lemma FeedSplit(cfg: Config, r: Decoded, a: seq<Byte>, b: seq<Byte>)
    requires Parked(r)
    ensures Parked(Feed(cfg, r, a))
    ensures Feed(cfg, r, a + b) == Feed(cfg, Feed(cfg, r, a), b)
  {
    if r.stop.Waiting? {
      PumpSplit(cfg, r.frames, r.stop.phase, r.stop.got + a, b);
      assert r.stop.got + (a + b) == r.stop.got + a + b;
    }
  }

  lemma {:induction false} FeedJoined(cfg: Config, r: Decoded, chunks: seq<seq<Byte>>)
    requires Parked(r)
    ensures FeedAll(cfg, r, chunks) == Feed(cfg, r, Joined(chunks))
    decreases |chunks|
  {
    if chunks == [] {
      if r.stop.Waiting? {
        assert r.stop.got + [] == r.stop.got;
      }
    } else {
      FeedSplit(cfg, r, chunks[0], Joined(chunks[1..]));
      FeedJoined(cfg, Feed(cfg, r, chunks[0]), chunks[1..]);
    }
  }

  /** Extending a decoded stream by one chunk is feeding that chunk. */
  lemma DecodeExtends(cfg: Config, s: seq<Byte>, chunk: seq<Byte>)
    ensures Feed(cfg, Decode(cfg, s), chunk) == Decode(cfg, s + chunk)
    ensures Parked(Decode(cfg, s))
  {
    PumpSplit(cfg, [], Size, s, chunk);
    PumpIsDecode(cfg, [], s);
    PumpIsDecode(cfg, [], s + chunk);
    assert forall ms: seq<Message> :: [] + ms == ms;
  }

  /** Reader refinement: however the stream is cut into chunks, the reader delivers the frames of one
      decode of the whole stream and stops at the same point. */
  lemma ReaderRefinesDecode(cfg: Config, chunks: seq<seq<Byte>>)
    ensures FeedAll(cfg, START, chunks) == Decode(cfg, Joined(chunks))
  {
    FeedJoined(cfg, START, chunks);
    DecodeExtends(cfg, [], Joined(chunks));
    assert [] + Joined(chunks) == Joined(chunks);
  }

  /** A session and its outstanding read.  `received` is everything the stream has yielded so far. */
  class Session {
    const cfg: Config
    var phase: Phase            // which read is outstanding
    var buffer: seq<Byte>       // the part of its buffer already filled
    var failure: Option<Reason> // on_error has run
    var handled: seq<Message>   // handle_message calls, in order
    var pongs: nat              // pongs handed to async_send
    ghost var frames: seq<Message>
    ghost var received: seq<Byte>

    ghost function State(): (d: Decoded)
      reads this
    {
      Decoded(frames, if failure.Some? then Failed(failure.value) else Waiting(phase, buffer))
    }

    /** What the callbacks have done agrees with the frames they saw. */
    ghost predicate Consistent()
      reads this
    {
      handled == Apps(frames) && pongs == Systems(frames, HB_PING)
    }

    /** The session has done exactly what one decode of the received stream asks for. */
    ghost predicate Valid()
      reads this
    {
      Consistent() && State() == Decode(cfg, received)
    }

    constructor (cfg: Config)
      ensures Valid() && this.cfg == cfg && received == []
    {
      this.cfg := cfg;
      phase, buffer, failure := Size, [], None;
      handled, pongs := [], 0;
      frames, received := [], [];
    }

    /** The body of a frame has been read: dispatch it and start on the next frame. */
    method HandleFrame(h: Header, body: seq<Byte>)
      requires Consistent() && failure.None?
      modifies this
      ensures Consistent() && failure.None? && received == old(received)
      ensures frames == old(frames) + [Message(h.id, h.isSystem, body)]
      ensures handled == if h.isSystem then old(handled) else old(handled) + [Message(h.id, false, body)]
      ensures pongs == if h.isSystem && h.id == HB_PING then old(pongs) + 1 else old(pongs)
      ensures phase == Size && buffer == []
    {
      var m := Message(h.id, h.isSystem, body);
      AppsConcat(frames, [m]);
      SystemsConcat(frames, [m], HB_PING);
      if h.isSystem {
        if h.id == HB_PING {
          pongs := pongs + 1;
        }
      } else {
        handled := handled + [m];
      }
      frames := frames + [m];
      phase, buffer := Size, [];
    }

    /** The completion handler of the outstanding read, its buffer full. */
    method OnReadComplete()
      requires Consistent() && failure.None? && |buffer| == Wanted(phase)
      modifies this
      ensures Consistent() && received == old(received)
      ensures match OnRead(cfg, old(phase), old(buffer))
              case Read(next) => State() == Decoded(old(frames), Waiting(next, []))
              case Deliver(m) => State() == Decoded(old(frames) + [m], Waiting(Size, []))
              case Refuse(reason) => State() == Decoded(old(frames), Failed(reason))
    {
      match phase {
        case Size =>
          var n := FrameSize(cfg, buffer);
          if TooBig(cfg.cap, n) {
            failure := Some(HeaderTooBig);
          } else {
            phase, buffer := Head(n), [];
          }
        case Head(_) =>
          var header := cfg.codec.decode(buffer);
          if header.None? {
            failure := Some(BadHeader);
          } else if TooBig(cfg.cap, header.value.bodySize) {
            failure := Some(BodyTooBig);
          } else {
            phase, buffer := Body(header.value), [];
          }
        case Body(h) =>
          HandleFrame(h, buffer);
      }
    }

    /** The outstanding read is filled from what has arrived, and its handler runs. */
    method FillRead(rest: seq<Byte>, ghost goal: Decoded) returns (left: seq<Byte>)
      requires Consistent() && failure.None? && |buffer| <= Wanted(phase) <= |buffer| + |rest|
      requires Feed(cfg, State(), rest) == goal
      modifies this
      ensures Consistent() && received == old(received) && (failure.None? ==> buffer == [])
      ensures left == rest[Wanted(old(phase)) - |old(buffer)|..] && Feed(cfg, State(), left) == goal
      ensures match OnRead(cfg, old(phase), old(buffer) + rest[..Wanted(old(phase)) - |old(buffer)|])
              case Read(next) => failure.None? && phase == next
              case Deliver(_) => failure.None? && phase == Size
              case Refuse(reason) => failure == Some(reason)
    {
      var need := Wanted(phase) - |buffer|;
      ghost var buf := buffer + rest;
      assert buf[..Wanted(phase)] == buffer + rest[..need] && buf[Wanted(phase)..] == rest[need..];
      buffer, left := buffer + rest[..need], rest[need..];
      OnReadComplete();
      assert [] + left == left;
    }

    /** One chunk arrives: it fills outstanding reads, each of which runs its handler. */
    method Receive(chunk: seq<Byte>)
      requires Valid()
      modifies this
      ensures Valid() && received == old(received) + chunk
    {
      ghost var goal := Decode(cfg, received + chunk);
      DecodeExtends(cfg, received, chunk);
      received := received + chunk;
      var rest := chunk;
      while failure.None? && |buffer| + |rest| >= Wanted(phase)
        invariant Consistent() && received == old(received) + chunk
        invariant failure.None? ==> |buffer| <= Wanted(phase)
        invariant Feed(cfg, State(), rest) == goal
        decreases failure.None?, |buffer| + |rest|, match phase case Size => 0 case Head(_) => 2 case Body(_) => 1
      {
        rest := FillRead(rest, goal);
      }
      if failure.None? {
        buffer := buffer + rest;
      }
    }
  }
}
