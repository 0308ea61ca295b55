/**
 The meaning of a received byte stream: one recursive decode, frame by frame.  Both readers
 (SessionReader and SyncReader) are proved against it.
 */
module Decoder {
  import opened Bytes
  import opened Endian
  import opened Frame

  /** A receiver: its byte order, the header codec and its max_message_size (0 = unlimited). */
  datatype Config = Config(host: ByteOrder, codec: Codec, cap: nat)

  predicate TooBig(cap: nat, size: nat) {
    cap != 0 && size > cap
  }

  /** Which of the three reads of a frame is outstanding. */
  datatype Phase = Size | Head(size: U64) | Body(header: Header)

  datatype Reason = HeaderTooBig | BadHeader | BodyTooBig

  /** Where decoding stops: short of the bytes of an outstanding read, or at a refused frame. */
  datatype Stop = Waiting(phase: Phase, got: seq<Byte>) | Failed(reason: Reason)

  datatype Decoded = Decoded(frames: seq<Message>, stop: Stop)

  /** The header size announced by a frame's first eight bytes, as the receiver's host reads it. */
  function FrameSize(cfg: Config, bytes: seq<Byte>): (n: U64)
    requires |bytes| == 8
  {
    FromLittle(cfg.host, Load(cfg.host, bytes))
  }

  /** The first frame of a stream: a stop inside it, or the message and how many bytes it takes. */
  datatype First = Stopped(stop: Stop) | Complete(message: Message, size: nat)

  function DecodeFirst(cfg: Config, s: seq<Byte>): (r: First)
    ensures r.Complete? ==> 8 <= r.size <= |s|
  {
    if |s| < 8 then Stopped(Waiting(Size, s))
    else
      var n: int := FrameSize(cfg, s[..8]);
      if TooBig(cfg.cap, n) then Stopped(Failed(HeaderTooBig))
      else if |s| < 8 + n then Stopped(Waiting(Head(n), s[8..]))
      else
        var header := cfg.codec.decode(s[8..8 + n]);
        if header.None? then Stopped(Failed(BadHeader))
        else
          var h := header.value;
          var end: int := 8 + n + h.bodySize;
          if TooBig(cfg.cap, h.bodySize) then Stopped(Failed(BodyTooBig))
          else if |s| < end then Stopped(Waiting(Body(h), s[8 + n..]))
          else Complete(Message(h.id, h.isSystem, s[8 + n..end]), end)
  }

  /** The frames of a stream and the point where decoding stops. */
  function Decode(cfg: Config, s: seq<Byte>): (d: Decoded)
    decreases |s|
  {
    match DecodeFirst(cfg, s)
    case Stopped(stop) => Decoded([], stop)
    case Complete(m, size) =>
      var rest := Decode(cfg, s[size..]);
      Decoded([m] + rest.frames, rest.stop)
  }

  /** The announced size is the little-endian value of the eight bytes, on either host. */
  lemma FrameSizeIsLittle(cfg: Config, bytes: seq<Byte>)
    requires |bytes| == 8
    ensures FrameSize(cfg, bytes) == Value64(bytes)
  {
    FromLittleLoad(cfg.host, bytes);
  }

  /** The messages handed to handle_message: the non-system ones. */
  function Apps(ms: seq<Message>): (r: seq<Message>) {
    if ms == [] then [] else (if ms[0].isSystem then [] else [ms[0]]) + Apps(ms[1..])
  }

  /** How many frames are system frames with the given id. */
  function Systems(ms: seq<Message>, id: Byte): (n: nat) {
    if ms == [] then 0 else (if ms[0].isSystem && ms[0].id == id then 1 else 0) + Systems(ms[1..], id)
  }

  /** With AppsConcat and SystemsConcat, what the projections are: one frame at a time, in order. */
  lemma OneFrame(m: Message, id: Byte)
    ensures Apps([m]) == if m.isSystem then [] else [m]
    ensures Systems([m], id) == if m.isSystem && m.id == id then 1 else 0
  {
    assert [m][1..] == [];
  }

  lemma {:induction false} AppsConcat(a: seq<Message>, b: seq<Message>)
    ensures Apps(a + b) == Apps(a) + Apps(b)
  {
    if a == [] {
      assert a + b == b;
    } else {
      AppsConcat(a[1..], b);
      assert (a + b)[1..] == a[1..] + b;
      ConcatAssociates(if a[0].isSystem then [] else [a[0]], Apps(a[1..]), Apps(b));
    }
  }

  lemma {:induction false} SystemsConcat(a: seq<Message>, b: seq<Message>, id: Byte)
    ensures Systems(a + b, id) == Systems(a, id) + Systems(b, id)
  {
    if a == [] {
      assert a + b == b;
    } else {
      SystemsConcat(a[1..], b, id);
      assert (a + b)[1..] == a[1..] + b;
    }
  }

  /** Projections are monotone: a prefix of the frames gives a prefix of the messages. */
  lemma PrefixProjections(a: seq<Message>, b: seq<Message>, id: Byte)
    requires a <= b
    ensures Apps(a) <= Apps(b)
    ensures Systems(a, id) <= Systems(b, id)
  {
    assert b == a + b[|a|..];
    AppsConcat(a, b[|a|..]);
    SystemsConcat(a, b[|a|..], id);
  }

  /** Further bytes change neither a complete first frame nor a refusal. */
  lemma FirstExtends(cfg: Config, a: seq<Byte>, b: seq<Byte>)
    requires DecodeFirst(cfg, a).Complete? || DecodeFirst(cfg, a).stop.Failed?
    ensures DecodeFirst(cfg, a + b) == DecodeFirst(cfg, a)
  {
    var s := a + b;
    assert s[..8] == a[..8];
    var n: int := FrameSize(cfg, a[..8]);
    if !TooBig(cfg.cap, n) {
      assert s[8..8 + n] == a[8..8 + n];
      var header := cfg.codec.decode(a[8..8 + n]);
      if header.Some? && !TooBig(cfg.cap, header.value.bodySize) {
        var end: int := 8 + n + header.value.bodySize;
        assert s[8 + n..end] == a[8 + n..end];
      }
    }
  }

  /** More bytes behind a complete first frame: the frame, then what the rest decodes to. */
  lemma DecodeBehind(cfg: Config, a: seq<Byte>, b: seq<Byte>)
    requires DecodeFirst(cfg, a).Complete?
    ensures var first := DecodeFirst(cfg, a);
            var rest := Decode(cfg, a[first.size..] + b);
            Decode(cfg, a + b) == Decoded([first.message] + rest.frames, rest.stop)
  {
    var first := DecodeFirst(cfg, a);
    FirstExtends(cfg, a, b);
    assert (a + b)[first.size..] == a[first.size..] + b;
  }

  /** A refused stream stays refused. */
  lemma {:induction false} RefusalIsFinal(cfg: Config, a: seq<Byte>, b: seq<Byte>)
    requires Decode(cfg, a).stop.Failed?
    ensures Decode(cfg, a + b) == Decode(cfg, a)
    decreases |a|
  {
    var first := DecodeFirst(cfg, a);
    if first.Complete? {
      RefusalIsFinal(cfg, a[first.size..], b);
      DecodeBehind(cfg, a, b);
    } else {
      FirstExtends(cfg, a, b);
    }
  }

  /** More bytes never retract a decoded frame. */
  lemma {:induction false} DecodePrefix(cfg: Config, a: seq<Byte>, b: seq<Byte>)
    ensures Decode(cfg, a).frames <= Decode(cfg, a + b).frames
    decreases |a|
  {
    var first := DecodeFirst(cfg, a);
    if first.Complete? {
      DecodePrefix(cfg, a[first.size..], b);
      DecodeBehind(cfg, a, b);
      PrefixUnderCons(first.message, Decode(cfg, a[first.size..]).frames, Decode(cfg, a[first.size..] + b).frames);
    }
  }

  // What decoding gives back on the frames a sender wrote.

  /** The receiver's cap admits the frame of m: header and body are each no larger than it. */
  predicate Fits(cfg: Config, m: Sendable) {
    cfg.cap == 0 || (|cfg.codec.encode(HeaderOf(m))| <= cfg.cap && |m.body| <= cfg.cap)
  }

  /** How many messages come before the first one over the cap. */
  function FitCount(cfg: Config, ms: seq<Sendable>): (n: nat)
    ensures n <= |ms|
    ensures forall i :: 0 <= i < n ==> Fits(cfg, ms[i])
    ensures n < |ms| ==> !Fits(cfg, ms[n])
  {
    if ms == [] || !Fits(cfg, ms[0]) then 0 else 1 + FitCount(cfg, ms[1..])
  }

  /** The first frame of a stream that starts with a size, a header of that size and its body. */
  lemma FirstOfParts(cfg: Config, prefix: seq<Byte>, header: seq<Byte>, m: Sendable, tail: seq<Byte>)
    requires |prefix| == 8 && FrameSize(cfg, prefix) == |header| && cfg.codec.decode(header) == Some(HeaderOf(m))
    ensures DecodeFirst(cfg, prefix + header + m.body + tail) ==
            if TooBig(cfg.cap, |header|) then Stopped(Failed(HeaderTooBig))
            else if TooBig(cfg.cap, |m.body|) then Stopped(Failed(BodyTooBig))
            else Complete(m, 8 + |header| + |m.body|)
  {
    var s := prefix + header + m.body + tail;
    assert s[..8] == prefix;
    assert s[8..8 + |header|] == header;
    assert s[8 + |header|..8 + |header| + |m.body|] == m.body;
  }

  /** The first frame of a stream that starts with a written frame is that frame, on every pair of hosts. */
  lemma FirstOfWritten(cfg: Config, writer: ByteOrder, m: Sendable, tail: seq<Byte>)
    requires Lawful(cfg.codec)
    ensures DecodeFirst(cfg, FrameBytes(writer, cfg.codec, m) + tail) ==
            if Fits(cfg, m) then Complete(m, |FrameBytes(writer, cfg.codec, m)|)
            else Stopped(Failed(if |cfg.codec.encode(HeaderOf(m))| > cfg.cap then HeaderTooBig else BodyTooBig))
  {
    var header := cfg.codec.encode(HeaderOf(m));
    CrossHost(writer, cfg.host, |header|);
    FirstOfParts(cfg, Store(writer, ToLittle(writer, |header|)), header, m, tail);
  }

  /** Decoding one written frame followed by anything: the frame comes back, then the rest is decoded. */
  lemma DecodeFrame(cfg: Config, writer: ByteOrder, m: Sendable, tail: seq<Byte>)
    requires Lawful(cfg.codec)
    ensures var d := Decode(cfg, FrameBytes(writer, cfg.codec, m) + tail);
            var rest := Decode(cfg, tail);
            if Fits(cfg, m) then d == Decoded([m] + rest.frames, rest.stop)
            else d.frames == [] && d.stop.Failed?
  {
    var frame := FrameBytes(writer, cfg.codec, m);
    FirstOfWritten(cfg, writer, m, tail);
    assert (frame + tail)[|frame|..] == tail;
  }

  lemma FitStep(cfg: Config, ms: seq<Sendable>)
    requires ms != []
    ensures if Fits(cfg, ms[0]) then ms[..FitCount(cfg, ms)] == [ms[0]] + ms[1..][..FitCount(cfg, ms[1..])]
            else ms[..FitCount(cfg, ms)] == []
  {
  }

  /** Any list of frames written on one host and read on another decodes to the messages before the
      first one over the reader's cap; with none over the cap, to exactly that list. */
  lemma {:induction false} DecodeFrames(cfg: Config, writer: ByteOrder, ms: seq<Sendable>)
    requires Lawful(cfg.codec)
    ensures var d := Decode(cfg, FramesBytes(writer, cfg.codec, ms));
            var n := FitCount(cfg, ms);
            && d.frames == ms[..n]
            && if n == |ms| then d.stop == Waiting(Size, []) else d.stop.Failed?
  {
    if ms == [] {
      assert Frames(writer, cfg.codec, ms) == [];
    } else {
      var tail := FramesBytes(writer, cfg.codec, ms[1..]);
      FramesCons(writer, cfg.codec, ms);
      DecodeFrames(cfg, writer, ms[1..]);
      DecodeFrame(cfg, writer, ms[0], tail);
      FitStep(cfg, ms);
    }
  }

  /** Frames within the cap, followed by anything, decode to their messages and then what follows. */
  lemma {:induction false} DecodeFramesThen(cfg: Config, writer: ByteOrder, ms: seq<Sendable>, tail: seq<Byte>)
    requires Lawful(cfg.codec) && forall m :: m in ms ==> Fits(cfg, m)
    ensures var rest := Decode(cfg, tail);
            Decode(cfg, FramesBytes(writer, cfg.codec, ms) + tail) == Decoded(ms + rest.frames, rest.stop)
  {
    if ms == [] {
      assert Frames(writer, cfg.codec, ms) == [];
      assert FramesBytes(writer, cfg.codec, ms) + tail == tail;
    } else {
      var others := FramesBytes(writer, cfg.codec, ms[1..]);
      FramesCons(writer, cfg.codec, ms);
      DecodeFramesThen(cfg, writer, ms[1..], tail);
      DecodeFrame(cfg, writer, ms[0], others + tail);
      ConcatAssociates(FrameBytes(writer, cfg.codec, ms[0]), others, tail);
      ConcatAssociates([ms[0]], ms[1..], Decode(cfg, tail).frames);
      assert [ms[0]] + ms[1..] == ms;
    }
  }

  /** A frame whose header the codec refuses, or whose header or announced body is over the cap, is
      refused, whatever comes after it. */
  lemma RefusedFirst(cfg: Config, prefix: seq<Byte>, header: seq<Byte>, rest: seq<Byte>)
    requires |prefix| == 8 && Value64(prefix) == |header|
    ensures var d := Decode(cfg, prefix + header + rest);
            && (cfg.cap != 0 && |header| > cfg.cap ==> d == Decoded([], Failed(HeaderTooBig)))
            && (cfg.cap == 0 || |header| <= cfg.cap ==>
                  match cfg.codec.decode(header)
                  case None => d == Decoded([], Failed(BadHeader))
                  case Some(h) => cfg.cap != 0 && h.bodySize > cfg.cap ==> d == Decoded([], Failed(BodyTooBig)))
  {
    var s := prefix + header + rest;
    FrameSizeIsLittle(cfg, prefix);
    assert s[..8] == prefix;
    assert s[8..8 + |header|] == header;
  }

  /** Both readers stop at a header the codec refuses: what came before it is delivered, nothing after it is. */
  lemma BadHeaderStops(
    cfg: Config, writer: ByteOrder, ms: seq<Sendable>, prefix: seq<Byte>, header: seq<Byte>, rest: seq<Byte>)
    requires Lawful(cfg.codec) && (forall m :: m in ms ==> Fits(cfg, m))
    requires |prefix| == 8 && Value64(prefix) == |header| && (cfg.cap == 0 || |header| <= cfg.cap)
    requires cfg.codec.decode(header) == None
    ensures Decode(cfg, FramesBytes(writer, cfg.codec, ms) + (prefix + header + rest)) == Decoded(ms, Failed(BadHeader))
  {
    DecodeFramesThen(cfg, writer, ms, prefix + header + rest);
    RefusedFirst(cfg, prefix, header, rest);
    assert ms + [] == ms;
  }

  /** Bytes that are a prefix of written frames decode to a prefix of the messages. */
  lemma DecodePartOfFrames(cfg: Config, writer: ByteOrder, ms: seq<Sendable>, received: seq<Byte>)
    requires Lawful(cfg.codec)
    requires received <= FramesBytes(writer, cfg.codec, ms)
    ensures Decode(cfg, received).frames <= ms[..FitCount(cfg, ms)]
  {
    var whole := FramesBytes(writer, cfg.codec, ms);
    assert whole == received + whole[|received|..];
    DecodePrefix(cfg, received, whole[|received|..]);
    DecodeFrames(cfg, writer, ms);
  }
}
