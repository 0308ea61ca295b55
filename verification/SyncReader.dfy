/** The synchronous reader: recv_buffer over a blocking stream (src/message/message.cpp). */
module SyncReader {
  import opened Bytes
  import opened Frame
  import opened Decoder

  /** The position of the first application frame, or the number of frames if there is none. */
  function FirstApp(ms: seq<Message>): (k: nat)
    ensures k <= |ms|
    ensures k < |ms| ==> !ms[k].isSystem
    ensures forall i :: 0 <= i < k ==> ms[i].isSystem
  {
    if ms == [] || !ms[0].isSystem then 0 else 1 + FirstApp(ms[1..])
  }

  /** Nothing before the first application frame is delivered; from there on the projections add up. */
  lemma {:induction false} AppsFromFirst(ms: seq<Message>)
    ensures FirstApp(ms) == |ms| ==> Apps(ms) == []
    ensures FirstApp(ms) < |ms| ==>
              var k := FirstApp(ms);
              && Apps(ms) == [ms[k]] + Apps(ms[k + 1..])
              && Systems(ms, HB_PING) == Systems(ms[..k], HB_PING) + Systems(ms[k + 1..], HB_PING)
  {
    if ms != [] {
      var k := FirstApp(ms);
      if ms[0].isSystem {
        AppsFromFirst(ms[1..]);
        if k < |ms| {
          assert ms[1..][k..] == ms[k + 1..];
          assert ms[..k][1..] == ms[1..][..k - 1];
        }
      }
    }
  }

  /** Reading `input` up to `unread` has passed over the system frames `skipped` and nothing else. */
  ghost predicate Behind(cfg: Config, input: seq<Byte>, skipped: seq<Message>, unread: seq<Byte>) {
    && (forall m :: m in skipped ==> m.isSystem)
    && Decode(cfg, input) == Decoded(skipped + Decode(cfg, unread).frames, Decode(cfg, unread).stop)
  }

  lemma {:induction false} FirstAppBehind(skipped: seq<Message>, rest: seq<Message>)
    requires forall m :: m in skipped ==> m.isSystem
    ensures FirstApp(skipped + rest) == |skipped| + FirstApp(rest)
  {
    if skipped == [] {
      assert skipped + rest == rest;
    } else {
      FirstAppBehind(skipped[1..], rest);
      assert (skipped + rest)[1..] == skipped[1..] + rest;
    }
  }

  lemma Drained(cfg: Config, input: seq<Byte>, skipped: seq<Message>, unread: seq<Byte>)
    requires Behind(cfg, input, skipped, unread) && DecodeFirst(cfg, unread).Stopped?
    ensures Decode(cfg, input).frames == skipped && FirstApp(skipped) == |skipped|
  {
    FirstAppBehind(skipped, []);
    assert skipped + [] == skipped;
  }

  lemma Found(cfg: Config, input: seq<Byte>, skipped: seq<Message>, unread: seq<Byte>)
    requires Behind(cfg, input, skipped, unread)
    requires DecodeFirst(cfg, unread).Complete? && !DecodeFirst(cfg, unread).message.isSystem
    ensures var first := DecodeFirst(cfg, unread);
            var d := Decode(cfg, input);
            && FirstApp(d.frames) == |skipped| < |d.frames|
            && d.frames[..|skipped|] == skipped && d.frames[|skipped|] == first.message
            && Decode(cfg, unread[first.size..]) == Decoded(d.frames[|skipped| + 1..], d.stop)
  {
    FirstAppBehind(skipped, Decode(cfg, unread).frames);
  }

  lemma Skip(cfg: Config, input: seq<Byte>, skipped: seq<Message>, unread: seq<Byte>)
    requires Behind(cfg, input, skipped, unread)
    requires DecodeFirst(cfg, unread).Complete? && DecodeFirst(cfg, unread).message.isSystem
    ensures var first := DecodeFirst(cfg, unread);
            && Behind(cfg, input, skipped + [first.message], unread[first.size..])
            && Systems(skipped + [first.message], HB_PING)
               == Systems(skipped, HB_PING) + if first.message.id == HB_PING then 1 else 0
  {
    var first := DecodeFirst(cfg, unread);
    SystemsConcat(skipped, [first.message], HB_PING);
    ConcatAssociates(skipped, [first.message], Decode(cfg, unread[first.size..]).frames);
  }

  /** A connected socket on a finite input: what is left to read, and the pongs sent back on it. */
  class Stream {
    var unread: seq<Byte>
    var pongs: nat

    constructor (input: seq<Byte>)
      ensures unread == input && pongs == 0
    {
      unread, pongs := input, 0;
    }

    /** A blocking read: the next n bytes, or failure when the input ends first. */
    method Read(n: nat) returns (ok: bool, data: seq<Byte>)
      modifies this`unread
      ensures ok <==> n <= |old(unread)|
      ensures ok ==> data == old(unread)[..n] && unread == old(unread)[n..]
      ensures !ok ==> unread == []
    {
      ok := n <= |unread|;
      if ok {
        data, unread := unread[..n], unread[n..];
      } else {
        data, unread := [], [];
      }
    }
  }

  /** The three reads and checks of one iteration of recv_buffer's loop: one frame off the stream, or None. */
  method RecvFrame(cfg: Config, s: Stream) returns (r: Option<Message>)
    modifies s`unread
    ensures r.None? <==> DecodeFirst(cfg, old(s.unread)).Stopped?
    ensures r.Some? ==> var first := DecodeFirst(cfg, old(s.unread));
                        r.value == first.message && s.unread == old(s.unread)[first.size..]
  {
    var ok, data := s.Read(8);
    if !ok {
      return None;
    }
    var n: int := FrameSize(cfg, data);
    if TooBig(cfg.cap, n) {
      return None;
    }
    var headerBytes;
    ok, headerBytes := s.Read(n);
    if !ok {
      return None;
    }
    assert headerBytes == old(s.unread)[8..8 + n] && s.unread == old(s.unread)[8 + n..];
    var header := cfg.codec.decode(headerBytes);
    if header.None? {
      return None;
    }
    var h := header.value;
    if TooBig(cfg.cap, h.bodySize) {
      return None;
    }
    var body;
    ok, body := s.Read(h.bodySize);
    if !ok {
      return None;
    }
    assert body == old(s.unread)[8 + n..8 + n + (h.bodySize as int)];
    return Some(Message(h.id, h.isSystem, body));
  }

  /** recv_buffer: skips system frames, answering pings, up to the first application message.
      It returns that message and leaves the rest of the decoded stream to be read, or returns None
      having answered every ping of the stream. */
  method RecvBuffer(cfg: Config, s: Stream) returns (r: Option<Message>)
    modifies s
    ensures var d := Decode(cfg, old(s.unread));
            var k := FirstApp(d.frames);
            if k < |d.frames|
            then r == Some(d.frames[k])
                 && Decode(cfg, s.unread) == Decoded(d.frames[k + 1..], d.stop)
                 && s.pongs == old(s.pongs) + Systems(d.frames[..k], HB_PING)
            else r == None && s.pongs == old(s.pongs) + Systems(d.frames, HB_PING)
    ensures r.Some? ==> |s.unread| + 8 <= |old(s.unread)|
  {
    ghost var skipped: seq<Message> := [];
    while true
      invariant Behind(cfg, old(s.unread), skipped, s.unread)
      invariant s.pongs == old(s.pongs) + Systems(skipped, HB_PING)
      invariant |s.unread| <= |old(s.unread)|
      decreases |s.unread|
    {
      ghost var before := s.unread;
      var frame := RecvFrame(cfg, s);
      if frame.None? {
        Drained(cfg, old(s.unread), skipped, before);
        return None;
      }
      if !frame.value.isSystem {
        Found(cfg, old(s.unread), skipped, before);
        return frame;
      }
      Skip(cfg, old(s.unread), skipped, before);
      if frame.value.id == HB_PING {
        s.pongs := s.pongs + 1;
      }
      skipped := skipped + [frame.value];
    }
  }

  /** Calling recv_buffer until its first nullopt yields the application messages and pongs of one
      decode of the input: what the asynchronous session delivers on the same bytes. */
  method RecvAll(cfg: Config, input: seq<Byte>) returns (messages: seq<Message>, pongs: nat)
    ensures messages == Apps(Decode(cfg, input).frames)
    ensures pongs == Systems(Decode(cfg, input).frames, HB_PING)
  {
    var s := new Stream(input);
    ghost var all := Decode(cfg, input).frames;
    messages := [];
    while true
      invariant fresh(s)
      invariant messages + Apps(Decode(cfg, s.unread).frames) == Apps(all)
      invariant s.pongs + Systems(Decode(cfg, s.unread).frames, HB_PING) == Systems(all, HB_PING)
      decreases |s.unread|
    {
      ghost var rest := Decode(cfg, s.unread).frames;
      ghost var k := FirstApp(rest);
      AppsFromFirst(rest);
      var r := RecvBuffer(cfg, s);
      if r.None? {
        pongs := s.pongs;
        return;
      }
      ConcatAssociates(messages, [rest[k]], Apps(rest[k + 1..]));
      assert Decode(cfg, s.unread).frames == rest[k + 1..];
      messages := messages + [r.value];
    }
  }
}
