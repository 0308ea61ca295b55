/** Messages, the MessageHeader codec and the frame writer (src/message/message.cpp). */
module Frame {
  import opened Bytes
  import opened Endian

  /** The fields of the MessageHeader table. */
  datatype Header = Header(id: Byte, bodySize: U64, isSystem: bool)

  /** A header serialiser together with its verifier and accessor: `decode` gives None on a buffer
      the verifier refuses. */
  datatype Codec = Codec(encode: Header -> seq<Byte>, decode: seq<Byte> -> Option<Header>)

  /** What the framing assumes of the serialiser. */
  ghost predicate Lawful(c: Codec) {
    forall h: Header :: |c.encode(h)| < U64_LIMIT && c.decode(c.encode(h)) == Some(h)
  }

  datatype Message = Message(id: Byte, isSystem: bool, body: seq<Byte>)

  /** A message whose body length is a 64-bit size_t. */
  type Sendable = m: Message | |m.body| < U64_LIMIT witness Message(0, false, [])

  const HB_PING: Byte := 0
  const HB_PONG: Byte := 1

  function HeaderOf(m: Sendable): (h: Header) {
    Header(m.id, |m.body|, m.isSystem)
  }

  /** make_frame_header on a host of the given byte order: the header's size, then the header. */
  function FrameHeader(host: ByteOrder, c: Codec, m: Sendable): (bytes: seq<Byte>)
    requires Lawful(c)
  {
    var header := c.encode(HeaderOf(m));
    Store(host, ToLittle(host, |header|)) + header
  }

  /** The whole frame of a message: what async_send queues as head and body. */
  function FrameBytes(host: ByteOrder, c: Codec, m: Sendable): (bytes: seq<Byte>)
    requires Lawful(c)
  {
    FrameHeader(host, c, m) + m.body
  }

  function Frames(host: ByteOrder, c: Codec, ms: seq<Sendable>): (frames: seq<seq<Byte>>)
    requires Lawful(c)
  {
    seq(|ms|, i requires 0 <= i < |ms| => FrameBytes(host, c, ms[i]))
  }

  /** The frames of a list of messages, one after the other. */
  function FramesBytes(host: ByteOrder, c: Codec, ms: seq<Sendable>): (bytes: seq<Byte>)
    requires Lawful(c)
  {
    Joined(Frames(host, c, ms))
  }

  /** What a frame looks like on the wire, whatever the writing host: the header's size in eight
      little-endian bytes, the header, the body. */
  lemma FrameLayout(host: ByteOrder, c: Codec, m: Sendable)
    requires Lawful(c)
    ensures var header := c.encode(Header(m.id, |m.body|, m.isSystem));
            FrameBytes(host, c, m) == Digits(8, |header|) + header + m.body
  {
    StoreToLittle(host, |c.encode(HeaderOf(m))|);
  }

  lemma FramesCons(host: ByteOrder, c: Codec, ms: seq<Sendable>)
    requires Lawful(c) && ms != []
    ensures FramesBytes(host, c, ms) == FrameBytes(host, c, ms[0]) + FramesBytes(host, c, ms[1..])
  {
    assert Frames(host, c, ms)[1..] == Frames(host, c, ms[1..]);
  }

  // A concrete codec, showing that Lawful can be met.

  function ConcreteEncode(h: Header): (bytes: seq<Byte>)
    ensures |bytes| == 10
  {
    [h.id, if h.isSystem then 1 else 0] + Digits(8, h.bodySize)
  }

  function ConcreteDecode(bytes: seq<Byte>): (r: Option<Header>) {
    if |bytes| == 10 && bytes[1] <= 1
    then Some(Header(bytes[0], Value64(bytes[2..]), bytes[1] == 1))
    else None
  }

  const CONCRETE: Codec := Codec(ConcreteEncode, ConcreteDecode)

  lemma ConcreteIsLawful()
    ensures Lawful(CONCRETE)
  {
    forall h: Header
      ensures |CONCRETE.encode(h)| < U64_LIMIT && CONCRETE.decode(CONCRETE.encode(h)) == Some(h)
    {
      var bytes := ConcreteEncode(h);
      assert bytes[2..] == Digits(8, h.bodySize);
      EightDigits();
      ValueOfDigits(8, h.bodySize);
    }
  }
}
