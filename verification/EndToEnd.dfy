/**
 One direction of a connection, end to end: senders queue framed messages on one host, the stream
 carries the queue's bytes, and the session reader of another host decodes them as they arrive.
 */
module EndToEnd {
  import opened Bytes
  import opened Endian
  import opened Frame
  import opened Decoder
  import SR = SessionReader
  import WQ = WriteQueue

  /** The sending host's byte order, its queue cap and the receiver. */
  datatype Setup = Setup(writer: ByteOrder, maxPending: nat, cfg: Config)

  datatype State = State(
    socket: WQ.State,
    trace: seq<WQ.Step>,   // history: what the socket has done
    sent: seq<Sendable>,   // history: the messages accepted into the queue, in acceptance order
    arrived: nat,          // how many bytes of the stream have reached the receiver
    reader: Decoded)

  datatype Step =
    | Send(message: Sendable, hasHandler: bool)  // async_send by any caller, on any thread
    | Socket(step: WQ.Step)                      // anything else the sending socket does
    | Arrive(count: nat)                         // the next bytes of the stream reach the reader

  function Init(setup: Setup): (s: State) {
    State(WQ.Init(setup.maxPending), [], [], 0, SR.START)
  }

  /** async_send: frame the message and hand head and body to async_write. */
  function DoSend(setup: Setup, s: State, m: Sendable, hasHandler: bool): (r: State)
    requires Lawful(setup.cfg.codec)
  {
    var submit := WQ.Submit(FrameHeader(setup.writer, setup.cfg.codec, m), m.body, hasHandler);
    s.(socket := WQ.Apply(s.socket, submit), trace := s.trace + [submit],
       sent := if WQ.Full(s.socket) then s.sent else s.sent + [m])
  }

  function Apply(setup: Setup, s: State, step: Step): (r: State)
    requires Lawful(setup.cfg.codec)
  {
    match step
    case Send(m, hasHandler) => DoSend(setup, s, m, hasHandler)
    case Socket(st) => if st.Submit? then s else s.(socket := WQ.Apply(s.socket, st), trace := s.trace + [st])
    case Arrive(count) =>
      if s.arrived + count > |s.socket.wire| then s
      else s.(arrived := s.arrived + count,
              reader := SR.Feed(setup.cfg, s.reader, s.socket.wire[s.arrived..s.arrived + count]))
  }

  function Exec(setup: Setup, s: State, steps: seq<Step>): (r: State)
    requires Lawful(setup.cfg.codec)
  {
    if steps == [] then s else Apply(setup, Exec(setup, s, steps[..|steps| - 1]), steps[|steps| - 1])
  }

  /** The queued entries are the frames of the messages accepted with them. */
  ghost predicate Framed(setup: Setup, sent: seq<Sendable>, accepted: seq<WQ.Entry>)
    requires Lawful(setup.cfg.codec)
  {
    WQ.Payloads(accepted) == Frames(setup.writer, setup.cfg.codec, sent)
  }

  /** The socket's state is that of a schedule of its own. */
  ghost predicate Traced(setup: Setup, s: State) {
    s.socket == WQ.Exec(WQ.Init(setup.maxPending), s.trace)
  }

  /** The reader has decoded exactly the part of the wire that has arrived. */
  ghost predicate Reading(cfg: Config, wire: seq<Byte>, arrived: nat, reader: Decoded) {
    arrived <= |wire| && reader == Decode(cfg, wire[..arrived])
  }

  ghost predicate Inv(setup: Setup, s: State)
    requires Lawful(setup.cfg.codec)
  {
    && Traced(setup, s)
    && Framed(setup, s.sent, s.socket.accepted)
    && Reading(setup.cfg, s.socket.wire, s.arrived, s.reader)
  }

  lemma FramedSnoc(setup: Setup, sent: seq<Sendable>, accepted: seq<WQ.Entry>, m: Sendable, e: WQ.Entry)
    requires Lawful(setup.cfg.codec) && Framed(setup, sent, accepted)
    requires e.head == FrameHeader(setup.writer, setup.cfg.codec, m) && e.body == m.body
    ensures Framed(setup, sent + [m], accepted + [e])
  {
    assert WQ.Payloads(accepted + [e]) == WQ.Payloads(accepted) + [WQ.EntryBytes(e)];
    assert Frames(setup.writer, setup.cfg.codec, sent + [m])
        == Frames(setup.writer, setup.cfg.codec, sent) + [FrameBytes(setup.writer, setup.cfg.codec, m)];
  }

  /** What the socket writes meanwhile does not change what has arrived. */
  lemma ReadingGrows(cfg: Config, wire: seq<Byte>, more: seq<Byte>, arrived: nat, reader: Decoded)
    requires Reading(cfg, wire, arrived, reader) && wire <= more
    ensures Reading(cfg, more, arrived, reader)
  {
    assert more[..arrived] == wire[..arrived];
  }

  lemma SendKeeps(setup: Setup, s: State, m: Sendable, hasHandler: bool)
    requires Lawful(setup.cfg.codec) && Inv(setup, s)
    ensures Inv(setup, DoSend(setup, s, m, hasHandler))
  {
    var submit := WQ.Submit(FrameHeader(setup.writer, setup.cfg.codec, m), m.body, hasHandler);
    WQ.ExecSnoc(WQ.Init(setup.maxPending), s.trace, submit);
    if !WQ.Full(s.socket) {
      FramedSnoc(setup, s.sent, s.socket.accepted, m,
                 WQ.Entry(s.socket.nextTicket, submit.head, submit.body, hasHandler));
    }
  }

  lemma SocketKeeps(setup: Setup, s: State, step: WQ.Step)
    requires Lawful(setup.cfg.codec) && Inv(setup, s) && !step.Submit?
    ensures Inv(setup, Apply(setup, s, Socket(step)))
  {
    WQ.ExecSnoc(WQ.Init(setup.maxPending), s.trace, step);
    WQ.StepExtends(s.socket, step);
    ReadingGrows(setup.cfg, s.socket.wire, WQ.Apply(s.socket, step).wire, s.arrived, s.reader);
  }

  lemma ArriveReads(cfg: Config, wire: seq<Byte>, arrived: nat, reader: Decoded, count: nat)
    requires Reading(cfg, wire, arrived, reader) && arrived + count <= |wire|
    ensures Reading(cfg, wire, arrived + count, SR.Feed(cfg, reader, wire[arrived..arrived + count]))
  {
    SR.DecodeExtends(cfg, wire[..arrived], wire[arrived..arrived + count]);
    assert wire[..arrived] + wire[arrived..arrived + count] == wire[..arrived + count];
  }

  lemma StepKeeps(setup: Setup, s: State, step: Step)
    requires Lawful(setup.cfg.codec) && Inv(setup, s)
    ensures Inv(setup, Apply(setup, s, step))
  {
    match step
    case Send(m, hasHandler) => SendKeeps(setup, s, m, hasHandler);
    case Socket(st) =>
      if !st.Submit? {
        SocketKeeps(setup, s, st);
      }
    case Arrive(count) =>
      if s.arrived + count <= |s.socket.wire| {
        ArriveReads(setup.cfg, s.socket.wire, s.arrived, s.reader, count);
      }
  }

  lemma {:induction false} AlwaysInv(setup: Setup, steps: seq<Step>)
    requires Lawful(setup.cfg.codec)
    ensures Inv(setup, Exec(setup, Init(setup), steps))
  {
    if steps != [] {
      AlwaysInv(setup, steps[..|steps| - 1]);
      StepKeeps(setup, Exec(setup, Init(setup), steps[..|steps| - 1]), steps[|steps| - 1]);
    }
  }

  /** What the reader has decoded is a prefix of the messages sent and within its cap; with no failed
      write, an empty queue and every byte arrived it is exactly those before the first over the cap. */
  lemma DecodedIsSent(setup: Setup, s: State)
    requires Lawful(setup.cfg.codec) && Inv(setup, s)
    ensures s.reader.frames <= s.sent[..FitCount(setup.cfg, s.sent)]
    ensures !s.socket.failed && s.socket.queue == [] && s.arrived == |s.socket.wire| ==>
              s.reader.frames == s.sent[..FitCount(setup.cfg, s.sent)]
  {
    WQ.WireRefinement(setup.maxPending, s.trace);
    DecodePartOfFrames(setup.cfg, setup.writer, s.sent, s.socket.wire[..s.arrived]);
    if !s.socket.failed && s.socket.queue == [] && s.arrived == |s.socket.wire| {
      assert s.socket.wire[..s.arrived] == s.socket.wire;
      DecodeFrames(setup.cfg, setup.writer, s.sent);
    }
  }

  /** What the sending socket is made to do: each send is one async_write of the message's frame header and
      body, with the sender's handler. */
  function SocketSteps(setup: Setup, steps: seq<Step>): (r: seq<WQ.Step>)
    requires Lawful(setup.cfg.codec)
  {
    if steps == [] then []
    else
      SocketSteps(setup, steps[..|steps| - 1]) +
      match steps[|steps| - 1]
      case Send(m, hasHandler) => [WQ.Submit(FrameHeader(setup.writer, setup.cfg.codec, m), m.body, hasHandler)]
      case Socket(step) => if step.Submit? then [] else [step]
      case Arrive(_) => []
  }

  /** The messages of a run that found room in the sender's queue, in the order they were sent. */
  function Accepted(setup: Setup, steps: seq<Step>): (ms: seq<Sendable>)
    requires Lawful(setup.cfg.codec)
  {
    if steps == [] then []
    else
      var n := |steps| - 1;
      var queue := Exec(setup, Init(setup), steps[..n]).socket.queue;
      Accepted(setup, steps[..n]) +
      match steps[n]
      case Send(m, _) => if setup.maxPending != 0 && |queue| >= setup.maxPending then [] else [m]
      case Socket(_) => []
      case Arrive(_) => []
  }

  lemma AnchoredStep(setup: Setup, s: State, step: Step)
    requires Lawful(setup.cfg.codec)
    ensures var r := Apply(setup, s, step);
            match step
            case Send(m, hasHandler) =>
              && r.trace == s.trace + [WQ.Submit(FrameHeader(setup.writer, setup.cfg.codec, m), m.body, hasHandler)]
              && r.sent == if WQ.Full(s.socket) then s.sent else s.sent + [m]
            case Socket(st) => r.sent == s.sent && r.trace == if st.Submit? then s.trace else s.trace + [st]
            case Arrive(_) => r.sent == s.sent && r.trace == s.trace
  {
  }

  /** The histories are those of the steps: the socket has done what the run made it do, and the messages
      counted as sent are those that found room. */
  lemma {:induction false} Anchored(setup: Setup, steps: seq<Step>)
    requires Lawful(setup.cfg.codec)
    ensures Exec(setup, Init(setup), steps).trace == SocketSteps(setup, steps)
    ensures Exec(setup, Init(setup), steps).sent == Accepted(setup, steps)
  {
    if steps != [] {
      var n := |steps| - 1;
      var s := Exec(setup, Init(setup), steps[..n]);
      Anchored(setup, steps[..n]);
      AnchoredStep(setup, s, steps[n]);
      LimitStays(setup, steps[..n]);
    }
  }

  lemma LimitStays(setup: Setup, steps: seq<Step>)
    requires Lawful(setup.cfg.codec)
    ensures Exec(setup, Init(setup), steps).socket.maxPending == setup.maxPending
  {
    AlwaysInv(setup, steps);
    WQ.AlwaysFromCalls(setup.maxPending, Exec(setup, Init(setup), steps).trace);
  }

  /** End to end, over every interleaving of senders, partial writes, write failures and arrivals: the
      messages handed to the receiver's handle_message are a prefix of the application messages
      accepted into the sender's queue, in acceptance order, ids and bodies intact.  When no write has
      failed, the queue is empty and every byte has arrived, they are all of them up to the first
      message over the receiver's cap, so all of them when every message is within it. */
  lemma DeliveredIsPrefixOfSent(setup: Setup, steps: seq<Step>)
    requires Lawful(setup.cfg.codec)
    ensures var s := Exec(setup, Init(setup), steps);
            var sent := Accepted(setup, steps);
            var fit := FitCount(setup.cfg, sent);
            && Apps(s.reader.frames) <= Apps(sent[..fit]) <= Apps(sent)
            && (!s.socket.failed && s.socket.queue == [] && s.arrived == |s.socket.wire| ==>
                  Apps(s.reader.frames) == Apps(sent[..fit]))
            && ((forall m :: m in sent ==> Fits(setup.cfg, m)) ==> sent[..fit] == sent)
  {
    AlwaysInv(setup, steps);
    Anchored(setup, steps);
    var s := Exec(setup, Init(setup), steps);
    var fit := FitCount(setup.cfg, s.sent);
    DecodedIsSent(setup, s);
    PrefixProjections(s.reader.frames, s.sent[..fit], HB_PING);
    PrefixProjections(s.sent[..fit], s.sent, HB_PING);
    if fit < |s.sent| {
      assert s.sent[fit] in s.sent;
    }
  }

  lemma ArriveGrows(cfg: Config, wire: seq<Byte>, arrived: nat, reader: Decoded, count: nat)
    requires Reading(cfg, wire, arrived, reader) && arrived + count <= |wire|
    ensures reader.frames <= SR.Feed(cfg, reader, wire[arrived..arrived + count]).frames
  {
    var chunk := wire[arrived..arrived + count];
    SR.DecodeExtends(cfg, wire[..arrived], chunk);
    DecodePrefix(cfg, wire[..arrived], chunk);
  }

  /** The reader only ever adds frames, and only sends add messages. */
  lemma ReaderGrows(setup: Setup, s: State, step: Step)
    requires Lawful(setup.cfg.codec) && Reading(setup.cfg, s.socket.wire, s.arrived, s.reader) && !step.Send?
    ensures s.reader.frames <= Apply(setup, s, step).reader.frames
    ensures Apply(setup, s, step).sent == s.sent
  {
    if step.Arrive? && s.arrived + step.count <= |s.socket.wire| {
      ArriveGrows(setup.cfg, s.socket.wire, s.arrived, s.reader, step.count);
    }
  }

  lemma {:induction false} ExecConcat(setup: Setup, s: State, a: seq<Step>, b: seq<Step>)
    requires Lawful(setup.cfg.codec)
    ensures Exec(setup, s, a + b) == Exec(setup, Exec(setup, s, a), b)
  {
    if b == [] {
      assert a + b == a;
    } else {
      ExecConcat(setup, s, a, b[..|b| - 1]);
      assert (a + b)[..|a + b| - 1] == a + b[..|b| - 1] && (a + b)[|a + b| - 1] == b[|b| - 1];
    }
  }

  lemma ExecSnoc(setup: Setup, s: State, steps: seq<Step>, step: Step)
    requires Lawful(setup.cfg.codec)
    ensures Exec(setup, s, steps + [step]) == Apply(setup, Exec(setup, s, steps), step)
  {
    assert (steps + [step])[..|steps|] == steps;
  }

  /** What is left of the state when only the socket has run. */
  ghost predicate SocketRan(s: State, r: State, steps: seq<WQ.Step>) {
    r.trace == s.trace + steps && r.sent == s.sent && r.arrived == s.arrived && r.reader == s.reader
  }

  lemma SocketRuns(setup: Setup, s: State, m: State, steps: seq<WQ.Step>, step: WQ.Step)
    requires Lawful(setup.cfg.codec) && SocketRan(s, m, steps) && !step.Submit?
    ensures SocketRan(s, Apply(setup, m, Socket(step)), steps + [step])
  {
    ConcatAssociates(s.trace, steps, [step]);
  }

  /** Running the socket alone: the rest of the state stays. */
  lemma {:induction false} ExecSocket(setup: Setup, s: State, steps: seq<WQ.Step>) returns (lifted: seq<Step>)
    requires Lawful(setup.cfg.codec) && forall step :: step in steps ==> !step.Submit?
    ensures SocketRan(s, Exec(setup, s, lifted), steps)
  {
    if steps == [] {
      lifted := [];
      assert s.trace + [] == s.trace;
    } else {
      var n := |steps| - 1;
      var init := ExecSocket(setup, s, steps[..n]);
      lifted := init + [Socket(steps[n])];
      ExecSnoc(setup, s, init, Socket(steps[n]));
      SocketRuns(setup, s, Exec(setup, s, init), steps[..n], steps[n]);
      assert steps == steps[..n] + [steps[n]];
    }
  }

  /** Once everything is on the wire, one more arrival hands it all to the reader. */
  lemma LastArrival(setup: Setup, steps: seq<Step>) returns (last: Step)
    requires Lawful(setup.cfg.codec)
    requires var s := Exec(setup, Init(setup), steps); !s.socket.failed && s.socket.queue == []
    ensures var s := Exec(setup, Init(setup), steps);
            var r := Exec(setup, Init(setup), steps + [last]);
            r.sent == s.sent && r.reader.frames == s.sent[..FitCount(setup.cfg, s.sent)]
  {
    AlwaysInv(setup, steps);
    var s := Exec(setup, Init(setup), steps);
    last := Arrive(|s.socket.wire| - s.arrived);
    assert (steps + [last])[..|steps|] == steps;
    AlwaysInv(setup, steps + [last]);
    DecodedIsSent(setup, Exec(setup, Init(setup), steps + [last]));
  }

  /** Unless a write has failed, every run can be continued, without further sends, to one in which the
      receiver has been handed every message sent before the first over its cap. */
  lemma CanDeliverAll(setup: Setup, steps: seq<Step>) returns (more: seq<Step>)
    requires Lawful(setup.cfg.codec)
    requires !Exec(setup, Init(setup), steps).socket.failed
    ensures var sent := Accepted(setup, steps);
            && Accepted(setup, steps + more) == sent
            && Exec(setup, Init(setup), steps + more).reader.frames == sent[..FitCount(setup.cfg, sent)]
  {
    var s := Exec(setup, Init(setup), steps);
    AlwaysInv(setup, steps);
    Anchored(setup, steps);
    var drain := WQ.NothingStranded(setup.maxPending, s.trace);
    var lifted := ExecSocket(setup, s, drain);
    ExecConcat(setup, Init(setup), steps, lifted);
    AlwaysInv(setup, steps + lifted);
    var last := LastArrival(setup, steps + lifted);
    more := lifted + [last];
    ConcatAssociates(steps, lifted, [last]);
    Anchored(setup, steps + more);
  }
}
