/**
 Two endpoints with asynchronous readers, each with its own outgoing connection direction: heartbeat
 pings and the pongs that answer them.
 */
module PingPong {
  import opened Bytes
  import opened Frame
  import opened Decoder
  import E2E = EndToEnd

  datatype Side = A | B

  function Peer(side: Side): (other: Side) {
    if side == A then B else A
  }

  /** One endpoint: its outgoing direction and the pings it has read but not yet answered. */
  datatype Endpoint = Endpoint(
    link: E2E.State,
    trace: seq<E2E.Step>,  // history: what has happened on the outgoing direction
    owed: nat)

  /** `pings` counts the heartbeats that have tried to send a ping, on either side. */
  datatype State = State(a: Endpoint, b: Endpoint, pings: nat)

  function At(s: State, side: Side): (e: Endpoint) {
    if side == A then s.a else s.b
  }

  function Put(s: State, side: Side, e: Endpoint): (r: State) {
    if side == A then s.(a := e) else s.(b := e)
  }

  /** The outgoing setups of the two sides. */
  datatype Setups = Setups(a: E2E.Setup, b: E2E.Setup)

  function SetupOf(setups: Setups, side: Side): (setup: E2E.Setup) {
    if side == A then setups.a else setups.b
  }

  ghost predicate LawfulSetups(setups: Setups) {
    Lawful(setups.a.cfg.codec) && Lawful(setups.b.cfg.codec)
  }

  datatype Step =
    | Ping(side: Side, body: seq<Byte>)       // the heartbeat timer of this side sends a ping
    | Application(side: Side, message: Sendable)
    | Pong(side: Side, body: seq<Byte>)       // the read handler of this side answers a ping it has read
    | Other(side: Side, step: E2E.Step)       // this side's socket, or the arrival of its bytes at its peer

  function Init(setups: Setups): (s: State) {
    State(Endpoint(E2E.Init(setups.a), [], 0), Endpoint(E2E.Init(setups.b), [], 0), 0)
  }

  /** One step on the outgoing direction of a side, which then owes so many pongs. */
  function OnLink(setups: Setups, s: State, side: Side, step: E2E.Step, owed: nat): (r: State)
    requires LawfulSetups(setups)
  {
    var e := At(s, side);
    Put(s, side, Endpoint(E2E.Apply(SetupOf(setups, side), e.link, step), e.trace + [step], owed))
  }

  /** How many pings the peer of a side has read from it. */
  function PingsRead(s: State, side: Side): (n: nat) {
    Systems(At(s, side).link.reader.frames, HB_PING)
  }

  function Apply(setups: Setups, s: State, step: Step): (r: State)
    requires LawfulSetups(setups)
  {
    match step
    case Ping(side, body) =>
      if |body| >= U64_LIMIT then s
      else
        var send := E2E.Send(Message(HB_PING, true, body), true);
        OnLink(setups, s, side, send, At(s, side).owed).(pings := s.pings + 1)
    case Application(side, m) =>
      if m.isSystem then s else OnLink(setups, s, side, E2E.Send(m, true), At(s, side).owed)
    case Pong(side, body) =>
      if |body| >= U64_LIMIT || At(s, side).owed == 0 then s
      else OnLink(setups, s, side, E2E.Send(Message(HB_PONG, true, body), true), At(s, side).owed - 1)
    case Other(side, st) =>
      if st.Send? then s
      else
        var r := OnLink(setups, s, side, st, At(s, side).owed);
        var reader := At(r, Peer(side));
        if PingsRead(r, side) < PingsRead(s, side) then r
        else Put(r, Peer(side), reader.(owed := reader.owed + PingsRead(r, side) - PingsRead(s, side)))
  }

  function Exec(setups: Setups, steps: seq<Step>): (r: State)
    requires LawfulSetups(setups)
  {
    if steps == [] then Init(setups) else Apply(setups, Exec(setups, steps[..|steps| - 1]), steps[|steps| - 1])
  }

  /** How many frames are system frames. */
  function SystemFrames(ms: seq<Message>): (n: nat) {
    if ms == [] then 0 else (if ms[0].isSystem then 1 else 0) + SystemFrames(ms[1..])
  }

  lemma {:induction false} SystemFramesConcat(a: seq<Message>, b: seq<Message>)
    ensures SystemFrames(a + b) == SystemFrames(a) + SystemFrames(b)
  {
    if a == [] {
      assert a + b == b;
    } else {
      SystemFramesConcat(a[1..], b);
      assert (a + b)[1..] == a[1..] + b;
    }
  }

  /** What a side has sent: pings and pongs account for its system frames. */
  ghost predicate Accounted(sent: seq<Message>) {
    SystemFrames(sent) == Systems(sent, HB_PING) + Systems(sent, HB_PONG)
  }

  /** A side answers no more pings than it has read. */
  ghost predicate Answers(s: State, side: Side) {
    Systems(At(s, side).link.sent, HB_PONG) + At(s, side).owed <= PingsRead(s, Peer(side))
  }

  ghost predicate Traced(setups: Setups, s: State, side: Side)
    requires LawfulSetups(setups)
  {
    At(s, side).link == E2E.Exec(SetupOf(setups, side), E2E.Init(SetupOf(setups, side)), At(s, side).trace)
  }

  /** The counts that hold whatever the schedule. */
  ghost predicate Balanced(s: State) {
    && Answers(s, A) && Answers(s, B)
    && Accounted(s.a.link.sent) && Accounted(s.b.link.sent)
    && Systems(s.a.link.sent, HB_PING) + Systems(s.b.link.sent, HB_PING) <= s.pings
  }

  ghost predicate Inv(setups: Setups, s: State)
    requires LawfulSetups(setups)
  {
    Traced(setups, s, A) && Traced(setups, s, B) && Balanced(s)
  }

  lemma TracedStep(setups: Setups, s: State, side: Side, step: E2E.Step, owed: nat)
    requires LawfulSetups(setups) && Traced(setups, s, side)
    ensures Traced(setups, OnLink(setups, s, side, step, owed), side)
  {
    var e := At(s, side);
    assert (e.trace + [step])[..|e.trace|] == e.trace;
  }

  /** Sending a message adds at most that message to what was sent, and nothing is read. */
  lemma SendAdds(setups: Setups, s: State, side: Side, m: Sendable, owed: nat)
    requires LawfulSetups(setups)
    ensures var l := At(s, side).link;
            var r := At(OnLink(setups, s, side, E2E.Send(m, true), owed), side).link;
            && r.reader == l.reader
            && (r.sent == l.sent || r.sent == l.sent + [m])
  {
  }

  lemma OneMore(sent: seq<Message>, m: Message)
    ensures Systems(sent + [m], HB_PING) == Systems(sent, HB_PING) + if m.isSystem && m.id == HB_PING then 1 else 0
    ensures Systems(sent + [m], HB_PONG) == Systems(sent, HB_PONG) + if m.isSystem && m.id == HB_PONG then 1 else 0
    ensures SystemFrames(sent + [m]) == SystemFrames(sent) + if m.isSystem then 1 else 0
  {
    SystemsConcat(sent, [m], HB_PING);
    SystemsConcat(sent, [m], HB_PONG);
    SystemFramesConcat(sent, [m]);
  }

  /** Sending keeps the counts when a ping is counted as tried and a pong is taken off what is owed. */
  lemma SendBalanced(s: State, r: State, side: Side, m: Message)
    requires Balanced(s) && (m.isSystem ==> m.id == HB_PING || m.id == HB_PONG)
    requires At(r, Peer(side)) == At(s, Peer(side))
    requires At(r, side).link.reader == At(s, side).link.reader
    requires At(r, side).link.sent == At(s, side).link.sent || At(r, side).link.sent == At(s, side).link.sent + [m]
    requires At(r, side).owed == At(s, side).owed - (if m.isSystem && m.id == HB_PONG then 1 else 0)
    requires r.pings == s.pings + if m.isSystem && m.id == HB_PING then 1 else 0
    ensures Balanced(r)
  {
    OneMore(At(s, side).link.sent, m);
  }

  /** Sending a message, with the counts adjusted as above. */
  lemma SendKeeps(setups: Setups, s: State, r: State, side: Side, m: Sendable, owed: nat)
    requires LawfulSetups(setups) && Inv(setups, s) && (m.isSystem ==> m.id == HB_PING || m.id == HB_PONG)
    requires r == OnLink(setups, s, side, E2E.Send(m, true), owed).(pings := r.pings)
    requires owed == At(s, side).owed - (if m.isSystem && m.id == HB_PONG then 1 else 0)
    requires r.pings == s.pings + if m.isSystem && m.id == HB_PING then 1 else 0
    ensures Inv(setups, r)
  {
    TracedStep(setups, s, side, E2E.Send(m, true), owed);
    SendAdds(setups, s, side, m, owed);
    SendBalanced(s, r, side, m);
  }

  lemma ReadBalanced(s: State, r: State, side: Side)
    requires Balanced(s) && r.pings == s.pings && PingsRead(s, side) <= PingsRead(r, side)
    requires At(r, side).link.sent == At(s, side).link.sent && At(r, side).owed == At(s, side).owed
    requires At(r, Peer(side)).link == At(s, Peer(side)).link
    requires At(r, Peer(side)).owed == At(s, Peer(side)).owed + PingsRead(r, side) - PingsRead(s, side)
    ensures Balanced(r)
  {
  }

  /** How many pongs the peer owes does not bear on what has happened on either direction. */
  lemma OwedTraced(setups: Setups, s: State, r: State)
    requires LawfulSetups(setups) && Traced(setups, s, A) && Traced(setups, s, B)
    requires r.a.link == s.a.link && r.a.trace == s.a.trace
    requires r.b.link == s.b.link && r.b.trace == s.b.trace
    ensures Traced(setups, r, A) && Traced(setups, r, B)
  {
  }

  lemma OtherTraced(setups: Setups, s: State, side: Side, step: E2E.Step, owed: nat)
    requires LawfulSetups(setups) && Traced(setups, s, A) && Traced(setups, s, B)
    ensures var r := OnLink(setups, s, side, step, owed); Traced(setups, r, A) && Traced(setups, r, B)
  {
    TracedStep(setups, s, side, step, owed);
  }

  /** The step seen from its parts: first the link, then the pings it brought are owed by the peer. */
  lemma OtherParts(setups: Setups, s: State, side: Side, step: E2E.Step)
    requires LawfulSetups(setups) && Traced(setups, s, side) && !step.Send?
    ensures var l := OnLink(setups, s, side, step, At(s, side).owed);
            var r := Apply(setups, s, Other(side, step));
            && r.pings == s.pings && PingsRead(s, side) <= PingsRead(r, side)
            && At(r, side) == At(l, side) && At(l, side).owed == At(s, side).owed
            && At(l, side).link.sent == At(s, side).link.sent
            && At(l, Peer(side)) == At(s, Peer(side))
            && At(r, Peer(side)) ==
               At(s, Peer(side)).(owed := At(s, Peer(side)).owed + PingsRead(r, side) - PingsRead(s, side))
  {
    ReaderGrows(setups, s, side, step);
  }

  lemma OtherKeeps(setups: Setups, s: State, side: Side, step: E2E.Step)
    requires LawfulSetups(setups) && Inv(setups, s) && !step.Send?
    ensures Inv(setups, Apply(setups, s, Other(side, step)))
  {
    var l := OnLink(setups, s, side, step, At(s, side).owed);
    var r := Apply(setups, s, Other(side, step));
    OtherParts(setups, s, side, step);
    OtherTraced(setups, s, side, step, At(s, side).owed);
    OwedTraced(setups, l, r);
    ReadBalanced(s, r, side);
  }

  /** A reader never takes back a frame. */
  lemma ReaderGrows(setups: Setups, s: State, side: Side, step: E2E.Step)
    requires LawfulSetups(setups) && Traced(setups, s, side) && !step.Send?
    ensures var r := OnLink(setups, s, side, step, At(s, side).owed);
            PingsRead(s, side) <= PingsRead(r, side) && At(r, side).link.sent == At(s, side).link.sent
  {
    var setup := SetupOf(setups, side);
    var e := At(s, side);
    E2E.AlwaysInv(setup, e.trace);
    E2E.ReaderGrows(setup, e.link, step);
    PrefixProjections(e.link.reader.frames, E2E.Apply(setup, e.link, step).reader.frames, HB_PING);
  }

  lemma PingKeeps(setups: Setups, s: State, side: Side, body: seq<Byte>)
    requires LawfulSetups(setups) && Inv(setups, s) && |body| < U64_LIMIT
    ensures Inv(setups, Apply(setups, s, Ping(side, body)))
  {
    SendKeeps(setups, s, Apply(setups, s, Ping(side, body)), side, Message(HB_PING, true, body), At(s, side).owed);
  }

  lemma PongKeeps(setups: Setups, s: State, side: Side, body: seq<Byte>)
    requires LawfulSetups(setups) && Inv(setups, s) && |body| < U64_LIMIT && At(s, side).owed > 0
    ensures Inv(setups, Apply(setups, s, Pong(side, body)))
  {
    SendKeeps(setups, s, Apply(setups, s, Pong(side, body)), side, Message(HB_PONG, true, body), At(s, side).owed - 1);
  }

  lemma StepKeeps(setups: Setups, s: State, step: Step)
    requires LawfulSetups(setups) && Inv(setups, s)
    ensures Inv(setups, Apply(setups, s, step))
  {
    match step
    case Ping(side, body) => if |body| < U64_LIMIT { PingKeeps(setups, s, side, body); }
    case Application(side, m) =>
      if !m.isSystem {
        SendKeeps(setups, s, Apply(setups, s, step), side, m, At(s, side).owed);
      }
    case Pong(side, body) => if |body| < U64_LIMIT && At(s, side).owed > 0 { PongKeeps(setups, s, side, body); }
    case Other(side, st) => if !st.Send? { OtherKeeps(setups, s, side, st); }
  }

  lemma {:induction false} AlwaysInv(setups: Setups, steps: seq<Step>)
    requires LawfulSetups(setups)
    ensures Inv(setups, Exec(setups, steps))
  {
    if steps != [] {
      AlwaysInv(setups, steps[..|steps| - 1]);
      StepKeeps(setups, Exec(setups, steps[..|steps| - 1]), steps[|steps| - 1]);
    }
  }

  // The histories are those of the steps.

  /** How many heartbeats of a run have tried to send a ping. */
  function PingsTried(steps: seq<Step>): (n: nat) {
    if steps == [] then 0
    else
      var n := |steps| - 1;
      PingsTried(steps[..n]) + if steps[n].Ping? && |steps[n].body| < U64_LIMIT then 1 else 0
  }

  /** The step answers a ping that this side has read. */
  predicate Answering(s: State, step: Step, side: Side) {
    step.Pong? && step.side == side && |step.body| < U64_LIMIT && At(s, side).owed > 0
  }

  /** How many pongs a side has handed to async_send in a run. */
  function PongsTried(setups: Setups, steps: seq<Step>, side: Side): (n: nat)
    requires LawfulSetups(setups)
  {
    if steps == [] then 0
    else
      var n := |steps| - 1;
      PongsTried(setups, steps[..n], side) + if Answering(Exec(setups, steps[..n]), steps[n], side) then 1 else 0
  }

  /** What a step makes the outgoing direction of a side do. */
  function Outgoing(s: State, step: Step, side: Side): (r: seq<E2E.Step>) {
    if step.side != side then []
    else
      match step
      case Ping(_, body) => if |body| < U64_LIMIT then [E2E.Send(Message(HB_PING, true, body), true)] else []
      case Application(_, m) => if m.isSystem then [] else [E2E.Send(m, true)]
      case Pong(_, body) => if Answering(s, step, side) then [E2E.Send(Message(HB_PONG, true, body), true)] else []
      case Other(_, st) => if st.Send? then [] else [st]
  }

  /** What a run makes it do. */
  function LinkSteps(setups: Setups, steps: seq<Step>, side: Side): (r: seq<E2E.Step>)
    requires LawfulSetups(setups)
  {
    if steps == [] then []
    else
      var n := |steps| - 1;
      LinkSteps(setups, steps[..n], side) + Outgoing(Exec(setups, steps[..n]), steps[n], side)
  }

  lemma TraceAdds(setups: Setups, s: State, step: Step, side: Side)
    requires LawfulSetups(setups)
    ensures At(Apply(setups, s, step), side).trace == At(s, side).trace + Outgoing(s, step, side)
  {
  }

  /** A send leaves every reader as it is, and the debts except of the side that answers. */
  lemma SendOwes(setups: Setups, s: State, step: Step, side: Side)
    requires LawfulSetups(setups) && !step.Other?
    ensures var r := Apply(setups, s, step);
            && PingsRead(r, side) == PingsRead(s, side)
            && At(r, side).owed == At(s, side).owed - if Answering(s, step, side) then 1 else 0
  {
  }

  /** A ping that has been read is owed an answer until it is answered. */
  lemma StepOwes(setups: Setups, s: State, step: Step, side: Side)
    requires LawfulSetups(setups) && Inv(setups, s)
    ensures var r := Apply(setups, s, step);
            At(r, side).owed + (if Answering(s, step, side) then 1 else 0) + PingsRead(s, Peer(side))
            == At(s, side).owed + PingsRead(r, Peer(side))
  {
    if step.Other? {
      if !step.step.Send? {
        OtherParts(setups, s, step.side, step.step);
      }
    } else {
      SendOwes(setups, s, step, side);
      SendOwes(setups, s, step, Peer(side));
    }
  }

  lemma PingCounts(setups: Setups, s: State, step: Step)
    requires LawfulSetups(setups)
    ensures Apply(setups, s, step).pings == s.pings + if step.Ping? && |step.body| < U64_LIMIT then 1 else 0
  {
  }

  /** Each direction has done what the steps made it do; every ping read is answered or still owed an answer. */
  lemma {:induction false} Anchored(setups: Setups, steps: seq<Step>, side: Side)
    requires LawfulSetups(setups)
    ensures var s := Exec(setups, steps);
            && At(s, side).trace == LinkSteps(setups, steps, side)
            && s.pings == PingsTried(steps)
            && PongsTried(setups, steps, side) + At(s, side).owed == PingsRead(s, Peer(side))
  {
    if steps != [] {
      var n := |steps| - 1;
      var s := Exec(setups, steps[..n]);
      Anchored(setups, steps[..n], side);
      AlwaysInv(setups, steps[..n]);
      TraceAdds(setups, s, steps[n], side);
      StepOwes(setups, s, steps[n], side);
      PingCounts(setups, s, steps[n]);
    }
  }

  /** No ping storm: the pongs a side has queued never exceed the pings it has read, each answered at most
      once, nor those its peer has sent; so in every run the system frames of both sides are at most twice the
      pings tried. */
  lemma NoPingStorm(setups: Setups, steps: seq<Step>, side: Side)
    requires LawfulSetups(setups)
    ensures var s := Exec(setups, steps);
            var other := Peer(side);
            && Systems(At(s, side).link.sent, HB_PONG) <= PingsRead(s, other)
            && PingsRead(s, other) <= Systems(At(s, other).link.sent, HB_PING)
            && PongsTried(setups, steps, side) <= PingsRead(s, other)
            && SystemFrames(s.a.link.sent) + SystemFrames(s.b.link.sent) <= 2 * PingsTried(steps)
  {
    AlwaysInv(setups, steps);
    Anchored(setups, steps, side);
    var s := Exec(setups, steps);
    ReadWasSent(setups, s, A);
    ReadWasSent(setups, s, B);
  }

  lemma ReadWasSent(setups: Setups, s: State, side: Side)
    requires LawfulSetups(setups) && Traced(setups, s, side)
    ensures PingsRead(s, side) <= Systems(At(s, side).link.sent, HB_PING)
  {
    var setup := SetupOf(setups, side);
    var e := At(s, side);
    E2E.AlwaysInv(setup, e.trace);
    E2E.DecodedIsSent(setup, e.link);
    PrefixProjections(e.link.reader.frames, e.link.sent, HB_PING);
  }
}
