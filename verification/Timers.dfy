/**
 The idle, heartbeat and handshake timers of boost_tcp_socket (src/network/socket.cpp) as a timed state
 machine.  Time passes in steps that stop at every armed deadline, so a timer fires exactly when due;
 re-arming a timer replaces its previous wait.
 */
module Timers {
  import opened Bytes

  /** The three timeouts, in clock ticks; 0 disables a timer. */
  datatype Config = Config(idle: nat, heartbeat: nat, handshake: nat)

  datatype Phase = Unconnected | Connecting | Handshaking | Established | Refused

  datatype Cause = Idle | Heartbeat | Handshake

  /** A timer handler has closed the stream. */
  datatype Close = Close(cause: Cause, at: nat)

  datatype State = State(
    now: nat,
    phase: Phase,
    idleAt: Option<nat>,       // armed deadlines
    heartbeatAt: Option<nat>,
    handshakeAt: Option<nat>,
    heartbeatSent: bool,
    closes: seq<Close>,
    lastReset: Option<nat>,    // history: when the idle and heartbeat timers were last restarted
    pings: seq<nat>,           // history: when pings were attempted since then
    handshakeStart: nat)       // history

  const INIT: State := State(0, Unconnected, None, None, None, false, [], None, [], 0)

  datatype Step =
    | Advance(ticks: nat)
    | ConnectStart                 // async_connect is called
    | HandshakeStart               // async_handshake is called
    | HandshakeDone(ok: bool)
    | ReadDone(ok: bool)
    | FireIdle
    | FireHeartbeat
    | FireHandshake

  /** Time may pass up to a deadline, not beyond it. */
  predicate NotBeyond(deadline: Option<nat>, t: nat) {
    deadline.Some? ==> t <= deadline.value
  }

  /** Operations on a stream that a timer has closed do not succeed. */
  predicate Enabled(s: State, step: Step) {
    match step
    case Advance(ticks) =>
      var t := s.now + ticks;
      NotBeyond(s.idleAt, t) && NotBeyond(s.heartbeatAt, t) && NotBeyond(s.handshakeAt, t)
    case ConnectStart => s.phase == Unconnected
    case HandshakeStart => s.phase == Unconnected || s.phase == Connecting
    case HandshakeDone(ok) => s.phase == Handshaking && (ok ==> s.closes == [])
    case ReadDone(ok) => s.phase == Established && (ok ==> s.closes == [])
    case FireIdle => s.idleAt == Some(s.now)
    case FireHeartbeat => s.heartbeatAt == Some(s.now)
    case FireHandshake => s.handshakeAt == Some(s.now)
  }

  /** reset_idle_timer and reset_heartbeat_timer. */
  function Reset(cfg: Config, s: State): (r: State) {
    s.(idleAt := if cfg.idle == 0 then s.idleAt else Some(s.now + cfg.idle),
       heartbeatAt := if cfg.heartbeat == 0 then s.heartbeatAt else Some(s.now + cfg.heartbeat),
       heartbeatSent := if cfg.heartbeat == 0 then s.heartbeatSent else false,
       lastReset := Some(s.now), pings := [])
  }

  function DoHandshakeStart(cfg: Config, s: State): (r: State) {
    s.(phase := Handshaking, handshakeStart := s.now,
       handshakeAt := if cfg.handshake == 0 then s.handshakeAt else Some(s.now + cfg.handshake))
  }

  function DoHandshakeDone(cfg: Config, s: State, ok: bool): (r: State) {
    var t := s.(handshakeAt := None, phase := if ok then Established else Refused);
    if ok then Reset(cfg, t) else t
  }

  function DoFireIdle(s: State): (r: State) {
    s.(idleAt := None, closes := s.closes + [Close(Idle, s.now)])
  }

  /** Ping on the first silent interval, close on the second. */
  function DoFireHeartbeat(cfg: Config, s: State): (r: State) {
    if s.heartbeatSent then s.(heartbeatAt := None, closes := s.closes + [Close(Heartbeat, s.now)])
    else s.(heartbeatSent := true, heartbeatAt := Some(s.now + cfg.heartbeat), pings := s.pings + [s.now])
  }

  function DoFireHandshake(s: State): (r: State) {
    s.(handshakeAt := None, closes := s.closes + [Close(Handshake, s.now)])
  }

  function Apply(cfg: Config, s: State, step: Step): (r: State) {
    if !Enabled(s, step) then s
    else
      match step
      case Advance(ticks) => s.(now := s.now + ticks)
      case ConnectStart => Reset(cfg, s.(phase := Connecting))
      case HandshakeStart => DoHandshakeStart(cfg, s)
      case HandshakeDone(ok) => DoHandshakeDone(cfg, s, ok)
      case ReadDone(ok) => if ok then Reset(cfg, s) else s
      case FireIdle => DoFireIdle(s)
      case FireHeartbeat => DoFireHeartbeat(cfg, s)
      case FireHandshake => DoFireHandshake(s)
  }

  function Exec(cfg: Config, steps: seq<Step>): (r: State) {
    if steps == [] then INIT else Apply(cfg, Exec(cfg, steps[..|steps| - 1]), steps[|steps| - 1])
  }

  // ----- Invariants -----

  /** The idle timer: armed for the last reset plus the timeout, or it has closed the stream then. */
  ghost predicate IdleInv(cfg: Config, s: State) {
    && (s.lastReset.None? ==> s.idleAt.None?)
    && (s.idleAt.Some? ==> cfg.idle != 0 && s.now <= s.idleAt.value == s.lastReset.value + cfg.idle)
    && (s.lastReset.Some? && cfg.idle != 0 && s.idleAt.None? ==>
          Close(Idle, s.lastReset.value + cfg.idle) in s.closes)
  }

  /** The heartbeat timer: waiting to ping, waiting after its one ping, or done after closing the stream. */
  ghost predicate HeartbeatInv(cfg: Config, s: State) {
    && (s.lastReset.None? ==> s.heartbeatAt.None? && s.pings == [])
    && (s.lastReset.Some? && cfg.heartbeat == 0 ==> s.heartbeatAt.None? && s.pings == [])
    && (s.lastReset.Some? && cfg.heartbeat != 0 ==>
          var r := s.lastReset.value;
          if s.heartbeatAt.None? then
            && s.heartbeatSent && s.pings == [r + cfg.heartbeat]
            && Close(Heartbeat, r + 2 * cfg.heartbeat) in s.closes
          else
            && s.now <= s.heartbeatAt.value
            && if s.heartbeatSent
               then s.heartbeatAt.value == r + 2 * cfg.heartbeat && s.pings == [r + cfg.heartbeat]
               else s.heartbeatAt.value == r + cfg.heartbeat && s.pings == [])
  }

  /** The handshake deadline exists only while the handshake is pending. */
  ghost predicate HandshakeInv(cfg: Config, s: State) {
    && (s.handshakeAt.Some? ==>
          && cfg.handshake != 0 && s.phase == Handshaking
          && s.now <= s.handshakeAt.value == s.handshakeStart + cfg.handshake)
    && (s.phase == Handshaking && cfg.handshake != 0 && s.handshakeAt.None? ==>
          Close(Handshake, s.handshakeStart + cfg.handshake) in s.closes)
  }

  /** Every close by a timer was due, measured from the last reset or the start of the handshake. */
  ghost predicate ClosesDue(cfg: Config, s: State) {
    forall c :: c in s.closes ==>
      match c.cause
      case Idle => s.lastReset.Some? && c.at == s.lastReset.value + cfg.idle
      case Heartbeat =>
        && s.lastReset.Some? && c.at == s.lastReset.value + 2 * cfg.heartbeat
        && s.pings == [s.lastReset.value + cfg.heartbeat]
      case Handshake => c.at == s.handshakeStart + cfg.handshake && s.phase != Unconnected && s.phase != Connecting
  }

  ghost predicate Inv(cfg: Config, s: State) {
    && IdleInv(cfg, s) && HeartbeatInv(cfg, s) && HandshakeInv(cfg, s) && ClosesDue(cfg, s)
    && (s.phase == Unconnected ==> s.lastReset.None? && s.closes == [])
    && (s.lastReset.Some? ==> s.lastReset.value <= s.now)
    && (s.phase == Established ==> s.lastReset.Some?)
  }

  lemma ResetKeeps(cfg: Config, s: State)
    requires Inv(cfg, s) && s.closes == []
    ensures IdleInv(cfg, Reset(cfg, s)) && HeartbeatInv(cfg, Reset(cfg, s)) && ClosesDue(cfg, Reset(cfg, s))
  {
  }

  lemma FireIdleKeeps(cfg: Config, s: State)
    requires Inv(cfg, s) && Enabled(s, FireIdle)
    ensures Inv(cfg, DoFireIdle(s))
  {
    assert Close(Idle, s.now) in DoFireIdle(s).closes;
  }

  lemma FireHeartbeatKeeps(cfg: Config, s: State)
    requires Inv(cfg, s) && Enabled(s, FireHeartbeat)
    ensures Inv(cfg, DoFireHeartbeat(cfg, s))
  {
    if s.heartbeatSent {
      assert Close(Heartbeat, s.now) in DoFireHeartbeat(cfg, s).closes;
    }
  }

  lemma FireHandshakeKeeps(cfg: Config, s: State)
    requires Inv(cfg, s) && Enabled(s, FireHandshake)
    ensures Inv(cfg, DoFireHandshake(s))
  {
    assert Close(Handshake, s.now) in DoFireHandshake(s).closes;
  }

  lemma HandshakeDoneKeeps(cfg: Config, s: State, ok: bool)
    requires Inv(cfg, s) && Enabled(s, HandshakeDone(ok))
    ensures Inv(cfg, DoHandshakeDone(cfg, s, ok))
  {
  }

  lemma HandshakeStartKeeps(cfg: Config, s: State)
    requires Inv(cfg, s) && Enabled(s, HandshakeStart)
    ensures Inv(cfg, DoHandshakeStart(cfg, s))
  {
  }

  lemma ConnectKeeps(cfg: Config, s: State)
    requires Inv(cfg, s) && Enabled(s, ConnectStart)
    ensures Inv(cfg, Reset(cfg, s.(phase := Connecting)))
  {
  }

  lemma ReadKeeps(cfg: Config, s: State)
    requires Inv(cfg, s) && Enabled(s, ReadDone(true))
    ensures Inv(cfg, Reset(cfg, s))
  {
    ResetKeeps(cfg, s);
  }

  lemma AdvanceKeeps(cfg: Config, s: State, ticks: nat)
    requires Inv(cfg, s) && Enabled(s, Advance(ticks))
    ensures Inv(cfg, s.(now := s.now + ticks))
  {
  }

  lemma StepKeeps(cfg: Config, s: State, step: Step)
    requires Inv(cfg, s)
    ensures Inv(cfg, Apply(cfg, s, step))
  {
    if Enabled(s, step) {
      match step
      case Advance(ticks) => AdvanceKeeps(cfg, s, ticks);
      case ConnectStart => ConnectKeeps(cfg, s);
      case HandshakeStart => HandshakeStartKeeps(cfg, s);
      case HandshakeDone(ok) => HandshakeDoneKeeps(cfg, s, ok);
      case ReadDone(ok) => if ok { ReadKeeps(cfg, s); }
      case FireIdle => FireIdleKeeps(cfg, s);
      case FireHeartbeat => FireHeartbeatKeeps(cfg, s);
      case FireHandshake => FireHandshakeKeeps(cfg, s);
    }
  }

  lemma {:induction false} AlwaysInv(cfg: Config, steps: seq<Step>)
    ensures Inv(cfg, Exec(cfg, steps))
  {
    if steps != [] {
      AlwaysInv(cfg, steps[..|steps| - 1]);
      StepKeeps(cfg, Exec(cfg, steps[..|steps| - 1]), steps[|steps| - 1]);
    }
  }

  // ----- Measured from the steps -----

  /** The clock: the time that has passed in a run. */
  function Now(cfg: Config, steps: seq<Step>): (t: nat) {
    if steps == [] then 0
    else
      var n := |steps| - 1;
      var passes := steps[n].Advance? && Enabled(Exec(cfg, steps[..n]), steps[n]);
      Now(cfg, steps[..n]) + if passes then steps[n].ticks else 0
  }

  /** The start of a dial, a successful handshake or a completed read: a sign of life. */
  predicate IsActivity(step: Step) {
    step == ConnectStart || step == HandshakeDone(true) || step == ReadDone(true)
  }

  /** When the last sign of life was. */
  function LastActivity(cfg: Config, steps: seq<Step>): (t: Option<nat>) {
    if steps == [] then None
    else
      var n := |steps| - 1;
      if IsActivity(steps[n]) && Enabled(Exec(cfg, steps[..n]), steps[n]) then Some(Now(cfg, steps[..n]))
      else LastActivity(cfg, steps[..n])
  }

  /** When the handshake began. */
  function HandshakeBegan(cfg: Config, steps: seq<Step>): (t: nat) {
    if steps == [] then 0
    else
      var n := |steps| - 1;
      if steps[n] == HandshakeStart && Enabled(Exec(cfg, steps[..n]), steps[n]) then Now(cfg, steps[..n])
      else HandshakeBegan(cfg, steps[..n])
  }

  /** When the heartbeat timer has expired since the last sign of life. */
  function Beats(cfg: Config, steps: seq<Step>): (ts: seq<nat>) {
    if steps == [] then []
    else
      var n := |steps| - 1;
      if !Enabled(Exec(cfg, steps[..n]), steps[n]) then Beats(cfg, steps[..n])
      else if IsActivity(steps[n]) then []
      else if steps[n] == FireHeartbeat then Beats(cfg, steps[..n]) + [Now(cfg, steps[..n])]
      else Beats(cfg, steps[..n])
  }

  /** The first expiry of the heartbeat timer pings, the second closes. */
  ghost predicate BeatInv(s: State, beats: seq<nat>) {
    && |beats| <= 2
    && s.pings == (if beats == [] then [] else [beats[0]])
    && (beats == [] <==> NoneBy(s.closes, Heartbeat) && (s.heartbeatAt.Some? ==> !s.heartbeatSent))
    && (|beats| == 2 <==> !NoneBy(s.closes, Heartbeat))
    && (|beats| == 2 ==> s.heartbeatAt.None? && Close(Heartbeat, beats[1]) in s.closes)
  }

  lemma StepMeasured(cfg: Config, s: State, step: Step)
    ensures var r := Apply(cfg, s, step);
            && r.now == s.now + (if step.Advance? && Enabled(s, step) then step.ticks else 0)
            && r.lastReset == (if IsActivity(step) && Enabled(s, step) then Some(s.now) else s.lastReset)
            && r.handshakeStart == (if step == HandshakeStart && Enabled(s, step) then s.now else s.handshakeStart)
  {
  }

  lemma FireBeats(cfg: Config, s: State, beats: seq<nat>)
    requires Inv(cfg, s) && BeatInv(s, beats) && Enabled(s, FireHeartbeat)
    ensures BeatInv(DoFireHeartbeat(cfg, s), beats + [s.now])
  {
    var r := DoFireHeartbeat(cfg, s);
    if s.heartbeatSent {
      assert Close(Heartbeat, s.now) in r.closes;
    } else {
      assert NoneBy(r.closes, Heartbeat);
    }
  }

  lemma ActivityBeats(cfg: Config, s: State, step: Step)
    requires Inv(cfg, s) && IsActivity(step) && Enabled(s, step)
    ensures BeatInv(Apply(cfg, s, step), [])
  {
  }

  lemma OtherBeats(cfg: Config, s: State, step: Step, beats: seq<nat>)
    requires Inv(cfg, s) && BeatInv(s, beats) && !IsActivity(step) && step != FireHeartbeat
    ensures BeatInv(Apply(cfg, s, step), beats)
  {
    var r := Apply(cfg, s, step);
    assert NoneBy(r.closes, Heartbeat) <==> NoneBy(s.closes, Heartbeat) by {
      assert forall c :: c in s.closes ==> c in r.closes;
    }
  }

  /** Everything is measured from the steps of the run. */
  lemma {:induction false} Measured(cfg: Config, steps: seq<Step>)
    ensures var s := Exec(cfg, steps);
            && s.now == Now(cfg, steps) && s.lastReset == LastActivity(cfg, steps)
            && s.handshakeStart == HandshakeBegan(cfg, steps)
            && BeatInv(s, Beats(cfg, steps))
  {
    if steps != [] {
      var n := |steps| - 1;
      var s := Exec(cfg, steps[..n]);
      Measured(cfg, steps[..n]);
      AlwaysInv(cfg, steps[..n]);
      StepMeasured(cfg, s, steps[n]);
      if !Enabled(s, steps[n]) {
      } else if IsActivity(steps[n]) {
        ActivityBeats(cfg, s, steps[n]);
      } else if steps[n] == FireHeartbeat {
        FireBeats(cfg, s, Beats(cfg, steps[..n]));
      } else {
        OtherBeats(cfg, s, steps[n], Beats(cfg, steps[..n]));
      }
    }
  }

  /** The socket is in the phase in which this sign of life comes, and not closed by a timer. */
  predicate Expects(s: State, step: Step) {
    match step
    case ConnectStart => s.phase == Unconnected
    case HandshakeDone(ok) => ok && s.phase == Handshaking && s.closes == []
    case ReadDone(ok) => ok && s.phase == Established && s.closes == []
    case _ => false
  }

  /** The deadlines of an idle and a heartbeat timer restarted at a time. */
  ghost predicate Restarted(cfg: Config, s: State, t: nat) {
    && s.idleAt == (if cfg.idle == 0 then None else Some(t + cfg.idle))
    && s.heartbeatAt == (if cfg.heartbeat == 0 then None else Some(t + cfg.heartbeat))
    && (cfg.heartbeat != 0 ==> !s.heartbeatSent)
  }

  lemma StepRestarts(cfg: Config, s: State, step: Step)
    requires Inv(cfg, s) && Expects(s, step)
    ensures Restarted(cfg, Apply(cfg, s, step), s.now)
  {
  }

  /** Every sign of life restarts both timers, in every run; a failed read changes nothing at all. */
  lemma ActivityRestarts(cfg: Config, steps: seq<Step>, step: Step)
    ensures Expects(Exec(cfg, steps), step) ==> Restarted(cfg, Exec(cfg, steps + [step]), Now(cfg, steps))
    ensures Exec(cfg, steps + [ReadDone(false)]) == Exec(cfg, steps)
  {
    ExecSnoc(cfg, steps, step);
    ExecSnoc(cfg, steps, ReadDone(false));
    Measured(cfg, steps);
    if Expects(Exec(cfg, steps), step) {
      StepRestarts(cfg, Exec(cfg, steps), step) by { AlwaysInv(cfg, steps); }
    }
  }

  lemma ExecSnoc(cfg: Config, steps: seq<Step>, step: Step)
    ensures Exec(cfg, steps + [step]) == Apply(cfg, Exec(cfg, steps), step)
  {
    assert (steps + [step])[..|steps|] == steps;
  }

  /** Every close by a timer came when it was due. */
  ghost predicate ClosedOnTime(cfg: Config, s: State, last: Option<nat>, began: nat, beats: seq<nat>) {
    && (forall t :: Close(Heartbeat, t) in s.closes ==>
          && last.Some? && t == last.value + 2 * cfg.heartbeat
          && s.pings == [last.value + cfg.heartbeat] && beats == [last.value + cfg.heartbeat, t])
    && (forall t :: Close(Idle, t) in s.closes ==> last.Some? && t == last.value + cfg.idle)
    && (forall t :: Close(Handshake, t) in s.closes ==> t == began + cfg.handshake)
  }

  /** Every deadline that has passed has closed the stream. */
  ghost predicate ClosedWhenDue(cfg: Config, s: State, now: nat, last: Option<nat>, began: nat) {
    && (last.Some? && cfg.heartbeat != 0 && now > last.value + 2 * cfg.heartbeat ==>
          Close(Heartbeat, last.value + 2 * cfg.heartbeat) in s.closes)
    && (last.Some? && cfg.idle != 0 && now > last.value + cfg.idle ==>
          Close(Idle, last.value + cfg.idle) in s.closes)
    && (s.phase == Handshaking && cfg.handshake != 0 && now > began + cfg.handshake ==>
          Close(Handshake, began + cfg.handshake) in s.closes)
  }

  lemma StateClosedOnTime(cfg: Config, s: State, beats: seq<nat>)
    requires Inv(cfg, s) && BeatInv(s, beats)
    ensures ClosedOnTime(cfg, s, s.lastReset, s.handshakeStart, beats)
  {
    forall t | Close(Heartbeat, t) in s.closes
      ensures s.lastReset.Some? && beats == [s.lastReset.value + cfg.heartbeat, t]
    {
      assert !NoneBy(s.closes, Heartbeat);
      assert beats == [beats[0], beats[1]];
    }
  }

  lemma StateClosedWhenDue(cfg: Config, s: State)
    requires Inv(cfg, s)
    ensures ClosedWhenDue(cfg, s, s.now, s.lastReset, s.handshakeStart)
    ensures s.lastReset.None? ==> s.idleAt.None? && s.heartbeatAt.None? && s.pings == []
  {
  }

  /** Silent peers are dropped on time, measured from the last sign of life.  The heartbeat closes only at two
      intervals after it, the timer having expired just once before, at one interval, when it pinged; the idle
      timer closes only at its timeout after it; the handshake timer only at its timeout after the handshake
      began.  A stream with such a deadline behind it has been closed.  Before its first sign of life a socket
      has no idle or heartbeat deadline. */
  lemma SilentPeersDropped(cfg: Config, steps: seq<Step>)
    ensures var s := Exec(cfg, steps);
            var last, began := LastActivity(cfg, steps), HandshakeBegan(cfg, steps);
            && ClosedOnTime(cfg, s, last, began, Beats(cfg, steps))
            && ClosedWhenDue(cfg, s, Now(cfg, steps), last, began)
            && (last.None? ==> s.idleAt.None? && s.heartbeatAt.None? && s.pings == [])
  {
    Measured(cfg, steps);
    StateClosedOnTime(cfg, Exec(cfg, steps), Beats(cfg, steps)) by { AlwaysInv(cfg, steps); }
    StateClosedWhenDue(cfg, Exec(cfg, steps)) by { AlwaysInv(cfg, steps); }
  }

  lemma {:induction false} NeverDialled(cfg: Config, steps: seq<Step>)
    requires ConnectStart !in steps
    ensures var s := Exec(cfg, steps); s.phase != Connecting && (s.phase != Established ==> s.lastReset.None?)
  {
    if steps != [] {
      NeverDialled(cfg, steps[..|steps| - 1]);
      assert steps[|steps| - 1] in steps;
    }
  }

  /** An inbound socket, which never dials, has no idle or heartbeat deadline until its handshake succeeds. */
  lemma InboundUnarmed(cfg: Config, steps: seq<Step>)
    requires ConnectStart !in steps && Exec(cfg, steps).phase != Established
    ensures Exec(cfg, steps).idleAt.None? && Exec(cfg, steps).heartbeatAt.None? && Exec(cfg, steps).pings == []
  {
    NeverDialled(cfg, steps);
    StateClosedWhenDue(cfg, Exec(cfg, steps)) by { AlwaysInv(cfg, steps); }
  }

  /** In every state of the run, a ping outstanding since the last reset is at most `within` ticks old: each
      ping is answered by a completed read before that. */
  ghost predicate Responsive(cfg: Config, steps: seq<Step>, within: nat) {
    var s := Exec(cfg, steps);
    && (s.pings != [] ==> s.now <= s.pings[|s.pings| - 1] + within)
    && (steps != [] ==> Responsive(cfg, steps[..|steps| - 1], within))
  }

  ghost predicate NoneBy(closes: seq<Close>, cause: Cause) {
    forall c :: c in closes ==> c.cause != cause
  }

  /** A heartbeat that closes does so a whole interval after its ping. */
  lemma ResponsiveHeartbeat(cfg: Config, s: State, step: Step, within: nat)
    requires Inv(cfg, s) && within < cfg.heartbeat && NoneBy(s.closes, Heartbeat)
    requires s.pings != [] ==> s.now <= s.pings[|s.pings| - 1] + within
    ensures NoneBy(Apply(cfg, s, step).closes, Heartbeat)
  {
  }

  /** An idle timer that closes after the first silent interval does so after that interval's ping. */
  lemma ResponsiveIdle(cfg: Config, s: State, step: Step, within: nat)
    requires Inv(cfg, s) && cfg.heartbeat != 0 && NoneBy(s.closes, Idle)
    requires cfg.idle == 0 || cfg.heartbeat + within < cfg.idle
    requires s.pings != [] ==> s.now <= s.pings[|s.pings| - 1] + within
    ensures NoneBy(Apply(cfg, s, step).closes, Idle)
  {
  }

  /** Responsive peers survive: when each ping is followed by a completed read within less than a heartbeat
      interval, the heartbeat never closes the stream; and if an interval plus that time is less than the
      idle timeout, neither does the idle timer. */
  lemma {:induction false} ResponsivePeersSurvive(cfg: Config, steps: seq<Step>, within: nat)
    requires cfg.heartbeat != 0 && Responsive(cfg, steps, within)
    ensures within < cfg.heartbeat ==> NoneBy(Exec(cfg, steps).closes, Heartbeat)
    ensures cfg.idle == 0 || cfg.heartbeat + within < cfg.idle ==> NoneBy(Exec(cfg, steps).closes, Idle)
  {
    if steps != [] {
      var before := steps[..|steps| - 1];
      var s := Exec(cfg, before);
      ResponsivePeersSurvive(cfg, before, within);
      AlwaysInv(cfg, before);
      if within < cfg.heartbeat {
        ResponsiveHeartbeat(cfg, s, steps[|steps| - 1], within);
      }
      if cfg.idle == 0 || cfg.heartbeat + within < cfg.idle {
        ResponsiveIdle(cfg, s, steps[|steps| - 1], within);
      }
    }
  }

  // The bounds are exact: established connections that fall silent, run up to what the bound allows.

  /** An established connection, silent since time zero. */
  function Silent(now: nat, idleAt: Option<nat>, beatAt: Option<nat>, pings: seq<nat>, closes: seq<Close>): (s: State) {
    State(now, Established, idleAt, beatAt, None, pings != [], closes, Some(0), pings, 0)
  }

  /** A responsive run to a state. */
  ghost predicate Reaches(cfg: Config, steps: seq<Step>, s: State, within: nat) {
    Responsive(cfg, steps, within) && Exec(cfg, steps) == s
  }

  lemma Reach(cfg: Config, steps: seq<Step>, s: State, step: Step, within: nat)
    requires Reaches(cfg, steps, s, within)
    requires var r := Apply(cfg, s, step); r.pings != [] ==> r.now <= r.pings[|r.pings| - 1] + within
    ensures Reaches(cfg, steps + [step], Apply(cfg, s, step), within)
  {
    assert (steps + [step])[..|steps|] == steps;
  }

  /** The idle deadline of a connection established at time zero. */
  function IdleDeadline(cfg: Config): (d: Option<nat>) {
    if cfg.idle == 0 then None else Some(cfg.idle)
  }

  lemma Established0(cfg: Config, within: nat) returns (steps: seq<Step>)
    requires cfg.heartbeat != 0
    ensures Reaches(cfg, steps, Silent(0, IdleDeadline(cfg), Some(cfg.heartbeat), [], []), within)
  {
    var s1 := DoHandshakeStart(cfg, INIT);
    Reach(cfg, [], INIT, HandshakeStart, within);
    Reach(cfg, [] + [HandshakeStart], s1, HandshakeDone(true), within);
    steps := [] + [HandshakeStart] + [HandshakeDone(true)];
  }

  /** Some more silence, and then a timer that is due. */
  lemma ThenFires(cfg: Config, steps: seq<Step>, s: State, ticks: nat, fire: Step, within: nat)
    requires Reaches(cfg, steps, s, within) && Enabled(s, Advance(ticks)) && (fire == FireIdle || fire == FireHeartbeat)
    requires s.pings != [] ==> s.now + ticks <= s.pings[|s.pings| - 1] + within
    ensures Reaches(cfg, steps + [Advance(ticks)] + [fire], Apply(cfg, s.(now := s.now + ticks), fire), within)
  {
    Reach(cfg, steps, s, Advance(ticks), within);
    Reach(cfg, steps + [Advance(ticks)], s.(now := s.now + ticks), fire, within);
  }

  /** An idle timeout no longer than the interval closes before any ping. */
  lemma IdleFirst(cfg: Config, within: nat) returns (steps: seq<Step>)
    requires 0 < cfg.idle <= cfg.heartbeat
    ensures Reaches(cfg, steps, Silent(cfg.idle, None, Some(cfg.heartbeat), [], [Close(Idle, cfg.idle)]), within)
  {
    var before := Established0(cfg, within);
    ThenFires(cfg, before, Silent(0, IdleDeadline(cfg), Some(cfg.heartbeat), [], []), cfg.idle, FireIdle, within);
    steps := before + [Advance(cfg.idle)] + [FireIdle];
  }

  /** Otherwise the ping comes first. */
  lemma PingFirst(cfg: Config, within: nat) returns (steps: seq<Step>)
    requires 0 < cfg.heartbeat && (cfg.idle == 0 || cfg.heartbeat < cfg.idle)
    ensures var h := cfg.heartbeat;
            Reaches(cfg, steps, Silent(h, IdleDeadline(cfg), Some(2 * h), [h], []), within)
  {
    var h := cfg.heartbeat;
    var before := Established0(cfg, within);
    ThenFires(cfg, before, Silent(0, IdleDeadline(cfg), Some(h), [], []), h, FireHeartbeat, within);
    steps := before + [Advance(h)] + [FireHeartbeat];
  }

  /** Then the idle timer, if it is due before the second interval is over. */
  lemma IdleSecond(cfg: Config, within: nat) returns (steps: seq<Step>)
    requires cfg.heartbeat < cfg.idle <= 2 * cfg.heartbeat && cfg.idle <= cfg.heartbeat + within
    ensures var h := cfg.heartbeat;
            Reaches(cfg, steps, Silent(cfg.idle, None, Some(2 * h), [h], [Close(Idle, cfg.idle)]), within)
  {
    var h := cfg.heartbeat;
    var before := PingFirst(cfg, within);
    ThenFires(cfg, before, Silent(h, IdleDeadline(cfg), Some(2 * h), [h], []), cfg.idle - h, FireIdle, within);
    steps := before + [Advance(cfg.idle - h)] + [FireIdle];
  }

  /** Or else the heartbeat closes, with no other timer involved. */
  lemma DroppedByHeartbeat(cfg: Config, within: nat) returns (steps: seq<Step>)
    requires 0 < cfg.heartbeat <= within && (cfg.idle == 0 || 2 * cfg.heartbeat <= cfg.idle)
    ensures var h := cfg.heartbeat;
            Reaches(cfg, steps, Silent(2 * h, IdleDeadline(cfg), None, [h], [Close(Heartbeat, 2 * h)]), within)
  {
    var h := cfg.heartbeat;
    var before := PingFirst(cfg, within);
    ThenFires(cfg, before, Silent(h, IdleDeadline(cfg), Some(2 * h), [h], []), h, FireHeartbeat, within);
    steps := before + [Advance(h)] + [FireHeartbeat];
  }

  /** A timer has closed the stream in this run of an established connection with a responsive peer. */
  ghost predicate ClosedBy(cfg: Config, steps: seq<Step>, cause: Cause, within: nat) {
    && Responsive(cfg, steps, within) && Exec(cfg, steps).phase == Established
    && !NoneBy(Exec(cfg, steps).closes, cause)
  }

  lemma ClosedLast(cfg: Config, steps: seq<Step>, s: State, c: Close, within: nat)
    requires Reaches(cfg, steps, s, within) && s.phase == Established && c in s.closes
    ensures ClosedBy(cfg, steps, c.cause, within)
  {
  }

  /** A peer that may take a whole interval to answer can be dropped by the heartbeat, whatever the idle
      timeout. */
  lemma AnswerWithinIntervalIsNeeded(cfg: Config, within: nat) returns (steps: seq<Step>)
    requires 0 < cfg.heartbeat <= within
    ensures ClosedBy(cfg, steps, Heartbeat, within) && Exec(cfg, steps).now == 2 * cfg.heartbeat
  {
    var h, i := cfg.heartbeat, cfg.idle;
    var s: State;
    if i == 0 || 2 * h <= i {
      steps := DroppedByHeartbeat(cfg, within);
      s := Silent(2 * h, IdleDeadline(cfg), None, [h], [Close(Heartbeat, 2 * h)]);
    } else {
      var before, silent := IdleBeforeDrop(cfg, within);
      ThenFires(cfg, before, silent, 2 * h - silent.now, FireHeartbeat, within);
      steps := before + [Advance(2 * h - silent.now)] + [FireHeartbeat];
      s := DoFireHeartbeat(cfg, silent.(now := 2 * h));
    }
    ClosedLast(cfg, steps, s, Close(Heartbeat, 2 * h), within);
  }

  /** A silent run in which the idle timer has closed and the heartbeat has pinged. */
  lemma IdleBeforeDrop(cfg: Config, within: nat) returns (steps: seq<Step>, s: State)
    requires 0 < cfg.heartbeat <= within && 0 < cfg.idle < 2 * cfg.heartbeat
    ensures Reaches(cfg, steps, s, within) && cfg.heartbeat <= s.now <= 2 * cfg.heartbeat
    ensures s == Silent(s.now, None, Some(2 * cfg.heartbeat), [cfg.heartbeat], [Close(Idle, cfg.idle)])
  {
    var h, i := cfg.heartbeat, cfg.idle;
    if h < i {
      steps := IdleSecond(cfg, within);
      s := Silent(i, None, Some(2 * h), [h], [Close(Idle, i)]);
    } else {
      var before := IdleFirst(cfg, within);
      ThenFires(cfg, before, Silent(i, None, Some(h), [], [Close(Idle, i)]), h - i, FireHeartbeat, within);
      steps := before + [Advance(h - i)] + [FireHeartbeat];
      s := Silent(h, None, Some(2 * h), [h], [Close(Idle, i)]);
    }
  }

  /** A peer whose answer may come as late as the idle timeout can be dropped by the idle timer. */
  lemma AnswerBeforeIdleIsNeeded(cfg: Config, within: nat) returns (steps: seq<Step>)
    requires cfg.heartbeat != 0 && 0 < cfg.idle <= cfg.heartbeat + within
    ensures ClosedBy(cfg, steps, Idle, within) && Exec(cfg, steps).now == cfg.idle
  {
    var h, i := cfg.heartbeat, cfg.idle;
    var s: State;
    if i <= h {
      steps := IdleFirst(cfg, within);
      s := Silent(i, None, Some(h), [], [Close(Idle, i)]);
    } else if i <= 2 * h {
      steps := IdleSecond(cfg, within);
      s := Silent(i, None, Some(2 * h), [h], [Close(Idle, i)]);
    } else {
      var before := DroppedByHeartbeat(cfg, within);
      var silent := Silent(2 * h, IdleDeadline(cfg), None, [h], [Close(Heartbeat, 2 * h)]);
      ThenFires(cfg, before, silent, i - 2 * h, FireIdle, within);
      steps := before + [Advance(i - 2 * h)] + [FireIdle];
      s := DoFireIdle(silent.(now := i));
    }
    ClosedLast(cfg, steps, s, Close(Idle, i), within);
  }

  /** The exact law of the heartbeat: it never closes an established connection whose pings are answered
      within the given time if and only if that time is less than an interval. */
  lemma HeartbeatLaw(cfg: Config, within: nat)
    requires cfg.heartbeat != 0
    ensures (forall steps :: !ClosedBy(cfg, steps, Heartbeat, within)) <==> within < cfg.heartbeat
  {
    if within < cfg.heartbeat {
      forall steps
        ensures !ClosedBy(cfg, steps, Heartbeat, within)
      {
        if Responsive(cfg, steps, within) {
          ResponsivePeersSurvive(cfg, steps, within);
        }
      }
    } else {
      var steps := AnswerWithinIntervalIsNeeded(cfg, within);
    }
  }

  /** The exact law of the idle timer beside a heartbeat: it never closes such a connection if and only if
      it is disabled or longer than an interval and an answer together. */
  lemma IdleLaw(cfg: Config, within: nat)
    requires cfg.heartbeat != 0
    ensures (forall steps :: !ClosedBy(cfg, steps, Idle, within)) <==>
            cfg.idle == 0 || cfg.heartbeat + within < cfg.idle
  {
    if cfg.idle == 0 || cfg.heartbeat + within < cfg.idle {
      forall steps
        ensures !ClosedBy(cfg, steps, Idle, within)
      {
        if Responsive(cfg, steps, within) {
          ResponsivePeersSurvive(cfg, steps, within);
        }
      }
    } else {
      var steps := AnswerBeforeIdleIsNeeded(cfg, within);
    }
  }

  // How long a connection may be silent.

  /** At every moment of the run the last sign of life is less than `gap` ago. */
  ghost predicate Attended(cfg: Config, steps: seq<Step>, gap: nat) {
    var last := LastActivity(cfg, steps);
    && (last.Some? ==> Now(cfg, steps) < last.value + gap)
    && (steps != [] ==> Attended(cfg, steps[..|steps| - 1], gap))
  }

  lemma AttendedStep(cfg: Config, s: State, step: Step, gap: nat)
    requires Inv(cfg, s) && (s.lastReset.Some? ==> s.now < s.lastReset.value + gap)
    ensures gap <= 2 * cfg.heartbeat && NoneBy(s.closes, Heartbeat) ==> NoneBy(Apply(cfg, s, step).closes, Heartbeat)
    ensures gap <= cfg.idle && NoneBy(s.closes, Idle) ==> NoneBy(Apply(cfg, s, step).closes, Idle)
  {
  }

  /** Signs of life less than two intervals apart keep the heartbeat from closing, and less than an idle timeout
      apart the idle timer. */
  lemma {:induction false} AttendedStaysOpen(cfg: Config, steps: seq<Step>, gap: nat)
    requires Attended(cfg, steps, gap)
    ensures gap <= 2 * cfg.heartbeat ==> NoneBy(Exec(cfg, steps).closes, Heartbeat)
    ensures gap <= cfg.idle ==> NoneBy(Exec(cfg, steps).closes, Idle)
  {
    if steps != [] {
      var before := steps[..|steps| - 1];
      AttendedStaysOpen(cfg, before, gap);
      AlwaysInv(cfg, before);
      Measured(cfg, before);
      AttendedStep(cfg, Exec(cfg, before), steps[|steps| - 1], gap);
    }
  }

  /** A run shorter than the gap has no room for a longer silence. */
  lemma {:induction false} ShortRunAttended(cfg: Config, steps: seq<Step>, gap: nat)
    requires Now(cfg, steps) < gap
    ensures Attended(cfg, steps, gap)
  {
    if steps != [] {
      ShortRunAttended(cfg, steps[..|steps| - 1], gap);
    }
  }

  /** A timer has closed the stream in this run of an established connection that is never silent for long. */
  ghost predicate ClosedAttended(cfg: Config, steps: seq<Step>, cause: Cause, gap: nat) {
    && Attended(cfg, steps, gap) && Exec(cfg, steps).phase == Established
    && !NoneBy(Exec(cfg, steps).closes, cause)
  }

  /** The exact law of silence: with silences shorter than `gap` the heartbeat never closes an established
      connection if and only if `gap` is at most two intervals, and the idle timer, if it is not disabled, if
      and only if `gap` is at most its timeout. */
  lemma SilenceLaw(cfg: Config, gap: nat)
    requires cfg.heartbeat != 0
    ensures (forall steps :: !ClosedAttended(cfg, steps, Heartbeat, gap)) <==> gap <= 2 * cfg.heartbeat
    ensures cfg.idle != 0 ==> ((forall steps :: !ClosedAttended(cfg, steps, Idle, gap)) <==> gap <= cfg.idle)
  {
    forall steps | Attended(cfg, steps, gap)
      ensures gap <= 2 * cfg.heartbeat ==> NoneBy(Exec(cfg, steps).closes, Heartbeat)
      ensures gap <= cfg.idle ==> NoneBy(Exec(cfg, steps).closes, Idle)
    {
      AttendedStaysOpen(cfg, steps, gap);
    }
    if gap > 2 * cfg.heartbeat {
      var steps := AnswerWithinIntervalIsNeeded(cfg, cfg.heartbeat);
      Measured(cfg, steps);
      ShortRunAttended(cfg, steps, gap);
      assert ClosedAttended(cfg, steps, Heartbeat, gap);
    }
    if cfg.idle != 0 && gap > cfg.idle {
      var steps := AnswerBeforeIdleIsNeeded(cfg, cfg.idle);
      Measured(cfg, steps);
      ShortRunAttended(cfg, steps, gap);
      assert ClosedAttended(cfg, steps, Idle, gap);
    }
  }

  /** The timers of a socket as an object. */
  class SocketTimers {
    const cfg: Config
    var now: nat
    var phase: Phase
    var idleAt: Option<nat>
    var heartbeatAt: Option<nat>
    var handshakeAt: Option<nat>
    var heartbeatSent: bool
    var closes: seq<Close>
    ghost var lastReset: Option<nat>
    ghost var pings: seq<nat>
    ghost var handshakeStart: nat

    ghost function Abstract(): (s: State)
      reads this
    {
      State(now, phase, idleAt, heartbeatAt, handshakeAt, heartbeatSent, closes, lastReset, pings, handshakeStart)
    }

    ghost predicate Valid()
      reads this
    {
      Inv(cfg, Abstract())
    }

    constructor (cfg: Config)
      ensures Valid() && Abstract() == INIT && this.cfg == cfg
    {
      this.cfg := cfg;
      now, phase, idleAt, heartbeatAt, handshakeAt := 0, Unconnected, None, None, None;
      heartbeatSent, closes, lastReset, pings, handshakeStart := false, [], None, [], 0;
    }

    method ResetIdleTimer()
      modifies this`idleAt
      ensures idleAt == if cfg.idle == 0 then old(idleAt) else Some(now + cfg.idle)
    {
      if cfg.idle == 0 {
        return;
      }
      idleAt := Some(now + cfg.idle);
    }

    method ArmHeartbeat()
      modifies this`heartbeatAt
      ensures heartbeatAt == Some(now + cfg.heartbeat)
    {
      heartbeatAt := Some(now + cfg.heartbeat);
    }

    method ResetHeartbeatTimer()
      modifies this`heartbeatAt, this`heartbeatSent
      ensures if cfg.heartbeat == 0 then heartbeatAt == old(heartbeatAt) && heartbeatSent == old(heartbeatSent)
              else heartbeatAt == Some(now + cfg.heartbeat) && !heartbeatSent
    {
      if cfg.heartbeat == 0 {
        return;
      }
      heartbeatSent := false;
      ArmHeartbeat();
    }

    /** The completion of a read: a successful one restarts both timers. */
    method OnRead(ok: bool)
      requires Valid() && Enabled(Abstract(), ReadDone(ok))
      modifies this
      ensures Valid() && Abstract() == Apply(cfg, old(Abstract()), ReadDone(ok))
      ensures ok ==> Restarted(cfg, Abstract(), now)
      ensures !ok ==> Abstract() == old(Abstract())
    {
      StepKeeps(cfg, Abstract(), ReadDone(ok));
      if ok {
        ResetIdleTimer();
        ResetHeartbeatTimer();
        lastReset, pings := Some(now), [];
      }
    }

    /** async_handshake arms only the handshake deadline. */
    method AsyncHandshake()
      requires Valid() && Enabled(Abstract(), HandshakeStart)
      modifies this
      ensures Valid() && Abstract() == DoHandshakeStart(cfg, old(Abstract()))
      ensures handshakeAt == if cfg.handshake == 0 then old(handshakeAt) else Some(now + cfg.handshake)
      ensures idleAt == old(idleAt) && heartbeatAt == old(heartbeatAt)
    {
      StepKeeps(cfg, Abstract(), HandshakeStart);
      phase, handshakeStart := Handshaking, now;
      if cfg.handshake != 0 {
        handshakeAt := Some(now + cfg.handshake);
      }
    }

    /** The completion of the handshake cancels its deadline and, on success, arms the other two. */
    method OnHandshake(ok: bool)
      requires Valid() && Enabled(Abstract(), HandshakeDone(ok))
      modifies this
      ensures Valid() && Abstract() == DoHandshakeDone(cfg, old(Abstract()), ok)
      ensures handshakeAt == None && (ok ==> Restarted(cfg, Abstract(), now))
      ensures !ok ==> idleAt == old(idleAt) && heartbeatAt == old(heartbeatAt)
    {
      HandshakeDoneKeeps(cfg, Abstract(), ok);
      handshakeAt := None;
      phase := if ok then Established else Refused;
      if ok {
        ResetIdleTimer();
        ResetHeartbeatTimer();
        lastReset, pings := Some(now), [];
      }
    }

    /** The heartbeat timer expires; `pinged` says that a ping was handed to async_send. */
    method OnHeartbeat() returns (pinged: bool)
      requires Valid() && Enabled(Abstract(), FireHeartbeat)
      modifies this
      ensures Valid() && Abstract() == DoFireHeartbeat(cfg, old(Abstract()))
      ensures pinged <==> !old(heartbeatSent)
      ensures pinged ==> heartbeatAt == Some(now + cfg.heartbeat) && heartbeatSent && closes == old(closes)
      ensures !pinged ==> closes == old(closes) + [Close(Heartbeat, now)]
    {
      FireHeartbeatKeeps(cfg, Abstract());
      pinged := !heartbeatSent;
      if heartbeatSent {
        heartbeatAt := None;
        closes := closes + [Close(Heartbeat, now)];
      } else {
        pings := pings + [now];
        heartbeatSent := true;
        ArmHeartbeat();
      }
    }

    /** async_connect arms both timers before it dials. */
    method AsyncConnect()
      requires Valid() && Enabled(Abstract(), ConnectStart)
      modifies this
      ensures Valid() && Abstract() == Apply(cfg, old(Abstract()), ConnectStart)
      ensures Restarted(cfg, Abstract(), now)
    {
      StepKeeps(cfg, Abstract(), ConnectStart);
      phase := Connecting;
      ResetIdleTimer();
      ResetHeartbeatTimer();
      lastReset, pings := Some(now), [];
    }

    /** The handshake timer expires. */
    method OnHandshakeTimeout()
      requires Valid() && Enabled(Abstract(), FireHandshake)
      modifies this
      ensures Valid() && Abstract() == DoFireHandshake(old(Abstract()))
      ensures closes == old(closes) + [Close(Handshake, now)]
    {
      FireHandshakeKeeps(cfg, Abstract());
      handshakeAt := None;
      closes := closes + [Close(Handshake, now)];
    }

    /** Time passes, up to the next deadline. */
    method Elapse(ticks: nat)
      requires Valid() && Enabled(Abstract(), Advance(ticks))
      modifies this`now
      ensures Valid() && Abstract() == Apply(cfg, old(Abstract()), Advance(ticks))
    {
      AdvanceKeeps(cfg, Abstract(), ticks);
      now := now + ticks;
    }

    /** The idle timer expires. */
    method OnIdle()
      requires Valid() && Enabled(Abstract(), FireIdle)
      modifies this
      ensures Valid() && Abstract() == DoFireIdle(old(Abstract()))
      ensures closes == old(closes) + [Close(Idle, now)]
    {
      FireIdleKeeps(cfg, Abstract());
      idleAt := None;
      closes := closes + [Close(Idle, now)];
    }
  }
}
