/** Which sessions can still be registered once the manager has been stopped. */
module Shutdown {
  import opened Bytes
  import opened Registry
  import opened Manager

  /** After stop, a step reports a session connected exactly if it completes an inbound handshake or an
      outbound one without a policy. */
  lemma OnlyPlainSessionsAfterStop(caps: Caps, before: seq<Step>, after: seq<Step>, step: Step, id: nat)
    ensures var s := Exec(caps, INIT, before + [Stop] + after);
            multiset(Apply(caps, s, step).log)[Connected(id)] > multiset(s.log)[Connected(id)] <==>
            (step == ServerHandshake(id, true) && id in s.inbound)
            || (step == ClientHandshake(id, true) && id in s.handshakes && s.handshakes[id].plan.None?)
  {
    var s := Exec(caps, INIT, before + [Stop] + after);
    StopIsFinal(caps, before, after);
    AlwaysKept(caps, before + [Stop] + after);
    StepEffect(caps, s, step);
  }

  /** Whatever the caps, an inbound and a plain outbound connection that were pending at stop get in. */
  lemma StopLetsPlainSessionsIn(caps: Caps, ip: nat)
    ensures Exec(caps, INIT, [Accept(ip), Stop, ServerHandshake(0, true)]).registry.sessions == [Session(0, ip)]
    ensures Exec(caps, INIT, [Connect(None), Stop, DialDone(0, true, ip), ClientHandshake(0, true)]).registry.sessions
         == [Session(0, ip)]
  {
    var inbound := [Accept(ip), Stop, ServerHandshake(0, true)];
    assert inbound == [Accept(ip)] + [Stop] + [ServerHandshake(0, true)];
    ExecSnoc(caps, [], Accept(ip));
    ExecSnoc(caps, [Accept(ip)], Stop);
    ExecSnoc(caps, [Accept(ip)] + [Stop], ServerHandshake(0, true));
    var dialled := [Connect(None)] + [Stop];
    ExecSnoc(caps, [], Connect(None));
    ExecSnoc(caps, [Connect(None)], Stop);
    ExecSnoc(caps, dialled, DialDone(0, true, ip));
    ExecSnoc(caps, dialled + [DialDone(0, true, ip)], ClientHandshake(0, true));
    assert [Connect(None), Stop, DialDone(0, true, ip), ClientHandshake(0, true)]
        == dialled + [DialDone(0, true, ip)] + [ClientHandshake(0, true)];
  }

  /** A connection is pending that carries no policy. */
  ghost predicate PlainPending(s: State) {
    || (exists id :: id in s.inbound)
    || (exists id :: id in s.dials && s.dials[id].None?)
    || (exists id :: id in s.handshakes && s.handshakes[id].plan.None?)
  }

  predicate NoNewcomers(steps: seq<Step>) {
    forall step :: step in steps ==> !step.Accept? && !step.Connect?
  }

  /** After stop and these further steps, none of which brings in a new connection, a session is listed. */
  ghost predicate LateSession(caps: Caps, before: seq<Step>, after: seq<Step>) {
    NoNewcomers(after) && Exec(caps, INIT, before + [Stop] + after).registry.sessions != []
  }

  /** Stopped, with nothing listed and nothing pending but policies. */
  ghost predicate Emptied(s: State) {
    s.stopped && s.live == map[] && s.registry.sessions == [] && !PlainPending(s)
  }

  lemma EmptiedHandshake(s: State, id: nat, ok: bool)
    requires Emptied(s) && id in s.handshakes
    ensures Emptied(DoClientHandshake(s, id, ok))
  {
    assert s.handshakes[id].plan.Some?;
  }

  lemma EmptiedDial(s: State, id: nat, ok: bool, ip: nat)
    requires Emptied(s) && id in s.dials
    ensures Emptied(DoDialDone(s, id, ok, ip))
  {
    assert s.dials[id].Some?;
  }

  lemma EmptiedTimer(s: State, id: nat, aborted: bool)
    requires Emptied(s) && id in s.timers
    ensures Emptied(DoTimer(s, id, aborted))
  {
  }

  lemma EmptiedStep(caps: Caps, s: State, step: Step)
    requires Emptied(s) && !step.Accept? && !step.Connect?
    ensures Emptied(Apply(caps, s, step))
  {
    match step
    case ServerHandshake(id, ok) =>
    case DialDone(id, ok, ip) => if id in s.dials { EmptiedDial(s, id, ok, ip); }
    case ClientHandshake(id, ok) => if id in s.handshakes { EmptiedHandshake(s, id, ok); }
    case RemoveSession(id) =>
    case TimerDone(id, aborted) => if id in s.timers { EmptiedTimer(s, id, aborted); }
    case Stop =>
  }

  lemma {:induction false} StaysEmptied(caps: Caps, before: seq<Step>, after: seq<Step>)
    requires !PlainPending(Exec(caps, INIT, before))
    requires NoNewcomers(after)
    ensures Emptied(Exec(caps, INIT, before + [Stop] + after))
  {
    var start := before + [Stop];
    if after == [] {
      assert start + after == start;
      ExecSnoc(caps, before, Stop);
    } else {
      var n := |after| - 1;
      StaysEmptied(caps, before, after[..n]);
      assert start + after == start + after[..n] + [after[n]];
      ExecSnoc(caps, start + after[..n], after[n]);
      EmptiedStep(caps, Exec(caps, INIT, start + after[..n]), after[n]);
    }
  }

  lemma LateInbound(caps: Caps, before: seq<Step>, id: nat)
    requires id in Exec(caps, INIT, before).inbound
    ensures LateSession(caps, before, [ServerHandshake(id, true)])
  {
    ExecSnoc(caps, before, Stop);
    ExecSnoc(caps, before + [Stop], ServerHandshake(id, true));
  }

  lemma LateHandshake(caps: Caps, before: seq<Step>, id: nat)
    requires var s := Exec(caps, INIT, before); id in s.handshakes && s.handshakes[id].plan.None?
    ensures LateSession(caps, before, [ClientHandshake(id, true)])
  {
    ExecSnoc(caps, before, Stop);
    ExecSnoc(caps, before + [Stop], ClientHandshake(id, true));
  }

  lemma LateDial(caps: Caps, before: seq<Step>, id: nat)
    requires var s := Exec(caps, INIT, before); id in s.dials && s.dials[id].None?
    ensures LateSession(caps, before, [DialDone(id, true, 0), ClientHandshake(id, true)])
  {
    var start := before + [Stop];
    ExecSnoc(caps, before, Stop);
    ExecSnoc(caps, start, DialDone(id, true, 0));
    ExecSnoc(caps, start + [DialDone(id, true, 0)], ClientHandshake(id, true));
    assert start + [DialDone(id, true, 0), ClientHandshake(id, true)]
        == start + [DialDone(id, true, 0)] + [ClientHandshake(id, true)];
  }

  /** When stop really ends everything: some continuation without new connections lists a session if and only
      if an inbound handshake, or a dial or client handshake without a policy, was pending at stop. */
  lemma LateSessionLaw(caps: Caps, before: seq<Step>)
    ensures (exists after :: LateSession(caps, before, after)) <==> PlainPending(Exec(caps, INIT, before))
  {
    var s := Exec(caps, INIT, before);
    if PlainPending(s) {
      if id :| id in s.inbound {
        LateInbound(caps, before, id);
      } else if id :| id in s.dials && s.dials[id].None? {
        LateDial(caps, before, id);
      } else {
        var id :| id in s.handshakes && s.handshakes[id].plan.None?;
        LateHandshake(caps, before, id);
      }
    } else {
      forall after
        ensures !LateSession(caps, before, after)
      {
        if NoNewcomers(after) {
          StaysEmptied(caps, before, after);
        }
      }
    }
  }
}
