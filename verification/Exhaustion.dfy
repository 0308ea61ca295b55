/** A reconnect policy with a limit whose every attempt fails, in whatever run of the manager. */
module Exhaustion {
  import opened Bytes
  import opened Registry
  import opened Backoff
  import opened Manager

  /** The step is what the holder of a plan at this place waits for. */
  predicate Concerns(step: Step, place: Place) {
    match place
    case AtDial(id) => step.DialDone? && step.id == id
    case AtHandshake(id) => step.ClientHandshake? && step.id == id
    case AtLive(id) => step.RemoveSession? && step.id == id
    case AtTimer(id) => step.TimerDone? && step.id == id
    case _ => false
  }

  /** The step is what this owner's plan waits for. */
  predicate Turn(s: State, step: Step, o: nat) {
    o in s.owners && Concerns(step, s.owners[o].place)
  }

  /** Nothing succeeds: a dial or handshake fails, a session is lost, a backoff timer runs its course. */
  predicate Fails(step: Step) {
    match step
    case DialDone(_, ok, _) => !ok
    case ClientHandshake(_, ok) => !ok
    case RemoveSession(_) => true
    case TimerDone(_, aborted) => !aborted
    case _ => false
  }

  /** How many such steps a limited policy can still take: each re-dial left is a timer and a dial. */
  function Remaining(w: Owner): (n: int) {
    match w.place
    case AtTimer(_) => 2 * (w.policy.maxAttempts - w.redials)
    case AtDial(_) => 2 * (w.policy.maxAttempts - w.redials) + 1
    case AtHandshake(_) => 2 * (w.policy.maxAttempts - w.redials) + 1
    case AtLive(_) => 2 * (w.policy.maxAttempts - w.redials) + 1
    case _ => 0
  }

  /** Whatever happens elsewhere leaves a plan where it is. */
  lemma Unconcerned(caps: Caps, s: State, step: Step, o: nat)
    requires Ownership(s) && o in s.owners && !Concerns(step, s.owners[o].place) && step != Stop
    ensures var r := Apply(caps, s, step); o in r.owners && r.owners[o] == s.owners[o] && r.stopped == s.stopped
  {
    match step
    case DialDone(id, ok, ip) => if id in s.dials { UnconcernedDial(s, id, ok, ip, o); }
    case ClientHandshake(id, ok) => if id in s.handshakes { UnconcernedHandshake(s, id, ok, o); }
    case RemoveSession(id) => UnconcernedRemove(s, id, o);
    case TimerDone(id, aborted) => if id in s.timers { UnconcernedTimer(s, id, aborted, o); }
    case Connect(policy) => assert s.nextOwner !in s.owners;
    case Accept(_) =>
    case ServerHandshake(_, _) =>
  }

  lemma UnconcernedDial(s: State, id: nat, ok: bool, ip: nat, o: nat)
    requires Ownership(s) && id in s.dials && o in s.owners && s.owners[o].place != AtDial(id)
    ensures var r := DoDialDone(s, id, ok, ip); o in r.owners && r.owners[o] == s.owners[o] && r.stopped == s.stopped
  {
    assert Placed(s, AtDial(id));
  }

  lemma UnconcernedHandshake(s: State, id: nat, ok: bool, o: nat)
    requires Ownership(s) && id in s.handshakes && o in s.owners && s.owners[o].place != AtHandshake(id)
    ensures var r := DoClientHandshake(s, id, ok); o in r.owners && r.owners[o] == s.owners[o] && r.stopped == s.stopped
  {
    assert Placed(s, AtHandshake(id));
  }

  lemma UnconcernedRemove(s: State, id: nat, o: nat)
    requires Ownership(s) && o in s.owners && s.owners[o].place != AtLive(id)
    ensures var r := DoRemove(s, id); o in r.owners && r.owners[o] == s.owners[o] && r.stopped == s.stopped
  {
    assert Placed(s, AtLive(id));
  }

  lemma UnconcernedTimer(s: State, id: nat, aborted: bool, o: nat)
    requires Ownership(s) && id in s.timers && o in s.owners && s.owners[o].place != AtTimer(id)
    ensures var r := DoTimer(s, id, aborted); o in r.owners && r.owners[o] == s.owners[o] && r.stopped == s.stopped
  {
    assert Placed(s, AtTimer(id));
  }

  /** One failure of its own brings a limited policy one step nearer to being dropped. */
  ghost predicate Nearer(s: State, r: State, o: nat)
    requires o in s.owners
  {
    && o in r.owners && r.owners[o].policy == s.owners[o].policy && r.stopped == s.stopped
    && (IsHeld(r.owners[o].place) || r.owners[o].place == Exhausted)
    && Remaining(r.owners[o]) == Remaining(s.owners[o]) - 1
  }

  lemma ScheduleNearer(s: State, t: State, p: Plan)
    requires p.owner in s.owners && t.owners == s.owners && t.stopped == s.stopped == false
    requires var w := s.owners[p.owner];
             && Tally(w, p) && Lawfully(w.policy, w.waits) && w.policy.maxAttempts != 0
             && (w.place.AtDial? || w.place.AtHandshake? || w.place.AtLive?)
    ensures Nearer(s, ScheduleReconnect(t, p), p.owner)
  {
  }

  lemma FailureNearer(caps: Caps, s: State, step: Step, o: nat)
    requires Ownership(s) && o in s.owners && s.owners[o].policy.maxAttempts != 0 && !s.stopped
    requires forall id :: id in s.live ==> Listed(s.registry.sessions, id)
    requires Concerns(step, s.owners[o].place) && Fails(step)
    ensures Nearer(s, Apply(caps, s, step), o)
  {
    var from := s.owners[o].place;
    assert Recorded(s, o);
    HeldPlan(s, from);
    var p := PlanAt(s, from).value;
    match from
    case AtDial(id) => ScheduleNearer(s, s.(dials := s.dials - {id}), p);
    case AtHandshake(id) => ScheduleNearer(s, s.(handshakes := s.handshakes - {id}), p);
    case AtLive(id) =>
      ScheduleNearer(s, s.(registry := Remove(s.registry, id), log := s.log + [Disconnected(id)],
                           live := s.live - {id}), p);
    case AtTimer(id) => assert PlanAt(s, from) == Some(s.timers[id]);
  }

  /** After the first steps the manager is not stopped, and everything the owner waits for fails. */
  ghost predicate FailingRun(caps: Caps, before: seq<Step>, after: seq<Step>, o: nat) {
    after != [] ==>
      var n := |after| - 1;
      && FailingRun(caps, before, after[..n], o)
      && after[n] != Stop
      && (Turn(Exec(caps, INIT, before + after[..n]), after[n], o) ==> Fails(after[n]))
  }

  /** How many of the further steps are what the owner waits for. */
  ghost function Moves(caps: Caps, before: seq<Step>, after: seq<Step>, o: nat): (n: nat) {
    if after == [] then 0
    else
      var n := |after| - 1;
      Moves(caps, before, after[..n], o) + if Turn(Exec(caps, INIT, before + after[..n]), after[n], o) then 1 else 0
  }

  /** The plan is still in use, and the manager not stopped. */
  ghost predicate InUse(s: State, o: nat) {
    && o in s.owners && s.owners[o].policy.maxAttempts != 0 && !s.stopped
    && (IsHeld(s.owners[o].place) || s.owners[o].place == Exhausted)
  }

  /** The owner's policy has this many steps left. */
  ghost predicate Left(s: State, o: nat, n: int) {
    InUse(s, o) && Remaining(s.owners[o]) == n
  }

  lemma FailingStep(caps: Caps, steps: seq<Step>, step: Step, o: nat, n: int)
    requires Left(Exec(caps, INIT, steps), o, n) && step != Stop
    requires Turn(Exec(caps, INIT, steps), step, o) ==> Fails(step)
    ensures Left(Exec(caps, INIT, steps + [step]), o, n - if Turn(Exec(caps, INIT, steps), step, o) then 1 else 0)
  {
    var s := Exec(caps, INIT, steps);
    ExecSnoc(caps, steps, step);
    AlwaysKept(caps, steps);
    if Turn(s, step, o) {
      FailureNearer(caps, s, step, o);
    } else {
      Unconcerned(caps, s, step, o);
    }
  }

  lemma {:induction false} FailingMoves(caps: Caps, before: seq<Step>, after: seq<Step>, o: nat, n: int)
    requires Left(Exec(caps, INIT, before), o, n) && FailingRun(caps, before, after, o)
    ensures Left(Exec(caps, INIT, before + after), o, n - Moves(caps, before, after, o))
  {
    if after == [] {
      assert before + after == before;
    } else {
      var init, last := after[..|after| - 1], after[|after| - 1];
      FailingMoves(caps, before, init, o, n);
      FailingStep(caps, before + init, last, o, n - Moves(caps, before, init, o));
      assert before + after == before + init + [last];
    }
  }

  lemma ExhaustedIsZero(caps: Caps, steps: seq<Step>, o: nat)
    requires InUse(Exec(caps, INIT, steps), o)
    ensures var w := Exec(caps, INIT, steps).owners[o];
            && 0 <= Remaining(w) && (Remaining(w) == 0 <==> w.place == Exhausted)
            && (w.place == Exhausted ==> w.redials == |w.waits| == w.policy.maxAttempts)
  {
    AlwaysKept(caps, steps);
    var s := Exec(caps, INIT, steps);
    assert Recorded(s, o);
    assert Placed(s, s.owners[o].place);
  }

  /** Exactly max_attempts: while everything a limited policy waits for fails, whatever else happens in
      between, each failure brings it one step nearer to its end; it is dropped after exactly the steps it
      had left, one for the attempt under way and two for each re-dial still allowed, and has then re-dialled
      exactly max_attempts times since its last live session. */
  lemma ExactlyMaxAttempts(caps: Caps, before: seq<Step>, after: seq<Step>, o: nat)
    requires InUse(Exec(caps, INIT, before), o) && FailingRun(caps, before, after, o)
    ensures var left := Remaining(Exec(caps, INIT, before).owners[o]);
            var r := Exec(caps, INIT, before + after);
            && o in r.owners && Moves(caps, before, after, o) <= left
            && (r.owners[o].place == Exhausted <==> Moves(caps, before, after, o) == left)
            && (r.owners[o].place == Exhausted ==>
                  r.owners[o].redials == |r.owners[o].waits| == r.owners[o].policy.maxAttempts)
  {
    FailingMoves(caps, before, after, o, Remaining(Exec(caps, INIT, before).owners[o]));
    ExhaustedIsZero(caps, before + after, o);
  }

  /** A new policy that only ever fails has one dial and max_attempts timers with their re-dials before it. */
  lemma FreshHasAllAttempts(caps: Caps, steps: seq<Step>, policy: Policy)
    requires policy.maxAttempts != 0 && !Exec(caps, INIT, steps).stopped
    ensures var o := Exec(caps, INIT, steps).nextOwner;
            var s := Exec(caps, INIT, steps + [Connect(Some(policy))]);
            InUse(s, o) && Remaining(s.owners[o]) == 2 * policy.maxAttempts + 1
  {
    ExecSnoc(caps, steps, Connect(Some(policy)));
  }
}
