/**
 The way of a reconnect policy through the manager: from each place, what each completion leads to, in
 every run and for every policy, limited or not.
 */
module Journey {
  import opened Bytes
  import opened Registry
  import opened Backoff
  import opened Manager

  /** After a failure: the next wait in a timer of its own, or the end of a policy whose waits are used up. */
  function Retried(w: Owner, timer: nat): (r: Owner) {
    if w.policy.maxAttempts != 0 && |w.waits| >= w.policy.maxAttempts then w.(place := Exhausted)
    else Owner(w.policy, AtTimer(timer), w.waits + [Wait(w.policy, |w.waits| + 1)], w.redials)
  }

  /** The next stage of an owner, ids being handed out from `newId`.  A step that its plan does not wait for
      leaves it alone. */
  function Next(w: Owner, step: Step, stopped: bool, newId: nat): (r: Owner) {
    match w.place
    case AtDial(id) =>
      if !(step.DialDone? && step.id == id) then w
      else if stopped then w.(place := Cancelled)
      else if step.ok then w.(place := AtHandshake(id))
      else Retried(w, newId)
    case AtHandshake(id) =>
      if !(step.ClientHandshake? && step.id == id) then w
      else if stopped then w.(place := Cancelled)
      else if step.ok then Owner(w.policy, AtLive(id), [], 0)
      else Retried(w, newId)
    case AtLive(id) =>
      if step == Stop then w.(place := Cancelled)
      else if step == RemoveSession(id) then Retried(w, newId)
      else w
    case AtTimer(id) =>
      if !(step.TimerDone? && step.id == id) then w
      else if step.aborted then w.(place := Aborted)
      else if stopped then w.(place := Cancelled)
      else Owner(w.policy, AtDial(newId), w.waits, w.redials + 1)
    case _ => w
  }

  /** What the proofs below need of a reachable state. */
  ghost predicate Sound(s: State) {
    && Ownership(s) && (forall id :: id in s.live ==> Listed(s.registry.sessions, id))
    && (s.stopped ==> s.live == map[])
  }

  lemma AlwaysSound(caps: Caps, steps: seq<Step>)
    ensures Sound(Exec(caps, INIT, steps))
  {
    AlwaysKept(caps, steps);
    assert Exec(caps, INIT, steps).live.Keys == {} ==> Exec(caps, INIT, steps).live == map[];
  }

  /** The owner moves on as it should. */
  ghost predicate MovesOn(s: State, r: State, step: Step, o: nat) {
    o in s.owners && o in r.owners && r.owners[o] == Next(s.owners[o], step, s.stopped, s.nextId)
  }

  lemma ScheduleMoves(s: State, t: State, p: Plan)
    requires p.owner in s.owners && t.owners == s.owners && !t.stopped && t.nextId == s.nextId
    requires var w := s.owners[p.owner];
             Tally(w, p) && Lawfully(w.policy, w.waits) && IsHeld(w.place) && !w.place.AtTimer?
    ensures var r := ScheduleReconnect(t, p);
            p.owner in r.owners && r.owners[p.owner] == Retried(s.owners[p.owner], s.nextId)
            && forall o :: o in s.owners && o != p.owner ==> o in r.owners && r.owners[o] == s.owners[o]
  {
  }

  lemma DialMoves(s: State, id: nat, ok: bool, ip: nat, o: nat)
    requires Sound(s) && id in s.dials && o in s.owners
    ensures MovesOn(s, DoDialDone(s, id, ok, ip), DialDone(id, ok, ip), o)
  {
    assert Recorded(s, o);
    if s.dials[id].Some? {
      HeldPlan(s, AtDial(id));
      if !s.stopped && !ok {
        ScheduleMoves(s, s.(dials := s.dials - {id}), s.dials[id].value);
      }
    }
  }

  lemma HandshakeMoves(s: State, id: nat, ok: bool, o: nat)
    requires Sound(s) && id in s.handshakes && o in s.owners
    ensures MovesOn(s, DoClientHandshake(s, id, ok), ClientHandshake(id, ok), o)
  {
    assert Recorded(s, o);
    if s.handshakes[id].plan.Some? {
      HeldPlan(s, AtHandshake(id));
      if !s.stopped && !ok {
        ScheduleMoves(s, s.(handshakes := s.handshakes - {id}), s.handshakes[id].plan.value);
      }
    }
  }

  lemma RemoveMoves(s: State, id: nat, o: nat)
    requires Sound(s) && o in s.owners
    ensures MovesOn(s, DoRemove(s, id), RemoveSession(id), o)
  {
    assert Recorded(s, o);
    if id in s.live {
      HeldPlan(s, AtLive(id));
      ScheduleMoves(s, s.(registry := Remove(s.registry, id), log := s.log + [Disconnected(id)],
                          live := s.live - {id}), s.live[id]);
    }
  }

  lemma TimerMoves(s: State, id: nat, aborted: bool, o: nat)
    requires Sound(s) && id in s.timers && o in s.owners
    ensures MovesOn(s, DoTimer(s, id, aborted), TimerDone(id, aborted), o)
  {
    assert Recorded(s, o);
    HeldPlan(s, AtTimer(id));
  }

  /** A step whose subject does not exist cannot be what a plan waits for. */
  lemma NothingMoves(s: State, step: Step, o: nat)
    requires Sound(s) && o in s.owners
    requires || (step.DialDone? && step.id !in s.dials) || (step.ClientHandshake? && step.id !in s.handshakes)
             || (step.TimerDone? && step.id !in s.timers)
    ensures MovesOn(s, s, step, o)
  {
    assert Recorded(s, o);
  }

  lemma OwnerMoves(caps: Caps, s: State, step: Step, o: nat)
    requires Sound(s) && o in s.owners
    ensures MovesOn(s, Apply(caps, s, step), step, o)
  {
    match step
    case DialDone(id, ok, ip) =>
      if id in s.dials { DialMoves(s, id, ok, ip, o); } else { NothingMoves(s, step, o); }
    case ClientHandshake(id, ok) =>
      if id in s.handshakes { HandshakeMoves(s, id, ok, o); } else { NothingMoves(s, step, o); }
    case RemoveSession(id) => RemoveMoves(s, id, o);
    case TimerDone(id, aborted) =>
      if id in s.timers { TimerMoves(s, id, aborted, o); } else { NothingMoves(s, step, o); }
    case Connect(policy) => assert s.nextOwner !in s.owners;
    case Accept(_) =>
    case ServerHandshake(_, _) =>
    case Stop =>
  }

  /** The step takes the owner from its record in one state to that in the next, or brings it into being. */
  ghost predicate Journeys(s: State, r: State, step: Step, o: nat) {
    && (o in s.owners ==> MovesOn(s, r, step, o))
    && (o !in s.owners && o in r.owners <==> o == s.nextOwner && step.Connect? && step.policy.Some?)
    && (o !in s.owners && o in r.owners ==> r.owners[o] == Owner(step.policy.value, AtDial(s.nextId), [], 0))
  }

  /** The law of the journey, in every run: an owner's record is what Next makes of it, step by step, and the
      record of a new owner starts with its first dial.  With AlwaysKept, which puts the plan itself where the
      record says, this is what every completion leads to: a dial to the handshake, a handshake to a live session
      that starts over, every failure to the next wait unless the waits are used up, a timer to a re-dial. */
  lemma JourneyLaw(caps: Caps, steps: seq<Step>, step: Step, o: nat)
    ensures Journeys(Exec(caps, INIT, steps), Exec(caps, INIT, steps + [step]), step, o)
  {
    var s := Exec(caps, INIT, steps);
    AlwaysSound(caps, steps);
    assert s.nextOwner !in s.owners;
    ExecSnoc(caps, steps, step);
    if o in s.owners {
      OwnerMoves(caps, s, step, o);
    } else {
      NewOwner(caps, s, step, o);
    }
  }

  lemma NewOwner(caps: Caps, s: State, step: Step, o: nat)
    requires o !in s.owners
    ensures var r := Apply(caps, s, step);
            && (o in r.owners <==> o == s.nextOwner && step.Connect? && step.policy.Some?)
            && (o in r.owners ==> r.owners[o] == Owner(step.policy.value, AtDial(s.nextId), [], 0))
  {
    if !(step.Connect? && step.policy.Some?) {
      StepSamePolicies(caps, s, step);
    }
  }

  /** The plan at a place is the given owner's, with these counters. */
  ghost predicate Holding(s: State, place: Place, o: nat, policy: Policy, attempts: nat, delay: real) {
    PlanAt(s, place) == Some(Plan(o, policy, attempts, delay))
  }

  /** The delay of a held plan: the one being waited, or the next one. */
  function DelayOf(w: Owner): (d: real) {
    if w.place.AtTimer? && w.waits != [] then Wait(w.policy, |w.waits|) else Wait(w.policy, |w.waits| + 1)
  }

  /** What the record of a held owner says about the plan itself. */
  lemma RecordedPlan(s: State, o: nat)
    requires Ownership(s) && o in s.owners && IsHeld(s.owners[o].place)
    ensures var w := s.owners[o]; Holding(s, w.place, o, w.policy, |w.waits|, DelayOf(w))
  {
    assert Recorded(s, o);
    assert Placed(s, s.owners[o].place);
  }

  /** The step ends an attempt or a session of the owner in failure. */
  predicate FailsFor(w: Owner, step: Step) {
    match w.place
    case AtDial(id) => step.DialDone? && step.id == id && !step.ok
    case AtHandshake(id) => step == ClientHandshake(id, false)
    case AtLive(id) => step == RemoveSession(id)
    case _ => false
  }

  /** The owner is out of waits, or in a timer that holds its plan with the next one. */
  ghost predicate InNextWait(r: State, o: nat, w: Owner, timer: Place) {
    && o in r.owners
    && if w.policy.maxAttempts != 0 && |w.waits| == w.policy.maxAttempts then r.owners[o].place == Exhausted
       else r.owners[o].place == timer
            && Holding(r, timer, o, w.policy, |w.waits| + 1, Wait(w.policy, |w.waits| + 1))
  }

  lemma RetriedWaits(s: State, r: State, step: Step, o: nat)
    requires o in s.owners && Recorded(s, o) && Ownership(r) && MovesOn(s, r, step, o)
    requires !s.stopped && FailsFor(s.owners[o], step)
    ensures InNextWait(r, o, s.owners[o], AtTimer(s.nextId))
  {
    if r.owners[o].place.AtTimer? {
      RecordedPlan(r, o);
    }
  }

  /** Every failure is followed by the next wait, in every run that is not stopped and for every policy, with
      a limit or without: a timer holds the plan with the policy's next delay, unless a limited policy has used
      up its waits, when the plan is dropped. */
  lemma FailureIsRetried(caps: Caps, steps: seq<Step>, step: Step, o: nat)
    requires var s := Exec(caps, INIT, steps); o in s.owners && !s.stopped && FailsFor(s.owners[o], step)
    ensures var s := Exec(caps, INIT, steps);
            InNextWait(Exec(caps, INIT, steps + [step]), o, s.owners[o], AtTimer(s.nextId))
  {
    var s := Exec(caps, INIT, steps);
    JourneyLaw(caps, steps, step, o);
    assert Recorded(s, o) by { AlwaysKept(caps, steps); }
    assert Ownership(Exec(caps, INIT, steps + [step])) by { AlwaysKept(caps, steps + [step]); }
    RetriedWaits(s, Exec(caps, INIT, steps + [step]), step, o);
  }

  /** The owner re-dials, the dial holding its plan with the delay that would come next. */
  ghost predicate InRedial(r: State, o: nat, w: Owner, dial: Place) {
    && o in r.owners && r.owners[o].place == dial && r.owners[o].redials == w.redials + 1
    && Holding(r, dial, o, w.policy, |w.waits|, Wait(w.policy, |w.waits| + 1))
  }

  lemma WaitedRedials(s: State, r: State, id: nat, o: nat)
    requires o in s.owners && Ownership(r) && MovesOn(s, r, TimerDone(id, false), o)
    requires !s.stopped && s.owners[o].place == AtTimer(id)
    ensures InRedial(r, o, s.owners[o], AtDial(s.nextId))
  {
    RecordedPlan(r, o);
  }

  /** Every wait that runs its course is followed by a re-dial, in every run that is not stopped. */
  lemma WaitIsRedialled(caps: Caps, steps: seq<Step>, id: nat, o: nat)
    requires var s := Exec(caps, INIT, steps); o in s.owners && !s.stopped && s.owners[o].place == AtTimer(id)
    ensures var s := Exec(caps, INIT, steps);
            InRedial(Exec(caps, INIT, steps + [TimerDone(id, false)]), o, s.owners[o], AtDial(s.nextId))
  {
    var r := Exec(caps, INIT, steps + [TimerDone(id, false)]);
    JourneyLaw(caps, steps, TimerDone(id, false), o);
    assert Ownership(r) by { AlwaysKept(caps, steps + [TimerDone(id, false)]); }
    WaitedRedials(Exec(caps, INIT, steps), r, id, o);
  }

  /** A dial that succeeds leads to a handshake, with its plan; after a stop only without one. */
  lemma DialIsFollowedUp(caps: Caps, steps: seq<Step>, id: nat, ip: nat)
    requires var s := Exec(caps, INIT, steps); id in s.dials && !(s.dials[id].Some? && s.stopped)
    ensures var s := Exec(caps, INIT, steps);
            var r := Exec(caps, INIT, steps + [DialDone(id, true, ip)]);
            && r.handshakes == s.handshakes[id := Outbound(ip, s.dials[id])] && id !in r.dials
            && r.registry == s.registry && r.stopped == s.stopped && r.live == s.live
  {
    ExecSnoc(caps, steps, DialDone(id, true, ip));
  }

  /** A handshake that succeeds lists its session and, with a policy, enters the reconnect map with a plan that
      starts over. */
  lemma HandshakeIsRegistered(caps: Caps, steps: seq<Step>, id: nat)
    requires var s := Exec(caps, INIT, steps); id in s.handshakes && !(s.handshakes[id].plan.Some? && s.stopped)
    ensures var s := Exec(caps, INIT, steps);
            var ip, plan := s.handshakes[id].ip, s.handshakes[id].plan;
            var r := Exec(caps, INIT, steps + [ClientHandshake(id, true)]);
            && r.registry.sessions == s.registry.sessions + [Session(id, ip)]
            && r.log == s.log + [Connected(id)] && id !in r.handshakes
            && r.live == if plan.None? then s.live
                         else s.live[id := Plan(plan.value.owner, plan.value.policy, 0, plan.value.policy.initial)]
  {
    ExecSnoc(caps, steps, ClientHandshake(id, true));
  }

  /** A connection that succeeds gets all the way: in every run, a dial and a handshake that succeed list the
      session and, with a policy, put it into the reconnect map with no attempts and the initial delay. */
  lemma SuccessIsRegistered(caps: Caps, steps: seq<Step>, id: nat, ip: nat)
    requires var s := Exec(caps, INIT, steps); id in s.dials && !(s.dials[id].Some? && s.stopped)
    ensures var s := Exec(caps, INIT, steps);
            var plan := s.dials[id];
            var r := Exec(caps, INIT, steps + [DialDone(id, true, ip)] + [ClientHandshake(id, true)]);
            && r.registry.sessions == s.registry.sessions + [Session(id, ip)]
            && r.live == if plan.None? then s.live
                         else s.live[id := Plan(plan.value.owner, plan.value.policy, 0, plan.value.policy.initial)]
  {
    DialIsFollowedUp(caps, steps, id, ip);
    HandshakeIsRegistered(caps, steps + [DialDone(id, true, ip)], id);
  }

  /** The step aborts the timer that holds the owner's plan. */
  predicate Aborts(s: State, step: Step, o: nat) {
    step.TimerDone? && step.aborted && o in s.owners && s.owners[o].place == AtTimer(step.id)
  }

  ghost predicate AbortsAt(caps: Caps, steps: seq<Step>, k: nat, o: nat) {
    k < |steps| && Aborts(Exec(caps, INIT, steps[..k]), steps[k], o)
  }

  lemma AbortsLater(caps: Caps, before: seq<Step>, last: Step, o: nat)
    ensures (exists k: nat :: AbortsAt(caps, before + [last], k, o)) <==>
            (exists k: nat :: AbortsAt(caps, before, k, o)) || Aborts(Exec(caps, INIT, before), last, o)
  {
    var steps, n := before + [last], |before|;
    assert steps[..n] == before;
    forall k: nat | k < n
      ensures AbortsAt(caps, steps, k, o) <==> AbortsAt(caps, before, k, o)
    {
      assert steps[..k] == before[..k];
    }
    assert AbortsAt(caps, steps, n, o) <==> Aborts(Exec(caps, INIT, before), last, o);
  }

  /** The owner's plan has been given up as aborted. */
  predicate GivenUp(s: State, o: nat) {
    o in s.owners && s.owners[o].place == Aborted
  }

  lemma GivenUpNow(s: State, r: State, step: Step, o: nat)
    requires Journeys(s, r, step, o)
    ensures GivenUp(r, o) <==> GivenUp(s, o) || Aborts(s, step, o)
  {
  }

  lemma GivenUpLater(caps: Caps, before: seq<Step>, last: Step, o: nat)
    ensures GivenUp(Exec(caps, INIT, before + [last]), o) <==>
            GivenUp(Exec(caps, INIT, before), o) || Aborts(Exec(caps, INIT, before), last, o)
  {
    JourneyLaw(caps, before, last, o);
    GivenUpNow(Exec(caps, INIT, before), Exec(caps, INIT, before + [last]), last, o);
  }

  /** A plan is given up as aborted exactly when its own timer has been. */
  lemma {:induction false} AbortedByItsTimer(caps: Caps, steps: seq<Step>, o: nat)
    ensures GivenUp(Exec(caps, INIT, steps), o) <==> exists k: nat :: AbortsAt(caps, steps, k, o)
  {
    if steps != [] {
      var before, last := steps[..|steps| - 1], steps[|steps| - 1];
      assert steps == before + [last];
      AbortedByItsTimer(caps, before, o);
      GivenUpLater(caps, before, last, o);
      AbortsLater(caps, before, last, o);
    }
  }
}
