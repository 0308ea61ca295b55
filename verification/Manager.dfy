/**
 The session manager with reconnecting clients (src/connection/session_manager.cpp and .hpp), one
 completion handler per step.  Admission of an inbound connection and its registration are different
 steps, with the handshake between them.
 */
module Manager {
  import opened Bytes
  import opened Registry
  import opened Backoff

  /** Caps on inbound connections; 0 = unlimited. */
  datatype Caps = Caps(maxSessions: nat, maxPerIp: nat)

  /** An outbound connection whose handshake is pending. */
  datatype Outbound = Outbound(ip: nat, plan: Option<Plan>)

  /** Where a reconnect plan is, or how it ended. */
  datatype Place =
    | AtDial(id: nat)
    | AtHandshake(id: nat)
    | AtLive(id: nat)
    | AtTimer(id: nat)
    | Exhausted        // schedule_reconnect dropped it
    | Cancelled        // found the manager stopped
    | Aborted          // its timer was destroyed before it expired

  /** The history of one `connect` with a policy: since its last live session (or its start), the
      delays it has waited or is waiting, and how often it has re-dialled. */
  datatype Owner = Owner(policy: Policy, place: Place, waits: seq<real>, redials: nat)

  datatype State = State(
    registry: Registry,
    inbound: map<nat, Session>,          // pending server handshakes
    dials: map<nat, Option<Plan>>,       // pending async_connects
    handshakes: map<nat, Outbound>,      // pending client handshakes
    live: map<nat, Plan>,                // reconnect_map_
    timers: map<nat, Plan>,              // pending backoff timers
    stopped: bool,                       // reconnect_stopped_
    nextId: nat,
    nextOwner: nat,
    log: seq<Callback>,                  // history: on_connect and on_disconnect calls
    cleared: seq<nat>,                   // history: sessions cleared by stop
    owners: map<nat, Owner>)             // history

  const INIT: State :=
    State(EMPTY, map[], map[], map[], map[], map[], false, 0, 0, [], [], map[])

  datatype Step =
    | Accept(ip: nat)                             // add_session up to the start of the handshake
    | ServerHandshake(id: nat, ok: bool)
    | Connect(policy: Option<Policy>)
    | DialDone(id: nat, ok: bool, ip: nat)
    | ClientHandshake(id: nat, ok: bool)
    | RemoveSession(id: nat)                      // a read error, or the application
    | TimerDone(id: nat, aborted: bool)
    | Stop

  /** can_ip_connect. */
  predicate CanIpConnect(caps: Caps, reg: Registry, ip: nat) {
    && !(caps.maxSessions != 0 && |reg.sessions| >= caps.maxSessions)
    && !(caps.maxPerIp != 0 && ip in reg.perIp && reg.perIp[ip] >= caps.maxPerIp)
  }

  /** Records where a plan has gone. */
  function Moved(owners: map<nat, Owner>, o: nat, place: Place): (r: map<nat, Owner>) {
    if o in owners then owners[o := owners[o].(place := place)] else owners
  }

  function RegisterAndStart(s: State, sess: Session): (r: State) {
    s.(registry := Add(s.registry, sess), log := s.log + [Connected(sess.id)])
  }

  /** Records that a plan waits for a backoff timer. */
  function Waiting(owners: map<nat, Owner>, o: nat, timer: nat, delay: real): (r: map<nat, Owner>) {
    if o in owners
    then owners[o := Owner(owners[o].policy, AtTimer(timer), owners[o].waits + [delay], owners[o].redials)]
    else owners
  }

  /** Records that a plan dials again. */
  function Redialled(owners: map<nat, Owner>, o: nat, id: nat): (r: map<nat, Owner>) {
    if o in owners
    then owners[o := Owner(owners[o].policy, AtDial(id), owners[o].waits, owners[o].redials + 1)]
    else owners
  }

  /** schedule_reconnect, given a plan that nothing else holds. */
  function ScheduleReconnect(s: State, p: Plan): (r: State)
    ensures r.log == s.log && r.registry == s.registry && r.cleared == s.cleared
    ensures r.live == s.live && r.stopped == s.stopped
  {
    if s.stopped then s.(owners := Moved(s.owners, p.owner, Cancelled))
    else
      match Schedule(p)
      case None => s.(owners := Moved(s.owners, p.owner, Exhausted))
      case Some(q) =>
        s.(timers := s.timers[s.nextId := q], nextId := s.nextId + 1,
           owners := Waiting(s.owners, p.owner, s.nextId, q.delay))
  }

  function DoAccept(caps: Caps, s: State, ip: nat): (r: State) {
    var admitted := CanIpConnect(caps, s.registry, ip);
    s.(inbound := if admitted then s.inbound[s.nextId := Session(s.nextId, ip)] else s.inbound,
       nextId := s.nextId + 1)
  }

  function DoServerHandshake(s: State, id: nat, ok: bool): (r: State)
    requires id in s.inbound
  {
    var t := s.(inbound := s.inbound - {id});
    if ok then RegisterAndStart(t, s.inbound[id]) else t
  }

  function DoConnect(s: State, policy: Option<Policy>): (r: State) {
    match policy
    case None => s.(dials := s.dials[s.nextId := None], nextId := s.nextId + 1)
    case Some(p) =>
      s.(dials := s.dials[s.nextId := Some(Fresh(s.nextOwner, p))], nextId := s.nextId + 1,
         nextOwner := s.nextOwner + 1,
         owners := s.owners[s.nextOwner := Owner(p, AtDial(s.nextId), [], 0)])
  }

  function DoDialDone(s: State, id: nat, ok: bool, ip: nat): (r: State)
    requires id in s.dials
  {
    var plan := s.dials[id];
    var t := s.(dials := s.dials - {id});
    if plan.Some? && s.stopped then t.(owners := Moved(s.owners, plan.value.owner, Cancelled))
    else if !ok then (if plan.Some? then ScheduleReconnect(t, plan.value) else t)
    else
      t.(handshakes := s.handshakes[id := Outbound(ip, plan)],
         owners := if plan.Some? then Moved(s.owners, plan.value.owner, AtHandshake(id)) else s.owners)
  }

  /** A plan that has reached a live session starts over. */
  function Restarted(owners: map<nat, Owner>, o: nat, id: nat): (r: map<nat, Owner>) {
    if o in owners then owners[o := Owner(owners[o].policy, AtLive(id), [], 0)] else owners
  }

  function DoClientHandshake(s: State, id: nat, ok: bool): (r: State)
    requires id in s.handshakes
  {
    var h := s.handshakes[id];
    var t := s.(handshakes := s.handshakes - {id});
    if h.plan.Some? && s.stopped then t.(owners := Moved(s.owners, h.plan.value.owner, Cancelled))
    else if !ok then (if h.plan.Some? then ScheduleReconnect(t, h.plan.value) else t)
    else if h.plan.None? then RegisterAndStart(t, Session(id, h.ip))
    else
      var p := h.plan.value;
      RegisterAndStart(t.(live := s.live[id := Fresh(p.owner, p.policy)], owners := Restarted(s.owners, p.owner, id)),
                       Session(id, h.ip))
  }

  /** remove_session, with on_session_removed. */
  function DoRemove(s: State, id: nat): (r: State) {
    if !Listed(s.registry.sessions, id) then s
    else
      var t := s.(registry := Remove(s.registry, id), log := s.log + [Disconnected(id)]);
      if id !in s.live then t else ScheduleReconnect(t.(live := s.live - {id}), s.live[id])
  }

  function DoTimer(s: State, id: nat, aborted: bool): (r: State)
    requires id in s.timers
  {
    var p := s.timers[id];
    var t := s.(timers := s.timers - {id});
    if aborted || s.stopped then
      t.(owners := Moved(s.owners, p.owner, if aborted then Aborted else Cancelled))
    else
      t.(dials := s.dials[s.nextId := Some(Fire(p))], nextId := s.nextId + 1,
         owners := Redialled(s.owners, p.owner, s.nextId))
  }

  /** Records that stop has cleared the reconnect map. */
  function AllCancelled(owners: map<nat, Owner>): (r: map<nat, Owner>) {
    map o | o in owners :: if owners[o].place.AtLive? then owners[o].(place := Cancelled) else owners[o]
  }

  /** boost_session_manager::stop. */
  function DoStop(s: State): (r: State) {
    s.(stopped := true, live := map[], registry := EMPTY, cleared := s.cleared + Ids(s.registry.sessions),
       owners := AllCancelled(s.owners))
  }

  function Apply(caps: Caps, s: State, step: Step): (r: State) {
    match step
    case Accept(ip) => DoAccept(caps, s, ip)
    case ServerHandshake(id, ok) => if id in s.inbound then DoServerHandshake(s, id, ok) else s
    case Connect(policy) => DoConnect(s, policy)
    case DialDone(id, ok, ip) => if id in s.dials then DoDialDone(s, id, ok, ip) else s
    case ClientHandshake(id, ok) => if id in s.handshakes then DoClientHandshake(s, id, ok) else s
    case RemoveSession(id) => DoRemove(s, id)
    case TimerDone(id, aborted) => if id in s.timers then DoTimer(s, id, aborted) else s
    case Stop => DoStop(s)
  }

  function Exec(caps: Caps, s: State, steps: seq<Step>): (r: State) {
    if steps == [] then s else Apply(caps, Exec(caps, s, steps[..|steps| - 1]), steps[|steps| - 1])
  }

  // ----- Ownership of plans -----

  /** The plan held at a place, if any. */
  function PlanAt(s: State, place: Place): (p: Option<Plan>) {
    match place
    case AtDial(id) => if id in s.dials then s.dials[id] else None
    case AtHandshake(id) => if id in s.handshakes then s.handshakes[id].plan else None
    case AtLive(id) => if id in s.live then Some(s.live[id]) else None
    case AtTimer(id) => if id in s.timers then Some(s.timers[id]) else None
    case _ => None
  }

  predicate IsHeld(place: Place) {
    place.AtDial? || place.AtHandshake? || place.AtLive? || place.AtTimer?
  }

  /** The delays so far are those of the policy, one after the other. */
  ghost predicate Lawfully(policy: Policy, waits: seq<real>) {
    && (forall k :: 0 <= k < |waits| ==> waits[k] == Wait(policy, k + 1))
    && (policy.maxAttempts != 0 ==> |waits| <= policy.maxAttempts)
  }

  /** The counters of a plan against what its owner has waited and re-dialled. */
  ghost predicate Tally(w: Owner, p: Plan) {
    && p.policy == w.policy
    && match w.place
       case AtTimer(_) =>
         p.attempts == |w.waits| == w.redials + 1 && p.delay == Wait(w.policy, p.attempts)
       case AtLive(_) =>
         p.attempts == |w.waits| == w.redials == 0 && p.delay == w.policy.initial
       case _ =>
         p.attempts == |w.waits| == w.redials && p.delay == Wait(w.policy, p.attempts + 1)
  }

  /** A held plan is where its owner's record says, and nowhere else. */
  ghost predicate Placed(s: State, place: Place) {
    var p := PlanAt(s, place);
    p.Some? ==> p.value.owner in s.owners && s.owners[p.value.owner].place == place
                && Tally(s.owners[p.value.owner], p.value)
  }

  /** An owner's record names a place that holds its plan, or says how the plan ended. */
  ghost predicate Recorded(s: State, o: nat)
    requires o in s.owners
  {
    var w := s.owners[o];
    && Lawfully(w.policy, w.waits)
    && (IsHeld(w.place) ==> PlanAt(s, w.place).Some? && PlanAt(s, w.place).value.owner == o)
    && (w.place.Exhausted? ==> w.policy.maxAttempts != 0 && w.redials == |w.waits| == w.policy.maxAttempts)
    && (w.place.Cancelled? ==> s.stopped)
  }

  ghost predicate Ownership(s: State) {
    && (forall place :: Placed(s, place))
    && (forall o :: o in s.owners ==> Recorded(s, o))
    && (forall o :: o in s.owners <==> 0 <= o < s.nextOwner)
  }

  /** Handing one plan from one place to another keeps ownership linear. */
  lemma MoveKeeps(s: State, r: State, o: nat, from: Place, to: Place)
    requires Ownership(s) && from != to && PlanAt(s, from).Some? && PlanAt(s, from).value.owner == o
    requires PlanAt(r, from).None? && PlanAt(s, to).None?
    requires forall place :: place != from && place != to ==> PlanAt(r, place) == PlanAt(s, place)
    requires r.nextOwner == s.nextOwner && (s.stopped ==> r.stopped)
    requires o in s.owners && o in r.owners && r.owners == s.owners[o := r.owners[o]]
    requires r.owners[o].place == to && r.owners[o].policy == s.owners[o].policy
    requires Lawfully(r.owners[o].policy, r.owners[o].waits)
    requires if !IsHeld(to) then Recorded(r, o)
             else PlanAt(r, to).Some? && PlanAt(r, to).value.owner == o && Tally(r.owners[o], PlanAt(r, to).value)
    ensures Ownership(r)
  {
    assert Placed(s, from);
    forall place
      ensures Placed(r, place)
    {
      assert Placed(s, place);
    }
    forall u | u in r.owners
      ensures Recorded(r, u)
    {
      if u != o {
        assert Recorded(s, u);
      }
    }
  }

  /** A step that moves no plan. */
  lemma StillKeeps(s: State, r: State)
    requires Ownership(s) && r.owners == s.owners && r.nextOwner == s.nextOwner && (s.stopped ==> r.stopped)
    requires forall place :: PlanAt(r, place) == PlanAt(s, place)
    ensures Ownership(r)
  {
    forall place
      ensures Placed(r, place)
    {
      assert Placed(s, place);
    }
    forall u | u in r.owners
      ensures Recorded(r, u)
    {
      assert Recorded(s, u);
    }
  }

  /** A held plan and its owner's record. */
  lemma HeldPlan(s: State, from: Place)
    requires Ownership(s) && PlanAt(s, from).Some?
    ensures var p := PlanAt(s, from).value;
            && p.owner in s.owners && s.owners[p.owner].place == from && Tally(s.owners[p.owner], p)
            && Lawfully(s.owners[p.owner].policy, s.owners[p.owner].waits)
  {
    assert Placed(s, from);
    assert Recorded(s, PlanAt(s, from).value.owner);
  }

  /** The next wait of a plan that is not waiting is the policy's next delay. */
  lemma NextWait(w: Owner, p: Plan)
    requires Lawfully(w.policy, w.waits) && Tally(w, p) && !w.place.AtTimer? && Schedule(p).Some?
    ensures Lawfully(w.policy, w.waits + [p.delay])
  {
  }

  /** `t` is `s` with the plan at one place taken away. */
  ghost predicate Detached(s: State, t: State, from: Place) {
    && t.owners == s.owners && t.nextOwner == s.nextOwner && t.stopped == s.stopped && t.nextId == s.nextId
    && PlanAt(t, from).None? && (forall place :: place != from ==> PlanAt(t, place) == PlanAt(s, place))
  }

  lemma ToTimer(s: State, t: State, from: Place, p: Plan)
    requires Ownership(s) && PlanAt(s, from) == Some(p) && !from.AtTimer? && Detached(s, t, from)
    requires s.nextId !in s.timers && !s.stopped && Schedule(p).Some?
    ensures Ownership(ScheduleReconnect(t, p))
  {
    var r := ScheduleReconnect(t, p);
    var to := AtTimer(s.nextId);
    HeldPlan(s, from);
    NextWait(s.owners[p.owner], p);
    forall place | place != from && place != to
      ensures PlanAt(r, place) == PlanAt(s, place)
    {
      assert PlanAt(t, place) == PlanAt(s, place);
    }
    MoveKeeps(s, r, p.owner, from, to);
  }

  /** What a failed attempt or a lost session leads to, its plan detached from where it was. */
  lemma RescheduleKeeps(s: State, t: State, from: Place, p: Plan)
    requires Ownership(s) && PlanAt(s, from) == Some(p) && !from.AtTimer? && Detached(s, t, from)
    requires s.nextId !in s.timers
    ensures Ownership(ScheduleReconnect(t, p))
  {
    var r := ScheduleReconnect(t, p);
    HeldPlan(s, from);
    if s.stopped {
      MoveKeeps(s, r, p.owner, from, Cancelled);
    } else if Schedule(p).None? {
      MoveKeeps(s, r, p.owner, from, Exhausted);
    } else {
      ToTimer(s, t, from, p);
    }
  }

  lemma AcceptKeeps(caps: Caps, s: State, ip: nat)
    requires Ownership(s)
    ensures Ownership(DoAccept(caps, s, ip))
  {
    StillKeeps(s, DoAccept(caps, s, ip));
  }

  lemma ServerHandshakeKeeps(s: State, id: nat, ok: bool)
    requires Ownership(s) && id in s.inbound
    ensures Ownership(DoServerHandshake(s, id, ok))
  {
    StillKeeps(s, DoServerHandshake(s, id, ok));
  }

  lemma ConnectKeeps(s: State, policy: Option<Policy>)
    requires Ownership(s) && s.nextId !in s.dials
    ensures Ownership(DoConnect(s, policy))
  {
    var r := DoConnect(s, policy);
    if policy.None? {
      StillKeeps(s, r);
    } else {
      forall place
        ensures Placed(r, place)
      {
        assert Placed(s, place);
      }
      forall u | u in r.owners
        ensures Recorded(r, u)
      {
        if u != s.nextOwner {
          assert Recorded(s, u);
        }
      }
    }
  }

  lemma DialKeeps(s: State, id: nat, ok: bool, ip: nat)
    requires Ownership(s) && id in s.dials && id !in s.handshakes && s.nextId !in s.timers
    ensures Ownership(DoDialDone(s, id, ok, ip))
  {
    var r := DoDialDone(s, id, ok, ip);
    var from := AtDial(id);
    if s.dials[id].None? {
      StillKeeps(s, r);
    } else if s.stopped {
      HeldPlan(s, from);
      MoveKeeps(s, r, s.dials[id].value.owner, from, Cancelled);
    } else if !ok {
      RescheduleKeeps(s, s.(dials := s.dials - {id}), from, s.dials[id].value);
    } else {
      HeldPlan(s, from);
      MoveKeeps(s, r, s.dials[id].value.owner, from, AtHandshake(id));
    }
  }

  lemma HandshakeKeeps(s: State, id: nat, ok: bool)
    requires Ownership(s) && id in s.handshakes && id !in s.live && s.nextId !in s.timers
    ensures Ownership(DoClientHandshake(s, id, ok))
  {
    var r := DoClientHandshake(s, id, ok);
    var from := AtHandshake(id);
    var plan := s.handshakes[id].plan;
    if plan.None? {
      StillKeeps(s, r);
    } else if s.stopped {
      HeldPlan(s, from);
      MoveKeeps(s, r, plan.value.owner, from, Cancelled);
    } else if !ok {
      RescheduleKeeps(s, s.(handshakes := s.handshakes - {id}), from, plan.value);
    } else {
      ToLive(s, id);
    }
  }

  lemma ToLive(s: State, id: nat)
    requires Ownership(s) && id in s.handshakes && id !in s.live && s.handshakes[id].plan.Some? && !s.stopped
    ensures Ownership(DoClientHandshake(s, id, true))
  {
    HeldPlan(s, AtHandshake(id));
    MoveKeeps(s, DoClientHandshake(s, id, true), s.handshakes[id].plan.value.owner, AtHandshake(id), AtLive(id));
  }

  lemma RemoveKeeps(s: State, id: nat)
    requires Ownership(s) && s.nextId !in s.timers
    ensures Ownership(DoRemove(s, id))
  {
    var k := PositionOf(s.registry.sessions, id);
    if k < |s.registry.sessions| {
      var t := s.(registry := Remove(s.registry, id), log := s.log + [Disconnected(id)]);
      if id in s.live {
        RescheduleKeeps(s, t.(live := s.live - {id}), AtLive(id), s.live[id]);
      } else {
        StillKeeps(s, t);
      }
    }
  }

  lemma TimerKeeps(s: State, id: nat, aborted: bool)
    requires Ownership(s) && id in s.timers && s.nextId !in s.dials
    ensures Ownership(DoTimer(s, id, aborted))
  {
    var r := DoTimer(s, id, aborted);
    var from := AtTimer(id);
    var p := s.timers[id];
    HeldPlan(s, from);
    if aborted {
      MoveKeeps(s, r, p.owner, from, Aborted);
    } else if s.stopped {
      MoveKeeps(s, r, p.owner, from, Cancelled);
    } else {
      MoveKeeps(s, r, p.owner, from, AtDial(s.nextId));
    }
  }

  lemma StopKeeps(s: State)
    requires Ownership(s)
    ensures Ownership(DoStop(s))
  {
    var r := DoStop(s);
    forall place
      ensures Placed(r, place)
    {
      assert Placed(s, place);
    }
    forall u | u in r.owners
      ensures Recorded(r, u)
    {
      assert Recorded(s, u);
    }
  }

  // ----- Sessions, callbacks and the reconnect map -----

  ghost predicate Below(ids: set<nat>, n: nat) {
    forall id :: id in ids ==> id < n
  }

  /** A session is at one stage of its life: pending in one way, or connected once.  Ids are handed out once. */
  ghost predicate Separate(inbound: set<nat>, dials: set<nat>, handshakes: set<nat>, log: seq<Callback>, nextId: nat) {
    && Below(inbound, nextId) && Below(dials, nextId) && Below(handshakes, nextId)
    && inbound !! dials && inbound !! handshakes && dials !! handshakes
    && (forall id: nat :: Connected(id) in log ==> id !in inbound && id !in dials && id !in handshakes && id < nextId)
  }

  /** The reconnect map names listed sessions only, and listed sessions have been reported connected. */
  ghost predicate Registered(live: set<nat>, sessions: seq<Session>, log: seq<Callback>) {
    && (forall id :: id in live ==> Listed(sessions, id))
    && (forall i :: 0 <= i < |sessions| ==> Connected(sessions[i].id) in log)
  }

  ghost predicate Named(inbound: map<nat, Session>) {
    forall id :: id in inbound ==> inbound[id].id == id
  }

  ghost predicate Bookkeeping(s: State) {
    && Separate(s.inbound.Keys, s.dials.Keys, s.handshakes.Keys, s.log, s.nextId)
    && Registered(s.live.Keys, s.registry.sessions, s.log)
    && Named(s.inbound)
    && Below(s.timers.Keys, s.nextId)
    && Agrees(s.registry)
    && (s.stopped ==> s.live.Keys == {})
  }

  /** Registering a session, possibly with a plan, keeps the reconnect map within the list. */
  lemma RegisteredAdds(live: set<nat>, sessions: seq<Session>, log: seq<Callback>, sess: Session)
    requires Registered(live, sessions, log)
    ensures Registered(live + {sess.id}, sessions + [sess], log + [Connected(sess.id)])
  {
    var after := sessions + [sess];
    forall id | id in live + {sess.id}
      ensures Listed(after, id)
    {
      var k := if id == sess.id then |sessions| else PositionOf(sessions, id);
      assert after[k].id == id;
      ListedAt(after, k);
    }
  }

  lemma RegisteredRemoves(live: set<nat>, reg: Registry, log: seq<Callback>, id: nat)
    requires Registered(live, reg.sessions, log) && Listed(reg.sessions, id)
    ensures Registered(live - {id}, Remove(reg, id).sessions, log + [Disconnected(id)])
  {
    RemoveLists(reg, id);
    forall u | u in live - {id}
      ensures Listed(Remove(reg, id).sessions, u)
    {
      RemoveLeavesOthers(reg, id, u);
    }
  }

  lemma RegisterBooks(s: State, sess: Session)
    requires Bookkeeping(s) && sess.id < s.nextId
    requires sess.id !in s.inbound && sess.id !in s.dials && sess.id !in s.handshakes
    ensures Bookkeeping(RegisterAndStart(s, sess))
  {
    AddAgrees(s.registry, sess);
    RegisteredAdds(s.live.Keys, s.registry.sessions, s.log, sess);
  }

  lemma ScheduleBooks(s: State, p: Plan)
    requires Bookkeeping(s)
    ensures Bookkeeping(ScheduleReconnect(s, p))
  {
    if !s.stopped && Schedule(p).Some? {
      assert ScheduleReconnect(s, p).timers.Keys == s.timers.Keys + {s.nextId};
    }
  }

  lemma AcceptBooks(caps: Caps, s: State, ip: nat)
    requires Bookkeeping(s)
    ensures Bookkeeping(DoAccept(caps, s, ip))
  {
    assert DoAccept(caps, s, ip).inbound.Keys <= s.inbound.Keys + {s.nextId};
  }

  lemma ServerHandshakeBooks(s: State, id: nat, ok: bool)
    requires Bookkeeping(s) && id in s.inbound
    ensures Bookkeeping(DoServerHandshake(s, id, ok))
  {
    var t := s.(inbound := s.inbound - {id});
    assert t.inbound.Keys == s.inbound.Keys - {id};
    if ok {
      RegisterBooks(t, s.inbound[id]);
    }
  }

  lemma ConnectBooks(s: State, policy: Option<Policy>)
    requires Bookkeeping(s)
    ensures Bookkeeping(DoConnect(s, policy))
  {
    assert DoConnect(s, policy).dials.Keys == s.dials.Keys + {s.nextId};
  }

  lemma DialBooks(s: State, id: nat, ok: bool, ip: nat)
    requires Bookkeeping(s) && id in s.dials
    ensures Bookkeeping(DoDialDone(s, id, ok, ip))
  {
    var r := DoDialDone(s, id, ok, ip);
    assert (s.dials - {id}).Keys == s.dials.Keys - {id};
    if s.dials[id].Some? && !s.stopped && !ok {
      ScheduleBooks(s.(dials := s.dials - {id}), s.dials[id].value);
    } else {
      assert r.handshakes.Keys <= s.handshakes.Keys + {id};
    }
  }

  /** A session whose handshake is pending is not in the reconnect map. */
  lemma PendingIsNotLive(s: State, id: nat)
    requires Bookkeeping(s) && id in s.handshakes
    ensures id !in s.live
  {
    forall i | 0 <= i < |s.registry.sessions|
      ensures s.registry.sessions[i].id != id
    {
    }
  }

  /** A session whose handshake is over moves on to being connected. */
  lemma SeparateConnects(s: State, id: nat)
    requires Bookkeeping(s) && id in s.handshakes
    ensures Separate(s.inbound.Keys, s.dials.Keys, (s.handshakes - {id}).Keys, s.log + [Connected(id)], s.nextId)
  {
    assert (s.handshakes - {id}).Keys == s.handshakes.Keys - {id};
  }

  lemma RegisteredWithin(live: set<nat>, more: set<nat>, sessions: seq<Session>, log: seq<Callback>)
    requires Registered(more, sessions, log) && live <= more
    ensures Registered(live, sessions, log)
  {
  }

  /** A client handshake that ends with a registered session, with or without a plan. */
  lemma ConnectedBooks(s: State, r: State, sess: Session)
    requires Bookkeeping(s) && sess.id in s.handshakes && r.registry == Add(s.registry, sess)
    requires r.log == s.log + [Connected(sess.id)] && r.live.Keys <= s.live.Keys + {sess.id}
    requires r.stopped == s.stopped && (s.stopped ==> r.live == s.live)
    requires r.inbound == s.inbound && r.dials == s.dials && r.handshakes == s.handshakes - {sess.id}
    requires r.timers == s.timers && r.nextId == s.nextId
    ensures Bookkeeping(r)
  {
    SeparateConnects(s, sess.id);
    AddAgrees(s.registry, sess);
    RegisteredAdds(s.live.Keys, s.registry.sessions, s.log, sess);
    RegisteredWithin(r.live.Keys, s.live.Keys + {sess.id}, r.registry.sessions, r.log);
  }

  lemma HandshakeOverBooks(s: State, id: nat)
    requires Bookkeeping(s) && id in s.handshakes
    ensures Bookkeeping(s.(handshakes := s.handshakes - {id}))
  {
    assert (s.handshakes - {id}).Keys == s.handshakes.Keys - {id};
  }

  /** Recording where a plan has gone is no part of the books. */
  lemma RecordBooks(s: State, r: State)
    requires Bookkeeping(s) && r == s.(owners := r.owners)
    ensures Bookkeeping(r)
  {
  }

  lemma ClientHandshakeBooks(s: State, id: nat, ok: bool)
    requires Bookkeeping(s) && id in s.handshakes
    ensures Bookkeeping(DoClientHandshake(s, id, ok))
  {
    var h := s.handshakes[id];
    var t := s.(handshakes := s.handshakes - {id});
    if ok && !(h.plan.Some? && s.stopped) {
      ConnectedBooks(s, DoClientHandshake(s, id, ok), Session(id, h.ip));
    } else {
      HandshakeOverBooks(s, id);
      if h.plan.Some? && !s.stopped {
        ScheduleBooks(t, h.plan.value);
      } else {
        RecordBooks(t, DoClientHandshake(s, id, ok));
      }
    }
  }

  lemma RemoveBooks(s: State, id: nat)
    requires Bookkeeping(s) && Listed(s.registry.sessions, id)
    ensures Bookkeeping(DoRemove(s, id))
  {
    RemoveAgrees(s.registry, id);
    RegisteredRemoves(s.live.Keys, s.registry, s.log, id);
    var t := s.(registry := Remove(s.registry, id), log := s.log + [Disconnected(id)], live := s.live - {id});
    assert t.live.Keys == s.live.Keys - {id};
    if id in s.live {
      ScheduleBooks(t, s.live[id]);
    } else {
      assert s.live - {id} == s.live;
    }
  }

  lemma TimerBooks(s: State, id: nat, aborted: bool)
    requires Bookkeeping(s) && id in s.timers
    ensures Bookkeeping(DoTimer(s, id, aborted))
  {
    var r := DoTimer(s, id, aborted);
    assert r.timers.Keys == s.timers.Keys - {id};
    assert r.dials.Keys <= s.dials.Keys + {s.nextId};
  }

  lemma StopBooks(s: State)
    requires Bookkeeping(s)
    ensures Bookkeeping(DoStop(s))
  {
  }

  lemma StepBooks(caps: Caps, s: State, step: Step)
    requires Bookkeeping(s)
    ensures Bookkeeping(Apply(caps, s, step))
  {
    match step
    case Accept(ip) => AcceptBooks(caps, s, ip);
    case ServerHandshake(id, ok) => if id in s.inbound { ServerHandshakeBooks(s, id, ok); }
    case Connect(policy) => ConnectBooks(s, policy);
    case DialDone(id, ok, ip) => if id in s.dials { DialBooks(s, id, ok, ip); }
    case ClientHandshake(id, ok) => if id in s.handshakes { ClientHandshakeBooks(s, id, ok); }
    case RemoveSession(id) =>
      if Listed(s.registry.sessions, id) { RemoveBooks(s, id); }
    case TimerDone(id, aborted) => if id in s.timers { TimerBooks(s, id, aborted); }
    case Stop => StopBooks(s);
  }

  lemma StepKeeps(caps: Caps, s: State, step: Step)
    requires Ownership(s) && s.nextId !in s.timers && s.nextId !in s.dials
    requires forall id :: id in s.dials ==> id !in s.handshakes
    requires forall id :: id in s.handshakes ==> id !in s.live
    ensures Ownership(Apply(caps, s, step))
  {
    match step
    case Accept(ip) => AcceptKeeps(caps, s, ip);
    case ServerHandshake(id, ok) => if id in s.inbound { ServerHandshakeKeeps(s, id, ok); }
    case Connect(policy) => ConnectKeeps(s, policy);
    case DialDone(id, ok, ip) => if id in s.dials { DialKeeps(s, id, ok, ip); }
    case ClientHandshake(id, ok) => if id in s.handshakes { HandshakeKeeps(s, id, ok); }
    case RemoveSession(id) => RemoveKeeps(s, id);
    case TimerDone(id, aborted) => if id in s.timers { TimerKeeps(s, id, aborted); }
    case Stop => StopKeeps(s);
  }

  lemma {:induction false} AlwaysKept(caps: Caps, steps: seq<Step>)
    ensures Bookkeeping(Exec(caps, INIT, steps)) && Ownership(Exec(caps, INIT, steps))
  {
    if steps != [] {
      AlwaysKept(caps, steps[..|steps| - 1]);
      var s := Exec(caps, INIT, steps[..|steps| - 1]);
      forall id | id in s.handshakes
        ensures id !in s.live
      {
        PendingIsNotLive(s, id);
      }
      StepBooks(caps, s, steps[|steps| - 1]);
      StepKeeps(caps, s, steps[|steps| - 1]);
    }
  }

  // ----- Callback conservation -----

  /** How many sessions have been reported connected. */
  function Connects(log: seq<Callback>): (n: nat) {
    if log == [] then 0 else Connects(log[..|log| - 1]) + if log[|log| - 1].Connected? then 1 else 0
  }

  function Disconnects(log: seq<Callback>): (n: nat) {
    if log == [] then 0 else Disconnects(log[..|log| - 1]) + if log[|log| - 1].Disconnected? then 1 else 0
  }

  /** Per session: reported connected at most once, and then listed, reported disconnected or cleared. */
  ghost predicate Balanced(log: seq<Callback>, sessions: seq<Session>, cleared: seq<nat>) {
    forall id: nat ::
      multiset(log)[Connected(id)]
      == multiset(Ids(sessions))[id] + multiset(log)[Disconnected(id)] + multiset(cleared)[id] <= 1
  }

  /** A session is reported disconnected only after it was reported connected. */
  ghost predicate InOrder(log: seq<Callback>) {
    forall i :: 0 <= i < |log| && log[i].Disconnected? ==> Connected(log[i].id) in log[..i]
  }

  ghost predicate Conserved(log: seq<Callback>, sessions: seq<Session>, cleared: seq<nat>) {
    Balanced(log, sessions, cleared) && InOrder(log) && Connects(log) == |sessions| + Disconnects(log) + |cleared|
  }

  lemma IdsConcat(a: seq<Session>, b: seq<Session>)
    ensures Ids(a + b) == Ids(a) + Ids(b)
  {
  }

  lemma InOrderSnoc(log: seq<Callback>, cb: Callback)
    requires InOrder(log) && (cb.Disconnected? ==> Connected(cb.id) in log)
    ensures InOrder(log + [cb])
  {
    forall i | 0 <= i < |log + [cb]| && (log + [cb])[i].Disconnected?
      ensures Connected((log + [cb])[i].id) in (log + [cb])[..i]
    {
      assert (log + [cb])[..i] == log[..i];
      assert i == |log| ==> log[..i] == log;
    }
  }

  lemma CountsSnoc(log: seq<Callback>, cb: Callback)
    ensures Connects(log + [cb]) == Connects(log) + if cb.Connected? then 1 else 0
    ensures Disconnects(log + [cb]) == Disconnects(log) + if cb.Disconnected? then 1 else 0
  {
    assert (log + [cb])[..|log|] == log;
  }

  lemma ConservedAdds(log: seq<Callback>, sessions: seq<Session>, cleared: seq<nat>, sess: Session)
    requires Conserved(log, sessions, cleared) && Connected(sess.id) !in log
    ensures Conserved(log + [Connected(sess.id)], sessions + [sess], cleared)
  {
    IdsConcat(sessions, [sess]);
    assert Ids([sess]) == [sess.id];
    CountsSnoc(log, Connected(sess.id));
    InOrderSnoc(log, Connected(sess.id));
  }

  lemma BalancedRemoves(log: seq<Callback>, sessions: seq<Session>, after: seq<Session>, cleared: seq<nat>, id: nat)
    requires Balanced(log, sessions, cleared) && multiset(Ids(sessions)) == multiset(Ids(after)) + multiset{id}
    ensures Balanced(log + [Disconnected(id)], after, cleared) && Connected(id) in log
  {
    assert multiset(log)[Connected(id)] >= 1;
    assert multiset(log + [Disconnected(id)]) == multiset(log) + multiset{Disconnected(id)};
  }

  lemma ConservedRemoves(log: seq<Callback>, sessions: seq<Session>, after: seq<Session>, cleared: seq<nat>, id: nat)
    requires Conserved(log, sessions, cleared)
    requires |after| + 1 == |sessions| && multiset(Ids(sessions)) == multiset(Ids(after)) + multiset{id}
    ensures Conserved(log + [Disconnected(id)], after, cleared)
  {
    BalancedRemoves(log, sessions, after, cleared, id);
    CountsSnoc(log, Disconnected(id));
    InOrderSnoc(log, Disconnected(id));
  }

  lemma ConservedClears(log: seq<Callback>, sessions: seq<Session>, cleared: seq<nat>)
    requires Conserved(log, sessions, cleared)
    ensures Conserved(log, [], cleared + Ids(sessions))
  {
    assert Ids([]) == [];
  }

  /** What a step does to the session list and the callbacks. */
  datatype Effect = Same | Adds(sess: Session) | Removes(id: nat) | Clears

  function EffectOf(s: State, step: Step): (e: Effect) {
    match step
    case ServerHandshake(id, ok) => if id in s.inbound && ok then Adds(s.inbound[id]) else Same
    case ClientHandshake(id, ok) =>
      if id in s.handshakes && ok && !(s.handshakes[id].plan.Some? && s.stopped)
      then Adds(Session(id, s.handshakes[id].ip)) else Same
    case RemoveSession(id) => if Listed(s.registry.sessions, id) then Removes(id) else Same
    case Stop => Clears
    case _ => Same
  }

  /** The step has the effect it should. */
  ghost predicate HasEffect(s: State, r: State, e: Effect) {
    match e
    case Same => r.log == s.log && r.registry == s.registry && r.cleared == s.cleared
    case Adds(sess) =>
      r.log == s.log + [Connected(sess.id)] && r.registry == Add(s.registry, sess) && r.cleared == s.cleared
    case Removes(id) =>
      r.log == s.log + [Disconnected(id)] && r.registry == Remove(s.registry, id) && r.cleared == s.cleared
    case Clears => r.log == s.log && r.registry == EMPTY && r.cleared == s.cleared + Ids(s.registry.sessions)
  }

  lemma ServerHandshakeEffect(s: State, id: nat, ok: bool)
    requires id in s.inbound
    ensures HasEffect(s, DoServerHandshake(s, id, ok), EffectOf(s, ServerHandshake(id, ok)))
  {
  }

  lemma TimerEffect(s: State, id: nat, aborted: bool)
    requires id in s.timers
    ensures HasEffect(s, DoTimer(s, id, aborted), Same)
  {
  }

  lemma DialEffect(s: State, id: nat, ok: bool, ip: nat)
    requires id in s.dials
    ensures HasEffect(s, DoDialDone(s, id, ok, ip), Same)
  {
  }

  lemma ConnectEffect(s: State, policy: Option<Policy>)
    ensures HasEffect(s, DoConnect(s, policy), Same)
  {
  }

  lemma HandshakeEffect(s: State, id: nat, ok: bool)
    requires id in s.handshakes
    ensures HasEffect(s, DoClientHandshake(s, id, ok), EffectOf(s, ClientHandshake(id, ok)))
  {
  }

  lemma RemoveEffect(s: State, id: nat)
    ensures HasEffect(s, DoRemove(s, id), EffectOf(s, RemoveSession(id)))
  {
  }

  lemma StepEffect(caps: Caps, s: State, step: Step)
    ensures HasEffect(s, Apply(caps, s, step), EffectOf(s, step))
  {
    match step
    case ServerHandshake(id, ok) => if id in s.inbound { ServerHandshakeEffect(s, id, ok); }
    case TimerDone(id, aborted) => if id in s.timers { TimerEffect(s, id, aborted); }
    case DialDone(id, ok, ip) => if id in s.dials { DialEffect(s, id, ok, ip); }
    case ClientHandshake(id, ok) => if id in s.handshakes { HandshakeEffect(s, id, ok); }
    case RemoveSession(id) => RemoveEffect(s, id);
    case Connect(policy) => ConnectEffect(s, policy);
    case Accept(ip) =>
    case Stop =>
  }

  lemma StepConserves(caps: Caps, s: State, step: Step)
    requires Conserved(s.log, s.registry.sessions, s.cleared)
    requires EffectOf(s, step).Adds? ==> Connected(EffectOf(s, step).sess.id) !in s.log
    ensures var r := Apply(caps, s, step); Conserved(r.log, r.registry.sessions, r.cleared)
  {
    StepEffect(caps, s, step);
    match EffectOf(s, step)
    case Same =>
    case Adds(sess) => ConservedAdds(s.log, s.registry.sessions, s.cleared, sess);
    case Removes(id) =>
      RemoveLists(s.registry, id);
      ConservedRemoves(s.log, s.registry.sessions, Remove(s.registry, id).sessions, s.cleared, id);
    case Clears => ConservedClears(s.log, s.registry.sessions, s.cleared);
  }

  /** Callback conservation, over every run: on_connect calls equal listed sessions plus on_disconnect
      calls plus sessions cleared by stop, session by session and in total; a session is reported
      disconnected at most once, and only after it was reported connected. */
  lemma {:induction false} CallbackConservation(caps: Caps, steps: seq<Step>)
    ensures var s := Exec(caps, INIT, steps); Conserved(s.log, s.registry.sessions, s.cleared)
  {
    if steps == [] {
      assert Ids([]) == [];
    } else {
      CallbackConservation(caps, steps[..|steps| - 1]);
      AlwaysKept(caps, steps[..|steps| - 1]);
      StepConserves(caps, Exec(caps, INIT, steps[..|steps| - 1]), steps[|steps| - 1]);
    }
  }

  /** Removing a session that is not listed, as on a late read error, changes nothing. */
  lemma LateRemoveIsNothing(caps: Caps, steps: seq<Step>, id: nat)
    requires var s := Exec(caps, INIT, steps); Disconnected(id) in s.log || id in s.cleared
    ensures var s := Exec(caps, INIT, steps); Apply(caps, s, RemoveSession(id)) == s
  {
    NotListed(Exec(caps, INIT, steps), id) by { CallbackConservation(caps, steps); }
  }

  lemma NotListed(s: State, id: nat)
    requires Conserved(s.log, s.registry.sessions, s.cleared) && (Disconnected(id) in s.log || id in s.cleared)
    ensures !Listed(s.registry.sessions, id)
  {
    assert multiset(s.log)[Disconnected(id)] + multiset(s.cleared)[id] >= 1;
    assert multiset(Ids(s.registry.sessions))[id] == 0;
    ListedCounts(s.registry.sessions, id);
  }

  // ----- The theorems about plans -----

  /** Reconnect linearity: in every reachable state a `connect` with a policy holds its plan in at most one
      place, so there are never two dials, timers or sessions for it, and the keys of the reconnect map
      are listed sessions. */
  lemma ReconnectLinearity(caps: Caps, steps: seq<Step>, a: Place, b: Place)
    ensures var s := Exec(caps, INIT, steps);
            && (PlanAt(s, a).Some? && PlanAt(s, b).Some? && PlanAt(s, a).value.owner == PlanAt(s, b).value.owner ==>
                  a == b)
            && (forall id :: id in s.live ==> Listed(s.registry.sessions, id))
  {
    AlwaysKept(caps, steps);
    var s := Exec(caps, INIT, steps);
    assert Placed(s, a) && Placed(s, b);
  }

  /** The policies handed to `connect` in a run, in order: the o-th is that of owner o. */
  function Policies(steps: seq<Step>): (ps: seq<Policy>) {
    if steps == [] then []
    else
      var n := |steps| - 1;
      Policies(steps[..n]) + if steps[n].Connect? && steps[n].policy.Some? then [steps[n].policy.value] else []
  }

  /** The owners are those of the given policies. */
  ghost predicate Handed(owners: map<nat, Owner>, nextOwner: nat, policies: seq<Policy>) {
    && nextOwner == |policies|
    && (forall o :: o in owners <==> 0 <= o < |policies|)
    && (forall o :: o in owners ==> owners[o].policy == policies[o])
  }

  /** Nothing but a `connect` changes which policies there are. */
  ghost predicate SamePolicies(s: State, r: State) {
    && r.nextOwner == s.nextOwner && r.owners.Keys == s.owners.Keys
    && (forall o :: o in s.owners ==> r.owners[o].policy == s.owners[o].policy)
  }

  lemma DialSamePolicies(s: State, id: nat, ok: bool, ip: nat)
    requires id in s.dials
    ensures SamePolicies(s, DoDialDone(s, id, ok, ip))
  {
  }

  lemma ScheduleSamePolicies(s: State, p: Plan)
    ensures SamePolicies(s, ScheduleReconnect(s, p))
  {
  }

  lemma HandshakeSamePolicies(s: State, id: nat, ok: bool)
    requires id in s.handshakes
    ensures SamePolicies(s, DoClientHandshake(s, id, ok))
  {
    var plan := s.handshakes[id].plan;
    if plan.Some? && !s.stopped && !ok {
      ScheduleSamePolicies(s.(handshakes := s.handshakes - {id}), plan.value);
    }
  }

  lemma RemoveSamePolicies(s: State, id: nat)
    ensures SamePolicies(s, DoRemove(s, id))
  {
  }

  lemma TimerSamePolicies(s: State, id: nat, aborted: bool)
    requires id in s.timers
    ensures SamePolicies(s, DoTimer(s, id, aborted))
  {
  }

  lemma StepSamePolicies(caps: Caps, s: State, step: Step)
    requires !(step.Connect? && step.policy.Some?)
    ensures SamePolicies(s, Apply(caps, s, step))
  {
    match step
    case DialDone(id, ok, ip) => if id in s.dials { DialSamePolicies(s, id, ok, ip); }
    case ClientHandshake(id, ok) => if id in s.handshakes { HandshakeSamePolicies(s, id, ok); }
    case RemoveSession(id) => RemoveSamePolicies(s, id);
    case TimerDone(id, aborted) => if id in s.timers { TimerSamePolicies(s, id, aborted); }
    case Accept(_) =>
    case ServerHandshake(_, _) =>
    case Connect(_) =>
    case Stop =>
  }

  lemma {:induction false} PoliciesAreHanded(caps: Caps, steps: seq<Step>)
    ensures var s := Exec(caps, INIT, steps); Handed(s.owners, s.nextOwner, Policies(steps))
  {
    if steps != [] {
      var n := |steps| - 1;
      PoliciesAreHanded(caps, steps[..n]);
      if !(steps[n].Connect? && steps[n].policy.Some?) {
        StepSamePolicies(caps, Exec(caps, INIT, steps[..n]), steps[n]);
        assert Policies(steps) == Policies(steps[..n]);
      }
    }
  }

  /** What a run says about one owner, its policy being p. */
  ghost predicate BackedOff(s: State, o: nat, p: Policy) {
    && o in s.owners
    && var w := s.owners[o];
    && w.policy == p
    && (forall k :: 1 <= k <= |w.waits| ==> w.waits[k - 1] == Wait(p, k))
    && (p.maxAttempts != 0 ==> |w.waits| <= p.maxAttempts)
    && (w.place.AtTimer? ==> PlanAt(s, w.place).Some? && w.waits != []
                             && PlanAt(s, w.place).value.delay == w.waits[|w.waits| - 1]
                             && w.redials + 1 == |w.waits|)
    && (w.place.AtLive? ==> w.waits == [] && w.redials == 0)
    && (!IsHeld(w.place) ==>
          || (p.maxAttempts != 0 && w.redials == |w.waits| == p.maxAttempts)
          || s.stopped
          || w.place == Aborted)
  }

  lemma OwnerBackedOff(s: State, o: nat)
    requires Ownership(s) && o in s.owners
    ensures BackedOff(s, o, s.owners[o].policy)
  {
    assert Recorded(s, o);
    assert Placed(s, s.owners[o].place);
  }

  /** Backoff law over every run: the waits of the o-th `connect` with a policy since its last live session are
      the delays of that policy in order, never more than its limit; a pending timer waits the last of them; and
      a plan that is held nowhere was exhausted after exactly its limit of re-dials, or met a stopped manager or
      an aborted timer. */
  lemma BackoffInEveryRun(caps: Caps, steps: seq<Step>, o: nat)
    requires o < |Policies(steps)|
    ensures BackedOff(Exec(caps, INIT, steps), o, Policies(steps)[o])
  {
    PoliciesAreHanded(caps, steps);
    AlwaysKept(caps, steps);
    OwnerBackedOff(Exec(caps, INIT, steps), o);
  }

  /** For a policy whose initial delay is within its maximum, those waits are the capped exponential ones. */
  lemma CappedInEveryRun(caps: Caps, steps: seq<Step>, o: nat)
    requires o < |Policies(steps)|
    requires var p := Policies(steps)[o]; 0.0 <= p.initial <= p.maxDelay && 0.0 <= p.multiplier
    ensures var s := Exec(caps, INIT, steps);
            && o in s.owners
            && forall k :: 1 <= k <= |s.owners[o].waits| ==> s.owners[o].waits[k - 1] == Capped(Policies(steps)[o], k)
  {
    BackoffInEveryRun(caps, steps, o);
    var waits, p := Exec(caps, INIT, steps).owners[o].waits, Policies(steps)[o];
    forall k | 1 <= k <= |waits|
      ensures waits[k - 1] == Capped(p, k)
    {
      WaitIsCapped(p, k);
    }
  }

  // ----- Stop is final -----

  /** Compared with `s`, no timer has been armed and no plan has waited, re-dialled or gone live. */
  ghost predicate Quiescent(s: State, r: State) {
    && r.stopped && r.live == map[]
    && r.timers.Keys <= s.timers.Keys
    && s.owners.Keys <= r.owners.Keys
    && (forall o :: o in s.owners ==>
          r.owners[o].waits == s.owners[o].waits && r.owners[o].redials == s.owners[o].redials)
    && (forall o :: o in r.owners && o !in s.owners ==> r.owners[o].waits == [] && r.owners[o].redials == 0)
  }

  lemma StoppedStep(caps: Caps, s: State, step: Step)
    requires s.stopped && s.live == map[] && s.nextOwner !in s.owners
    ensures Quiescent(s, Apply(caps, s, step))
  {
    match step
    case DialDone(id, ok, ip) => if id in s.dials { StoppedDial(s, id, ok, ip); }
    case ClientHandshake(id, ok) => if id in s.handshakes { StoppedHandshake(s, id, ok); }
    case TimerDone(id, aborted) => if id in s.timers { StoppedTimer(s, id, aborted); }
    case RemoveSession(id) => StoppedRemove(s, id);
    case Connect(policy) => StoppedConnect(s, policy);
    case _ =>
  }

  lemma StoppedRemove(s: State, id: nat)
    requires s.stopped && s.live == map[]
    ensures Quiescent(s, DoRemove(s, id))
  {
  }

  lemma StoppedConnect(s: State, policy: Option<Policy>)
    requires s.stopped && s.live == map[] && s.nextOwner !in s.owners
    ensures Quiescent(s, DoConnect(s, policy))
  {
  }

  lemma StoppedTimer(s: State, id: nat, aborted: bool)
    requires s.stopped && s.live == map[] && id in s.timers
    ensures Quiescent(s, DoTimer(s, id, aborted))
  {
  }

  lemma StoppedDial(s: State, id: nat, ok: bool, ip: nat)
    requires s.stopped && s.live == map[] && id in s.dials
    ensures Quiescent(s, DoDialDone(s, id, ok, ip))
  {
  }

  lemma StoppedHandshake(s: State, id: nat, ok: bool)
    requires s.stopped && s.live == map[] && id in s.handshakes
    ensures Quiescent(s, DoClientHandshake(s, id, ok))
  {
  }

  lemma QuiescentTransitive(a: State, b: State, c: State)
    requires Quiescent(a, b) && Quiescent(b, c)
    ensures Quiescent(a, c)
  {
  }

  lemma OwnersNumbered(caps: Caps, steps: seq<Step>)
    ensures Exec(caps, INIT, steps).nextOwner !in Exec(caps, INIT, steps).owners
  {
    AlwaysKept(caps, steps);
  }

  /** Stop is final for reconnects: whatever happens after stop, the reconnect map stays empty, no backoff
      timer is armed, nothing re-dials, and no session carrying a policy is registered. */
  lemma {:induction false} StopIsFinal(caps: Caps, before: seq<Step>, after: seq<Step>)
    ensures Quiescent(Exec(caps, INIT, before + [Stop]), Exec(caps, INIT, before + [Stop] + after))
  {
    var start := before + [Stop];
    if after == [] {
      assert start + after == start;
      ExecSnoc(caps, before, Stop);
      StopQuiesces(caps, Exec(caps, INIT, before));
    } else {
      var n := |after| - 1;
      var m := start + after[..n];
      StopIsFinal(caps, before, after[..n]);
      assert start + after == m + [after[n]];
      ExecSnoc(caps, m, after[n]);
      OwnersNumbered(caps, m);
      StaysQuiescent(caps, Exec(caps, INIT, start), Exec(caps, INIT, m), after[n]);
    }
  }

  lemma ExecSnoc(caps: Caps, steps: seq<Step>, step: Step)
    ensures Exec(caps, INIT, steps + [step]) == Apply(caps, Exec(caps, INIT, steps), step)
  {
    assert (steps + [step])[..|steps|] == steps;
  }

  lemma StaysQuiescent(caps: Caps, s: State, m: State, step: Step)
    requires Quiescent(s, m) && m.nextOwner !in m.owners
    ensures Quiescent(s, Apply(caps, m, step))
  {
    StoppedStep(caps, m, step);
    QuiescentTransitive(s, m, Apply(caps, m, step));
  }

  lemma StopQuiesces(caps: Caps, s: State)
    ensures Quiescent(Apply(caps, s, Stop), Apply(caps, s, Stop))
  {
  }
}
