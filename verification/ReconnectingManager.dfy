/**
 boost_session_manager as an object: each public method is one public call or one completion handler of
 src/connection/session_manager.hpp, and the step of the manager that it stands for.
 */
module ReconnectingManager {
  import opened Bytes
  import opened SessionRegistry = Registry
  import opened Backoff
  import M = Manager

  /** The backoff timers after a failure: one more, unless there is no plan, it is out of attempts or the manager
      is stopped. */
  function Rearmed(timers: map<nat, Plan>, newId: nat, stopped: bool, plan: Option<Plan>): (r: map<nat, Plan>) {
    if stopped || plan.None? then timers
    else
      var p := plan.value;
      if p.policy.maxAttempts != 0 && p.attempts >= p.policy.maxAttempts then timers
      else timers[newId := Plan(p.owner, p.policy, p.attempts + 1, p.delay)]
  }

  function Lookup(plans: map<nat, Plan>, id: nat): (p: Option<Plan>) {
    if id in plans then Some(plans[id]) else None
  }

  /** A boost_session_manager and the session_manager it extends, which keeps the list and the index. */
  class BoostSessionManager {
    const caps: M.Caps
    const base: SessionManager
    var inbound: map<nat, Session>
    var dials: map<nat, Option<Plan>>
    var handshakes: map<nat, M.Outbound>
    var reconnectMap: map<nat, Plan>
    var timers: map<nat, Plan>
    var reconnectStopped: bool
    var nextId: nat
    var nextOwner: nat
    ghost var cleared: seq<nat>
    ghost var owners: map<nat, M.Owner>
    ghost var history: seq<M.Step>

    ghost function Abstract(): (s: M.State)
      reads this, base
    {
      M.State(base.Abstract(), inbound, dials, handshakes, reconnectMap, timers, reconnectStopped,
              nextId, nextOwner, base.log, cleared, owners)
    }

    /** The object has been driven by a run of the manager, so everything proved of runs holds of it. */
    ghost predicate Valid()
      reads this, base
    {
      && base.maxSessions == caps.maxSessions && base.maxPerIp == caps.maxPerIp
      && Abstract() == M.Exec(caps, M.INIT, history)
    }

    constructor (caps: M.Caps)
      ensures Valid() && fresh(base) && Abstract() == M.INIT && this.caps == caps
    {
      this.caps := caps;
      base := new SessionManager(caps.maxSessions, caps.maxPerIp);
      inbound, dials, handshakes, reconnectMap, timers := map[], map[], map[], map[], map[];
      reconnectStopped, nextId, nextOwner := false, 0, 0;
      cleared, owners, history := [], map[], [];
    }

    /** Adds a step that has just been taken to the history. */
    ghost method Record(before: M.State, step: M.Step)
      requires before == M.Exec(caps, M.INIT, history) && Abstract() == M.Apply(caps, before, step)
      requires base.maxSessions == caps.maxSessions && base.maxPerIp == caps.maxPerIp
      modifies this`history
      ensures Valid() && history == old(history) + [step]
    {
      M.ExecSnoc(caps, history, step);
      history := history + [step];
    }

    /** The per-address index is exact. */
    lemma IndexIsExact()
      requires Valid()
      ensures base.Valid()
    {
      M.AlwaysKept(caps, history);
    }

    /** What a user of the object can rely on between calls: an exact index, reconnect entries for listed
        sessions only, at most one dial, handshake, live session or timer for each connect with a policy,
        and balanced callbacks. */
    lemma Consequences(a: M.Place, b: M.Place)
      requires Valid()
      ensures Agrees(base.Abstract())
      ensures forall id :: id in reconnectMap ==> Listed(base.sessions, id)
      ensures var p, q := M.PlanAt(Abstract(), a), M.PlanAt(Abstract(), b);
              p.Some? && q.Some? && p.value.owner == q.value.owner ==> a == b
      ensures M.Conserved(base.log, base.sessions, cleared)
    {
      IndexIsExact();
      M.ReconnectLinearity(caps, history, a, b);
      M.CallbackConservation(caps, history);
    }

    /** add_session, up to the start of the server handshake: admitted exactly when neither the listed
        sessions nor those listed from the address have reached their cap. */
    method AddSession(ip: nat) returns (admitted: bool)
      requires Valid()
      modifies this, base
      ensures Valid() && Abstract() == M.DoAccept(caps, old(Abstract()), ip)
      ensures admitted == Admits(caps.maxSessions, caps.maxPerIp, old(base.sessions), ip)
      ensures admitted == (old(nextId) in inbound && inbound[old(nextId)].ip == ip)
      ensures base.sessions == old(base.sessions)
    {
      IndexIsExact();
      ghost var before := Abstract();
      AdmitsIsCanIpConnect(caps, base.Abstract(), ip);
      NextIdIsFree();
      admitted := base.CanIpConnect(ip);
      if admitted {
        inbound := inbound[nextId := Session(nextId, ip)];
      }
      nextId := nextId + 1;
      Record(before, M.Accept(ip));
    }

    lemma NextIdIsFree()
      requires Valid()
      ensures nextId !in inbound
    {
      M.AlwaysKept(caps, history);
    }

    /** The completion of a server handshake: lists the session if it succeeded, whatever the caps say now. */
    method OnServerHandshake(id: nat, ok: bool)
      requires Valid() && id in inbound
      modifies this, base
      ensures Valid() && Abstract() == M.DoServerHandshake(old(Abstract()), id, ok)
      ensures base.Valid() && id !in inbound
      ensures base.sessions == if ok then old(base.sessions) + [old(inbound)[id]] else old(base.sessions)
    {
      IndexIsExact();
      ghost var before := Abstract();
      var sess := inbound[id];
      inbound := inbound - {id};
      if ok {
        base.RegisterAndStart(sess);
      }
      Record(before, M.ServerHandshake(id, ok));
    }

    /** connect, with or without a reconnect policy, up to the start of the dial. */
    method Connect(policy: Option<Policy>) returns (id: nat)
      requires Valid()
      modifies this
      ensures Valid() && Abstract() == M.DoConnect(old(Abstract()), policy)
      ensures id == old(nextId)
      ensures dials == old(dials)[id := if policy.None? then None
                                        else Some(Plan(old(nextOwner), policy.value, 0, policy.value.initial))]
    {
      ghost var before := Abstract();
      id := nextId;
      nextId := nextId + 1;
      match policy {
        case None =>
          dials := dials[id := None];
        case Some(p) =>
          dials := dials[id := Some(Plan(nextOwner, p, 0, p.initial))];
          owners := owners[nextOwner := M.Owner(p, M.AtDial(id), [], 0)];
          nextOwner := nextOwner + 1;
      }
      Record(before, M.Connect(policy));
    }

    /** Counts the attempt and arms a backoff timer, unless stopped or out of attempts. */
    method ScheduleReconnect(state: Plan)
      modifies this
      ensures Abstract() == M.ScheduleReconnect(old(Abstract()), state) && history == old(history)
      ensures timers == Rearmed(old(timers), old(nextId), reconnectStopped, Some(state))
    {
      if reconnectStopped {
        owners := M.Moved(owners, state.owner, M.Cancelled);
        return;
      }
      var next := state.(attempts := state.attempts + 1);
      if next.policy.maxAttempts != 0 && next.attempts > next.policy.maxAttempts {
        owners := M.Moved(owners, state.owner, M.Exhausted);
        return;
      }
      owners := M.Waiting(owners, state.owner, nextId, next.delay);
      timers := timers[nextId := next];
      nextId := nextId + 1;
    }

    /** Starts the client handshake of a connected session, which now holds the plan. */
    method StartHandshake(id: nat, ip: nat, state: Option<Plan>)
      modifies this
      ensures var before := old(Abstract());
              Abstract() == before.(handshakes := before.handshakes[id := M.Outbound(ip, state)],
                                    owners := if state.None? then before.owners
                                              else M.Moved(before.owners, state.value.owner, M.AtHandshake(id)))
      ensures history == old(history)
    {
      handshakes := handshakes[id := M.Outbound(ip, state)];
      if state.Some? {
        owners := M.Moved(owners, state.value.owner, M.AtHandshake(id));
      }
    }

    /** Drops the plan of a connect, because the manager was stopped or the plan's timer aborted. */
    method Drop(state: Plan, ghost place: M.Place)
      modifies this`owners
      ensures Abstract() == old(Abstract()).(owners := M.Moved(old(owners), state.owner, place))
    {
      owners := M.Moved(owners, state.owner, place);
    }

    /** Where a finished dial leads: nowhere after stop, to a new attempt, or on to the handshake. */
    method FinishDial(id: nat, state: Option<Plan>, connected: bool, ip: nat)
      requires id in dials && dials[id] == state
      modifies this
      ensures Abstract() == M.DoDialDone(old(Abstract()), id, connected, ip) && history == old(history)
      ensures id !in dials
      ensures timers == if connected then old(timers) else Rearmed(old(timers), old(nextId), reconnectStopped, state)
      ensures handshakes == if connected && !(state.Some? && reconnectStopped)
                            then old(handshakes)[id := M.Outbound(ip, state)] else old(handshakes)
    {
      dials := dials - {id};
      if state.Some? && reconnectStopped {
        Drop(state.value, M.Cancelled);
      } else if !connected {
        if state.Some? {
          ScheduleReconnect(state.value);
        }
      } else {
        StartHandshake(id, ip, state);
      }
    }

    /** The completion of async_connect. */
    method OnConnected(id: nat, connected: bool, ip: nat)
      requires Valid() && id in dials
      modifies this
      ensures Valid() && Abstract() == M.DoDialDone(old(Abstract()), id, connected, ip)
      ensures id !in dials
      ensures var state := old(dials)[id];
              && timers == (if connected then old(timers)
                            else Rearmed(old(timers), old(nextId), reconnectStopped, state))
              && handshakes == if connected && !(state.Some? && reconnectStopped)
                               then old(handshakes)[id := M.Outbound(ip, state)] else old(handshakes)
    {
      ghost var before := Abstract();
      FinishDial(id, dials[id], connected, ip);
      Record(before, M.DialDone(id, connected, ip));
    }

    /** Where a finished handshake leads: nowhere after stop, to a new attempt, or to a registered session
        whose plan, if it has one, starts over. */
    method FinishHandshake(id: nat, h: M.Outbound, ok: bool)
      requires base.Valid() && id in handshakes && handshakes[id] == h
      modifies this, base
      ensures Abstract() == M.DoClientHandshake(old(Abstract()), id, ok) && history == old(history)
      ensures base.Valid() && id !in handshakes
      ensures base.sessions == old(base.sessions) + if Succeeds(h, ok) then [Session(id, h.ip)] else []
      ensures timers == if ok then old(timers) else Rearmed(old(timers), old(nextId), reconnectStopped, h.plan)
      ensures reconnectMap == if Succeeds(h, ok) && h.plan.Some?
                              then old(reconnectMap)[id := Fresh(h.plan.value.owner, h.plan.value.policy)]
                              else old(reconnectMap)
    {
      handshakes := handshakes - {id};
      if h.plan.Some? && reconnectStopped {
        Drop(h.plan.value, M.Cancelled);
      } else if !ok {
        if h.plan.Some? {
          ScheduleReconnect(h.plan.value);
        }
      } else {
        if h.plan.Some? {
          var state := h.plan.value;
          reconnectMap := reconnectMap[id := state.(attempts := 0, delay := state.policy.initial)];
          owners := M.Restarted(owners, state.owner, id);
        }
        base.RegisterAndStart(Session(id, h.ip));
      }
    }

    /** The handshake ends with a registered session. */
    predicate Succeeds(h: M.Outbound, ok: bool)
      reads this
    {
      ok && !(h.plan.Some? && reconnectStopped)
    }

    /** The completion of the client handshake. */
    method OnClientHandshake(id: nat, ok: bool)
      requires Valid() && id in handshakes
      modifies this, base
      ensures Valid() && Abstract() == M.DoClientHandshake(old(Abstract()), id, ok)
      ensures base.Valid() && id !in handshakes
      ensures var h := old(handshakes)[id];
              && base.sessions == old(base.sessions) + (if Succeeds(h, ok) then [Session(id, h.ip)] else [])
              && timers == (if ok then old(timers) else Rearmed(old(timers), old(nextId), reconnectStopped, h.plan))
              && reconnectMap == if Succeeds(h, ok) && h.plan.Some?
                                 then old(reconnectMap)[id := Fresh(h.plan.value.owner, h.plan.value.policy)]
                                 else old(reconnectMap)
    {
      IndexIsExact();
      ghost var before := Abstract();
      FinishHandshake(id, handshakes[id], ok);
      Record(before, M.ClientHandshake(id, ok));
    }

    /** Hands the plan of a removed session, if it has one, to schedule_reconnect. */
    method OnSessionRemoved(id: nat)
      modifies this
      ensures var before := old(Abstract());
              Abstract() == if id in before.live
                            then M.ScheduleReconnect(before.(live := before.live - {id}), before.live[id])
                            else before
      ensures id !in reconnectMap && history == old(history)
      ensures timers == Rearmed(old(timers), old(nextId), reconnectStopped, Lookup(old(reconnectMap), id))
    {
      if id in reconnectMap {
        var state := reconnectMap[id];
        reconnectMap := reconnectMap - {id};
        ScheduleReconnect(state);
      }
    }

    /** Takes a session off the list and the index, reports it and reconnects it if it has a policy.  The
        session is then neither listed nor in the reconnect map, and the index is exact. */
    method RemoveSession(id: nat)
      requires Valid()
      modifies this, base
      ensures Valid() && Abstract() == M.DoRemove(old(Abstract()), id)
      ensures base.Valid() && !Listed(base.sessions, id) && id !in reconnectMap
      ensures timers == Rearmed(old(timers), old(nextId), reconnectStopped, Lookup(old(reconnectMap), id))
    {
      IndexIsExact();
      LiveIsListed(id);
      ghost var before := Abstract();
      RemovedIsNotListed(caps, history, id);
      var found := base.RemoveSession(id);
      if found {
        OnSessionRemoved(id);
      }
      Record(before, M.RemoveSession(id));
    }

    lemma LiveIsListed(id: nat)
      requires Valid()
      ensures id in reconnectMap ==> Listed(base.sessions, id)
    {
      M.AlwaysKept(caps, history);
    }

    /** Dials again with a session of its own. */
    method AttemptReconnect(state: Plan)
      modifies this
      ensures var before := old(Abstract());
              Abstract() == before.(dials := before.dials[before.nextId := Some(state)], nextId := before.nextId + 1,
                                    owners := M.Redialled(before.owners, state.owner, before.nextId))
      ensures history == old(history)
    {
      owners := M.Redialled(owners, state.owner, nextId);
      dials := dials[nextId := Some(state)];
      nextId := nextId + 1;
    }

    /** Where a finished backoff timer leads: nowhere if aborted or after stop, or to a re-dial. */
    method FinishTimer(id: nat, state: Plan, aborted: bool)
      requires id in timers && timers[id] == state
      modifies this
      ensures Abstract() == M.DoTimer(old(Abstract()), id, aborted) && history == old(history)
      ensures id !in timers
      ensures dials == if aborted || reconnectStopped then old(dials) else old(dials)[old(nextId) := Some(Fire(state))]
    {
      timers := timers - {id};
      if aborted || reconnectStopped {
        Drop(state, if aborted then M.Aborted else M.Cancelled);
      } else {
        var next := state.(delay := Min(state.delay * state.policy.multiplier, state.policy.maxDelay));
        assert next == Fire(state);
        AttemptReconnect(next);
      }
    }

    /** A backoff timer ends: re-dial with the next delay, unless it was aborted or the manager stopped. */
    method OnTimer(id: nat, aborted: bool)
      requires Valid() && id in timers
      modifies this
      ensures Valid() && Abstract() == M.DoTimer(old(Abstract()), id, aborted)
      ensures id !in timers
      ensures var state := old(timers)[id];
              dials == if aborted || reconnectStopped then old(dials)
                       else old(dials)[old(nextId) := Some(Plan(state.owner, state.policy, state.attempts,
                              Min(state.delay * state.policy.multiplier, state.policy.maxDelay)))]
    {
      ghost var before := Abstract();
      FinishTimer(id, timers[id], aborted);
      Record(before, M.TimerDone(id, aborted));
    }

    /** Stops reconnecting, closes the socket of every listed session and empties list and index.  Whatever
        is done with the manager afterwards, no backoff timer is armed, no policy re-dials and none goes live. */
    method Stop()
      requires Valid()
      modifies this, base
      ensures Valid() && Abstract() == M.DoStop(old(Abstract()))
      ensures base.closed == old(base.closed) + set s | s in old(base.sessions) :: s.id
      ensures base.sessions == [] && base.perIp == map[] && reconnectMap == map[] && reconnectStopped
      ensures forall after :: M.Quiescent(Abstract(), M.Exec(caps, M.INIT, history + after))
    {
      ghost var before := Abstract();
      forall after
        ensures M.Quiescent(M.DoStop(Abstract()), M.Exec(caps, M.INIT, history + [M.Stop] + after))
      {
        M.StopIsFinal(caps, history, after);
      }
      cleared, owners := cleared + Ids(base.sessions), M.AllCancelled(owners);
      reconnectStopped := true;
      reconnectMap := map[];
      base.Stop();
      Record(before, M.Stop);
    }
  }

  /** can_ip_connect reads the index; where that is exact, it decides by the listed sessions themselves. */
  lemma AdmitsIsCanIpConnect(caps: M.Caps, reg: SessionRegistry.Registry, ip: nat)
    requires Agrees(reg)
    ensures M.CanIpConnect(caps, reg, ip) == Admits(caps.maxSessions, caps.maxPerIp, reg.sessions, ip)
  {
  }

  /** In every run, a session is listed at most once, so that after its removal it is not. */
  lemma RemovedIsNotListed(caps: M.Caps, steps: seq<M.Step>, id: nat)
    ensures !Listed(M.DoRemove(M.Exec(caps, M.INIT, steps), id).registry.sessions, id)
  {
    M.CallbackConservation(caps, steps);
    RemovalUnlists(M.Exec(caps, M.INIT, steps), id);
  }

  lemma RemovalUnlists(s: M.State, id: nat)
    requires M.Balanced(s.log, s.registry.sessions, s.cleared)
    ensures !Listed(M.DoRemove(s, id).registry.sessions, id)
  {
    if Listed(s.registry.sessions, id) {
      RemoveLists(s.registry, id);
      ListedCounts(Remove(s.registry, id).sessions, id);
      M.RemoveEffect(s, id);
    }
  }
}
