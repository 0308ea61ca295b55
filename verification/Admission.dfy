/** How far the caps of can_ip_connect reach, the check and the registration being different steps. */
module Admission {
  import opened Bytes
  import opened Registry
  import opened Manager

  /** No outbound connection takes part. */
  predicate InboundOnly(steps: seq<Step>) {
    forall step :: step in steps ==> step.Accept? || step.ServerHandshake? || step.RemoveSession? || step.Stop?
  }

  /** The pending handshakes from an address. */
  function PendingFrom(inbound: map<nat, Session>, ip: nat): (ids: set<nat>) {
    set id | id in inbound && inbound[id].ip == ip
  }

  /** In every state of the run at most p handshakes are pending. */
  ghost predicate AtMostPending(caps: Caps, steps: seq<Step>, p: nat) {
    && |Exec(caps, INIT, steps).inbound| <= p
    && (steps != [] ==> AtMostPending(caps, steps[..|steps| - 1], p))
  }

  /** In every state of the run at most p handshakes from an address are pending. */
  ghost predicate AtMostPendingFrom(caps: Caps, steps: seq<Step>, ip: nat, p: nat) {
    && |PendingFrom(Exec(caps, INIT, steps).inbound, ip)| <= p
    && (steps != [] ==> AtMostPendingFrom(caps, steps[..|steps| - 1], ip, p))
  }

  lemma RemovedSize(m: map<nat, Session>, id: nat)
    requires id in m
    ensures |m - {id}| == |m| - 1
  {
    assert (m - {id}).Keys == m.Keys - {id};
    assert |m - {id}| == |(m - {id}).Keys| && |m| == |m.Keys|;
  }

  lemma AddedSize(m: map<nat, Session>, id: nat, sess: Session)
    requires id !in m
    ensures |m[id := sess]| == |m| + 1
  {
    assert m[id := sess].Keys == m.Keys + {id};
    assert |m[id := sess]| == |m[id := sess].Keys| && |m| == |m.Keys|;
  }

  /** Sessions and pending handshakes together exceed the cap by at most p - 1. */
  ghost predicate Within(cap: nat, sessions: nat, pending: nat, p: nat) {
    sessions + pending <= cap + p - 1
  }

  ghost predicate WithinCap(caps: Caps, s: State, p: nat) {
    Within(caps.maxSessions, |s.registry.sessions|, |s.inbound|, p)
  }

  lemma AcceptBound(caps: Caps, s: State, ip: nat, p: nat)
    requires caps.maxSessions != 0 && WithinCap(caps, s, p) && |DoAccept(caps, s, ip).inbound| <= p
    ensures WithinCap(caps, DoAccept(caps, s, ip), p)
  {
  }

  lemma HandshakeBound(caps: Caps, s: State, id: nat, ok: bool, p: nat)
    requires WithinCap(caps, s, p) && id in s.inbound
    ensures WithinCap(caps, DoServerHandshake(s, id, ok), p)
  {
    RemovedSize(s.inbound, id);
  }

  /** Removing a session leaves the pending handshakes, and no address with more sessions. */
  lemma RemoveShrinks(s: State, id: nat, ip: nat)
    ensures DoRemove(s, id).inbound == s.inbound
    ensures |DoRemove(s, id).registry.sessions| <= |s.registry.sessions|
    ensures Count(DoRemove(s, id).registry.sessions, ip) <= Count(s.registry.sessions, ip)
  {
    if Listed(s.registry.sessions, id) {
      CountSplit(s.registry.sessions, PositionOf(s.registry.sessions, id), ip);
    }
  }

  lemma StepBound(caps: Caps, s: State, step: Step, p: nat)
    requires caps.maxSessions != 0 && p >= 1 && WithinCap(caps, s, p) && |Apply(caps, s, step).inbound| <= p
    requires step.Accept? || step.ServerHandshake? || step.RemoveSession? || step.Stop?
    ensures WithinCap(caps, Apply(caps, s, step), p)
  {
    match step
    case Accept(ip) => AcceptBound(caps, s, ip, p);
    case ServerHandshake(id, ok) => if id in s.inbound { HandshakeBound(caps, s, id, ok, p); }
    case RemoveSession(id) => RemoveShrinks(s, id, 0);
    case Stop =>
  }

  /** Admission bound: with at most p >= 1 handshakes pending at once, sessions and pending handshakes
      together never exceed the cap by more than p - 1; so the cap itself holds when handshakes complete
      one at a time. */
  lemma {:induction false} AdmissionBound(caps: Caps, steps: seq<Step>, p: nat)
    requires caps.maxSessions != 0 && p >= 1 && InboundOnly(steps) && AtMostPending(caps, steps, p)
    ensures var s := Exec(caps, INIT, steps); |s.registry.sessions| + |s.inbound| <= caps.maxSessions + p - 1
  {
    if steps != [] {
      var n := |steps| - 1;
      AdmissionBound(caps, steps[..n], p);
      StepBound(caps, Exec(caps, INIT, steps[..n]), steps[n], p);
    }
  }

  /** The cap that admission from one address meets first. */
  function Tighter(caps: Caps): (cap: nat) {
    if caps.maxSessions != 0 && caps.maxSessions < caps.maxPerIp then caps.maxSessions else caps.maxPerIp
  }

  ghost predicate WithinCapFrom(caps: Caps, s: State, ip: nat, p: nat) {
    Within(Tighter(caps), Count(s.registry.sessions, ip), |PendingFrom(s.inbound, ip)|, p)
  }

  lemma {:induction false} CountWithin(sessions: seq<Session>, ip: nat)
    ensures Count(sessions, ip) <= |sessions|
  {
    if sessions != [] {
      CountWithin(sessions[1..], ip);
    }
  }

  lemma AcceptBoundFrom(caps: Caps, s: State, from: nat, ip: nat, p: nat)
    requires caps.maxPerIp != 0 && Agrees(s.registry) && WithinCapFrom(caps, s, ip, p)
    requires |PendingFrom(DoAccept(caps, s, from).inbound, ip)| <= p && s.nextId !in s.inbound
    ensures WithinCapFrom(caps, DoAccept(caps, s, from), ip, p)
  {
    var r := DoAccept(caps, s, from);
    CountWithin(s.registry.sessions, ip);
    if from != ip || !CanIpConnect(caps, s.registry, from) {
      assert PendingFrom(r.inbound, ip) == PendingFrom(s.inbound, ip);
    }
  }

  lemma HandshakeBoundFrom(caps: Caps, s: State, id: nat, ok: bool, ip: nat, p: nat)
    requires WithinCapFrom(caps, s, ip, p) && id in s.inbound
    ensures WithinCapFrom(caps, DoServerHandshake(s, id, ok), ip, p)
  {
    var sess := s.inbound[id];
    CountConcat(s.registry.sessions, [sess], ip);
    assert [sess][1..] == [];
    assert PendingFrom(s.inbound - {id}, ip) == PendingFrom(s.inbound, ip) - {id};
  }

  lemma StepBoundFrom(caps: Caps, s: State, step: Step, ip: nat, p: nat)
    requires caps.maxPerIp != 0 && p >= 1 && Agrees(s.registry) && s.nextId !in s.inbound
    requires WithinCapFrom(caps, s, ip, p) && |PendingFrom(Apply(caps, s, step).inbound, ip)| <= p
    requires step.Accept? || step.ServerHandshake? || step.RemoveSession? || step.Stop?
    ensures WithinCapFrom(caps, Apply(caps, s, step), ip, p)
  {
    match step
    case Accept(from) => AcceptBoundFrom(caps, s, from, ip, p);
    case ServerHandshake(id, ok) => if id in s.inbound { HandshakeBoundFrom(caps, s, id, ok, ip, p); }
    case RemoveSession(id) => RemoveShrinks(s, id, ip);
    case Stop =>
  }

  lemma IndexIsExact(caps: Caps, steps: seq<Step>)
    ensures Agrees(Exec(caps, INIT, steps).registry)
    ensures Exec(caps, INIT, steps).nextId !in Exec(caps, INIT, steps).inbound
  {
    AlwaysKept(caps, steps);
  }

  /** The same bound for each address, with that address's own pending handshakes and the tighter cap. */
  lemma {:induction false} AdmissionBoundPerIp(caps: Caps, steps: seq<Step>, ip: nat, p: nat)
    requires caps.maxPerIp != 0 && p >= 1 && InboundOnly(steps) && AtMostPendingFrom(caps, steps, ip, p)
    ensures var s := Exec(caps, INIT, steps);
            Count(s.registry.sessions, ip) + |PendingFrom(s.inbound, ip)| <= Tighter(caps) + p - 1
  {
    if steps != [] {
      var n := |steps| - 1;
      AdmissionBoundPerIp(caps, steps[..n], ip, p);
      IndexIsExact(caps, steps[..n]);
      StepBoundFrom(caps, Exec(caps, INIT, steps[..n]), steps[n], ip, p);
    }
  }

  // The bounds are reached: the caps alone are not invariants.

  /** Who connects in the runs below: everyone from one address, or each from an address of its own. */
  datatype Crowd = From(ip: nat) | Scattered

  function Address(crowd: Crowd, id: nat): (ip: nat) {
    if crowd.From? then crowd.ip else id
  }

  /** The first n sessions of a crowd. */
  function Arrivals(crowd: Crowd, n: nat): (sessions: seq<Session>) {
    if n == 0 then [] else Arrivals(crowd, n - 1) + [Session(n - 1, Address(crowd, n - 1))]
  }

  lemma {:induction false} CountArrivals(crowd: Crowd, n: nat, ip: nat)
    ensures |Arrivals(crowd, n)| == n
    ensures crowd == From(ip) ==> Count(Arrivals(crowd, n), ip) == n
    ensures crowd.Scattered? && n <= ip ==> Count(Arrivals(crowd, n), ip) == 0
  {
    if n > 0 {
      CountArrivals(crowd, n - 1, ip);
      var last := [Session(n - 1, Address(crowd, n - 1))];
      CountConcat(Arrivals(crowd, n - 1), last, ip);
      assert last[1..] == [];
    }
  }

  /** The handshakes of ids lo up to hi pending. */
  ghost predicate PendingBetween(inbound: map<nat, Session>, crowd: Crowd, lo: nat, hi: nat) {
    && lo <= hi && |inbound| == hi - lo
    && (forall id :: id in inbound <==> lo <= id < hi)
    && (forall id :: id in inbound ==> inbound[id] == Session(id, Address(crowd, id)))
  }

  /** A state of an inbound run: the first n of a crowd registered, the others up to hi pending. */
  ghost predicate Shape(s: State, crowd: Crowd, n: nat, hi: nat) {
    && s.registry.sessions == Arrivals(crowd, n) && Agrees(s.registry) && s.nextId == hi
    && PendingBetween(s.inbound, crowd, n, hi)
  }

  /** With n of a crowd registered, the next one is admitted. */
  predicate Room(caps: Caps, crowd: Crowd, n: nat) {
    (caps.maxSessions == 0 || n < caps.maxSessions) && (caps.maxPerIp == 0 || crowd.Scattered? || n < caps.maxPerIp)
  }

  /** One more step of a run that stays within p pending handshakes. */
  lemma Extend(caps: Caps, steps: seq<Step>, step: Step, p: nat)
    requires InboundOnly(steps) && AtMostPending(caps, steps, p) && InboundOnly([step])
    requires |Apply(caps, Exec(caps, INIT, steps), step).inbound| <= p
    ensures InboundOnly(steps + [step]) && AtMostPending(caps, steps + [step], p)
    ensures Exec(caps, INIT, steps + [step]) == Apply(caps, Exec(caps, INIT, steps), step)
  {
    assert (steps + [step])[..|steps|] == steps;
  }

  lemma RoomAdmits(caps: Caps, reg: Registry, crowd: Crowd, n: nat, hi: nat)
    requires reg.sessions == Arrivals(crowd, n) && Agrees(reg) && Room(caps, crowd, n) && n <= hi
    ensures CanIpConnect(caps, reg, Address(crowd, hi))
  {
    CountArrivals(crowd, n, Address(crowd, hi));
    if crowd.Scattered? && caps.maxPerIp != 0 {
      assert Count(reg.sessions, hi) == 0;
    }
  }

  lemma AcceptShape(caps: Caps, s: State, crowd: Crowd, n: nat, hi: nat)
    requires Shape(s, crowd, n, hi) && Room(caps, crowd, n)
    ensures Shape(DoAccept(caps, s, Address(crowd, hi)), crowd, n, hi + 1)
  {
    RoomAdmits(caps, s.registry, crowd, n, hi);
    AddedSize(s.inbound, hi, Session(hi, Address(crowd, hi)));
  }

  lemma HandshakeShape(s: State, crowd: Crowd, n: nat, hi: nat)
    requires Shape(s, crowd, n, hi) && n < hi
    ensures Shape(DoServerHandshake(s, n, true), crowd, n + 1, hi)
  {
    RemovedSize(s.inbound, n);
    AddAgrees(s.registry, s.inbound[n]);
  }

  /** An inbound run within p pending handshakes, to n registered and hi admitted. */
  ghost predicate Leads(caps: Caps, steps: seq<Step>, crowd: Crowd, n: nat, hi: nat, p: nat) {
    InboundOnly(steps) && AtMostPending(caps, steps, p) && Shape(Exec(caps, INIT, steps), crowd, n, hi)
  }

  lemma ThenAccept(caps: Caps, steps: seq<Step>, crowd: Crowd, n: nat, hi: nat, p: nat)
    requires Leads(caps, steps, crowd, n, hi, p) && Room(caps, crowd, n) && hi < n + p
    ensures Leads(caps, steps + [Accept(Address(crowd, hi))], crowd, n, hi + 1, p)
  {
    AcceptShape(caps, Exec(caps, INIT, steps), crowd, n, hi);
    Extend(caps, steps, Accept(Address(crowd, hi)), p);
  }

  lemma ThenHandshake(caps: Caps, steps: seq<Step>, crowd: Crowd, n: nat, hi: nat, p: nat)
    requires Leads(caps, steps, crowd, n, hi, p) && n < hi
    ensures Leads(caps, steps + [ServerHandshake(n, true)], crowd, n + 1, hi, p)
  {
    HandshakeShape(Exec(caps, INIT, steps), crowd, n, hi);
    Extend(caps, steps, ServerHandshake(n, true), p);
  }

  /** n of a crowd admitted and registered one after the other. */
  lemma {:induction false} OneByOne(caps: Caps, crowd: Crowd, n: nat, p: nat) returns (steps: seq<Step>)
    requires p >= 1 && (n > 0 ==> Room(caps, crowd, n - 1))
    ensures Leads(caps, steps, crowd, n, n, p)
  {
    if n == 0 {
      steps := [];
    } else {
      var before := OneByOne(caps, crowd, n - 1, p);
      ThenAccept(caps, before, crowd, n - 1, n - 1, p);
      ThenHandshake(caps, before + [Accept(Address(crowd, n - 1))], crowd, n - 1, n, p);
      steps := before + [Accept(Address(crowd, n - 1))] + [ServerHandshake(n - 1, true)];
    }
  }

  /** Then k more admitted, none of them registered yet. */
  lemma {:induction false} Burst(caps: Caps, crowd: Crowd, n: nat, k: nat, p: nat) returns (steps: seq<Step>)
    requires Room(caps, crowd, n) && p >= 1 && k <= p
    ensures Leads(caps, steps, crowd, n, n + k, p)
  {
    if k == 0 {
      steps := OneByOne(caps, crowd, n, p);
    } else {
      var before := Burst(caps, crowd, n, k - 1, p);
      ThenAccept(caps, before, crowd, n, n + k - 1, p);
      steps := before + [Accept(Address(crowd, n + k - 1))];
    }
  }

  /** Then those registered up to a total of m. */
  lemma {:induction false} Settle(caps: Caps, crowd: Crowd, n: nat, m: nat, hi: nat, p: nat) returns (steps: seq<Step>)
    requires Room(caps, crowd, n) && p >= 1 && n <= m <= hi == n + p
    ensures Leads(caps, steps, crowd, m, hi, p)
    decreases m
  {
    if m == n {
      steps := Burst(caps, crowd, n, p, p);
    } else {
      var k := m - 1;
      var before := Settle(caps, crowd, n, k, hi, p);
      ThenHandshake(caps, before, crowd, k, hi, p);
      steps := before + [ServerHandshake(k, true)];
    }
  }

  lemma LedTo(caps: Caps, steps: seq<Step>, crowd: Crowd, n: nat, hi: nat, p: nat)
    requires Leads(caps, steps, crowd, n, hi, p)
    ensures InboundOnly(steps) && AtMostPending(caps, steps, p)
    ensures Exec(caps, INIT, steps).registry.sessions == Arrivals(crowd, n)
  {
  }

  lemma Settled(caps: Caps, crowd: Crowd, n: nat, p: nat, total: nat) returns (steps: seq<Step>)
    requires Room(caps, crowd, n) && p >= 1 && total == n + p
    ensures InboundOnly(steps) && AtMostPending(caps, steps, p)
    ensures Exec(caps, INIT, steps).registry.sessions == Arrivals(crowd, total)
  {
    steps := Settle(caps, crowd, n, total, total, p);
    LedTo(caps, steps, crowd, total, total, p);
  }

  /** Where n of a crowd leave room for one more, p at once get in. */
  lemma AllGetIn(caps: Caps, crowd: Crowd, n: nat, p: nat, ip: nat) returns (steps: seq<Step>)
    requires Room(caps, crowd, n) && p >= 1
    ensures InboundOnly(steps) && AtMostPending(caps, steps, p)
    ensures var sessions := Exec(caps, INIT, steps).registry.sessions;
            |sessions| == n + p && (crowd == From(ip) ==> Count(sessions, ip) == n + p)
  {
    steps := Settled(caps, crowd, n, p, n + p);
    CountArrivals(crowd, n + p, ip);
  }

  /** Whatever the caps, a run with at most p handshakes pending ends with max_sessions + p - 1 sessions. */
  lemma BoundIsReached(caps: Caps, p: nat) returns (steps: seq<Step>)
    requires caps.maxSessions != 0 && p >= 1
    ensures InboundOnly(steps) && AtMostPending(caps, steps, p)
    ensures |Exec(caps, INIT, steps).registry.sessions| == caps.maxSessions + p - 1
  {
    steps := AllGetIn(caps, Scattered, caps.maxSessions - 1, p, 0);
  }

  /** Few pending in all means few pending from each address. */
  lemma {:induction false} PendingFromFew(caps: Caps, steps: seq<Step>, ip: nat, p: nat)
    requires AtMostPending(caps, steps, p)
    ensures AtMostPendingFrom(caps, steps, ip, p)
  {
    var inbound := Exec(caps, INIT, steps).inbound;
    SubsetSize(PendingFrom(inbound, ip), inbound.Keys);
    if steps != [] {
      PendingFromFew(caps, steps[..|steps| - 1], ip, p);
    }
  }

  lemma {:induction false} SubsetSize(a: set<nat>, b: set<nat>)
    requires a <= b
    ensures |a| <= |b|
  {
    assert b == a + (b - a);
  }

  /** Whatever the caps and the address, a run with at most p handshakes pending ends with as many sessions
      from that address as the bound allows. */
  lemma BoundIsReachedPerIp(caps: Caps, ip: nat, p: nat) returns (steps: seq<Step>)
    requires caps.maxPerIp != 0 && p >= 1
    ensures InboundOnly(steps) && AtMostPendingFrom(caps, steps, ip, p)
    ensures Count(Exec(caps, INIT, steps).registry.sessions, ip) == Tighter(caps) + p - 1
  {
    steps := AllGetIn(caps, From(ip), Tighter(caps) - 1, p, ip);
    PendingFromFew(caps, steps, ip, p);
  }

  // The exact laws: when the caps do hold.

  lemma {:induction false} PendingRelax(caps: Caps, steps: seq<Step>, p: nat, q: nat)
    requires AtMostPending(caps, steps, p) && p <= q
    ensures AtMostPending(caps, steps, q)
  {
    if steps != [] {
      PendingRelax(caps, steps[..|steps| - 1], p, q);
    }
  }

  lemma {:induction false} PendingFromRelax(caps: Caps, steps: seq<Step>, ip: nat, p: nat, q: nat)
    requires AtMostPendingFrom(caps, steps, ip, p) && p <= q
    ensures AtMostPendingFrom(caps, steps, ip, q)
  {
    if steps != [] {
      PendingFromRelax(caps, steps[..|steps| - 1], ip, p, q);
    }
  }

  /** An inbound run within p pending handshakes registers more sessions than max_sessions. */
  ghost predicate Exceeds(caps: Caps, steps: seq<Step>, p: nat) {
    && InboundOnly(steps) && AtMostPending(caps, steps, p)
    && |Exec(caps, INIT, steps).registry.sessions| > caps.maxSessions
  }

  /** An inbound run within p pending handshakes from an address registers more of it than the cap per address. */
  ghost predicate ExceedsFrom(caps: Caps, steps: seq<Step>, ip: nat, p: nat) {
    && InboundOnly(steps) && AtMostPendingFrom(caps, steps, ip, p)
    && Count(Exec(caps, INIT, steps).registry.sessions, ip) > caps.maxPerIp
  }

  /** max_sessions holds in every inbound run with at most p handshakes pending if and only if p is at most
      one: handshakes complete one at a time. */
  lemma SessionCapLaw(caps: Caps, p: nat)
    requires caps.maxSessions != 0
    ensures (forall steps :: !Exceeds(caps, steps, p)) <==> p <= 1
  {
    if p <= 1 {
      forall steps
        ensures !Exceeds(caps, steps, p)
      {
        if InboundOnly(steps) && AtMostPending(caps, steps, p) {
          PendingRelax(caps, steps, p, 1);
          AdmissionBound(caps, steps, 1);
        }
      }
    } else {
      var steps := BoundIsReached(caps, p);
      assert Exceeds(caps, steps, p);
    }
  }

  /** max_connections_per_ip holds for an address, with at most p of its handshakes pending, if and only if p
      is at most one, or max_sessions is the tighter cap by at least the p - 1 that slip through. */
  lemma PerIpCapLaw(caps: Caps, ip: nat, p: nat)
    requires caps.maxPerIp != 0
    ensures (forall steps :: !ExceedsFrom(caps, steps, ip, p)) <==> p <= 1 || Tighter(caps) + p - 1 <= caps.maxPerIp
  {
    var q := if p == 0 then 1 else p;
    if Tighter(caps) + q - 1 <= caps.maxPerIp {
      forall steps
        ensures !ExceedsFrom(caps, steps, ip, p)
      {
        if InboundOnly(steps) && AtMostPendingFrom(caps, steps, ip, p) {
          PendingFromRelax(caps, steps, ip, p, q);
          AdmissionBoundPerIp(caps, steps, ip, q);
        }
      }
    } else {
      var steps := BoundIsReachedPerIp(caps, ip, p);
      assert ExceedsFrom(caps, steps, ip, p);
    }
  }
}
