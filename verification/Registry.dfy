/** The session list of a manager and its per-address counting index (src/connection/session_manager.cpp). */
module Registry {
  import opened Bytes

  /** A session, identified by its object, and the address of its peer. */
  datatype Session = Session(id: nat, ip: nat)

  /** A call of on_connect or on_disconnect. */
  datatype Callback = Connected(id: nat) | Disconnected(id: nat)

  datatype Registry = Registry(sessions: seq<Session>, perIp: map<nat, nat>)

  const EMPTY: Registry := Registry([], map[])

  /** How many listed sessions come from an address. */
  function Count(sessions: seq<Session>, ip: nat): (n: nat) {
    if sessions == [] then 0 else (if sessions[0].ip == ip then 1 else 0) + Count(sessions[1..], ip)
  }

  /** The first position of a session in the list, or the length of the list. */
  function PositionOf(sessions: seq<Session>, id: nat): (k: nat)
    ensures k <= |sessions|
    ensures k < |sessions| ==> sessions[k].id == id
    ensures forall i :: 0 <= i < k ==> sessions[i].id != id
  {
    if sessions == [] || sessions[0].id == id then 0 else 1 + PositionOf(sessions[1..], id)
  }

  /** register_and_start's locked section. */
  function Add(reg: Registry, sess: Session): (r: Registry) {
    Registry(reg.sessions + [sess],
             reg.perIp[sess.ip := (if sess.ip in reg.perIp then reg.perIp[sess.ip] else 0) + 1])
  }

  /** The predecrement of a size_t, which wraps at zero. */
  function Decrement(n: nat): (r: nat) {
    if n == 0 then U64_LIMIT - 1 else n - 1
  }

  /** The index after its entry for an address, if any, is decremented and dropped at zero. */
  function DropOne(perIp: map<nat, nat>, ip: nat): (r: map<nat, nat>) {
    if ip !in perIp then perIp
    else if Decrement(perIp[ip]) == 0 then perIp - {ip}
    else perIp[ip := Decrement(perIp[ip])]
  }

  /** remove_session's locked section. */
  function Remove(reg: Registry, id: nat): (r: Registry) {
    var k := PositionOf(reg.sessions, id);
    if k == |reg.sessions| then reg
    else Registry(reg.sessions[..k] + reg.sessions[k + 1..], DropOne(reg.perIp, reg.sessions[k].ip))
  }

  /** The index holds exactly the addresses of listed sessions, each with its number of sessions. */
  ghost predicate Agrees(reg: Registry) {
    && (forall ip :: ip in reg.perIp <==> Count(reg.sessions, ip) > 0)
    && (forall ip :: ip in reg.perIp ==> reg.perIp[ip] == Count(reg.sessions, ip))
  }

  lemma {:induction false} CountConcat(a: seq<Session>, b: seq<Session>, ip: nat)
    ensures Count(a + b, ip) == Count(a, ip) + Count(b, ip)
  {
    if a == [] {
      assert a + b == b;
    } else {
      CountConcat(a[1..], b, ip);
      assert (a + b)[1..] == a[1..] + b;
    }
  }

  lemma CountSplit(sessions: seq<Session>, k: nat, ip: nat)
    requires k < |sessions|
    ensures Count(sessions, ip)
         == Count(sessions[..k] + sessions[k + 1..], ip) + if sessions[k].ip == ip then 1 else 0
  {
    assert sessions == sessions[..k] + ([sessions[k]] + sessions[k + 1..]);
    CountConcat(sessions[..k], [sessions[k]] + sessions[k + 1..], ip);
    CountConcat([sessions[k]], sessions[k + 1..], ip);
    CountConcat(sessions[..k], sessions[k + 1..], ip);
    assert [sessions[k]][1..] == [];
  }

  lemma AddAgrees(reg: Registry, sess: Session)
    requires Agrees(reg)
    ensures Agrees(Add(reg, sess))
  {
    forall ip
      ensures Count(reg.sessions + [sess], ip) == Count(reg.sessions, ip) + if sess.ip == ip then 1 else 0
    {
      CountConcat(reg.sessions, [sess], ip);
      assert [sess][1..] == [];
    }
  }

  /** The decrement in remove_session always finds its entry and never wraps; the index stays exact. */
  lemma RemoveAgrees(reg: Registry, id: nat)
    requires Agrees(reg)
    ensures Agrees(Remove(reg, id))
    ensures var k := PositionOf(reg.sessions, id);
            k < |reg.sessions| ==> reg.sessions[k].ip in reg.perIp && reg.perIp[reg.sessions[k].ip] > 0
  {
    var k := PositionOf(reg.sessions, id);
    if k < |reg.sessions| {
      var left := reg.sessions[..k] + reg.sessions[k + 1..];
      forall ip
        ensures Count(reg.sessions, ip) == Count(left, ip) + if reg.sessions[k].ip == ip then 1 else 0
      {
        CountSplit(reg.sessions, k, ip);
      }
    }
  }

  predicate Listed(sessions: seq<Session>, id: nat) {
    PositionOf(sessions, id) < |sessions|
  }

  lemma ListedAt(sessions: seq<Session>, i: nat)
    requires i < |sessions|
    ensures Listed(sessions, sessions[i].id)
  {
  }

  function Ids(sessions: seq<Session>): (ids: seq<nat>) {
    seq(|sessions|, i requires 0 <= i < |sessions| => sessions[i].id)
  }

  lemma ListedCounts(sessions: seq<Session>, id: nat)
    ensures Listed(sessions, id) ==> multiset(Ids(sessions))[id] >= 1
  {
    if Listed(sessions, id) {
      assert Ids(sessions)[PositionOf(sessions, id)] == id;
      assert id in multiset(Ids(sessions));
    }
  }

  /** Removing a listed session takes one listing of it away and leaves every other session listed. */
  lemma RemoveLists(reg: Registry, id: nat)
    requires Listed(reg.sessions, id)
    ensures var after := Remove(reg, id).sessions;
            && |after| + 1 == |reg.sessions|
            && multiset(Ids(reg.sessions)) == multiset(Ids(after)) + multiset{id}
            && (forall s :: s in after ==> s in reg.sessions)
  {
    var k := PositionOf(reg.sessions, id);
    var a, b := reg.sessions[..k], reg.sessions[k + 1..];
    assert Ids(reg.sessions) == Ids(a) + [id] + Ids(b);
    assert Ids(a + b) == Ids(a) + Ids(b);
  }

  lemma RemoveLeavesOthers(reg: Registry, id: nat, other: nat)
    requires Listed(reg.sessions, id) && Listed(reg.sessions, other) && other != id
    ensures Listed(Remove(reg, id).sessions, other)
  {
    var k, i := PositionOf(reg.sessions, id), PositionOf(reg.sessions, other);
    var after := Remove(reg, id).sessions;
    var j := if i < k then i else i - 1;
    assert after[j] == reg.sessions[i];
    ListedAt(after, j);
  }

  // The values of the index add up to the number of sessions.

  ghost function Sum(m: map<nat, nat>): (n: nat) {
    if m == map[] then 0
    else
      var k :| k in m;
      m[k] + Sum(m - {k})
  }

  /** The sum does not depend on the order of summation. */
  lemma {:induction false} SumWithout(m: map<nat, nat>, k: nat)
    requires k in m
    ensures Sum(m) == m[k] + Sum(m - {k})
    decreases |m|
  {
    var j :| j in m && Sum(m) == m[j] + Sum(m - {j});
    if j != k {
      assert |(m - {j}).Keys| < |m.Keys| by { assert (m - {j}).Keys == m.Keys - {j}; }
      assert |(m - {k}).Keys| < |m.Keys| by { assert (m - {k}).Keys == m.Keys - {k}; }
      SumWithout(m - {j}, k);
      SumWithout(m - {k}, j);
      assert m - {j} - {k} == m - {k} - {j};
    }
  }

  lemma {:induction false} SumIsSize(reg: Registry)
    requires Agrees(reg)
    ensures Sum(reg.perIp) == |reg.sessions|
    decreases |reg.sessions|
  {
    if reg.sessions == [] {
      assert reg.perIp == map[];
    } else {
      var first := reg.sessions[0];
      var rest := Remove(reg, first.id);
      RemoveAgrees(reg, first.id);
      assert rest.sessions == reg.sessions[1..];
      SumIsSize(rest);
      SumWithout(reg.perIp, first.ip);
      if first.ip in rest.perIp {
        SumWithout(rest.perIp, first.ip);
        assert rest.perIp - {first.ip} == reg.perIp - {first.ip};
      } else {
        assert rest.perIp == reg.perIp - {first.ip};
      }
    }
  }

  // Over every sequence of operations.

  datatype Operation = Register(sess: Session) | Deregister(id: nat) | Clear

  function AfterOperations(ops: seq<Operation>): (reg: Registry) {
    if ops == [] then EMPTY
    else
      var reg := AfterOperations(ops[..|ops| - 1]);
      match ops[|ops| - 1]
      case Register(sess) => Add(reg, sess)
      case Deregister(id) => Remove(reg, id)
      case Clear => EMPTY
  }

  /** Counting index: after every sequence of registrations, removals and stops, even of the same
      session twice, the index is exact, has no zero entry and sums to the number of sessions. */
  lemma {:induction false} CountingIndex(ops: seq<Operation>)
    ensures var reg := AfterOperations(ops);
            && Agrees(reg)
            && (forall ip :: ip in reg.perIp ==> reg.perIp[ip] > 0)
            && Sum(reg.perIp) == |reg.sessions|
  {
    if ops != [] {
      var before := ops[..|ops| - 1];
      CountingIndex(before);
      match ops[|ops| - 1]
      case Register(sess) => AddAgrees(AfterOperations(before), sess);
      case Deregister(id) => RemoveAgrees(AfterOperations(before), id);
      case Clear =>
    }
    SumIsSize(AfterOperations(ops));
  }

  /** can_ip_connect, for an index that agrees with its list: neither cap has been reached. */
  predicate Admits(maxSessions: nat, maxPerIp: nat, sessions: seq<Session>, ip: nat) {
    (maxSessions == 0 || |sessions| < maxSessions) && (maxPerIp == 0 || Count(sessions, ip) < maxPerIp)
  }

  /** The session list and index as an object. */
  class SessionManager {
    const maxSessions: nat
    const maxPerIp: nat
    var sessions: seq<Session>
    var perIp: map<nat, nat>
    var log: seq<Callback>  // calls of on_connect and on_disconnect
    var closed: set<nat>    // sockets closed by stop

    ghost function Abstract(): (r: Registry)
      reads this
    {
      Registry(sessions, perIp)
    }

    ghost predicate Valid()
      reads this
    {
      Agrees(Abstract())
    }

    constructor (maxSessions: nat, maxPerIp: nat)
      ensures Valid() && Abstract() == EMPTY && log == [] && closed == {}
      ensures this.maxSessions == maxSessions && this.maxPerIp == maxPerIp
    {
      this.maxSessions, this.maxPerIp := maxSessions, maxPerIp;
      sessions, perIp, log, closed := [], map[], [], {};
    }

    method RegisterAndStart(sess: Session)
      requires Valid()
      modifies this
      ensures Valid() && Abstract() == Add(old(Abstract()), sess)
      ensures sessions == old(sessions) + [sess]
      ensures log == old(log) + [Connected(sess.id)] && closed == old(closed)
    {
      AddAgrees(Abstract(), sess);
      sessions := sessions + [sess];
      perIp := perIp[sess.ip := (if sess.ip in perIp then perIp[sess.ip] else 0) + 1];
      log := log + [Connected(sess.id)];
    }

    method CanIpConnect(ip: nat) returns (ok: bool)
      requires Valid()
      ensures ok == Admits(maxSessions, maxPerIp, sessions, ip)
    {
      if maxSessions != 0 && |sessions| >= maxSessions {
        return false;
      }
      if maxPerIp != 0 {
        if ip in perIp && perIp[ip] >= maxPerIp {
          return false;
        }
      }
      return true;
    }

    /** Removes the first listing of a session and reports it; a session not listed changes nothing. */
    method RemoveSession(id: nat) returns (found: bool)
      requires Valid()
      modifies this
      ensures Valid() && Abstract() == Remove(old(Abstract()), id)
      ensures found <==> exists i :: 0 <= i < |old(sessions)| && old(sessions)[i].id == id
      ensures found == Listed(old(sessions), id)
      ensures log == (if found then old(log) + [Disconnected(id)] else old(log)) && closed == old(closed)
      ensures !found ==> Abstract() == old(Abstract())
    {
      var k := 0;
      while k < |sessions| && sessions[k].id != id
        invariant 0 <= k <= PositionOf(sessions, id)
      {
        k := k + 1;
      }
      if k == |sessions| {
        return false;
      }
      assert k == PositionOf(sessions, id);
      RemoveAgrees(Abstract(), id);
      var removed := sessions[k];
      sessions := sessions[..k] + sessions[k + 1..];
      if removed.ip in perIp {
        var n := Decrement(perIp[removed.ip]);
        perIp := if n == 0 then perIp - {removed.ip} else perIp[removed.ip := n];
      }
      log := log + [Disconnected(id)];
      return true;
    }

    /** Closes the socket of every listed session, then empties the list and the index. */
    method Stop()
      modifies this
      ensures Valid() && Abstract() == EMPTY
      ensures closed == old(closed) + set s | s in old(sessions) :: s.id
      ensures log == old(log)
    {
      for i := 0 to |sessions|
        invariant sessions == old(sessions) && log == old(log)
        invariant closed == old(closed) + set s | s in sessions[..i] :: s.id
      {
        assert sessions[..i + 1] == sessions[..i] + [sessions[i]];
        closed := closed + {sessions[i].id};
      }
      assert sessions[..|sessions|] == sessions;
      sessions, perIp := [], map[];
    }
  }
}
