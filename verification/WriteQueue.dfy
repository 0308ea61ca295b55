/**
 The outbound write queue of boost_tcp_socket (src/network/socket.cpp): async_write, write_next and
 its completion, at the granularity of their locked sections and unlocked gaps.  A schedule is any
 sequence of steps of any number of callers; a step that is not enabled changes nothing.
 */
module WriteQueue {
  import opened Bytes

  /** One queued write.  The ticket names the async_write call that queued it. */
  datatype Entry = Entry(ticket: nat, head: seq<Byte>, body: seq<Byte>, hasHandler: bool)

  function EntryBytes(e: Entry): (bytes: seq<Byte>) {
    e.head + e.body
  }

  function Payloads(es: seq<Entry>): (parts: seq<seq<Byte>>)
    ensures |parts| == |es|
    ensures forall i :: 0 <= i < |es| ==> parts[i] == EntryBytes(es[i])
  {
    seq(|es|, i requires 0 <= i < |es| => EntryBytes(es[i]))
  }

  /** The bytes of a list of entries, head then body, in order. */
  function Flat(es: seq<Entry>): (bytes: seq<Byte>) {
    Joined(Payloads(es))
  }

  /** Where a thread of control stands in the code.  Until the pop, it is named by the entry at the
      front of the queue; from the pop on, by the entry it popped. */
  datatype Control =
    | SawIdle                                                    // pushed on an empty queue, about to call write_next
    | Rejected(hasHandler: bool)                                 // found the queue full, about to report it
    | Fetched(head: seq<Byte>, body: seq<Byte>)                  // in write_next, lock released, write not issued
    | InFlight(bytes: seq<Byte>, done: nat)                      // the stream write is outstanding
    | Finished(ok: bool)                                         // the stream write has completed
    | Popped(hasHandler: bool, ok: bool, more: bool)             // entry popped, lock released, handler not called
    | Called(more: bool)                                         // handler called

  /** This control point carries the right to write. */
  predicate Holds(c: Control) {
    match c
    case SawIdle => true
    case Fetched(_, _) => true
    case InFlight(_, _) => true
    case Finished(_) => true
    case Popped(_, _, more) => more
    case Called(more) => more
    case Rejected(_) => false
  }

  /** A completed stream write. */
  datatype Operation = Operation(bytes: seq<Byte>, ok: bool)

  datatype State = State(
    maxPending: nat,                 // 0 = unlimited
    queue: seq<Entry>,
    threads: map<nat, Control>,
    wire: seq<Byte>,                 // bytes accepted by the stream
    failed: bool,                    // a stream write has failed
    undefined: bool,                 // front() or pop_front() was applied to an empty queue
    nextTicket: nat,
    accepted: seq<Entry>,            // history: entries pushed, in order
    popped: seq<Entry>,              // history: entries popped, in order
    operations: seq<Operation>,      // history: completed stream writes, in order
    refused: map<nat, bool>,         // history: rejected calls, and whether they carry a handler
    slots: map<nat, nat>,            // history: accepted calls, and their position in acceptance order
    calls: map<nat, seq<bool>>)      // history: handler invocations of each call

  function Init(maxPending: nat): (s: State) {
    State(maxPending, [], map[], [], false, false, 0, [], [], [], map[], map[], map[])
  }

  /** The handler invocations of a call. */
  function CallsOf(calls: map<nat, seq<bool>>, t: nat): (r: seq<bool>) {
    if t in calls then calls[t] else []
  }

  datatype Step =
    | Submit(head: seq<Byte>, body: seq<Byte>, hasHandler: bool)
    | Fetch(t: nat)
    | Issue(t: nat)
    | Transfer(t: nat, count: nat)
    | Finish(t: nat)
    | Break(t: nat)
    | Pop(t: nat)
    | Call(t: nat)
    | Report(t: nat)
    | Return(t: nat)

  predicate Enabled(s: State, step: Step) {
    match step
    case Submit(_, _, _) => true
    case Fetch(t) => t in s.threads && (s.threads[t].SawIdle? || s.threads[t] == Called(true))
    case Issue(t) => t in s.threads && s.threads[t].Fetched?
    case Transfer(t, count) =>
      t in s.threads && s.threads[t].InFlight? && !s.failed && s.threads[t].done + count <= |s.threads[t].bytes|
    case Finish(t) => t in s.threads && s.threads[t].InFlight? && s.threads[t].done == |s.threads[t].bytes|
    case Break(t) => t in s.threads && s.threads[t].InFlight?
    case Pop(t) => t in s.threads && s.threads[t].Finished?
    case Call(t) => t in s.threads && s.threads[t].Popped?
    case Report(t) => t in s.threads && s.threads[t].Rejected?
    case Return(t) => t in s.threads && s.threads[t] == Called(false)
  }

  predicate Full(s: State) {
    s.maxPending != 0 && |s.queue| >= s.maxPending
  }

  /** The locked section of async_write. */
  function DoSubmit(s: State, head: seq<Byte>, body: seq<Byte>, hasHandler: bool): (r: State) {
    var t := s.nextTicket;
    if Full(s) then
      s.(threads := s.threads[t := Rejected(hasHandler)], refused := s.refused[t := hasHandler], nextTicket := t + 1)
    else
      s.(queue := s.queue + [Entry(t, head, body, hasHandler)],
         accepted := s.accepted + [Entry(t, head, body, hasHandler)],
         threads := if s.queue == [] then s.threads[t := SawIdle] else s.threads,
         slots := s.slots[t := |s.accepted|],
         nextTicket := t + 1)
  }

  /** The locked section of write_next. */
  function DoFetch(s: State, t: nat): (r: State) {
    if s.queue == [] then s.(undefined := true)
    else
      var front := s.queue[0];
      s.(threads := (s.threads - {t})[front.ticket := Fetched(front.head, front.body)])
  }

  function DoIssue(s: State, t: nat): (r: State)
    requires Enabled(s, Issue(t))
  {
    s.(threads := s.threads[t := InFlight(s.threads[t].head + s.threads[t].body, 0)])
  }

  /** The stream takes the next bytes of the outstanding write. */
  function DoTransfer(s: State, t: nat, count: nat): (r: State)
    requires Enabled(s, Transfer(t, count))
  {
    var c := s.threads[t];
    s.(threads := s.threads[t := InFlight(c.bytes, c.done + count)], wire := s.wire + c.bytes[c.done..c.done + count])
  }

  function DoFinish(s: State, t: nat): (r: State)
    requires Enabled(s, Finish(t))
  {
    s.(threads := s.threads[t := Finished(true)], operations := s.operations + [Operation(s.threads[t].bytes, true)])
  }

  function DoBreak(s: State, t: nat): (r: State)
    requires Enabled(s, Break(t))
  {
    s.(threads := s.threads[t := Finished(false)], failed := true,
       operations := s.operations + [Operation(s.threads[t].bytes, false)])
  }

  /** The locked section of the completion. */
  function DoPop(s: State, t: nat): (r: State)
    requires Enabled(s, Pop(t))
  {
    if s.queue == [] then s.(undefined := true)
    else
      var front := s.queue[0];
      s.(queue := s.queue[1..], popped := s.popped + [front],
         threads := (s.threads - {t})[front.ticket := Popped(front.hasHandler, s.threads[t].ok, |s.queue| > 1)])
  }

  function DoCall(s: State, t: nat): (r: State)
    requires Enabled(s, Call(t))
  {
    var c := s.threads[t];
    s.(threads := s.threads[t := Called(c.more)],
       calls := if c.hasHandler then s.calls[t := CallsOf(s.calls, t) + [c.ok]] else s.calls)
  }

  function DoReport(s: State, t: nat): (r: State)
    requires Enabled(s, Report(t))
  {
    s.(threads := s.threads - {t},
       calls := if s.threads[t].hasHandler then s.calls[t := CallsOf(s.calls, t) + [false]] else s.calls)
  }

  function DoReturn(s: State, t: nat): (r: State) {
    s.(threads := s.threads - {t})
  }

  function Apply(s: State, step: Step): (r: State) {
    if !Enabled(s, step) then s
    else
      match step
      case Submit(head, body, hasHandler) => DoSubmit(s, head, body, hasHandler)
      case Fetch(t) => DoFetch(s, t)
      case Issue(t) => DoIssue(s, t)
      case Transfer(t, count) => DoTransfer(s, t, count)
      case Finish(t) => DoFinish(s, t)
      case Break(t) => DoBreak(s, t)
      case Pop(t) => DoPop(s, t)
      case Call(t) => DoCall(s, t)
      case Report(t) => DoReport(s, t)
      case Return(t) => DoReturn(s, t)
  }

  function Exec(s: State, steps: seq<Step>): (r: State) {
    if steps == [] then s else Apply(Exec(s, steps[..|steps| - 1]), steps[|steps| - 1])
  }

  // ----- Invariants -----

  type Threads = map<nat, Control>

  /** Entries leave the queue in the order they entered it. */
  ghost predicate Fifo(s: State) {
    s.accepted == s.popped + s.queue
  }

  /** Calls are accepted or refused, never both; each accepted call sits at its own slot. */
  ghost predicate Tickets(accepted: seq<Entry>, slots: map<nat, nat>, refused: map<nat, bool>, nextTicket: nat) {
    && (forall t :: t in slots || t in refused <==> 0 <= t < nextTicket)
    && (forall t :: t in slots ==> t !in refused)
    && (forall t :: t in slots ==> slots[t] < |accepted| && accepted[slots[t]].ticket == t)
    && (forall i :: 0 <= i < |accepted| ==> accepted[i].ticket in slots && slots[accepted[i].ticket] == i)
  }

  /** The thread that may write: the one working on the front entry, or else the one that popped last. */
  ghost function Writer(queue: seq<Entry>, threads: Threads, popped: seq<Entry>): (t: nat)
    requires queue != []
  {
    if queue[0].ticket in threads || popped == [] then queue[0].ticket else popped[|popped| - 1].ticket
  }

  /** When the queue is empty no thread holds the right to write; otherwise exactly the writer does. */
  ghost predicate SingleWriter(queue: seq<Entry>, threads: Threads, popped: seq<Entry>) {
    if queue == [] then forall t :: t in threads ==> !Holds(threads[t])
    else
      var w := Writer(queue, threads, popped);
      w in threads && forall t :: t in threads ==> (Holds(threads[t]) <==> t == w)
  }

  /** Up to the pop, a thread works on the front entry; after it, on an entry already popped. */
  ghost predicate Stage(c: Control, t: nat, queue: seq<Entry>, slots: map<nat, nat>, refused: map<nat, bool>, n: nat) {
    match c
    case SawIdle => queue != [] && queue[0].ticket == t
    case Fetched(head, body) => queue != [] && queue[0].ticket == t && queue[0].head == head && queue[0].body == body
    case InFlight(bytes, done) =>
      queue != [] && queue[0].ticket == t && bytes == EntryBytes(queue[0]) && done <= |bytes|
    case Finished(ok) => queue != [] && queue[0].ticket == t
    case Rejected(_) => t in refused
    case Popped(_, _, _) => t in slots && slots[t] < n
    case Called(_) => t in slots && slots[t] < n
  }

  ghost predicate Staged(threads: Threads, queue: seq<Entry>, slots: map<nat, nat>, refused: map<nat, bool>, n: nat) {
    forall t :: t in threads ==> Stage(threads[t], t, queue, slots, refused, n)
  }

  /** The completed stream write, if any, whose entry is not yet popped. */
  ghost function Unpopped(queue: seq<Entry>, threads: Threads): (r: seq<Operation>) {
    if queue != [] && queue[0].ticket in threads && threads[queue[0].ticket].Finished?
    then [Operation(EntryBytes(queue[0]), threads[queue[0].ticket].ok)] else []
  }

  /** The operations that popped entries stand for. */
  ghost predicate Matches(operations: seq<Operation>, entries: seq<Entry>) {
    |operations| == |entries| && forall i :: 0 <= i < |entries| ==> operations[i].bytes == EntryBytes(entries[i])
  }

  /** The completed stream writes are those of the accepted entries, one each, in order. */
  ghost predicate Ordered(s: State) {
    && |s.popped| <= |s.operations|
    && Matches(s.operations[..|s.popped|], s.popped)
    && s.operations[|s.popped|..] == Unpopped(s.queue, s.threads)
  }

  /** The part of the front entry already on the wire. */
  ghost function Part(queue: seq<Entry>, threads: Threads): (bytes: seq<Byte>) {
    if queue == [] || queue[0].ticket !in threads then []
    else
      match threads[queue[0].ticket]
      case InFlight(bytes, done) => if done <= |bytes| then bytes[..done] else []
      case Finished(ok) => if ok then EntryBytes(queue[0]) else []
      case _ => []
  }

  /** What is on the wire: without a failure, every popped entry in full and then the part of the
      front entry written so far; after one, still only a prefix of the accepted bytes. */
  ghost predicate OnWire(s: State) {
    if s.failed then
      && s.wire <= Flat(s.accepted)
      && (forall t :: t in s.threads && s.threads[t].InFlight? ==> s.threads[t].done == 0)
    else
      && s.wire == Flat(s.popped) + Part(s.queue, s.threads)
      && (forall i :: 0 <= i < |s.operations| ==> s.operations[i].ok)
  }

  /** A write reported as successful is on the wire, with everything accepted before it. */
  ghost predicate Receipts(accepted: seq<Entry>, operations: seq<Operation>, wire: seq<Byte>) {
    forall i :: 0 <= i < |operations| && i < |accepted| && operations[i].ok && operations[i].bytes != [] ==>
      Flat(accepted[..i + 1]) <= wire
  }

  /** The handler invocations a call must have had so far: none until its thread has reported, then
      one, if it has a handler, carrying the result of its own write or, when refused, false. */
  ghost function Due(s: State, t: nat): (r: seq<bool>) {
    if t in s.slots && s.slots[t] < |s.popped| && |s.popped| <= |s.operations| then
      if (t in s.threads && s.threads[t].Popped?) || !s.popped[s.slots[t]].hasHandler then []
      else [s.operations[s.slots[t]].ok]
    else if t in s.refused && t !in s.threads && s.refused[t] then [false]
    else []
  }

  /** A thread about to report carries the right handler and result. */
  ghost predicate Carries(s: State, t: nat)
    requires t in s.threads
  {
    match s.threads[t]
    case Popped(hasHandler, ok, _) =>
      t in s.slots && s.slots[t] < |s.popped| <= |s.operations| &&
      hasHandler == s.popped[s.slots[t]].hasHandler && ok == s.operations[s.slots[t]].ok
    case Rejected(hasHandler) => t in s.refused && hasHandler == s.refused[t]
    case _ => true
  }

  ghost predicate Handlers(s: State) {
    && (forall t :: t in s.threads ==> Carries(s, t))
    && (forall t: nat :: CallsOf(s.calls, t) == Due(s, t))
  }

  ghost predicate Inv(s: State) {
    && !s.undefined
    && Fifo(s)
    && Tickets(s.accepted, s.slots, s.refused, s.nextTicket)
    && SingleWriter(s.queue, s.threads, s.popped)
    && Staged(s.threads, s.queue, s.slots, s.refused, |s.popped|)
    && Ordered(s)
    && OnWire(s)
    && Receipts(s.accepted, s.operations, s.wire)
    && Handlers(s)
  }

  // ----- Bytes of entry lists -----

  lemma FlatSnoc(es: seq<Entry>, e: Entry)
    ensures Flat(es + [e]) == Flat(es) + EntryBytes(e)
  {
    assert Payloads(es + [e]) == Payloads(es) + [EntryBytes(e)];
    JoinedSnoc(Payloads(es), EntryBytes(e));
  }

  lemma FlatPrefix(es: seq<Entry>, k: nat)
    requires k <= |es|
    ensures Flat(es[..k]) <= Flat(es)
  {
    assert Payloads(es[..k]) == Payloads(es)[..k];
    JoinedPrefix(Payloads(es), k);
  }

  // ----- Each step keeps the invariant -----

  /** The front entry is in slot |popped|, and its call is not refused. */
  lemma FrontSlot(s: State)
    requires Inv(s) && s.queue != []
    ensures var f := s.queue[0].ticket;
            f in s.slots && s.slots[f] == |s.popped| && f !in s.refused && f < s.nextTicket
  {
    assert s.accepted[|s.popped|] == s.queue[0];
  }

  /** The thread that popped last is the one its entry names. */
  lemma LastSlot(s: State)
    requires Inv(s) && s.popped != []
    ensures var l := s.popped[|s.popped| - 1].ticket;
            l in s.slots && s.slots[l] == |s.popped| - 1 && l !in s.refused && l < s.nextTicket
  {
    assert s.accepted[|s.popped| - 1] == s.popped[|s.popped| - 1];
  }

  /** This control point lies between the push and the pop of the front entry. */
  predicate Working(c: Control) {
    c.SawIdle? || c.Fetched? || c.InFlight? || c.Finished?
  }

  /** Handlers do not depend on how far the writer has come, nor on writes not yet popped. */
  lemma WorkHandlers(s: State, r: State, t: nat)
    requires Handlers(s) && t in s.threads && Working(s.threads[t]) && t in r.threads && Working(r.threads[t])
    requires t in s.slots && s.slots[t] == |s.popped| <= |s.operations| && t !in s.refused
    requires r.threads == s.threads[t := r.threads[t]] && s.operations <= r.operations
    requires r.popped == s.popped && r.slots == s.slots && r.refused == s.refused && r.calls == s.calls
    ensures Handlers(r)
  {
    forall u | u in r.threads
      ensures Carries(r, u)
    {
      assert u == t || Carries(s, u);
    }
    forall u: nat
      ensures CallsOf(r.calls, u) == Due(r, u)
    {
      assert CallsOf(s.calls, u) == Due(s, u);
    }
  }

  /** The writer may move on within its work on the front entry, and stream writes may complete. */
  lemma WorkKeeps(s: State, r: State, t: nat)
    requires Inv(s) && t in s.threads && Working(s.threads[t]) && t in r.threads && Working(r.threads[t])
    requires Stage(r.threads[t], t, s.queue, s.slots, s.refused, |s.popped|)
    requires r.threads == s.threads[t := r.threads[t]] && s.operations <= r.operations
    requires r.queue == s.queue && r.popped == s.popped
    requires r.slots == s.slots && r.refused == s.refused && r.calls == s.calls
    ensures SingleWriter(r.queue, r.threads, r.popped)
    ensures Staged(r.threads, r.queue, r.slots, r.refused, |r.popped|)
    ensures Handlers(r)
  {
    FrontSlot(s);
    WorkHandlers(s, r, t);
  }

  lemma IssueKeeps(s: State, t: nat)
    requires Inv(s) && Enabled(s, Issue(t))
    ensures Inv(DoIssue(s, t))
  {
    var r := DoIssue(s, t);
    WorkKeeps(s, r, t);
    assert s.queue[0].ticket == t;
  }

  /** The wire only grows, so receipts stay good. */
  lemma ReceiptsGrow(accepted: seq<Entry>, operations: seq<Operation>, wire: seq<Byte>, more: seq<Byte>)
    requires Receipts(accepted, operations, wire)
    ensures Receipts(accepted, operations, wire + more)
  {
  }

  lemma TransferOnWire(s: State, t: nat, count: nat)
    requires Enabled(s, Transfer(t, count)) && OnWire(s) && Ordered(s)
    requires s.queue != [] && s.queue[0].ticket == t && s.threads[t].done <= |s.threads[t].bytes|
    ensures OnWire(DoTransfer(s, t, count)) && Ordered(DoTransfer(s, t, count))
  {
    var c := s.threads[t];
    var chunk := c.bytes[c.done..c.done + count];
    assert c.bytes[..c.done] + chunk == c.bytes[..c.done + count];
    ConcatAssociates(Flat(s.popped), c.bytes[..c.done], chunk);
  }

  lemma TransferKeeps(s: State, t: nat, count: nat)
    requires Inv(s) && Enabled(s, Transfer(t, count))
    ensures Inv(DoTransfer(s, t, count))
  {
    var r := DoTransfer(s, t, count);
    var c := s.threads[t];
    assert Stage(c, t, s.queue, s.slots, s.refused, |s.popped|);
    TransferOnWire(s, t, count);
    WorkKeeps(s, r, t);
    ReceiptsGrow(s.accepted, s.operations, s.wire, c.bytes[c.done..c.done + count]);
  }

  /** The front entry follows the popped ones. */
  lemma FrontBytes(s: State)
    requires Fifo(s) && s.queue != []
    ensures s.accepted[..|s.popped| + 1] == s.popped + [s.queue[0]]
    ensures Flat(s.accepted[..|s.popped| + 1]) == Flat(s.popped) + EntryBytes(s.queue[0])
  {
    FlatSnoc(s.popped, s.queue[0]);
  }

  /** A completed write of the whole front entry is a new receipt; a failed one is none. */
  lemma ReceiptsExtend(s: State, op: Operation)
    requires Fifo(s) && Receipts(s.accepted, s.operations, s.wire) && s.queue != [] && |s.operations| == |s.popped|
    requires op.ok && op.bytes != [] ==> s.wire == Flat(s.popped) + EntryBytes(s.queue[0])
    ensures Receipts(s.accepted, s.operations + [op], s.wire)
  {
    FrontBytes(s);
  }

  /** Recording the completed write of the front entry keeps the log of writes in order. */
  lemma OrderedExtends(s: State, r: State, t: nat, ok: bool)
    requires Ordered(s) && s.queue != [] && s.queue[0].ticket == t && t in s.threads && s.threads[t].InFlight?
    requires r.queue == s.queue && r.popped == s.popped && r.threads == s.threads[t := Finished(ok)]
    requires r.operations == s.operations + [Operation(EntryBytes(s.queue[0]), ok)]
    ensures |s.operations| == |s.popped|
    ensures Ordered(r)
  {
    assert Unpopped(s.queue, s.threads) == [];
    assert r.operations[..|s.popped|] == s.operations[..|s.popped|];
  }

  lemma FinishKeeps(s: State, t: nat)
    requires Inv(s) && Enabled(s, Finish(t))
    ensures Inv(DoFinish(s, t))
  {
    var r := DoFinish(s, t);
    assert Stage(s.threads[t], t, s.queue, s.slots, s.refused, |s.popped|);
    var op := Operation(EntryBytes(s.queue[0]), true);
    WorkKeeps(s, r, t);
    OrderedExtends(s, r, t, true);
    assert EntryBytes(s.queue[0])[..s.threads[t].done] == EntryBytes(s.queue[0]);
    ReceiptsExtend(s, op);
  }

  /** No more of the front entry is on the wire than there is of it. */
  lemma PartOfFront(s: State)
    requires Staged(s.threads, s.queue, s.slots, s.refused, |s.popped|) && s.queue != []
    ensures Part(s.queue, s.threads) <= EntryBytes(s.queue[0])
  {
    var f := s.queue[0].ticket;
    if f in s.threads {
      assert Stage(s.threads[f], f, s.queue, s.slots, s.refused, |s.popped|);
    }
  }

  /** Whatever the stream has taken is a prefix of what was accepted. */
  lemma WirePrefix(s: State)
    requires Fifo(s) && OnWire(s) && Staged(s.threads, s.queue, s.slots, s.refused, |s.popped|)
    ensures s.wire <= Flat(s.accepted)
  {
    if !s.failed {
      if s.queue == [] {
        assert s.accepted == s.popped;
      } else {
        FrontBytes(s);
        FlatPrefix(s.accepted, |s.popped| + 1);
        PartOfFront(s);
      }
    }
  }

  lemma BreakOnWire(s: State, t: nat)
    requires Enabled(s, Break(t)) && s.wire <= Flat(s.accepted)
    requires Staged(s.threads, s.queue, s.slots, s.refused, |s.popped|)
    ensures OnWire(DoBreak(s, t))
  {
    assert Stage(s.threads[t], t, s.queue, s.slots, s.refused, |s.popped|);
    forall u | u in s.threads && s.threads[u].InFlight?
      ensures u == t
    {
      assert Stage(s.threads[u], u, s.queue, s.slots, s.refused, |s.popped|);
    }
  }

  lemma BreakKeeps(s: State, t: nat)
    requires Inv(s) && Enabled(s, Break(t))
    ensures Inv(DoBreak(s, t))
  {
    var r := DoBreak(s, t);
    assert Stage(s.threads[t], t, s.queue, s.slots, s.refused, |s.popped|);
    var op := Operation(EntryBytes(s.queue[0]), false);
    WirePrefix(s);
    BreakOnWire(s, t);
    OrderedExtends(s, r, t, false);
    ReceiptsExtend(s, op);
    WorkKeeps(s, r, t);
  }

  // Steps that rename the writer's thread.

  lemma FetchKeeps(s: State, t: nat)
    requires Inv(s) && Enabled(s, Fetch(t))
    ensures Inv(DoFetch(s, t))
  {
    FrontSlot(s);
    assert Stage(s.threads[t], t, s.queue, s.slots, s.refused, |s.popped|);
    FetchControl(s, t);
    FetchHandlers(s, t);
    var r := DoFetch(s, t);
    assert Unpopped(r.queue, r.threads) == [] == Unpopped(s.queue, s.threads);
  }

  /** Only the writer fetches, so the queue is not empty and the front entry has no other thread. */
  lemma FetchControl(s: State, t: nat)
    requires Inv(s) && Enabled(s, Fetch(t))
    ensures s.queue != []
    ensures var r := DoFetch(s, t);
            && SingleWriter(r.queue, r.threads, r.popped)
            && Staged(r.threads, r.queue, r.slots, r.refused, |r.popped|)
  {
    assert Holds(s.threads[t]);
    FrontSlot(s);
    var r := DoFetch(s, t);
    var f := s.queue[0].ticket;
    if f in s.threads {
      assert Stage(s.threads[f], f, s.queue, s.slots, s.refused, |s.popped|);
      assert t == f;
    }
    forall u | u in r.threads
      ensures Stage(r.threads[u], u, r.queue, r.slots, r.refused, |r.popped|) && (Holds(r.threads[u]) <==> u == f)
    {
      assert u == f || Stage(s.threads[u], u, s.queue, s.slots, s.refused, |s.popped|);
    }
  }

  lemma FetchHandlers(s: State, t: nat)
    requires Handlers(s) && Enabled(s, Fetch(t)) && s.queue != []
    requires var f := s.queue[0].ticket; f in s.slots && s.slots[f] == |s.popped| && f !in s.refused
    requires t !in s.refused
    ensures Handlers(DoFetch(s, t))
  {
    var r := DoFetch(s, t);
    forall u | u in r.threads
      ensures Carries(r, u)
    {
      assert u == s.queue[0].ticket || Carries(s, u);
    }
    forall u: nat
      ensures CallsOf(r.calls, u) == Due(r, u)
    {
      assert CallsOf(s.calls, u) == Due(s, u);
    }
  }

  /** No thread works on an entry behind the front one. */
  lemma BehindFrontIdle(s: State)
    requires Inv(s) && |s.queue| > 1
    ensures s.queue[1].ticket in s.slots && s.slots[s.queue[1].ticket] == |s.popped| + 1
    ensures s.queue[1].ticket !in s.threads
  {
    FrontSlot(s);
    assert s.accepted[|s.popped| + 1] == s.queue[1];
    var f := s.queue[1].ticket;
    if f in s.threads && Stage(s.threads[f], f, s.queue, s.slots, s.refused, |s.popped|) {
      assert false;
    }
  }

  /** Only the writer pops, so there is an entry to pop. */
  lemma PopFront(s: State, t: nat)
    requires Inv(s) && Enabled(s, Pop(t))
    ensures s.queue != [] && t == s.queue[0].ticket
    ensures forall u :: u in s.threads && u != t ==> !Working(s.threads[u]) && !Holds(s.threads[u])
  {
    assert Stage(s.threads[t], t, s.queue, s.slots, s.refused, |s.popped|);
    forall u | u in s.threads && u != t
      ensures !Working(s.threads[u]) && !Holds(s.threads[u])
    {
      assert Stage(s.threads[u], u, s.queue, s.slots, s.refused, |s.popped|);
    }
  }

  lemma PopSingleWriter(s: State, t: nat)
    requires Enabled(s, Pop(t)) && s.queue != [] && t == s.queue[0].ticket
    requires forall u :: u in s.threads && u != t ==> !Holds(s.threads[u])
    requires |s.queue| > 1 ==> s.queue[1].ticket !in s.threads
    ensures SingleWriter(DoPop(s, t).queue, DoPop(s, t).threads, DoPop(s, t).popped)
  {
    var r := DoPop(s, t);
    assert r.threads == s.threads[t := r.threads[t]];
  }

  lemma PopStaged(s: State, t: nat)
    requires Inv(s) && Enabled(s, Pop(t)) && s.queue != []
    ensures var r := DoPop(s, t); Staged(r.threads, r.queue, r.slots, r.refused, |r.popped|)
  {
    PopFront(s, t);
    FrontSlot(s);
    var r := DoPop(s, t);
    forall u | u in r.threads
      ensures Stage(r.threads[u], u, r.queue, r.slots, r.refused, |r.popped|)
    {
      if u != t {
        assert Stage(s.threads[u], u, s.queue, s.slots, s.refused, |s.popped|);
      }
    }
  }

  lemma PopOrdered(s: State, t: nat)
    requires Fifo(s) && Ordered(s) && Enabled(s, Pop(t)) && s.queue != [] && t == s.queue[0].ticket
    requires |s.queue| > 1 ==> s.queue[1].ticket !in s.threads
    ensures |s.operations| == |s.popped| + 1
    ensures s.operations[|s.popped|] == Operation(EntryBytes(s.queue[0]), s.threads[t].ok)
    ensures Fifo(DoPop(s, t)) && Ordered(DoPop(s, t))
  {
    var r := DoPop(s, t);
    var n := |s.popped|;
    assert s.operations == s.operations[..n] + s.operations[n..];
    assert r.operations[..n + 1] == s.operations[..n] + [s.operations[n]];
    assert s.popped + s.queue == s.popped + [s.queue[0]] + s.queue[1..];
  }

  lemma PopOnWire(s: State, t: nat)
    requires Fifo(s) && OnWire(s) && Ordered(s) && Enabled(s, Pop(t)) && s.queue != [] && t == s.queue[0].ticket
    requires |s.queue| > 1 ==> s.queue[1].ticket !in s.threads
    ensures OnWire(DoPop(s, t))
  {
    var r := DoPop(s, t);
    PopOrdered(s, t);
    if !s.failed {
      FrontBytes(s);
      assert Part(r.queue, r.threads) == [];
      assert s.wire == Flat(r.popped) + [];
    }
  }

  lemma PopHandlers(s: State, t: nat)
    requires Handlers(s) && Fifo(s) && Tickets(s.accepted, s.slots, s.refused, s.nextTicket)
    requires Enabled(s, Pop(t)) && s.queue != [] && t == s.queue[0].ticket
    requires |s.operations| == |s.popped| + 1 && s.operations[|s.popped|].ok == s.threads[t].ok
    ensures Handlers(DoPop(s, t))
  {
    assert s.accepted[|s.popped|] == s.queue[0];
    var r := DoPop(s, t);
    forall u | u in r.threads
      ensures Carries(r, u)
    {
      assert u == t || Carries(s, u);
    }
    forall u: nat
      ensures CallsOf(r.calls, u) == Due(r, u)
    {
      assert CallsOf(s.calls, u) == Due(s, u);
      if u != t && u in s.slots {
        assert s.slots[u] != |s.popped|;
      }
    }
  }

  lemma PopKeeps(s: State, t: nat)
    requires Inv(s) && Enabled(s, Pop(t))
    ensures Inv(DoPop(s, t))
  {
    PopFront(s, t);
    if |s.queue| > 1 {
      BehindFrontIdle(s);
    }
    PopOrdered(s, t);
    PopOnWire(s, t);
    PopHandlers(s, t);
    PopSingleWriter(s, t);
    PopStaged(s, t);
  }

  // Steps after the pop, and rejections: the queue, the wire and the log of writes stay put.

  lemma QuietKeeps(s: State, r: State)
    requires Ordered(s) && OnWire(s)
    requires r.queue == s.queue && r.popped == s.popped && r.accepted == s.accepted && r.operations == s.operations
    requires r.wire == s.wire && r.failed == s.failed
    requires r.threads.Keys <= s.threads.Keys
    requires forall u :: u in r.threads ==>
               r.threads[u] == s.threads[u] || (!Working(r.threads[u]) && !Working(s.threads[u]))
    requires forall u :: u in s.threads && u !in r.threads ==> !Working(s.threads[u])
    ensures Ordered(r) && OnWire(r)
  {
    assert Unpopped(r.queue, r.threads) == Unpopped(s.queue, s.threads);
    assert Part(r.queue, r.threads) == Part(s.queue, s.threads);
  }

  lemma CallControl(s: State, t: nat)
    requires SingleWriter(s.queue, s.threads, s.popped) && Enabled(s, Call(t))
    requires Staged(s.threads, s.queue, s.slots, s.refused, |s.popped|)
    ensures var r := DoCall(s, t);
            && SingleWriter(r.queue, r.threads, r.popped)
            && Staged(r.threads, r.queue, r.slots, r.refused, |r.popped|)
  {
    var r := DoCall(s, t);
    assert r.threads.Keys == s.threads.Keys;
    forall u | u in r.threads
      ensures Stage(r.threads[u], u, r.queue, r.slots, r.refused, |r.popped|)
    {
      assert Stage(s.threads[u], u, s.queue, s.slots, s.refused, |s.popped|);
    }
  }

  lemma CallHandlers(s: State, t: nat)
    requires Handlers(s) && Enabled(s, Call(t))
    ensures Handlers(DoCall(s, t))
  {
    var r := DoCall(s, t);
    assert Carries(s, t);
    forall u | u in r.threads
      ensures Carries(r, u)
    {
      assert u == t || Carries(s, u);
    }
    forall u: nat
      ensures CallsOf(r.calls, u) == Due(r, u)
    {
      assert CallsOf(s.calls, u) == Due(s, u);
    }
  }

  lemma CallKeeps(s: State, t: nat)
    requires Inv(s) && Enabled(s, Call(t))
    ensures Inv(DoCall(s, t))
  {
    CallControl(s, t);
    CallHandlers(s, t);
    QuietKeeps(s, DoCall(s, t));
  }

  /** A thread without the right to write may end. */
  lemma EndControl(s: State, r: State, t: nat)
    requires SingleWriter(s.queue, s.threads, s.popped) && Staged(s.threads, s.queue, s.slots, s.refused, |s.popped|)
    requires t in s.threads && !Holds(s.threads[t])
    requires r.queue == s.queue && r.popped == s.popped && r.slots == s.slots && r.refused == s.refused
    requires r.threads == s.threads - {t}
    ensures SingleWriter(r.queue, r.threads, r.popped)
    ensures Staged(r.threads, r.queue, r.slots, r.refused, |r.popped|)
  {
    forall u | u in r.threads
      ensures Stage(r.threads[u], u, r.queue, r.slots, r.refused, |r.popped|)
    {
      assert Stage(s.threads[u], u, s.queue, s.slots, s.refused, |s.popped|);
    }
  }

  lemma ReportHandlers(s: State, t: nat)
    requires Handlers(s) && Enabled(s, Report(t)) && t !in s.slots
    ensures Handlers(DoReport(s, t))
  {
    var r := DoReport(s, t);
    assert Carries(s, t);
    forall u | u in r.threads
      ensures Carries(r, u)
    {
      assert Carries(s, u);
    }
    forall u: nat
      ensures CallsOf(r.calls, u) == Due(r, u)
    {
      assert CallsOf(s.calls, u) == Due(s, u);
    }
  }

  lemma ReturnHandlers(s: State, t: nat)
    requires Handlers(s) && Enabled(s, Return(t)) && t !in s.refused
    ensures Handlers(DoReturn(s, t))
  {
    var r := DoReturn(s, t);
    forall u | u in r.threads
      ensures Carries(r, u)
    {
      assert Carries(s, u);
    }
    forall u: nat
      ensures CallsOf(r.calls, u) == Due(r, u)
    {
      assert CallsOf(s.calls, u) == Due(s, u);
    }
  }

  /** Ending a thread that is not working on the front entry disturbs neither the wire nor the log of writes. */
  lemma EndQuiet(s: State, r: State, t: nat)
    requires Ordered(s) && OnWire(s) && t in s.threads && !Working(s.threads[t])
    requires r.queue == s.queue && r.popped == s.popped && r.accepted == s.accepted && r.operations == s.operations
    requires r.wire == s.wire && r.failed == s.failed && r.threads == s.threads - {t}
    ensures Ordered(r) && OnWire(r)
  {
    QuietKeeps(s, r);
  }

  lemma ReportKeeps(s: State, t: nat)
    requires Inv(s) && Enabled(s, Report(t))
    ensures Inv(DoReport(s, t))
  {
    assert Stage(s.threads[t], t, s.queue, s.slots, s.refused, |s.popped|);
    EndControl(s, DoReport(s, t), t);
    ReportHandlers(s, t);
    EndQuiet(s, DoReport(s, t), t);
  }

  lemma ReturnKeeps(s: State, t: nat)
    requires Inv(s) && Enabled(s, Return(t))
    ensures Inv(DoReturn(s, t))
  {
    assert Stage(s.threads[t], t, s.queue, s.slots, s.refused, |s.popped|);
    EndControl(s, DoReturn(s, t), t);
    ReturnHandlers(s, t);
    EndQuiet(s, DoReturn(s, t), t);
  }

  // The locked push.

  /** No thread, queued entry or call has the next ticket yet. */
  lemma FreshThread(s: State)
    requires Inv(s)
    ensures s.nextTicket !in s.threads && s.nextTicket !in s.slots && s.nextTicket !in s.refused
    ensures s.queue != [] ==> s.queue[0].ticket != s.nextTicket
    ensures s.popped != [] ==> s.popped[|s.popped| - 1].ticket != s.nextTicket
  {
    var t := s.nextTicket;
    if s.queue != [] {
      FrontSlot(s);
    }
    if s.popped != [] {
      LastSlot(s);
    }
    if t in s.threads && Stage(s.threads[t], t, s.queue, s.slots, s.refused, |s.popped|) {
      assert false;
    }
  }

  lemma RefuseControl(s: State, head: seq<Byte>, body: seq<Byte>, hasHandler: bool)
    requires SingleWriter(s.queue, s.threads, s.popped)
    requires Staged(s.threads, s.queue, s.slots, s.refused, |s.popped|)
    requires Ordered(s) && OnWire(s) && Full(s)
    requires s.nextTicket !in s.threads && (s.queue != [] ==> s.queue[0].ticket != s.nextTicket)
    requires s.popped != [] ==> s.popped[|s.popped| - 1].ticket != s.nextTicket
    ensures var r := DoSubmit(s, head, body, hasHandler);
            && SingleWriter(r.queue, r.threads, r.popped)
            && Staged(r.threads, r.queue, r.slots, r.refused, |r.popped|)
            && Ordered(r) && OnWire(r)
  {
    var r := DoSubmit(s, head, body, hasHandler);
    assert Unpopped(r.queue, r.threads) == Unpopped(s.queue, s.threads);
    assert Part(r.queue, r.threads) == Part(s.queue, s.threads);
    forall u | u in r.threads
      ensures Stage(r.threads[u], u, r.queue, r.slots, r.refused, |r.popped|)
    {
      assert u == s.nextTicket || Stage(s.threads[u], u, s.queue, s.slots, s.refused, |s.popped|);
    }
  }

  lemma RefuseHandlers(s: State, head: seq<Byte>, body: seq<Byte>, hasHandler: bool)
    requires Handlers(s) && Full(s)
    requires s.nextTicket !in s.threads && s.nextTicket !in s.slots && s.nextTicket !in s.refused
    ensures Handlers(DoSubmit(s, head, body, hasHandler))
  {
    var r := DoSubmit(s, head, body, hasHandler);
    forall u | u in r.threads
      ensures Carries(r, u)
    {
      assert u == s.nextTicket || Carries(s, u);
    }
    forall u: nat
      ensures CallsOf(r.calls, u) == Due(r, u)
    {
      assert CallsOf(s.calls, u) == Due(s, u);
    }
  }

  lemma AcceptHandlers(s: State, head: seq<Byte>, body: seq<Byte>, hasHandler: bool)
    requires Handlers(s) && !Full(s) && |s.popped| <= |s.accepted|
    requires s.nextTicket !in s.threads && s.nextTicket !in s.slots && s.nextTicket !in s.refused
    ensures Handlers(DoSubmit(s, head, body, hasHandler))
  {
    var r := DoSubmit(s, head, body, hasHandler);
    forall u | u in r.threads
      ensures Carries(r, u)
    {
      assert u == s.nextTicket || Carries(s, u);
    }
    forall u: nat
      ensures CallsOf(r.calls, u) == Due(r, u)
    {
      assert CallsOf(s.calls, u) == Due(s, u);
    }
  }

  lemma RefuseKeeps(s: State, head: seq<Byte>, body: seq<Byte>, hasHandler: bool)
    requires Inv(s) && Full(s)
    ensures Inv(DoSubmit(s, head, body, hasHandler))
  {
    FreshThread(s);
    RefuseControl(s, head, body, hasHandler);
    RefuseHandlers(s, head, body, hasHandler);
    RefuseTickets(s.accepted, s.slots, s.refused, s.nextTicket, hasHandler);
  }

  lemma RefuseTickets(accepted: seq<Entry>, slots: map<nat, nat>, refused: map<nat, bool>, t: nat, hasHandler: bool)
    requires Tickets(accepted, slots, refused, t)
    ensures Tickets(accepted, slots, refused[t := hasHandler], t + 1)
  {
  }

  lemma AcceptTickets(accepted: seq<Entry>, slots: map<nat, nat>, refused: map<nat, bool>, e: Entry)
    requires Tickets(accepted, slots, refused, e.ticket)
    ensures Tickets(accepted + [e], slots[e.ticket := |accepted|], refused, e.ticket + 1)
  {
  }

  lemma AcceptControl(s: State, head: seq<Byte>, body: seq<Byte>, hasHandler: bool)
    requires SingleWriter(s.queue, s.threads, s.popped)
    requires Staged(s.threads, s.queue, s.slots, s.refused, |s.popped|)
    requires !Full(s) && s.nextTicket !in s.threads && s.nextTicket !in s.slots
    ensures var r := DoSubmit(s, head, body, hasHandler);
            && SingleWriter(r.queue, r.threads, r.popped)
            && Staged(r.threads, r.queue, r.slots, r.refused, |r.popped|)
  {
    var r := DoSubmit(s, head, body, hasHandler);
    assert s.queue != [] ==> r.queue[0] == s.queue[0];
    forall u | u in r.threads
      ensures Stage(r.threads[u], u, r.queue, r.slots, r.refused, |r.popped|)
    {
      assert u == s.nextTicket || Stage(s.threads[u], u, s.queue, s.slots, s.refused, |s.popped|);
    }
  }

  lemma AcceptReceipts(s: State, e: Entry)
    requires Fifo(s) && Ordered(s) && Receipts(s.accepted, s.operations, s.wire)
    ensures Receipts(s.accepted + [e], s.operations, s.wire)
  {
    assert |s.operations| <= |s.accepted| by {
      assert |s.operations| == |s.popped| + |s.operations[|s.popped|..]|;
    }
    forall i | 0 <= i < |s.operations| && s.operations[i].ok && s.operations[i].bytes != []
      ensures Flat((s.accepted + [e])[..i + 1]) <= s.wire
    {
      assert (s.accepted + [e])[..i + 1] == s.accepted[..i + 1];
    }
  }

  lemma AcceptLogs(s: State, head: seq<Byte>, body: seq<Byte>, hasHandler: bool)
    requires Fifo(s) && Ordered(s) && OnWire(s) && !Full(s) && s.nextTicket !in s.threads
    ensures var r := DoSubmit(s, head, body, hasHandler); Fifo(r) && Ordered(r) && OnWire(r)
  {
    var r := DoSubmit(s, head, body, hasHandler);
    var e := Entry(s.nextTicket, head, body, hasHandler);
    ConcatAssociates(s.popped, s.queue, [e]);
    assert s.queue != [] ==> r.queue[0] == s.queue[0];
    assert Unpopped(r.queue, r.threads) == Unpopped(s.queue, s.threads);
    assert Part(r.queue, r.threads) == Part(s.queue, s.threads);
    FlatSnoc(s.accepted, e);
  }

  lemma AcceptKeeps(s: State, head: seq<Byte>, body: seq<Byte>, hasHandler: bool)
    requires Inv(s) && !Full(s)
    ensures Inv(DoSubmit(s, head, body, hasHandler))
  {
    var e := Entry(s.nextTicket, head, body, hasHandler);
    FreshThread(s);
    AcceptControl(s, head, body, hasHandler);
    AcceptLogs(s, head, body, hasHandler);
    AcceptReceipts(s, e);
    AcceptHandlers(s, head, body, hasHandler);
    AcceptTickets(s.accepted, s.slots, s.refused, e);
  }

  // ----- Over every schedule -----

  /** Only calls of async_write add entries, and the wire is only ever extended. */
  lemma StepExtends(s: State, step: Step)
    ensures step.Submit? || Apply(s, step).accepted == s.accepted
    ensures s.wire <= Apply(s, step).wire
  {
  }

  lemma SubmitKeeps(s: State, head: seq<Byte>, body: seq<Byte>, hasHandler: bool)
    requires Inv(s)
    ensures Inv(DoSubmit(s, head, body, hasHandler))
  {
    if Full(s) {
      RefuseKeeps(s, head, body, hasHandler);
    } else {
      AcceptKeeps(s, head, body, hasHandler);
    }
  }

  /** The steps of the stream keep the invariant. */
  lemma StreamStepKeeps(s: State, step: Step)
    requires Inv(s) && Enabled(s, step) && (step.Issue? || step.Transfer? || step.Finish? || step.Break?)
    ensures Inv(Apply(s, step))
  {
    match step
    case Issue(t) => IssueKeeps(s, t);
    case Transfer(t, count) => TransferKeeps(s, t, count);
    case Finish(t) => FinishKeeps(s, t);
    case Break(t) => BreakKeeps(s, t);
  }

  lemma StepKeeps(s: State, step: Step)
    requires Inv(s)
    ensures Inv(Apply(s, step))
  {
    if Enabled(s, step) {
      match step
      case Submit(head, body, hasHandler) => SubmitKeeps(s, head, body, hasHandler);
      case Fetch(t) => FetchKeeps(s, t);
      case Pop(t) => PopKeeps(s, t);
      case Call(t) => CallKeeps(s, t);
      case Report(t) => ReportKeeps(s, t);
      case Return(t) => ReturnKeeps(s, t);
      case _ => StreamStepKeeps(s, step);
    }
  }

  lemma {:induction false} AlwaysInv(maxPending: nat, steps: seq<Step>)
    ensures Inv(Exec(Init(maxPending), steps))
  {
    if steps == [] {
      assert Matches([], []);
    } else {
      AlwaysInv(maxPending, steps[..|steps| - 1]);
      StepKeeps(Exec(Init(maxPending), steps[..|steps| - 1]), steps[|steps| - 1]);
    }
  }

  /** The part of the invariant that says where the threads are. */
  ghost predicate Steady(s: State) {
    && SingleWriter(s.queue, s.threads, s.popped)
    && Staged(s.threads, s.queue, s.slots, s.refused, |s.popped|)
  }

  lemma AlwaysSteady(maxPending: nat, steps: seq<Step>)
    ensures Steady(Exec(Init(maxPending), steps))
  {
    AlwaysInv(maxPending, steps);
  }

  /** Single-writer token: in every reachable state no empty queue has been touched, at most one thread
      may write, and one may exactly when the queue is non-empty; so stream writes never overlap and no
      queued entry is stranded. */
  lemma WriterToken(maxPending: nat, steps: seq<Step>)
    ensures var s := Exec(Init(maxPending), steps);
            && !s.undefined
            && (s.queue != [] <==> exists t :: t in s.threads && Holds(s.threads[t]))
            && (forall t, u :: t in s.threads && u in s.threads && Holds(s.threads[t]) && Holds(s.threads[u]) ==>
                  t == u)
  {
    AlwaysInv(maxPending, steps);
    var s := Exec(Init(maxPending), steps);
    if s.queue != [] {
      assert Holds(s.threads[Writer(s.queue, s.threads, s.popped)]);
    }
  }

  lemma FrontOf(s: State, t: nat)
    requires Steady(s) && (Enabled(s, Fetch(t)) || Enabled(s, Pop(t)))
    ensures s.queue != [] && (Enabled(s, Pop(t)) ==> s.queue[0].ticket == t)
  {
    assert Holds(s.threads[t]);
    assert Stage(s.threads[t], t, s.queue, s.slots, s.refused, |s.popped|);
  }

  /** Whenever the front entry is fetched or popped there is one; a pop is of the entry just written. */
  lemma FrontIsThere(maxPending: nat, steps: seq<Step>, t: nat)
    requires var s := Exec(Init(maxPending), steps); Enabled(s, Fetch(t)) || Enabled(s, Pop(t))
    ensures var s := Exec(Init(maxPending), steps);
            s.queue != [] && (Enabled(s, Pop(t)) ==> s.queue[0].ticket == t)
  {
    AlwaysSteady(maxPending, steps);
    FrontOf(Exec(Init(maxPending), steps), t);
  }

  /** Wire refinement: entries are popped in the order they were accepted; until the first failed write
      the wire is the popped entries in full, then a prefix of the front one; it is always a prefix of
      the accepted bytes. */
  lemma WireRefinement(maxPending: nat, steps: seq<Step>)
    ensures var s := Exec(Init(maxPending), steps);
            && s.accepted == s.popped + s.queue
            && s.wire <= Flat(s.accepted)
            && (!s.failed && s.queue == [] ==> s.wire == Flat(s.accepted))
            && (!s.failed && s.queue != [] ==>
                  Flat(s.popped) <= s.wire <= Flat(s.popped) + EntryBytes(s.queue[0]))
  {
    AlwaysInv(maxPending, steps);
    var s := Exec(Init(maxPending), steps);
    WirePrefix(s);
    if s.queue == [] {
      assert s.popped + [] == s.popped;
    } else if !s.failed && s.queue[0].ticket in s.threads {
      var f := s.queue[0].ticket;
      assert Stage(s.threads[f], f, s.queue, s.slots, s.refused, |s.popped|);
    }
  }

  /** The entry of a call is on the wire, with everything accepted before it. */
  ghost predicate Written(s: State, t: nat) {
    && t in s.slots && s.slots[t] < |s.accepted| && s.accepted[s.slots[t]].ticket == t
    && (EntryBytes(s.accepted[s.slots[t]]) != [] ==> Flat(s.accepted[..s.slots[t] + 1]) <= s.wire)
  }

  lemma ReceiptOf(s: State, t: nat)
    requires Fifo(s) && Tickets(s.accepted, s.slots, s.refused, s.nextTicket) && Ordered(s)
    requires Receipts(s.accepted, s.operations, s.wire) && CallsOf(s.calls, t) == Due(s, t) == [true]
    ensures Written(s, t)
  {
    var i := s.slots[t];
    assert s.operations[i] == s.operations[..|s.popped|][i];
    assert s.accepted[i] == s.popped[i];
  }

  lemma ReceiptHolds(s: State, t: nat)
    requires Inv(s) && CallsOf(s.calls, t) == [true]
    ensures Written(s, t)
  {
    assert CallsOf(s.calls, t) == Due(s, t);
    ReceiptOf(s, t);
  }

  /** A write whose handler is told it succeeded is on the wire, with everything accepted before it. */
  lemma TrueReceipt(maxPending: nat, steps: seq<Step>, t: nat)
    requires CallsOf(Exec(Init(maxPending), steps).calls, t) == [true]
    ensures Written(Exec(Init(maxPending), steps), t)
  {
    ReceiptHolds(Exec(Init(maxPending), steps), t) by { AlwaysInv(maxPending, steps); }
  }

  lemma FailureReported(s: State, t: nat)
    requires Inv(s) && t in s.slots && CallsOf(s.calls, t) == [false]
    ensures s.failed
  {
    assert CallsOf(s.calls, t) == Due(s, t);
  }

  /** An accepted write whose handler is told it failed was on a stream that has failed. */
  lemma TrueFailure(maxPending: nat, steps: seq<Step>, t: nat)
    requires var s := Exec(Init(maxPending), steps); t in s.slots && CallsOf(s.calls, t) == [false]
    ensures Exec(Init(maxPending), steps).failed
  {
    FailureReported(Exec(Init(maxPending), steps), t) by { AlwaysInv(maxPending, steps); }
  }

  /** Exactly-once handlers: no handler is ever called twice; once every thread has finished, each call
      that has a handler has had it called exactly once, a refused one with false and an accepted one
      with the result of its own stream write. */
  lemma HandlersOnce(maxPending: nat, steps: seq<Step>, t: nat)
    ensures var s := Exec(Init(maxPending), steps);
            && |CallsOf(s.calls, t)| <= 1
            && (t in s.slots || t in s.refused <==> t < s.nextTicket)
            && (t in s.slots ==> s.slots[t] < |s.accepted| && s.accepted[s.slots[t]].ticket == t)
            && (t in s.refused && CallsOf(s.calls, t) != [] ==> CallsOf(s.calls, t) == [false])
            && (t in s.slots && CallsOf(s.calls, t) != [] ==>
                  var i := s.slots[t];
                  && i < |s.popped| && i < |s.operations| && s.popped[i].ticket == t && s.popped[i].hasHandler
                  && s.operations[i].bytes == EntryBytes(s.popped[i])
                  && CallsOf(s.calls, t) == [s.operations[i].ok])
            && (s.threads == map[] && t in s.refused && s.refused[t] ==> CallsOf(s.calls, t) == [false])
            && (s.threads == map[] && t in s.slots && s.accepted[s.slots[t]].hasHandler ==> |CallsOf(s.calls, t)| == 1)
  {
    AlwaysInv(maxPending, steps);
    var s := Exec(Init(maxPending), steps);
    assert CallsOf(s.calls, t) == Due(s, t);
    if t in s.slots && s.slots[t] < |s.popped| {
      var i := s.slots[t];
      assert s.operations[i] == s.operations[..|s.popped|][i];
      assert s.accepted[i] == s.popped[i];
    }
    if s.threads == map[] && s.queue != [] {
      assert false;
    }
  }

  // ----- The calls themselves -----

  /** The async_write calls of a schedule, in order. */
  function Calls(steps: seq<Step>): (calls: seq<Step>)
    ensures forall i :: 0 <= i < |calls| ==> calls[i].Submit?
  {
    if steps == [] then []
    else
      var n := |steps| - 1;
      Calls(steps[..n]) + if steps[n].Submit? then [steps[n]] else []
  }

  /** The entry that the t-th call asks for. */
  function Asked(calls: seq<Step>, t: nat): (e: Entry)
    requires t < |calls| && calls[t].Submit?
  {
    Entry(t, calls[t].head, calls[t].body, calls[t].hasHandler)
  }

  /** Every accepted entry is what its call asked for, in the order of the calls; every refused call is
      recorded with its own handler. */
  ghost predicate FromCalls(s: State, calls: seq<Step>) {
    && s.nextTicket == |calls| && (forall i :: 0 <= i < |calls| ==> calls[i].Submit?)
    && (forall i :: 0 <= i < |s.accepted| ==> s.accepted[i].ticket < |calls|)
    && (forall i :: 0 <= i < |s.accepted| ==> s.accepted[i] == Asked(calls, s.accepted[i].ticket))
    && (forall i, j :: 0 <= i < j < |s.accepted| ==> s.accepted[i].ticket < s.accepted[j].ticket)
    && (forall t :: t in s.refused ==> t < |calls| && s.refused[t] == calls[t].hasHandler)
  }

  /** A limited queue never grows beyond its limit. */
  ghost predicate Bounded(s: State) {
    s.maxPending != 0 ==> |s.queue| <= s.maxPending
  }

  lemma RefuseFromCalls(s: State, calls: seq<Step>, step: Step)
    requires FromCalls(s, calls) && step.Submit? && Full(s)
    ensures FromCalls(DoSubmit(s, step.head, step.body, step.hasHandler), calls + [step])
  {
  }

  lemma AcceptFromCalls(s: State, calls: seq<Step>, step: Step)
    requires FromCalls(s, calls) && step.Submit? && !Full(s)
    ensures FromCalls(DoSubmit(s, step.head, step.body, step.hasHandler), calls + [step])
  {
    var r := DoSubmit(s, step.head, step.body, step.hasHandler);
    assert r.accepted == s.accepted + [Asked(calls + [step], |calls|)];
  }

  /** Only calls change what has been accepted or refused. */
  ghost predicate SameCalls(s: State, r: State) {
    && r.accepted == s.accepted && r.refused == s.refused && r.nextTicket == s.nextTicket
    && |r.queue| <= |s.queue| && r.maxPending == s.maxPending
  }

  lemma FetchSameCalls(s: State, t: nat)
    ensures SameCalls(s, DoFetch(s, t))
  {
  }

  lemma PopSameCalls(s: State, t: nat)
    requires Enabled(s, Pop(t))
    ensures SameCalls(s, DoPop(s, t))
  {
  }

  lemma OthersLeaveCalls(s: State, step: Step)
    requires !step.Submit?
    ensures SameCalls(s, Apply(s, step))
  {
    if Enabled(s, step) {
      match step
      case Fetch(t) => FetchSameCalls(s, t);
      case Issue(t) => assert SameCalls(s, DoIssue(s, t));
      case Transfer(t, count) => assert SameCalls(s, DoTransfer(s, t, count));
      case Finish(t) => assert SameCalls(s, DoFinish(s, t));
      case Break(t) => assert SameCalls(s, DoBreak(s, t));
      case Pop(t) => PopSameCalls(s, t);
      case Call(t) => assert SameCalls(s, DoCall(s, t));
      case Report(t) => assert SameCalls(s, DoReport(s, t));
      case Return(t) => assert SameCalls(s, DoReturn(s, t));
    }
  }

  lemma {:induction false} AlwaysFromCalls(maxPending: nat, steps: seq<Step>)
    ensures FromCalls(Exec(Init(maxPending), steps), Calls(steps))
    ensures Bounded(Exec(Init(maxPending), steps)) && Exec(Init(maxPending), steps).maxPending == maxPending
  {
    if steps != [] {
      var n := |steps| - 1;
      AlwaysFromCalls(maxPending, steps[..n]);
      var s := Exec(Init(maxPending), steps[..n]);
      if steps[n].Submit? {
        if Full(s) {
          RefuseFromCalls(s, Calls(steps[..n]), steps[n]);
        } else {
          AcceptFromCalls(s, Calls(steps[..n]), steps[n]);
        }
      } else {
        OthersLeaveCalls(s, steps[n]);
        assert Calls(steps) == Calls(steps[..n]);
      }
    }
  }

  /** What a call does, in every reachable state: a limited queue is never over its limit; the call is refused
      exactly when the queue is at it, and then leaves the queue alone; otherwise its own head, body and handler
      go to the back of the queue. */
  lemma SubmitLaw(maxPending: nat, steps: seq<Step>, head: seq<Byte>, body: seq<Byte>, hasHandler: bool)
    ensures var s := Exec(Init(maxPending), steps);
            var r := Exec(Init(maxPending), steps + [Submit(head, body, hasHandler)]);
            var t := |Calls(steps)|;
            && (maxPending != 0 ==> |s.queue| <= maxPending)
            && if maxPending != 0 && |s.queue| == maxPending
               then r.queue == s.queue && r.accepted == s.accepted && t in r.refused
               else r.queue == s.queue + [Entry(t, head, body, hasHandler)]
                    && r.accepted == s.accepted + [Entry(t, head, body, hasHandler)] && t !in r.refused
  {
    AlwaysFromCalls(maxPending, steps);
    ExecSnoc(Init(maxPending), steps, Submit(head, body, hasHandler));
  }

  /** Exactly-once handlers, from the calls: a handler that was passed in is called at most once, and once every
      thread has finished exactly once, for accepted and refused calls alike; where none was passed in, none is
      called. */
  lemma HandlerOfEachCall(maxPending: nat, steps: seq<Step>, t: nat)
    requires t < |Calls(steps)|
    ensures var s := Exec(Init(maxPending), steps);
            && |CallsOf(s.calls, t)| <= (if Calls(steps)[t].hasHandler then 1 else 0)
            && (s.threads == map[] ==> |CallsOf(s.calls, t)| == if Calls(steps)[t].hasHandler then 1 else 0)
            && (t in s.slots <==> t !in s.refused)
            && (t in s.slots ==> s.slots[t] < |s.accepted| && s.accepted[s.slots[t]] == Asked(Calls(steps), t))
            && (t in s.refused && CallsOf(s.calls, t) != [] ==> CallsOf(s.calls, t) == [false])
  {
    AlwaysFromCalls(maxPending, steps);
    HandlersOnce(maxPending, steps, t);
    NoHandlerNoCall(maxPending, steps, t);
  }

  lemma NoHandlerNoCall(maxPending: nat, steps: seq<Step>, t: nat)
    ensures var s := Exec(Init(maxPending), steps);
            && (t in s.refused ==> t !in s.slots)
            && (t in s.refused && !s.refused[t] ==> CallsOf(s.calls, t) == [])
            && (t in s.slots && s.slots[t] < |s.accepted| && !s.accepted[s.slots[t]].hasHandler ==>
                  CallsOf(s.calls, t) == [])
  {
    AlwaysInv(maxPending, steps);
    var s := Exec(Init(maxPending), steps);
    assert CallsOf(s.calls, t) == Due(s, t);
    if t in s.slots && s.slots[t] < |s.popped| {
      assert s.accepted[s.slots[t]] == s.popped[s.slots[t]];
    }
  }

  // ----- Draining -----

  lemma ExecSnoc(s: State, steps: seq<Step>, step: Step)
    ensures Exec(s, steps + [step]) == Apply(Exec(s, steps), step)
  {
    assert (steps + [step])[..|steps|] == steps;
  }

  /** A step that gets on with what has been asked for: no new call, and some bytes in every transfer. */
  predicate Useful(s: State, step: Step) {
    Enabled(s, step) && !step.Submit? && (step.Transfer? ==> step.count > 0)
  }

  /** At most how many useful steps a queue takes: six and its bytes for each entry. */
  ghost function QueueWork(queue: seq<Entry>): (n: nat) {
    if queue == [] then 0 else 6 + |EntryBytes(queue[0])| + QueueWork(queue[1..])
  }

  /** How many of them the writer has left up to the end of a front entry of the given size. */
  ghost function WriterWork(c: Control, size: nat): (n: nat) {
    match c
    case Popped(_, _, _) => 7 + size
    case SawIdle => 6 + size
    case Called(_) => 6 + size
    case Fetched(_, _) => 5 + size
    case InFlight(bytes, done) => 4 + if done <= |bytes| then |bytes| - done else 0
    case Finished(_) => 3
    case Rejected(_) => 0
  }

  /** The threads without the right to write, and those of them whose handler call is still to come. */
  ghost function Others(threads: Threads): (ts: set<nat>) {
    set t | t in threads && !Holds(threads[t])
  }

  ghost function Owing(threads: Threads): (ts: set<nat>) {
    set t | t in threads && !Holds(threads[t]) && threads[t].Popped?
  }

  /** A bound on how long the socket can go on without new calls. */
  ghost function Work(s: State): (n: nat) {
    |Others(s.threads)| + |Owing(s.threads)| +
    if s.queue == [] || Writer(s.queue, s.threads, s.popped) !in s.threads then 0
    else WriterWork(s.threads[Writer(s.queue, s.threads, s.popped)], |EntryBytes(s.queue[0])|) + QueueWork(s.queue[1..])
  }

  /** What is left to do, by whoever holds the right to write. */
  lemma HolderWork(s: State, w: nat)
    requires SingleWriter(s.queue, s.threads, s.popped) && w in s.threads && Holds(s.threads[w])
    ensures s.queue != []
    ensures Work(s) == |Others(s.threads)| + |Owing(s.threads)|
                       + WriterWork(s.threads[w], |EntryBytes(s.queue[0])|) + QueueWork(s.queue[1..])
  {
  }

  /** The right to write stays with its thread, or passes to a new one, nearer to the end. */
  lemma HandOver(s: State, r: State, w: nat, k: nat)
    requires SingleWriter(s.queue, s.threads, s.popped) && SingleWriter(r.queue, r.threads, r.popped)
    requires r.queue == s.queue && w in s.threads && Holds(s.threads[w]) && k in r.threads && Holds(r.threads[k])
    requires (k == w || k !in s.threads) && r.threads == (s.threads - {w})[k := r.threads[k]]
    requires s.queue != [] ==>
               var size := |EntryBytes(s.queue[0])|; WriterWork(r.threads[k], size) < WriterWork(s.threads[w], size)
    ensures Work(r) < Work(s)
  {
    HolderWork(s, w);
    HolderWork(r, k);
    assert Others(r.threads) == Others(s.threads);
    assert Owing(r.threads) == Owing(s.threads);
  }

  lemma FetchWorks(s: State, t: nat)
    requires Enabled(s, Fetch(t)) && Steady(s) && Steady(DoFetch(s, t))
    ensures Work(DoFetch(s, t)) < Work(s)
  {
    HolderWork(s, t);
    HandOver(s, DoFetch(s, t), t, s.queue[0].ticket);
  }

  /** A step of the writer on the front entry. */
  lemma WriteWorks(s: State, r: State, t: nat)
    requires Steady(s) && Steady(r) && r.queue == s.queue && t in s.threads && t in r.threads
    requires r.threads == s.threads[t := r.threads[t]] && Holds(s.threads[t]) && Holds(r.threads[t])
    requires s.queue != [] ==>
               var size := |EntryBytes(s.queue[0])|; WriterWork(r.threads[t], size) < WriterWork(s.threads[t], size)
    ensures Work(r) < Work(s)
  {
    assert r.threads == (s.threads - {t})[t := r.threads[t]];
    HandOver(s, r, t, t);
  }

  lemma IssueWorks(s: State, t: nat)
    requires Enabled(s, Issue(t)) && Steady(s) && Steady(DoIssue(s, t))
    ensures Work(DoIssue(s, t)) < Work(s)
  {
    assert Stage(s.threads[t], t, s.queue, s.slots, s.refused, |s.popped|);
    WriteWorks(s, DoIssue(s, t), t);
  }

  lemma TransferWorks(s: State, t: nat, count: nat)
    requires Enabled(s, Transfer(t, count)) && count > 0 && Steady(s) && Steady(DoTransfer(s, t, count))
    ensures Work(DoTransfer(s, t, count)) < Work(s)
  {
    WriteWorks(s, DoTransfer(s, t, count), t);
  }

  /** A writer that gives up the right to write, its handler call still to come. */
  lemma GivesUp(threads: Threads, t: nat, c: Control)
    requires t in threads && Holds(threads[t]) && c.Popped? && !Holds(c)
    ensures |Others(threads[t := c])| == |Others(threads)| + 1
    ensures |Owing(threads[t := c])| == |Owing(threads)| + 1
  {
    assert Others(threads[t := c]) == Others(threads) + {t};
    assert Owing(threads[t := c]) == Owing(threads) + {t};
  }

  /** The pop of the last entry leaves its thread to call the handler and return. */
  lemma LastPopWorks(s: State, t: nat)
    requires Enabled(s, Pop(t)) && Steady(s) && |s.queue| == 1
    ensures Work(DoPop(s, t)) < Work(s)
  {
    var c := Popped(s.queue[0].hasHandler, s.threads[t].ok, false);
    assert Stage(s.threads[t], t, s.queue, s.slots, s.refused, |s.popped|);
    assert DoPop(s, t).threads == s.threads[t := c];
    HolderWork(s, t);
    GivesUp(s.threads, t, c);
  }

  lemma PopWorks(s: State, t: nat)
    requires Enabled(s, Pop(t)) && Steady(s) && Steady(DoPop(s, t)) && |s.queue| > 1
    ensures Work(DoPop(s, t)) < Work(s)
  {
    var r := DoPop(s, t);
    assert Stage(s.threads[t], t, s.queue, s.slots, s.refused, |s.popped|);
    HolderWork(s, t);
    HolderWork(r, t);
    assert Others(r.threads) == Others(s.threads);
    assert Owing(r.threads) == Owing(s.threads);
  }

  /** What another thread does leaves the writer where it is. */
  lemma WriterStays(s: State, r: State)
    requires SingleWriter(s.queue, s.threads, s.popped) && SingleWriter(r.queue, r.threads, r.popped)
    requires r.queue == s.queue
    requires forall t :: t in s.threads && Holds(s.threads[t]) ==> t in r.threads && r.threads[t] == s.threads[t]
    requires |Others(r.threads)| + |Owing(r.threads)| < |Others(s.threads)| + |Owing(s.threads)|
    ensures Work(r) < Work(s)
  {
    if s.queue != [] {
      var w := Writer(s.queue, s.threads, s.popped);
      HolderWork(s, w);
      HolderWork(r, w);
    }
  }

  /** A thread without the right to write calls its handler. */
  lemma LastCallWorks(s: State, r: State, t: nat)
    requires SingleWriter(s.queue, s.threads, s.popped) && SingleWriter(r.queue, r.threads, r.popped)
    requires r.queue == s.queue && t in s.threads && s.threads[t].Popped? && !Holds(s.threads[t])
    requires r.threads == s.threads[t := Called(false)]
    ensures Work(r) < Work(s)
  {
    assert Others(r.threads) == Others(s.threads);
    assert Owing(r.threads) == Owing(s.threads) - {t} && t in Owing(s.threads);
    WriterStays(s, r);
  }

  lemma CallWorks(s: State, t: nat)
    requires Enabled(s, Call(t)) && Steady(s) && Steady(DoCall(s, t))
    ensures Work(DoCall(s, t)) < Work(s)
  {
    if s.threads[t].more {
      WriteWorks(s, DoCall(s, t), t);
    } else {
      LastCallWorks(s, DoCall(s, t), t);
    }
  }

  /** A thread without the right to write ends. */
  lemma EndWorks(s: State, r: State, t: nat)
    requires SingleWriter(s.queue, s.threads, s.popped) && SingleWriter(r.queue, r.threads, r.popped)
    requires r.queue == s.queue && t in s.threads && !Holds(s.threads[t]) && !s.threads[t].Popped?
    requires r.threads == s.threads - {t}
    ensures Work(r) < Work(s)
  {
    assert Others(r.threads) == Others(s.threads) - {t} && t in Others(s.threads);
    assert Owing(r.threads) == Owing(s.threads);
    WriterStays(s, r);
  }

  lemma UsefulStepWorks(s: State, step: Step)
    requires Steady(s) && Steady(Apply(s, step)) && Useful(s, step)
    ensures Work(Apply(s, step)) < Work(s)
  {
    match step
    case Fetch(t) => FetchWorks(s, t);
    case Issue(t) => IssueWorks(s, t);
    case Transfer(t, count) => TransferWorks(s, t, count);
    case Finish(t) => WriteWorks(s, DoFinish(s, t), t);
    case Break(t) => WriteWorks(s, DoBreak(s, t), t);
    case Pop(t) =>
      HolderWork(s, t);
      if |s.queue| == 1 { LastPopWorks(s, t); } else { PopWorks(s, t); }
    case Call(t) => CallWorks(s, t);
    case Report(t) => EndWorks(s, DoReport(s, t), t);
    case Return(t) => EndWorks(s, DoReturn(s, t), t);
  }

  /** The next step of a thread, letting the stream take everything unless it has failed. */
  ghost function NextOf(s: State, t: nat): (step: Step)
    requires t in s.threads
  {
    match s.threads[t]
    case SawIdle => Fetch(t)
    case Fetched(_, _) => Issue(t)
    case InFlight(bytes, done) =>
      if done >= |bytes| then Finish(t) else if s.failed then Break(t) else Transfer(t, |bytes| - done)
    case Finished(_) => Pop(t)
    case Popped(_, _, _) => Call(t)
    case Called(more) => if more then Fetch(t) else Return(t)
    case Rejected(_) => Report(t)
  }

  /** No thread is ever stuck, and none has to make a write fail. */
  lemma NextIsUseful(s: State, t: nat)
    requires Steady(s) && t in s.threads
    ensures Useful(s, NextOf(s, t)) && (NextOf(s, t).Break? ==> s.failed)
  {
    assert Stage(s.threads[t], t, s.queue, s.slots, s.refused, |s.popped|);
  }

  /** Only a failing write fails the stream. */
  lemma FailureIsABreak(s: State, step: Step)
    ensures Apply(s, step).failed == (s.failed || (step.Break? && Enabled(s, step)))
  {
  }

  /** A run of useful steps. */
  ghost predicate UsefulRun(s: State, more: seq<Step>) {
    more != [] ==>
      var n := |more| - 1;
      UsefulRun(s, more[..n]) && Useful(Exec(s, more[..n]), more[n])
  }

  lemma StepWorks(maxPending: nat, steps: seq<Step>, step: Step)
    requires Useful(Exec(Init(maxPending), steps), step)
    ensures var s := Exec(Init(maxPending), steps);
            var r := Exec(Init(maxPending), steps + [step]);
            r == Apply(s, step) && r.accepted == s.accepted && Work(r) < Work(s)
  {
    ExecSnoc(Init(maxPending), steps, step);
    AlwaysSteady(maxPending, steps);
    AlwaysSteady(maxPending, steps + [step]);
    UsefulStepWorks(Exec(Init(maxPending), steps), step);
  }

  lemma {:induction false} RunWorks(maxPending: nat, steps: seq<Step>, more: seq<Step>)
    requires UsefulRun(Exec(Init(maxPending), steps), more)
    ensures var s := Exec(Init(maxPending), steps);
            var r := Exec(s, more);
            r == Exec(Init(maxPending), steps + more) && r.accepted == s.accepted && |more| + Work(r) <= Work(s)
  {
    if more == [] {
      assert steps + more == steps;
    } else {
      var n := |more| - 1;
      RunWorks(maxPending, steps, more[..n]);
      assert steps + more == steps + more[..n] + [more[n]];
      StepWorks(maxPending, steps + more[..n], more[n]);
    }
  }

  /** Useful steps run out exactly when every thread has finished. */
  lemma StuckIsDone(s: State)
    requires Steady(s)
    ensures s.threads == map[] <==> forall step :: !Useful(s, step)
  {
    if s.threads != map[] {
      var t :| t in s.threads;
      NextIsUseful(s, t);
    }
  }

  /** Every drain ends: from any reachable state a run of useful steps, whichever they are, has at most
      Work of them; and it can go on until, and only until, all threads have finished, when the queue is
      empty and, if no write failed, every accepted byte is on the wire. */
  lemma EveryDrainEnds(maxPending: nat, steps: seq<Step>, more: seq<Step>)
    requires UsefulRun(Exec(Init(maxPending), steps), more)
    ensures var s := Exec(Init(maxPending), steps);
            var r := Exec(s, more);
            && |more| <= Work(s)
            && (r.threads == map[] <==> forall step :: !Useful(r, step))
            && (r.threads == map[] ==> r.queue == [] && (!r.failed ==> r.wire == Flat(s.accepted)))
  {
    RunWorks(maxPending, steps, more);
    WriterToken(maxPending, steps + more);
    WireRefinement(maxPending, steps + more);
    AlwaysSteady(maxPending, steps + more);
    StuckIsDone(Exec(Init(maxPending), steps + more));
  }

  /** Nothing is stranded: every run can be continued, without further calls, to one in which all threads
      have finished; and if no write has failed so far, none need fail and every accepted byte then
      is on the wire. */
  lemma {:induction false} NothingStranded(maxPending: nat, steps: seq<Step>) returns (more: seq<Step>)
    ensures var s := Exec(Init(maxPending), steps);
            var r := Exec(Init(maxPending), steps + more);
            && r.threads == map[] && r.queue == [] && r.accepted == s.accepted
            && (!s.failed ==> !r.failed && r.wire == Flat(s.accepted))
    ensures forall step :: step in more ==> !step.Submit?
    decreases Work(Exec(Init(maxPending), steps))
  {
    var s := Exec(Init(maxPending), steps);
    if s.threads == map[] {
      more := [];
      assert steps + more == steps;
      WriterToken(maxPending, steps);
      WireRefinement(maxPending, steps);
    } else {
      var t :| t in s.threads;
      var step := NextOf(s, t);
      AlwaysSteady(maxPending, steps);
      NextIsUseful(s, t);
      FailureIsABreak(s, step);
      StepWorks(maxPending, steps, step);
      var rest := NothingStranded(maxPending, steps + [step]);
      more := [step] + rest;
      ConcatAssociates(steps, [step], rest);
    }
  }

  // ----- The socket's write side as an object -----

  /** The write side of boost_tcp_socket.  Each method is one locked section, or one unlocked action
      of a thread of control between two of them. */
  class TcpSocket {
    const maxPending: nat
    var queue: seq<Entry>
    var threads: Threads
    var wire: seq<Byte>
    var failed: bool
    var nextTicket: nat
    var calls: map<nat, seq<bool>>
    ghost var accepted: seq<Entry>
    ghost var popped: seq<Entry>
    ghost var operations: seq<Operation>
    ghost var refused: map<nat, bool>
    ghost var slots: map<nat, nat>
    ghost var history: seq<Step>

    ghost function Abstract(): (s: State)
      reads this
    {
      State(maxPending, queue, threads, wire, failed, false, nextTicket,
            accepted, popped, operations, refused, slots, calls)
    }

    /** The socket has been driven by a schedule, so everything proved of schedules holds of it. */
    ghost predicate Valid()
      reads this
    {
      Abstract() == Exec(Init(maxPending), history)
    }

    constructor (maxPending: nat)
      ensures Valid() && Abstract() == Init(maxPending)
    {
      this.maxPending := maxPending;
      queue, threads, wire, failed, nextTicket, calls := [], map[], [], false, 0, map[];
      accepted, popped, operations, refused, slots := [], [], [], map[], map[];
      history := [];
    }

    /** The full queue turns a call away. */
    method TurnAway(hasHandler: bool)
      requires Full(Abstract())
      modifies this
      ensures Abstract() == DoSubmit(old(Abstract()), [], [], hasHandler)
      ensures history == old(history)
    {
      threads := threads[nextTicket := Rejected(hasHandler)];
      refused := refused[nextTicket := hasHandler];
      nextTicket := nextTicket + 1;
    }

    /** A call's entry goes to the back of the queue. */
    method PushBack(head: seq<Byte>, body: seq<Byte>, hasHandler: bool) returns (idle: bool)
      requires !Full(Abstract())
      modifies this
      ensures Abstract() == DoSubmit(old(Abstract()), head, body, hasHandler)
      ensures queue == old(queue) + [Entry(old(nextTicket), head, body, hasHandler)]
      ensures (idle <==> old(queue) == []) && history == old(history)
    {
      idle := queue == [];
      var e := Entry(nextTicket, head, body, hasHandler);
      queue := queue + [e];
      slots, accepted := slots[nextTicket := |accepted|], accepted + [e];
      if idle {
        threads := threads[nextTicket := SawIdle];
      }
      nextTicket := nextTicket + 1;
    }

    /** async_write up to the release of its lock. */
    method AsyncWrite(head: seq<Byte>, body: seq<Byte>, hasHandler: bool) returns (idle: bool, rejected: bool)
      requires Valid()
      modifies this
      ensures Valid() && Abstract() == DoSubmit(old(Abstract()), head, body, hasHandler)
      ensures rejected == (maxPending != 0 && |old(queue)| >= maxPending) && (idle <==> !rejected && old(queue) == [])
      ensures queue == if rejected then old(queue) else old(queue) + [Entry(old(nextTicket), head, body, hasHandler)]
    {
      ExecSnoc(Init(maxPending), history, Submit(head, body, hasHandler));
      idle := false;
      rejected := maxPending != 0 && |queue| >= maxPending;
      if rejected {
        TurnAway(hasHandler);
      } else {
        idle := PushBack(head, body, hasHandler);
      }
      history := history + [Submit(head, body, hasHandler)];
    }

    /** The locked section of write_next: the front entry exists whenever it runs. */
    method WriteNext(t: nat)
      requires Valid() && Enabled(Abstract(), Fetch(t))
      modifies this
      ensures Valid() && Abstract() == DoFetch(old(Abstract()), t)
    {
      FrontIsThere(maxPending, history, t);
      ExecSnoc(Init(maxPending), history, Fetch(t));
      history := history + [Fetch(t)];
      var front := queue[0];
      threads := (threads - {t})[front.ticket := Fetched(front.head, front.body)];
    }

    /** write_next hands the front entry's buffers to the stream. */
    method IssueWrite(t: nat)
      requires Valid() && Enabled(Abstract(), Issue(t))
      modifies this
      ensures Valid() && Abstract() == DoIssue(old(Abstract()), t)
    {
      ExecSnoc(Init(maxPending), history, Issue(t));
      history := history + [Issue(t)];
      threads := threads[t := InFlight(threads[t].head + threads[t].body, 0)];
    }

    /** The stream takes some more bytes of the outstanding write. */
    method StreamTakes(t: nat, count: nat)
      requires Valid() && Enabled(Abstract(), Transfer(t, count))
      modifies this
      ensures Valid() && Abstract() == DoTransfer(old(Abstract()), t, count)
    {
      ExecSnoc(Init(maxPending), history, Transfer(t, count));
      history := history + [Transfer(t, count)];
      var c := threads[t];
      wire := wire + c.bytes[c.done..c.done + count];
      threads := threads[t := InFlight(c.bytes, c.done + count)];
    }

    /** The stream completes the outstanding write, in full or with an error. */
    method StreamCompletes(t: nat, ok: bool)
      requires Valid() && Enabled(Abstract(), if ok then Finish(t) else Break(t))
      modifies this
      ensures Valid()
      ensures Abstract() == if ok then DoFinish(old(Abstract()), t) else DoBreak(old(Abstract()), t)
      ensures threads == old(threads)[t := Finished(ok)] && failed == (old(failed) || !ok)
    {
      ghost var step := if ok then Finish(t) else Break(t);
      ExecSnoc(Init(maxPending), history, step);
      history := history + [step];
      operations := operations + [Operation(threads[t].bytes, ok)];
      threads := threads[t := Finished(ok)];
      if !ok {
        failed := true;
      }
    }

    /** The locked section of the completion: takes the front entry's handler and pops the entry. */
    method CompletionPop(t: nat) returns (hasHandler: bool, more: bool)
      requires Valid() && Enabled(Abstract(), Pop(t))
      modifies this
      ensures Valid() && Abstract() == DoPop(old(Abstract()), t)
      ensures old(queue) != [] && hasHandler == old(queue)[0].hasHandler && (more <==> queue != [])
    {
      FrontIsThere(maxPending, history, t);
      ExecSnoc(Init(maxPending), history, Pop(t));
      history := history + [Pop(t)];
      var front := queue[0];
      hasHandler := front.hasHandler;
      queue, popped := queue[1..], popped + [front];
      more := queue != [];
      threads := (threads - {t})[front.ticket := Popped(hasHandler, threads[t].ok, more)];
    }

    /** The completion calls the popped entry's handler, if it has one. */
    method CallHandler(t: nat)
      requires Valid() && Enabled(Abstract(), Call(t))
      modifies this
      ensures Valid() && Abstract() == DoCall(old(Abstract()), t)
      ensures var c := old(threads)[t];
              CallsOf(calls, t) == CallsOf(old(calls), t) + if c.hasHandler then [c.ok] else []
    {
      ExecSnoc(Init(maxPending), history, Call(t));
      history := history + [Call(t)];
      var c := threads[t];
      if c.hasHandler {
        calls := calls[t := CallsOf(calls, t) + [c.ok]];
      }
      threads := threads[t := Called(c.more)];
    }

    /** The completion ends; nothing more was queued when it popped its entry. */
    method EndCompletion(t: nat)
      requires Valid() && Enabled(Abstract(), Return(t))
      modifies this
      ensures Valid() && Abstract() == DoReturn(old(Abstract()), t)
    {
      ExecSnoc(Init(maxPending), history, Return(t));
      history := history + [Return(t)];
      threads := threads - {t};
    }

    /** async_write reports a full queue to its caller's handler, if there is one. */
    method ReportRejected(t: nat)
      requires Valid() && Enabled(Abstract(), Report(t))
      modifies this
      ensures Valid() && Abstract() == DoReport(old(Abstract()), t)
      ensures CallsOf(calls, t) == CallsOf(old(calls), t) + if old(threads)[t].hasHandler then [false] else []
    {
      ExecSnoc(Init(maxPending), history, Report(t));
      history := history + [Report(t)];
      if threads[t].hasHandler {
        calls := calls[t := CallsOf(calls, t) + [false]];
      }
      threads := threads - {t};
    }
  }
}
