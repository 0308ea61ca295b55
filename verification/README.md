# SocketSL: a verified model

SocketSL is a message layer over an opaque, reliable byte stream. This project models its stateful core
and proves what that core is for, over every input, every schedule and every run.

- **Sending.** `WriteQueue` is the outbound write queue of `boost_tcp_socket` at the granularity of its
  locked sections and the unlocked gaps between them: any number of callers, re-entrant handlers, chunked
  stream progress, failures. `Frame` and `Endian` build what is queued.
- **Receiving.** `Decoder` says what a byte stream means: one recursive decode. `SessionReader` is the
  callback-chained reader of a session, `SyncReader` the blocking `recv_buffer` loop; both refine it.
- **Both together.** `EndToEnd` joins one sender's queue, the stream and one receiver; `PingPong` joins two
  such directions with heartbeat pings and the pongs that answer them.
- **The session manager.** `Registry` is the session list with its per-address index; `Backoff` the
  reconnect delays; `Manager` the whole manager, one completion handler per step, with admission and
  registration as separate steps. `Journey` says what each completion leads to for a connection with a
  policy, `Admission` exactly when the caps hold, `Exhaustion` when a limited policy is dropped, `Shutdown`
  what can still be registered after `stop`. `ReconnectingManager` is
  `boost_session_manager` as an object, built on the `SessionManager` of `Registry`.
- **Timers.** `Timers` is the timed state machine of the idle, heartbeat and handshake deadlines.

Each machine is a `State` datatype, a `Step` datatype, a transition function `Apply` and `Exec`, which runs
any sequence of steps; a step that is not enabled changes nothing, so quantifying over all sequences
quantifies over all runs. The objects that the source updates in place (`TcpSocket`, `Session`, `Stream`,
`SessionManager`, `BoostSessionManager`, `SocketTimers`) are classes whose methods are proved to perform
exactly those transitions. `TcpSocket` and `BoostSessionManager` carry the run they have been through, and
their `Valid()` says that they are where it leads, so the theorems about runs are theorems about them
(`BoostSessionManager.Consequences`). Fields marked `history` are there only to state what happened, and are proved to be what
the steps of the run say (`WriteQueue.AlwaysFromCalls`, `EndToEnd.Anchored`, `PingPong.Anchored`,
`Manager.PoliciesAreHanded`, `Journey.JourneyLaw`, `Timers.Measured`).

## Environment

- Every completion handler runs exactly once. A failed stream stays failed: after a failed write no
  further byte is taken, though a later empty write may still report success.
- Only the queued asynchronous path writes to the stream.
- `expires_after` and `cancel` remove the previous wait; a timer fires exactly when it is due. An operation
  on a stream that a timer has closed does not succeed.
- `size_t` has 64 bits. Caps, timeouts and the peer address of a session do not change during a run.
- The FlatBuffers `MessageHeader` serialiser is a pair of functions of which only
  `decode(encode(h)) == h` is assumed; `Frame.ConcreteIsLawful` gives an instance that meets it. Both ends
  use the same one. Their byte orders, and the receiver's cap, are arbitrary.
- Sessions are distinct objects, and both callbacks of the manager are set. The manager's handlers are
  atomic, except that admission and registration of an inbound connection are different steps.

## Findings

- The caps of the manager are compared with registered sessions only, and before the handshake. With at most
  `p` handshakes pending at once `max_sessions` can be exceeded by `p - 1` and by no more, so it holds in every
  inbound run exactly when `p <= 1` (`AdmissionBound`, `BoundIsReached`, `SessionCapLaw`). The same goes for
  `max_connections_per_ip` and the handshakes pending from one address, unless `max_sessions` is smaller by at
  least those `p - 1` (`AdmissionBoundPerIp`, `BoundIsReachedPerIp`, `PerIpCapLaw`). The comment at
  src/connection/session_manager.hpp:37 is true of the moment of the check only.
- The first backoff delay is not capped. All waits are the capped exponential ones exactly when the initial
  delay is within `max_delay` (`BackoffLaw`). From the second on they are exactly when the multiplier is at
  least one, or the initial delay times the multiplier is within `max_delay`, or `max_delay` is zero
  (`LaterWaitsLaw`).
- The heartbeat never closes an established connection that answers each ping within `R` exactly when `R` is
  less than its interval `H`; the idle timer `I` never does exactly when it is disabled or `H + R < I`
  (`HeartbeatLaw`, `IdleLaw`). Measured by silence alone, a connection that is never silent for `G` survives the
  heartbeat exactly when `G <= 2H` and the idle timer exactly when `G <= I` (`SilenceLaw`).
- `stop` ends reconnecting for good, but not registering: without any new connection, a session can still be
  listed after it exactly when an inbound handshake, or a dial or client handshake without a policy, was
  pending (`LateSessionLaw`; two such runs in `StopLetsPlainSessionsIn`).

## Model

| member | source | states |
|---|---|---|
| `Endian.StoreToLittle` | src/endian/endian.hpp:6-10 | on either host, a converted integer lies in memory as its little-endian digits |
| `Endian.FromLittleLoad` | src/endian/endian.hpp:12-16 | on either host, loading eight bytes and converting reads little-endian digits |
| `Endian.CrossHost` | src/endian/endian.hpp:6-16 | a 64-bit integer survives every pair of host byte orders |
| `Frame.ConcreteIsLawful` | src/message/message.fbs:1-6 | a concrete header serialiser with the three fields returns every header it encoded |
| `Frame.FrameLayout` | src/message/message.cpp:18-27 | on either host a frame is the header's size in eight little-endian bytes, the header of id, body length and system flag, and the body |
| `Decoder.FrameSizeIsLittle` | src/connection/session.cpp:85-94 | on either host the announced size is the little-endian value of the eight bytes read |
| `Decoder.OneFrame` | src/connection/session.cpp:164-184 | one frame is handled exactly if it is not a system frame, and counts as a system frame of an id exactly if it is one |
| `Decoder.FirstOfWritten` | src/message/message.cpp:18-35 | a frame written on one host and read on another, whatever follows it, gives back id, system flag, body and its exact length if the cap is zero or header and body are each at most the cap; otherwise it is refused for the one over it |
| `Decoder.FirstExtends` | src/connection/session.cpp:85-176 | bytes that arrive later change neither a complete first frame nor a refusal |
| `Decoder.RefusalIsFinal` | src/connection/session.cpp:57-150 | once a frame is refused, no further input changes what was decoded or why it stopped |
| `Decoder.DecodePrefix` | src/connection/session.cpp:85-176 | a prefix of the stream yields a prefix of the frames |
| `Decoder.PrefixProjections` | src/connection/session.cpp:164-184 | hence a prefix of the handled messages and no more pongs |
| `Decoder.DecodeFrame` | src/message/message.cpp:18-35 | a written frame followed by anything decodes to that message and then the rest, or to a refusal over the cap |
| `Decoder.DecodeFrames` | src/message/message.cpp:18-35 | any list of frames decodes, across hosts, to exactly the messages before the first over the cap; with none over it, to the whole list, with nothing left |
| `Decoder.DecodePartOfFrames` | src/connection/session.cpp:85-176 | any prefix of written frames decodes to a prefix of the messages within the cap |
| `Decoder.RefusedFirst` | src/connection/session.cpp:104-150 | a header larger than the cap, one the serialiser refuses and an announced body larger than the cap are each refused for that reason, whatever follows |
| `Decoder.BadHeaderStops` | src/message/message.cpp:76-85 | after any frames within the cap, a header the serialiser refuses stops both readers: those frames are delivered and nothing after them |
| `SessionReader.PumpIsDecode` | src/connection/session.cpp:85-176 | the chain of size, header and body reads over a whole stream is the recursive decode, frames and stopping point |
| `SessionReader.PumpSplit` | src/connection/session.cpp:85-176 | suspending the chain anywhere, even inside a read, and resuming it gives the same result |
| `SessionReader.FeedJoined` | src/connection/session.cpp:85-176 | feeding chunks one by one is feeding them joined |
| `SessionReader.DecodeExtends` | src/connection/session.cpp:85-176 | one more chunk takes the reader from the decode of the old stream to that of the longer one |
| `SessionReader.ReaderRefinesDecode` | src/connection/session.cpp:85-176 | for every split of every stream the reader sees the frames of one decode of the whole and stops at the same point, for the same reason |
| `SessionReader.Session.constructor` | src/connection/session.cpp:85-102 | a new session waits for a frame size and has handled nothing |
| `SessionReader.Session.HandleFrame` | src/connection/session.cpp:154-184 | a complete frame goes to handle_message or, if a system ping, causes one pong, and the next frame size is awaited |
| `SessionReader.Session.OnReadComplete` | src/connection/session.cpp:85-176 | one completion handler takes the step of the read chain: next read, delivery or refusal |
| `SessionReader.Session.FillRead` | src/connection/session.cpp:85-176 | the outstanding read takes exactly the bytes it lacks, and its handler issues the next read, delivers or refuses |
| `SessionReader.Session.Receive` | src/connection/session.cpp:85-184 | after every chunk, the calls of handle_message and the pongs are the projections of one decode of everything received |
| `SyncReader.AppsFromFirst` | src/message/message.cpp:61-112 | splitting at the first application frame splits messages and pings alike |
| `SyncReader.Stream.Read` | src/network/socket.cpp:278-285 | a blocking read yields exactly the next bytes asked for, or fails, the input used up, when there are too few |
| `SyncReader.RecvFrame` | src/message/message.cpp:63-101 | one round of reads and checks takes the first frame off the stream exactly when the decode has one |
| `SyncReader.RecvBuffer` | src/message/message.cpp:57-113 | returns the first application message of the decoded input, having answered exactly the pings before it, and leaves the rest of the decode; or nullopt, having answered every ping; it terminates, consuming at least 8 bytes per frame |
| `SyncReader.RecvAll` | src/message/message.cpp:57-113 | calling it until nullopt yields the messages and pongs of one decode: those of the asynchronous session on the same bytes |
| `WriteQueue.AlwaysInv` | src/network/socket.cpp:318-394 | the queue invariant (order, one writer, the stage of every thread, wire contents, handler results) holds after every schedule |
| `WriteQueue.StepKeeps` | src/network/socket.cpp:318-394 | every enabled step of every thread keeps that invariant |
| `WriteQueue.WriterToken` | src/network/socket.cpp:318-394 | in every reachable state the queue is non-empty exactly when some thread holds the right to write, at most one does, and no empty queue has been touched |
| `WriteQueue.FrontIsThere` | src/network/socket.cpp:358-380 | front() and pop_front() always find an entry, and the pop takes the entry just written |
| `WriteQueue.WireRefinement` | src/network/socket.cpp:332-381 | entries are popped in push order; until a write fails the wire is head and body of every popped entry, then a prefix of the front one; it is always a prefix of what was accepted |
| `WriteQueue.TrueReceipt` | src/network/socket.cpp:369-386 | a non-empty write reported as successful is on the wire with everything accepted before it |
| `WriteQueue.TrueFailure` | src/network/socket.cpp:369-386 | an accepted write reported as failed was on a stream that has failed |
| `WriteQueue.HandlersOnce` | src/network/socket.cpp:318-392 | no handler is called twice; at quiescence each has been called once, a rejected one with false and an accepted one with the result of its own write |
| `WriteQueue.AlwaysFromCalls` | src/network/socket.cpp:318-335 | in every run each accepted entry is the head, body and handler of its own call, in the order of the calls; a limited queue is never over its limit |
| `WriteQueue.SubmitLaw` | src/network/socket.cpp:323-335 | in every reachable state a call is refused exactly when the queue is at its limit, and otherwise its head, body and handler go to the back |
| `WriteQueue.HandlerOfEachCall` | src/network/socket.cpp:318-392 | for the t-th call of a run: a handler passed in is called at most once, and exactly once at quiescence, accepted or refused; with none passed in, none is called |
| `WriteQueue.NothingStranded` | src/network/socket.cpp:318-394 | every run can be continued without new calls until all threads are done and the queue is empty; without a failure every accepted byte is then on the wire |
| `WriteQueue.EveryDrainEnds` | src/network/socket.cpp:318-394 | from every reachable state, any schedule without new calls or empty transfers ends within a bound computed from the state; it can go on until and only until all threads are done, and then the queue is empty and, without a failure, every accepted byte is on the wire |
| `WriteQueue.TcpSocket.constructor` | src/network/socket.cpp:318-394 | a new socket has an empty queue and no thread at work |
| `WriteQueue.TcpSocket.TurnAway` | src/network/socket.cpp:326-329 | a full queue turns the call away and stays as it is |
| `WriteQueue.TcpSocket.PushBack` | src/network/socket.cpp:330-334 | the entry goes to the back, and the caller learns whether the queue was empty |
| `WriteQueue.TcpSocket.AsyncWrite` | src/network/socket.cpp:318-335 | the locked section of async_write: rejected exactly when full, idle exactly when pushed on an empty queue |
| `WriteQueue.TcpSocket.WriteNext` | src/network/socket.cpp:353-362 | the locked section of write_next takes the front entry's buffers, which exist |
| `WriteQueue.TcpSocket.IssueWrite` | src/network/socket.cpp:364-369 | the stream write is issued for head then body |
| `WriteQueue.TcpSocket.StreamTakes` | src/network/socket.cpp:369 | the stream takes any number of the outstanding bytes |
| `WriteQueue.TcpSocket.StreamCompletes` | src/network/socket.cpp:369-370 | the write completes in full, or fails and the stream with it |
| `WriteQueue.TcpSocket.CompletionPop` | src/network/socket.cpp:372-381 | the completion pops the front entry with its handler and learns whether more is queued |
| `WriteQueue.TcpSocket.CallHandler` | src/network/socket.cpp:383-386 | the popped handler, if any, is called once with the result of the write |
| `WriteQueue.TcpSocket.EndCompletion` | src/network/socket.cpp:388-392 | a completion that saw nothing more queued ends |
| `WriteQueue.TcpSocket.ReportRejected` | src/network/socket.cpp:337-345 | a rejected call's handler, if any, is called once with false |
| `EndToEnd.AlwaysInv` | src/message/message.hpp:91-113 | after every run the queued entries are the frames of the accepted messages, in order, and the reader has decoded exactly what has arrived |
| `EndToEnd.Anchored` | src/message/message.hpp:91-113 | in every run each send is one async_write of the message's frame header, body and handler, and the messages counted as sent are those that found room, in order |
| `EndToEnd.DecodedIsSent` | src/connection/session.cpp:85-176 | what the reader has decoded is a prefix of the messages sent within the cap, and all of them once queue and stream are drained without failure |
| `EndToEnd.DeliveredIsPrefixOfSent` | src/network/socket.cpp:318-394 | over every interleaving of senders, partial writes, failures and arrivals, handle_message sees a prefix of the accepted application messages, in order, ids and bodies intact; all up to the first over the cap when nothing failed and everything arrived |
| `EndToEnd.ReaderGrows` | src/connection/session.cpp:85-176 | arrivals only add frames, and only sends add messages |
| `EndToEnd.CanDeliverAll` | src/network/socket.cpp:318-394 | every run without a failed write can be continued, without new sends, until every message before the first over the cap is delivered |
| `PingPong.AlwaysInv` | src/connection/session.cpp:164-184 | in every run of two endpoints, pongs sent and owed stay within pings read, and pings sent within heartbeats |
| `PingPong.Anchored` | src/connection/session.cpp:164-184 | in every run each direction carries what the steps made it send, and every ping read has been answered once or is still owed an answer |
| `PingPong.NoPingStorm` | src/network/socket.cpp:120-133 | pongs accepted by a side never exceed the pings it has read, nor those its peer sent; all system frames together are at most twice the heartbeats of the run that pinged |
| `Registry.AddAgrees` | src/connection/session_manager.cpp:82-86 | registering keeps the index equal to the count of listed sessions per address |
| `Registry.RemoveAgrees` | src/connection/session_manager.cpp:165-193 | removing keeps it so, and its decrement always finds an entry and never wraps |
| `Registry.RemoveLists` | src/connection/session_manager.cpp:172-185 | removing a listed session takes away one listing of it and nothing else |
| `Registry.RemoveLeavesOthers` | src/connection/session_manager.cpp:172-185 | every other session stays listed |
| `Registry.SumIsSize` | src/connection/session_manager.cpp:203-208 | the values of an exact index add up to session_count() |
| `Registry.CountingIndex` | src/connection/session_manager.cpp:80-221 | after every sequence of register, remove and stop, even of one session twice, the index is exact, has no zero entry and sums to session_count() |
| `Registry.SessionManager.constructor` | src/connection/session_manager.hpp:28 | a new manager lists nothing |
| `Registry.SessionManager.RegisterAndStart` | src/connection/session_manager.cpp:80-94 | lists the session, counts its address and calls on_connect, keeping the index exact |
| `Registry.SessionManager.CanIpConnect` | src/connection/session_manager.cpp:96-116 | true exactly when neither the listed sessions nor those listed from the address have reached their cap |
| `Registry.SessionManager.RemoveSession` | src/connection/session_manager.cpp:165-201 | removes the first listing, reports it once and keeps the index exact; found exactly when listed; otherwise nothing changes |
| `Registry.SessionManager.Stop` | src/connection/session_manager.cpp:210-221 | closes the socket of every listed session and empties list and index, with no callback |
| `Backoff.WaitIsCapped` | src/connection/session_manager.hpp:318-329 | with the initial delay within max_delay, the k-th wait is initial times multiplier to the k - 1, capped |
| `Backoff.BackoffLaw` | src/connection/session_manager.hpp:318-329 | all waits obey the capped law if and only if the initial delay is within max_delay |
| `Backoff.LaterWaitsCapped` | src/connection/session_manager.hpp:327-329 | where the delays settle under the cap, every wait from the second on obeys the capped law |
| `Backoff.ThirdWaitTooShort` | src/connection/session_manager.hpp:327-329 | where they do not, the third wait is shorter than the law says |
| `Backoff.LaterWaitsLaw` | src/connection/session_manager.hpp:327-329 | every wait from the second on obeys the capped law if and only if the multiplier is at least one, or initial times multiplier is within max_delay, or max_delay is zero |
| `Manager.AlwaysKept` | src/connection/session_manager.hpp:165-350 | after every run each reconnect state is where its owner's record says and its counters match what it has waited and re-dialled; ids are in one stage; the index is exact |
| `Manager.ReconnectLinearity` | src/connection/session_manager.hpp:192-350 | in every reachable state a connect with a policy is held in at most one dial, handshake, live session or timer, and the reconnect map's keys are listed sessions |
| `Manager.BackoffInEveryRun` | src/connection/session_manager.hpp:284-334 | in every run the waits since the last live session are those of the policy in order; a pending timer waits the last of them; a live session starts over; a policy held nowhere used exactly its limit, or met a stop or an aborted timer |
| `Manager.CappedInEveryRun` | src/connection/session_manager.hpp:284-334 | with the initial delay within max_delay, those waits are the capped exponential ones |
| `Manager.PoliciesAreHanded` | src/connection/session_manager.hpp:192-210 | the o-th owner carries the policy of the o-th connect with one, in every run |
| `Journey.JourneyLaw` | src/connection/session_manager.hpp:192-350 | in every run, what every step makes of every owner: dial to handshake, handshake to a live session that starts over, failure to the next wait or the end, timer to a re-dial, stop and abort to the end, and nothing else moves it |
| `Journey.FailureIsRetried` | src/connection/session_manager.hpp:302-334 | in every run not stopped, a failed dial or handshake or a lost session puts the plan, limited or not, into a timer with the policy's next delay, unless a limit is used up |
| `Journey.WaitIsRedialled` | src/connection/session_manager.hpp:319-350 | a wait that runs its course is followed by a dial that holds the plan |
| `Journey.DialIsFollowedUp` | src/connection/session_manager.hpp:248-267 | a successful dial starts the handshake of its session with its plan |
| `Journey.HandshakeIsRegistered` | src/connection/session_manager.hpp:266-297 | a successful handshake lists and reports its session and, with a policy, enters the reconnect map with no attempts and the initial delay |
| `Journey.SuccessIsRegistered` | src/connection/session_manager.hpp:248-300 | in every run a dial and a handshake that succeed list the session at its address and keep its policy |
| `Journey.AbortedByItsTimer` | src/connection/session_manager.hpp:319-332 | a plan is given up as aborted if and only if a timer that held it was aborted |
| `Exhaustion.Unconcerned` | src/connection/session_manager.hpp:212-350 | no step but stop or the one a reconnect state waits for moves it or changes its counters |
| `Exhaustion.ExactlyMaxAttempts` | src/connection/session_manager.hpp:303-334 | while everything a limited policy waits for fails, whatever else happens, it is dropped after exactly the steps it had left, and has then re-dialled exactly max_attempts times |
| `Exhaustion.FreshHasAllAttempts` | src/connection/session_manager.hpp:192-210 | a new policy has one dial and max_attempts pairs of timer and re-dial left |
| `Manager.CallbackConservation` | src/connection/session_manager.cpp:80-221 | in every run, per session and in total, on_connect calls are listed sessions plus on_disconnect calls plus sessions cleared by stop; on_disconnect comes at most once and only after on_connect |
| `Manager.LateRemoveIsNothing` | src/connection/session.cpp:57-67 | removing a session already reported disconnected or cleared by stop leaves the whole state as it is |
| `Manager.StopIsFinal` | src/connection/session_manager.hpp:165-179 | after stop, in every continuation, the reconnect map is empty, no timer is armed, no policy waits, re-dials or goes live |
| `Shutdown.OnlyPlainSessionsAfterStop` | src/connection/session_manager.hpp:248-300 | after stop a step registers a session if and only if it completes an inbound handshake or one without a policy |
| `Shutdown.StopLetsPlainSessionsIn` | src/connection/session_manager.cpp:129-159 | whatever the caps, an inbound and a plain outbound connection pending at stop are registered after it |
| `Shutdown.LateSessionLaw` | src/connection/session_manager.cpp:118-163 | without new connections a session can be listed after stop if and only if one without a policy was pending at stop |
| `ReconnectingManager.BoostSessionManager.constructor` | src/connection/session_manager.hpp:28 | a new manager is in the initial state of the machine |
| `ReconnectingManager.BoostSessionManager.Consequences` | src/connection/session_manager.hpp:165-350 | between calls the object has an exact index, reconnect entries for listed sessions only, each policy in at most one place, and balanced callbacks |
| `ReconnectingManager.BoostSessionManager.AddSession` | src/connection/session_manager.cpp:118-138 | admits exactly when neither the listed sessions nor those listed from the address have reached their cap; the admitted connection is pending, not listed |
| `ReconnectingManager.BoostSessionManager.OnServerHandshake` | src/connection/session_manager.cpp:129-137 | a successful server handshake lists the session and a failed one does not; the index stays exact |
| `ReconnectingManager.BoostSessionManager.Connect` | src/connection/session_manager.hpp:181-210 | starts one dial, with the policy's reconnect state of no attempts and the initial delay if there is one |
| `ReconnectingManager.BoostSessionManager.OnConnected` | src/connection/session_manager.hpp:248-267 | the dial's completion starts the handshake with the plan, or arms exactly one more timer for a failed attempt that has some left, or after stop drops the plan; in a run of the manager |
| `ReconnectingManager.BoostSessionManager.OnClientHandshake` | src/connection/session_manager.hpp:266-297 | success lists the session and enters the reconnect map with a plan that starts over, failure arms exactly one more timer if attempts are left, and after stop the plan is dropped; the index stays exact |
| `ReconnectingManager.BoostSessionManager.RemoveSession` | src/connection/session_manager.cpp:165-201 | the session is then neither listed nor in the reconnect map, the index is exact, and its plan, if it has attempts left and the manager is not stopped, is in exactly one more timer |
| `ReconnectingManager.BoostSessionManager.OnTimer` | src/connection/session_manager.hpp:319-350 | an expired timer computes the next delay and re-dials, unless aborted or stopped, in a run of the manager |
| `ReconnectingManager.BoostSessionManager.Stop` | src/connection/session_manager.hpp:165-179 | closes the socket of every listed session and empties list, index and reconnect map; in whatever follows no timer is armed, no policy re-dials and none goes live |
| `ReconnectingManager.RemovedIsNotListed` | src/connection/session_manager.cpp:172-185 | in every run remove_session leaves no listing of the session behind |
| `Admission.AdmissionBound` | src/connection/session_manager.cpp:80-138 | in inbound runs with at most p >= 1 handshakes pending, sessions plus pending never exceed max_sessions + p - 1 |
| `Admission.AdmissionBoundPerIp` | src/connection/session_manager.cpp:80-138 | the same per address, with that address's pending handshakes and the smaller of the two caps |
| `Admission.BoundIsReached` | src/connection/session_manager.cpp:118-138 | for all caps and every p a run registers max_sessions + p - 1 sessions |
| `Admission.BoundIsReachedPerIp` | src/connection/session_manager.cpp:118-138 | for all caps, every address and every p a run registers as many sessions from the address as the bound allows |
| `Admission.SessionCapLaw` | src/connection/session_manager.cpp:96-138 | max_sessions holds in every inbound run with at most p pending handshakes if and only if p is at most one |
| `Admission.PerIpCapLaw` | src/connection/session_manager.cpp:96-138 | the cap per address holds, with at most p pending from it, if and only if p is at most one or max_sessions is smaller by at least p - 1 |
| `Timers.AlwaysInv` | src/network/socket.cpp:64-169 | after every timed run each armed deadline, ping and close is where the last reset puts it |
| `Timers.Measured` | src/network/socket.cpp:64-169 | clock, last reset, start of the handshake and expiries of the heartbeat are those of the steps: the first expiry since the last sign of life pings, the second closes |
| `Timers.ActivityRestarts` | src/network/socket.cpp:287-302 | in every run the start of a dial, a successful handshake and a completed read restart both timers from now; a failed read changes nothing |
| `Timers.SilentPeersDropped` | src/network/socket.cpp:64-169 | measured from the last dial start, successful handshake or completed read: the heartbeat closes only at two intervals, having expired just once before, at one interval, when it pinged; idle and handshake timers close only at their timeout; a stream past a deadline has been closed |
| `Timers.InboundUnarmed` | src/network/socket.cpp:254-276 | a socket that never dialled has no idle or heartbeat deadline until its handshake succeeds |
| `Timers.ResponsivePeersSurvive` | src/network/socket.cpp:64-136 | if every ping is followed by a completed read within R less than the interval H, the heartbeat never closes; if H + R is less than the idle timeout, neither does the idle timer |
| `Timers.AnswerWithinIntervalIsNeeded` | src/network/socket.cpp:107-136 | for all timeouts and every R of at least H, an established connection whose pings are at most R old is closed by the heartbeat |
| `Timers.AnswerBeforeIdleIsNeeded` | src/network/socket.cpp:64-136 | for every idle timeout of at most H + R, such a connection is closed by the idle timer |
| `Timers.HeartbeatLaw` | src/network/socket.cpp:107-136 | the heartbeat closes no established connection that answers within R if and only if R is less than H |
| `Timers.IdleLaw` | src/network/socket.cpp:64-136 | beside a heartbeat the idle timer closes none if and only if it is disabled or longer than H + R |
| `Timers.AttendedStaysOpen` | src/network/socket.cpp:64-136 | signs of life less than two intervals apart keep the heartbeat from closing, and less than an idle timeout apart the idle timer |
| `Timers.SilenceLaw` | src/network/socket.cpp:64-136 | and those two bounds are exact |
| `Timers.SocketTimers.constructor` | src/network/socket.cpp:64-100 | a new socket has no deadline |
| `Timers.SocketTimers.AsyncConnect` | src/network/socket.cpp:201-204 | dialling arms the idle and heartbeat deadlines |
| `Timers.SocketTimers.ResetIdleTimer` | src/network/socket.cpp:64-88 | restarts the idle deadline, or leaves it when disabled |
| `Timers.SocketTimers.ArmHeartbeat` | src/network/socket.cpp:107-112 | restarts the heartbeat deadline |
| `Timers.SocketTimers.ResetHeartbeatTimer` | src/network/socket.cpp:90-105 | restarts the heartbeat with no ping outstanding, or leaves it when disabled |
| `Timers.SocketTimers.OnRead` | src/network/socket.cpp:287-302 | a successful read resets both timers; a failed one changes nothing |
| `Timers.SocketTimers.AsyncHandshake` | src/network/socket.cpp:254-262 | arms the handshake deadline and no other |
| `Timers.SocketTimers.OnHandshake` | src/network/socket.cpp:262-275 | cancels the handshake deadline and, on success only, arms the other two |
| `Timers.SocketTimers.OnHeartbeat` | src/network/socket.cpp:113-134 | pings on the first silent interval and closes on the second |
| `Timers.SocketTimers.OnHandshakeTimeout` | src/network/socket.cpp:150-161 | closes the stream of a handshake that never finished |
| `Timers.SocketTimers.OnIdle` | src/network/socket.cpp:79-87 | closes the stream |

## Left out

- The TLS layer (src/network/ssl.cpp): the stream is an opaque reliable byte channel that may fail.
- Resolving, connecting, endpoint capture and close (src/network/socket.cpp:171-241, 396-441): only their success or failure appears.
- FlatBuffers building and verification (src/serialisation/serialisation.hpp): an abstract codec, as above.
- The router (src/router/router.hpp), setters, cap accessors and `apply_caps`: settled by reading; caps and timeouts are constants here.
- Synchronous `write` and `send_buffer` on a socket that also has queued writes: they bypass the queue. In `SyncReader` a pong is counted when it is attempted.
- Rounding of `multiplier` and of clock ticks: delays are real numbers, and the multiplier any real number of at least zero.
- Object lifetime, raw `this` captures, timers already queued when they are reset, allocation failure.
- Races inside one manager handler, such as `stop` between a handler's check of `reconnect_stopped_` and its next statement: handlers are atomic steps.
- Order of handler calls across threads when the queue drains: not claimed by the source either.
- A failed read of a session (end of stream): the input simply ends there; the removal it causes is the `RemoveSession` step of `Manager`.
- Address width: addresses are natural numbers. Where both caps are set, `BoundIsReached` gives each session an address of its own, so a 32-bit address space would have to be that large.
- The order of the heartbeat and idle laws' closes: a timer that fires on a stream another timer has already closed counts as closing it, as its handler calls `close` all the same.
- The acceptor loop, `session::start`, examples, build files and the repository's own tests.
