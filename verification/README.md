# A verified model of drps

drps is a server for frp clients. A client logs in over a control connection, registers
HTTP proxies, and hands over work connections, which the server keeps in one pool per
session and asks for through `ReqWorkConn` messages. This project models the parts of drps
where the difficulty lies and proves what they promise, over every input, every schedule of
goroutines and every run.

## How the model is laid out

Code that shares state between goroutines is a step system: each atomic operation, lock
section or channel operation is one step, any number of goroutines have a program counter
each, and a run is any sequence of enabled actions (`After`). Theorems hold of every run.
The objects themselves are classes whose methods follow the source operation by operation;
between two operations a `Yield` (or `Environment`) lets everybody else act, and each
method is proved to extend the schedule by its goroutine's own steps (`Took` counts them)
and whatever others do, to the place it names. Code that runs under one
lock or in one goroutine is a class or a method proved against a specification on values.

| files | what they model |
|---|---|
| `PoolMachine`, `PoolGuarantees`, `PoolDelivery`, `PoolWitnesses`, `Pools`, `Registry` | `internal/pool`: the lock-free refill protocol, the connection buffer, the registry's totals |
| `Batching`, `ControlPlane`, `SignalAccounting`, `SessionDisplacement`, `EntryHistory`, `SessionWriters`, `SentCounter`, `Bootstrap`, `ControlWitnesses`, `ControlSessions` | logins, refill callers, writers, `controlManager`, `ReqWorkConnStats` |
| `ServerStack`, `StackRest`, `RunAccounting`, `StackWitnesses` | pools and control path composed as `cmd/drps/main.go` wires them |
| `ControlWriter` | the single writer of a control session |
| `RouteTable`, `HostLookup`, `Router`, `Registration`, `SessionRoutes`, `OneMessage`, `RouteLeaks` | the router against a plain set of routes, `handleNewProxy`, cleanup of many sessions at once |
| `Bytes`, `Streams`, `Framing` | the frp control framing over chunked input and reused buffers |
| `WebSocketFrames` | the WebSocket frame printer and parser (sections 5.2 and 5.3 of RFC 6455) |
| `AllowList` | the matching of differences with declared divergences |
| `Wrappers`, `Sums` | an optional value; weighted sums over goroutines |

## Where the code does not do what its comments say

The model follows the code. For each of these the project has a run or an input that shows
it, and a condition that says exactly when the code does what is expected of it.

- "The CAS guard ensures only one worker exists at a time" (`internal/pool/pool.go:166-169`):
  `PoolWitnesses.TwoWorkers` is a run with two. What holds is one *owner*
  (`PoolGuarantees.NoLostWakeup`): of any two workers, one is past `Store(false)` and about
  to re-check (`WorkersApart`), and a worker is launched beside another if and only if there
  is such a one (`LaunchJoinsIff`).
- `Put` may send on a closed channel: `PoolWitnesses.FaultReachable` is a run. A run panics
  if and only if it ends with a Put's send and a Close closed the channel between that Put's
  check and its send (`PoolGuarantees.FaultIffRace`).
- `controlManager.Remove` does not check whose entry it removes. A displaced session's own
  cleanup removes its successor's entry (`ControlWitnesses.DisplacedCleanupEvicts`), after
  which a run id can have two live sessions (`TwoLiveSessions`). A cleanup takes a live
  session's entry exactly as `SessionDisplacement.EvictsExactly` says, and a live session is
  not the one its run id finds if and only if that has happened to it
  (`EntryHistory.FoundIffNotEvicted`).
- The end of a session closes the pool of its run id, whoever uses it
  (`cmd/drps/main.go:77-82`): that of the session which displaced it
  (`StackWitnesses.SuccessorsPoolCloses`), and also that of a session which came after it had
  removed its own entry, with nobody displaced (`UndisplacedPoolCloses`). It closes a live
  other session's pool if and only if the run has a pool and a live session at that moment
  (`ServerStack.ClosesLivePoolIff`).
- `inflight` "should drift to 0" (`internal/server/stats.go:12`): signals left in an ended
  session's queue are never taken (`ControlWitnesses.InflightNeverDrains`). Once everything
  has settled it is what the exited writers left plus one for each login stuck in its
  bootstrap, and 0 if and only if there is neither (`SessionWriters.DrainsToZeroIff`).
- `sent` is documented as "actually written onto the wire" (`internal/server/stats.go:11`) and
  is counted before the write (`internal/server/control_writer.go:163-170`). It is ahead of
  the wire while a Count is still buffered (`ControlWriter.SentAheadOfWire`): at every loop
  head it is the number of signals whose message has left the buffer whole if and only if no
  later message of the log is a `ReqWorkConn` (`SentOnWireIff`). After a failed write it
  stays too high (`SentCounter.SentOvercounts`): while no writer is between counting and
  writing, it is the number of signals that `WriteMsg` took if and only if no `WriteMsg` of
  a `ReqWorkConn` has failed (`SentIsWrittenIff`).
- "Non-blocking" (`internal/server/handle.go:37-38`): `ReqWorkConnFunc` blocks exactly while the
  queue is full and the session is not cancelled
  (`ControlSessions.Server.SendReqWorkConn`). Where the composed server comes to rest, a
  pool's demand is not all passed on if and only if one of its workers is blocked like this,
  by a session whose writer has exited (`StackRest.RestIff`).
- `bootstrapReqWorkConn` sends without a `done` case. A stuck login stays stuck in every
  continuation (`Bootstrap.BlocksForever`); this can happen to a login if and only if its
  pool count is at least 2050, two more than the queue holds (`MayBlockIff`).
- "Registration is all-or-nothing" (`internal/server/proxy_register.go:12-14`): a conflict
  at a later Location of the first domain leaves the earlier ones registered
  (`Registration.RejectionLeavesRoute`), and otherwise the rollback by name also deletes
  older routes of that name: the same message sent twice is rejected and deletes the first
  one's route (`RepeatDeletesRoute`). `RejectionUnchangedIff` says exactly when a rejected
  message leaves the table alone.
- A session's cleanup can leave a route of the session behind
  (`SessionRoutes.SecondLocationLeaks`): exactly those that a rejected message left without
  a rollback and whose name nobody has removed since (`RouteLeaks.LeftAfterCleanupIff`).
- `WriteMsg` has no size limit and `ReadMsg` has one: a message reads back if and only if
  its body is at most 10240 bytes (`Framing.RoundTrip`).

## Model

| member | source | states |
|---|---|---|
| PoolMachine.Reachable | internal/pool/pool.go:55-228 | Every state any schedule of Gets, Puts, Closes and workers reaches satisfies the refill, arithmetic and connection invariants. |
| PoolMachine.RefillStep | internal/pool/pool.go:157-193 | Any one action keeps: one owner if `refilling`, none if not; pending demand has somebody left to look at it; demand is sent, pending or carried. |
| PoolMachine.ArithStep | internal/pool/pool.go:95-164 | Any one action keeps `refillDemand` (with demand about to be added) between hits plus bursts and that plus the misses that neither timed out nor still wait. |
| PoolMachine.ConnStep | internal/pool/pool.go:74-133 | Any one action keeps every connection accounted for (put as often as buffered, closed or in some hands), the buffer within capacity and the closing protocol in order. |
| PoolGuarantees.NoLostWakeup | internal/pool/pool.go:166-193 | In every run `refilling` holds exactly when some goroutine owns it, never two own it (so `requestFn` calls of one pool never overlap), and pending demand always has an owner, a client before its CAS or a worker before its re-check. |
| PoolGuarantees.WorkersApart | internal/pool/pool.go:177-183 | Of any two workers that have not returned, at least one has given `refilling` up and is before its re-check or re-claim. |
| PoolGuarantees.LaunchJoinsIff | internal/pool/pool.go:170-183 | When a goroutine has claimed `refilling` and is about to launch its worker, another worker still exists if and only if one is before its re-check or re-claim. |
| PoolGuarantees.RefillConservation | internal/pool/pool.go:155-193 | In every run `refillDemand` is `refillSent` plus `pendingRefills` plus what goroutines carry between two operations; with nobody mid-call, pending is 0, sent equals demand and `refilling` is off. |
| PoolGuarantees.StepDescends | internal/pool/pool.go:157-193 | Every action except a new call makes a well-founded measure smaller, whatever the interleaving. |
| PoolGuarantees.Settles | internal/pool/pool.go:157-193 | Under every scheduler that admits no new call and does not idle, the pool comes to rest with `refillSent` equal to `refillDemand` and no Close left waiting, unless a Put panicked. |
| PoolGuarantees.BurstBounds | internal/pool/pool.go:135-153 | The burst of a miss is 2 below a capacity of 8, 8 from 32 on, and a quarter of the capacity in between. |
| PoolGuarantees.RefillArithmetic | internal/pool/pool.go:95-164 | With no Get between a counter and its demand, demand is hits + burst * misses + s with 0 <= s <= misses - timeouts, hence between hit + 2 miss and hit + 9 miss - timeout. |
| PoolGuarantees.ConnConservation | internal/pool/pool.go:74-133 | A connection passed to Put once is in exactly one place: in the buffer, in one goroutine's hands, or closed once; never with two Gets. |
| PoolGuarantees.BufferBounds | internal/pool/pool.go:217-228 | The buffer never exceeds the capacity and is empty, with the channel closed, once Close has finished. |
| PoolDelivery.FirstInFirstOut | internal/pool/pool.go:83-133 | In every run the connections sent into the channel are, in their order, those that Gets and the Close have taken, followed by the buffer. |
| PoolDelivery.ClosesIffRefused | internal/pool/pool.go:74-90 | In every run a Put is about to close its connection if and only if its own last step found the pool closed at the check or the open channel full at the send. |
| PoolDelivery.FailsIffClosedOrExpired | internal/pool/pool.go:95-133 | In every run a Get has failed if and only if it found the pool marked closed, or the channel closed and empty, or its timer expired. |
| PoolDelivery.NothingIsClosed | internal/pool/pool.go:74-133 | In every run without a Close and with no more Puts than the capacity, nothing is closed: a connection put is in the buffer, with its Put, or with a Get. |
| PoolDelivery.GetAfterCloseFails | internal/pool/pool.go:95-101 | In every run a Get whose check comes after the pool is marked closed fails. |
| PoolDelivery.CountersAre | internal/pool/pool.go:103-132 | In every run getHit, getMiss and getTimeout are the Gets that found a connection at once, that found the open channel empty, and whose wait ran out, but for those about to count. |
| PoolGuarantees.FaultIffRace | internal/pool/pool.go:74-90 | A run panics if and only if it ends with a Put's send, and between that Put's check and its send a Close closed the channel. |
| PoolGuarantees.FaultNeedsRace | internal/pool/pool.go:74-90 | Behind every Put that faces a closed channel there is its own check, and later, before the send, the channel close by a Close. |
| PoolWitnesses.FaultReachable | internal/pool/pool.go:217-223 | A concrete schedule of one Put and one Close ends in the panic. |
| PoolWitnesses.TwoWorkers | internal/pool/pool.go:174-184 | A concrete schedule of two Gets ends with one worker before its re-check and another one the owner. |
| PoolWitnesses.PutThenGet | internal/pool/pool.go:74-113 | A concrete schedule: a connection put into an empty pool is returned by the next Get, a hit is counted and one refill asked for. |
| Pools.Pool.constructor | internal/pool/pool.go:61-70 | A new pool is the initial state of the step system, empty, with the capacity given, or 64 when none or a non-positive one is. |
| Pools.Pool.Get | internal/pool/pool.go:95-133 | Under any interference Get extends the schedule with a new goroutine that ends holding the connection it returns, or failed. |
| Pools.Pool.Send | internal/pool/pool.go:83-89 | The send panics exactly on a closed channel, gives way exactly on a full open one, and buffers the connection otherwise. |
| Pools.Pool.Offer | internal/pool/pool.go:83-89 | Past its check a Put closes its connection exactly if the open channel was full, in two steps; otherwise it takes one. |
| Pools.Pool.Put | internal/pool/pool.go:74-90 | Under any interference Put extends the schedule with a new goroutine that takes two steps to buffering its connection, to a refusal by the closed pool or to the panic, and three to a refusal by a full one. |
| Pools.Pool.Close | internal/pool/pool.go:217-228 | Under any interference Close extends the schedule with a new goroutine; one that ends leaves the pool marked closed, the channel closed and the buffer empty. |
| Pools.Pool.RequestAsyncRefill | internal/pool/pool.go:157-173 | The goroutine takes exactly three steps of the machine (demand, pending, a lost claim), or four with the launch of a worker, and goes on where it was to. |
| Pools.Pool.Work | internal/pool/pool.go:174-192 | The worker's loop, for any number of turns: the schedule goes on, and the worker is back at its Swap as the owner or has exited. |
| Pools.Pool.Retire | internal/pool/pool.go:178-184 | A worker that found nothing pending exits, or is back at its Swap after claiming ownership again. |
| Pools.Pool.ServeAll | internal/pool/pool.go:187-190 | A worker that swapped out n takes exactly 3 n steps back to its Swap: into `requestFn`, out of it, count, n times. |
| Pools.Pool.DrainAll | internal/pool/pool.go:223-226 | Closing drains the buffer to the end whatever is received meanwhile, and ends the once. |
| Pools.Sound | internal/pool/pool.go:33-53 | The object's state is always a reachable state of the step system. |
| Pools.DeliveredOnce | internal/pool/pool.go:95-133 | What a returned Get holds, nobody else holds, buffers or has closed. |
| Pools.SettledWhenIdle | internal/pool/pool.go:157-193 | Once every call has returned and every worker retired, all demand has been passed on. |
| Registry.Registry.GetOrCreate | internal/pool/registry.go:29-39 | An existing pool is returned as it is; otherwise a fresh one is made and listed; nothing else changes. |
| Registry.Registry.Remove | internal/pool/registry.go:50-57 | The pool is closed and empty when it leaves the map; other pools are not touched. |
| Registry.Registry.AggregateStats | internal/pool/registry.go:70-85 | The loop over the map in any order computes the order-free totals. |
| Registry.TotalAny | internal/pool/registry.go:76-83 | The totals do not depend on which pool comes next. |
| Registry.ReportsOwn | internal/pool/registry.go:76-83 | Of one pool its own five counters are reported, of two pools their sums. |
| Registry.AggregateAtRest | internal/pool/registry.go:70-85 | Totals over reachable pools: hit + 2 miss <= demand <= hit + 9 miss - timeout with no Get mid-count, and sent equals demand with every pool idle. |
| Registry.ReportAtRest | internal/pool/registry.go:70-85 | The same of what a registry of live pool objects reports. |
| SignalAccounting.Reachable | internal/server/handle.go:39-59 | The accounting of refill signals, with its exact slack per program counter, is kept by every interleaving of callers, logins and writers. |
| SignalAccounting.SignalsAccounted | internal/server/stats.go:5-19 | Always requested = enqueued + dropped + undecided callers, and enqueued, queue lengths, sent and `inflight` balance with named slack; at rest inflight = enqueued - sent = the signals in all queues, those of ended sessions included. |
| SignalAccounting.OfferOutcome | internal/server/control_manager.go:37-44 | A signal is enqueued only with room and only in its own session's queue, and dropped only if the session is cancelled. |
| SessionWriters.Reachable | internal/server/handle.go:136-147 | In every run each session has exactly one writer, nobody signals a session before it is registered but its own login, and what that login has sent is queued or taken. |
| SessionWriters.StoppedIsSettled | internal/server/stats.go:12 | Where nothing can happen but ends of sessions, responses and ticks, everything has settled, blocked callers and logins included, and no cancelled session has a running writer. |
| SessionWriters.DrainsToZeroIff | internal/server/stats.go:12 | With nobody holding a signal or between two counters and every running writer waiting on an empty queue, `inflight` is what exited writers left in their queues plus one for each login stuck in its bootstrap, and 0 if and only if there is neither. |
| SentCounter.SentIs | internal/server/control_writer.go:163-170 | In every run `sent` is what was written, plus what was lost in failed writes, plus what is being written. |
| SentCounter.SentIsWrittenIff | internal/server/control_writer.go:159-174 | While no writer is between counting and writing, `sent` equals the signals whose message `WriteMsg` took (a flush that fails afterwards included) if and only if no `WriteMsg` of a ReqWorkConn has failed. |
| SentCounter.SentOvercounts | internal/server/control_writer.go:163-170 | For every run id: a run after which `sent` is above the signals written. |
| SessionDisplacement.Reachable | internal/server/control_manager.go:56-88 | The invariant of entries, sessions and cleanups is kept by every interleaving of Register, cancel and Remove. |
| SessionDisplacement.EntryIsLatest | internal/server/control_manager.go:56-88 | An entry is the run's most recently registered session, uncancelled unless its own cleanup is between cancel and Remove; live sessions of a run are at most 1 plus the Removes done by sessions that were not the entry. |
| SessionDisplacement.EvictsExactly | internal/server/control_manager.go:75-79 | A cleanup takes a live session's entry away if and only if the entry is another session's and that one is not itself being cleaned up. |
| EntryHistory.FoundIffNotEvicted | internal/server/control_manager.go:56-88 | In every run a live session is the one its run id finds if and only if no other session's Remove has taken its entry since it registered. |
| ControlWitnesses.DisplacedCleanupEvicts | internal/server/handle.go:178-180 | For every run id: a run after which a serving, uncancelled session has no entry, removed by the session it displaced. |
| ControlWitnesses.TwoLiveSessions | internal/server/control_manager.go:62-79 | For every run id: a run with two live sessions, so the bound of EntryIsLatest is reached. |
| ControlWitnesses.Succeeds | internal/server/handle.go:178-180 | For every run id: a run in which one session cleans up before the next one registers, and nothing is evicted. |
| ControlWitnesses.InflightNeverDrains | internal/server/handle.go:175-180 | For every run id: a run after which every goroutine has finished and `inflight` is 1. |
| Bootstrap.BlocksForever | internal/server/handle.go:158-167 | With the queue full and the session's writer gone, no continuation moves the bootstrap on. |
| Bootstrap.NeverWaits | internal/server/handle.go:158-167 | In every run a login that wants at most 2048 signals can always send the next one. |
| Bootstrap.BlockedWantsMany | internal/server/handle.go:158-167 | In every run a login stuck for good wants at least 2050. |
| Bootstrap.GetsStuck | internal/server/handle.go:158-167 | For every pool count from 2050 on, a run of one login, whose writer's first write fails, in which it is stuck. |
| Bootstrap.MayBlockIff | internal/server/handle.go:158-167 | A pool count can block its login for good if and only if it is at least 2050. |
| ControlSessions.Server.ReqWorkConn | internal/server/handle.go:39-59 | The refill caller under any interference, with the way it ended and the exact number of its steps: no entry; counted, enqueued and in flight; counted and dropped; or counted and blocked on a full queue. |
| ControlSessions.Server.SendReqWorkConn | internal/server/control_manager.go:37-44 | Enqueued only if there was room, gone only if the session was cancelled, blocked only if neither. |
| ControlSessions.Server.GetEntry | internal/server/control_manager.go:83-88 | The session listed for the run at that moment, or none, and the caller goes on with it. |
| ControlSessions.Server.Register | internal/server/control_manager.go:56-71 | The old entry's session is cancelled and the new one installed, in one critical section. |
| ControlSessions.Server.Remove | internal/server/control_manager.go:75-79 | The run's entry goes, whichever session it belongs to. |
| ControlSessions.Server.Bootstrap | internal/server/handle.go:158-167 | A bootstrap of n signals that ends takes exactly 4 n + 1 steps, three counts and one send a signal; otherwise it stands at a send. |
| ControlSessions.Server.Open | internal/server/handle.go:136-141 | A login adds one session with an empty queue, not cancelled and not registered, and two goroutines, the login and its writer. |
| ControlSessions.Server.HandleLogin | internal/server/handle.go:136-153 | A login that ends takes exactly its 4 n + 1 bootstrap steps and four more from Register to Remove, under any interference, and has cleaned up. |
| ControlSessions.Server.Turn | internal/server/control_writer.go:86-141 | One turn of the writer extends the schedule; it goes on to the head, exits, or waits at the select. |
| ControlSessions.Server.WriteReqBatch | internal/server/control_writer.go:180-204 | At most the limit for the backlog is taken, one step a signal, and counted and written together. |
| ControlSessions.Sound | internal/server/handle.go:22-59 | The server object's state always satisfies the accounting and displacement invariants. |
| ControlSessions.SnapshotAtRest | internal/server/stats.go:31-44 | A snapshot of the object at rest: requested = enqueued + dropped, inflight = enqueued - sent = queued signals. |
| ServerStack.Reachable | cmd/drps/main.go:66-100 | In every run of the composed server the control path is in a reachable state of its own machine and every pool in one of its own, and the calls started by workers are those sent or being sent, and those counted, unfound or being decided. |
| ServerStack.SentIsRequested | cmd/drps/main.go:84-90 | At rest `refillSent` summed over all pools is `requested` less what bootstraps counted plus the calls that found no entry. |
| RunAccounting.RunBalanced | internal/server/handle.go:39-59 | In every run and for every run id: the calls made by the pools of that id are those offered to its sessions, those that found none, and those still deciding. |
| RunAccounting.SentIsOffered | internal/server/handle.go:39-59 | At rest and for every run id: `refillSent` of its pools is the signals offered to its sessions plus its calls that found no session. |
| ServerStack.ClosesLivePoolIff | cmd/drps/main.go:77-82 | In every run the end of a session closes the pool of its run exactly if the registry lists one, and does so while another session of the run is live if and only if, besides, the run has a live session at all. |
| StackWitnesses.SuccessorsPoolCloses | cmd/drps/main.go:77-82 | For every run id: a run in which a displaced session's end closes the pool of its live successor and takes it off the registry. |
| StackWitnesses.UndisplacedPoolCloses | internal/server/handle.go:178-189 | For every run id: the same with nobody displaced and no entry evicted. |
| StackRest.AlwaysLinked | cmd/drps/main.go:88 | In every run a worker inside `requestFn` has a goroutine that looks up its own pool's run id or has found a session of that run. |
| StackRest.AlwaysAttended | internal/pool/pool.go:187-190 | In every run a `requestFn` call under way has its worker waiting inside it: no worker counts a request before the call has returned. |
| StackRest.InFnIsStuck | internal/server/control_manager.go:37-44 | Where the composed server rests, a worker inside `requestFn` waits for room in the full queue of a session of its pool's run that is not cancelled and whose writer has exited. |
| StackRest.RestIff | internal/pool/pool.go:187-190 | Where the composed server rests, a pool has passed all its demand on if and only if none of its workers is stuck like that. |
| StackRest.EndedMeansSettled | internal/server/handle.go:178-189 | Where it rests with every session ended, every pool has. |
| ControlWriter.Writer.constructor | internal/server/control_writer.go:70-81 | A new writer has nothing buffered, nothing due and its timer stopped. |
| ControlWriter.Writer.Run | internal/server/control_writer.go:86-141 | A writer whose session is cancelled exits at once, with nothing taken or written. Any number of turns: at every loop head the emitted and buffered bytes are the encoded log, the Counts add up to the signals taken, `sent` is what was written, unflushed bytes have a pending flush and that has a timer; a `done` exit that can flush leaves nothing buffered; after a failed write all but the last message are whole, at most one Count or response is missing and `sent` is off by the Count that failed; without arrivals q signals take at most ceil(q/17) turns and 2*ceil(q/17) messages. |
| ControlWriter.Writer.Turn | internal/server/control_writer.go:89-140 | With done at its head a turn exits and takes and writes nothing. One turn keeps the head's invariant, or ends with at most the last message cut short; signals and responses received are never lost or reordered on the books; a response that alone is ready is written and flushed; without arrivals the fast path serves exactly the bucket's share. |
| ControlWriter.Writer.Flush | internal/server/control_writer.go:145-155 | After a flush that works nothing is buffered, nothing is due and the timer is stopped; no byte is lost. |
| ControlWriter.Writer.CountSent | internal/server/control_writer.go:163-167 | `sent` and `inflight` move by the Count before anything is written. |
| ControlWriter.Writer.EmitCount | internal/server/control_writer.go:168-173 | A Count that is written is added to the accepted ones and leaves a flush due with the timer running; one that is not is the one `sent` is off by. |
| ControlWriter.Writer.WriteReq | internal/server/control_writer.go:159-174 | A positive Count of at most 128 is logged once and, if written, leaves a flush pending with the timer running; zero writes nothing. |
| ControlWriter.Writer.TakeBatch | internal/server/control_writer.go:180-196 | Takes at most the limit for the backlog; without arrivals exactly the smaller of limit and backlog. |
| ControlWriter.Writer.FinishBatch | internal/server/control_writer.go:187-203 | At most one more message; a full batch of the upper two buckets leaves nothing buffered and nothing due. |
| ControlWriter.Writer.Select | internal/server/control_writer.go:112-135 | One of the cases that are ready is taken, and none only if none is ready. |
| ControlWriter.Writer.Handle | internal/server/control_writer.go:113-139 | A response taken is written next and the buffer is empty afterwards; only a signal touches the queue and the Counts. |
| ControlWriter.Writer.WriteReqBatch | internal/server/control_writer.go:180-204 | At most one more message, in step with the signals taken, whether or not it is flushed at once. |
| ControlWriter.Writer.Refill | internal/server/control_writer.go:100-108 | At most two messages; without arrivals exactly 129 signals are served from a backlog above 512, 65 from above 128, otherwise 17 or all. |
| ControlWriter.Writer.ReplyNext | internal/server/control_writer.go:122-134 | The next response in sendCh order is written and the buffer is empty afterwards. |
| ControlWriter.Writer.Tick | internal/server/control_writer.go:135-138 | A tick empties the buffer and leaves the timer stopped. |
| ControlWriter.Writer.StopTimer | internal/server/control_writer.go:237-244 | Afterwards the timer neither runs nor has an unread tick. |
| ControlWriter.Writer.ResetTimer | internal/server/control_writer.go:247-250 | Afterwards the timer runs with no stale tick. |
| ControlWriter.LogIsFramed | internal/server/control_writer.go:159-174 | With frp framing, the writer's bytes are the logged messages' frames in order. |
| ControlWriter.ClientReadsLog | internal/server/control_writer.go:86-141 | Of whatever part of the stream has been emitted a client reads the log's messages that are whole, in order, and then the end or a frame cut short; of a flushed stream, the whole log. |
| ControlWriter.SentOnWireIff | internal/server/stats.go:11 | At every loop head `sent` is at least the number of signals whose message has left the buffer whole, and equals it if and only if no later message of the log is a ReqWorkConn. |
| ControlWriter.SentAheadOfWire | internal/server/control_writer.go:163-173 | With one Count taken by the buffered writer and not passed on, `sent` is ahead of the wire by it. |
| RouteTable.BestUnique | internal/router/router.go:115-127 | A longest location that prefixes the path is unique in the set of routes. |
| RouteTable.AnswerUnique | internal/router/router.go:95-113 | The set of routes has one answer for a host and a path, so Lookup cannot depend on insertion order or on how equal lengths are sorted. |
| RouteTable.FirstDot | internal/router/router.go:105-109 | The wildcard key is everything after the host's first dot, and there is none without a dot. |
| RouteTable.HistoryExact | internal/router/router.go:38-93 | After any history, the table holds exactly the routes added to a free slot and not removed by name since. |
| HostLookup.AddsByDomain | internal/router/router.go:38-69 | After any history an Add changes nothing if a route of that domain and location (the root if none is given) is there, and otherwise adds exactly that route. |
| HostLookup.RemovesByName | internal/router/router.go:71-93 | After any history a Remove takes exactly the routes of that name. |
| HostLookup.WildcardKey | internal/router/router.go:50-53 | A domain is looked at for a host through the wildcard map exactly if it is "*." and what follows the host's first dot. |
| HostLookup.AnswerByDomain | internal/router/router.go:95-113 | After any history the answer is a route of the host's own domain with the longest matching location, else one of the wildcard domains that cover the host with the longest, and none exactly if there is neither. |
| RouterIndex.CompactInPlace | internal/router/router.go:77-82 | The compaction over `routes[:0]` leaves the order-preserving filter of the old contents at the front. |
| RouterIndex.SortByLocation | internal/router/router.go:64-67 | The sort yields some permutation by descending length. |
| RouterIndex.RemoveFrom | internal/router/router.go:75-89 | Every bucket is filtered, and a bucket that becomes empty is deleted. |
| RouterIndex.StoreAfterAdd | internal/router/router.go:62-67 | Any sorted permutation of the bucket with the new route keeps the index in agreement with the set of routes. |
| RouterIndex.StoreAfterRemove | internal/router/router.go:75-89 | Filtering the buckets is removing the name's routes from the set. |
| RouterIndex.IndexExact | internal/router/router.go:38-93 | After any Adds and Removes a route is in a bucket if and only if it belongs there, was added to a free slot and its name has not been removed since. |
| RouterIndex.Router.Add | internal/router/router.go:38-69 | Succeeds if and only if the normalised slot is free, then adds exactly that route; a conflict names the holder and changes nothing; the index stays sorted, distinct, non-empty and exact. |
| RouterIndex.Router.Remove | internal/router/router.go:71-93 | Removes exactly the routes of that name from both maps and keeps the index valid. |
| RouterIndex.Router.MatchRoutes | internal/router/router.go:116-127 | The first match in a bucket is the longest matching location of that key; none only if nothing matches. |
| RouterIndex.Router.Lookup | internal/router/router.go:95-113 | Returns the answer of the order-free specification, in terms of slots and in terms of the routes' own domains: best exact-host route, else best wildcard route, else none. |
| Registration.RegisterRoutes | internal/server/proxy_register.go:24-72 | The nested loops stop at the first route that does not fit and leave exactly the specified outcome. |
| Registration.HandleNewProxy | internal/server/proxy_register.go:15-80 | The reply, the router's new table and registeredProxies for every kind of NewProxy: not http, no router, accepted, rejected (the text naming the route that did not fit and the holder of its slot). |
| Registration.RoutesAre | internal/server/proxy_register.go:31-62 | A message asks, domain by domain, for one route at each of its locations, or at the root if it gives none, with its own name and run id. |
| Registration.FitsIff | internal/router/router.go:55-60 | Routes can all be added in turn if and only if their slots are free and pairwise distinct. |
| Registration.AcceptedIff | internal/server/proxy_register.go:31-73 | A NewProxy is accepted if and only if its normalised slots are pairwise distinct and all free. |
| Registration.AddsOwn | internal/server/proxy_register.go:47-62 | An accepted message's every route is in the table under its slot. |
| Registration.KeepsOthers | internal/server/proxy_register.go:47-62 | Adding them leaves every other route as it was. |
| Registration.AddAllKeys | internal/server/proxy_register.go:47-62 | Nothing but the old slots and the message's own is in the table afterwards. |
| Registration.RollbackUndoes | internal/server/proxy_register.go:51-53 | Removing by name after adding a message's routes is removing by name alone: it takes the new routes and every older one of the name. |
| Registration.OutcomeOfRejection | internal/server/proxy_register.go:46-71 | A rejection leaves the routes before the conflict, if that is among the first domain's Locations, and otherwise the table without any route of the name. |
| Registration.OutcomeUnchangedIff | internal/server/proxy_register.go:46-71 | For every table: a rejection at route c among the first domain's Locations leaves the table alone if and only if c is 0, any other if and only if no older route has the name. |
| Registration.RejectionUnchangedIff | internal/server/proxy_register.go:46-71 | Told beforehand, for every table: a rejected message whose first domain's Locations do not all fit changes nothing if and only if its first slot is taken, any other if and only if no older route has the name. |
| Registration.RejectionLeavesRoute | internal/server/proxy_register.go:12-14 | An input whose rejection leaves one of its routes behind. |
| Registration.RepeatDeletesRoute | internal/server/proxy_register.go:62-69 | The same message sent twice: the second is rejected and the first one's route is gone. |
| SessionRoutes.Reachable | internal/server/handle.go:178-232 | Every interleaving of the sessions' Adds and Removes keeps each session's routes covered by its names or its work in progress, with at most one Location per message. |
| OneMessage.MessageEnds | internal/server/proxy_register.go:24-73 | A session's steps for one undisturbed NewProxy end in the table that Registration says, with the name recorded exactly if it was accepted. |
| OneMessage.CloseEnds | internal/server/handle.go:226-232 | An undisturbed CloseProxy removes the name's routes and forgets the name. |
| SessionRoutes.CleanupComplete | internal/server/handle.go:178-189 | With at most one Location per message, a session that has cleaned up has no route left, and an idle session's routes all have their names in registeredProxies, whatever other sessions did. |
| SessionRoutes.RoutesOnlyLeaveByOwner | internal/server/handle.go:226-232 | With names not shared between sessions, a route changes or leaves only by an action of the session that added it. |
| SessionRoutes.StaysPrivate | internal/server/handle.go:149-189 | Private names stay private along every run. |
| SessionRoutes.SecondLocationLeaks | internal/server/proxy_register.go:46-60 | A run with two Locations after which a session is gone and its route is still there. |
| RouteLeaks.Reachable | internal/server/proxy_register.go:46-71 | In every run, any number of Locations: a route is covered by its session's names or work in progress, or was left behind by a rejection; and what was left behind and not removed is still there. |
| RouteLeaks.LeftAfterCleanupIff | internal/server/handle.go:178-189 | In every run a session that has cleaned up still has a route if and only if a rejected message of its left it without a rollback and no session removed the name since; the same of an idle session's route whose name is not in registeredProxies. |
| Bytes.BigEndianRoundTrip | internal/msg/msg.go:101 | A length in range reads back from its big-endian bytes. |
| Bytes.BigEndianAt | internal/msg/msg.go:101 | The most significant byte comes first. |
| Streams.Conn.ReadFull | internal/msg/msg.go:112-142 | All n bytes in order whatever the chunking, or an error if fewer are left. |
| Framing.TypesInverse | internal/msg/msg.go:23-78 | `TypeOf` and `typeTo` are inverse on the ten types and know no other bytes. |
| Framing.TypeLetters | internal/msg/msg.go:23-34 | Each of the ten types has its own letter of the frp protocol. |
| Framing.FrameLayout | internal/msg/msg.go:100-102 | Byte by byte: the type, eight bytes of the length from the most significant down, the body. |
| Framing.PutUint64 | internal/msg/msg.go:101 | Writes the eight big-endian bytes and nothing else of the buffer. |
| Framing.FillFrame | internal/msg/msg.go:100-102 | Type, length and body fill the front of the buffer, whatever it held. |
| Framing.WriteMsg | internal/msg/msg.go:81-109 | Hands on exactly the encoding of the message, independent of the pooled buffer's contents; a message without type or body writes nothing; a failing writer gets a prefix. |
| Framing.ReadMsg | internal/msg/msg.go:112-161 | Over any chunking and any stale buffer, the result and the rest of the stream are those of the parser. |
| Framing.RoundTrip | internal/msg/msg.go:81-161 | A written message reads back, consuming its own bytes and no more, if and only if its body is at most 10240 bytes. |
| Framing.SelfDelimiting | internal/msg/msg.go:81-161 | Any concatenation of such messages reads back as the same messages with the rest untouched. |
| Framing.BadLengthRefused | internal/msg/msg.go:122-125 | A length is refused with only the header consumed if and only if it is negative as int64 or above the limit. |
| Framing.UnknownTypeRefused | internal/msg/msg.go:127-130 | A type byte that no message has is refused with only the header consumed. |
| Framing.BufPool.Put | internal/msg/msg.go:104-107 | Only buffers of at most 64 KiB go back to the pool. |
| WebSocketFrames.MaskTwice | test/compat/capture/capture.go:159-162 | Masking twice with the same key gives the payload back. |
| WebSocketFrames.XorAt | test/compat/capture/capture.go:161 | A bit of a masked byte is set exactly where payload and key differ. |
| WebSocketFrames.BuildClientTextFrame | test/compat/capture/capture.go:139-165 | Builds the masked text frame with the shortest length form. |
| WebSocketFrames.LengthMinimal | test/compat/capture/capture.go:145-157 | Whatever length field a reader takes for n, the built one is no longer. |
| WebSocketFrames.FrameMinimal | test/compat/capture/capture.go:139-165 | No masked frame that parses to a payload takes fewer bytes than the built one. |
| WebSocketFrames.LengthRoundTrip | test/compat/capture/capture.go:174-191 | All three length forms read back. |
| WebSocketFrames.FrameRoundTrip | test/compat/capture/capture.go:139-209 | A built frame, followed by anything, parses to opcode 1, the same payload and the rest. |
| WebSocketFrames.WireRoundTrip | test/compat/capture/capture.go:167-209 | Any frame (any first byte, with any key or unmasked, its length in any form that carries it), followed by anything, parses to its opcode, payload and the rest. |
| WebSocketFrames.CutWire | test/compat/capture/capture.go:167-202 | A frame cut short anywhere is an error, never a frame. |
| WebSocketFrames.NegativeLengthPanics | test/compat/capture/capture.go:182-202 | A length that is negative as an int makes the reader panic, masked or not. |
| WebSocketFrames.ClientFrameIsWire | test/compat/capture/capture.go:139-165 | The built frame is one of those: final, text, masked, in the shortest form. |
| WebSocketFrames.BufReader.Append | test/compat/capture/capture.go:224-226 | Appending in place or into a new array never changes bytes that were handed out. |
| WebSocketFrames.BufReader.Fill | test/compat/capture/capture.go:220-230 | Reads until n bytes are buffered or the stream ends, whatever the chunking; bytes handed out before stay as they are. |
| WebSocketFrames.BufReader.ReadN | test/compat/capture/capture.go:220-234 | Hands out the next n bytes as a slice of the buffer, or fails if fewer are left. |
| WebSocketFrames.UnmaskInPlace | test/compat/capture/capture.go:203-207 | Unmasks the payload in its place and changes nothing before or behind it. |
| WebSocketFrames.UnmaskLast | test/compat/capture/capture.go:199-207 | Unmasking the last slice handed out leaves the unread bytes of the same buffer intact. |
| WebSocketFrames.ReadServerFrame | test/compat/capture/capture.go:167-209 | Over any chunking returns what the parser says: the frame, an end of stream, or the slice panic of a length that is negative as int64. |
| WebSocketFrames.ReadWires | test/compat/capture/capture.go:167-234 | Any list of frames, masked or not and in any length form, in any chunking reads back as the same opcodes and payloads, and every payload handed out keeps its contents while later ones are read. |
| WebSocketFrames.ReadFrames | test/compat/capture/capture.go:139-234 | In particular any list of built frames, as text frames with the same payloads. |
| AllowList.Report.ApplyAllowList | test/compat/compare/compare.go:165-196 | Remaining, matched and missing are those of the first-fit matching, and a fresh report then passes if and only if all is matched. |
| AllowList.Report.Claim | test/compat/compare/compare.go:174-186 | A difference takes the first unused entry that matches it, or none if no unused one does. |
| AllowList.MatchesIff | test/compat/compare/compare.go:198-214 | An entry matches exactly the differences of the kind it excuses, with the declared two values except for bodies, and for headers with the declared name up to case, if any. |
| AllowList.FirstFitUnique | test/compat/compare/compare.go:172-190 | There is only one first-fit matching. |
| AllowList.OneToOne | test/compat/compare/compare.go:165-196 | Matched plus remaining is the number of differences, matched and missing together are the allow-list as a multiset, and no entry is used twice. |
| AllowList.Maximal | test/compat/compare/compare.go:163-196 | No remaining difference matches any missing entry. |
| AllowList.RemainingInOrder | test/compat/compare/compare.go:169-190 | The remaining differences are all the unmatched ones, in their order. |
| AllowList.PassIff | test/compat/compare/compare.go:32-35 | Nothing remains and nothing is missing if and only if every difference found an entry and every entry was used. |

## Left out

- Overflow of the int64 counters: they are unbounded integers here.
- Real time: timers are stopped, running or fired, a Get's timeout may strike at any moment of its wait, and no latency is claimed. `flushDelay` only picks a duration and is left out.
- The heartbeat and read deadlines: a session may end at any point of its message loop.
- Authentication, the AES and snappy layers, yamux, listeners, configuration and metrics output: thin layers over libraries that are not part of this model. The control connection is a byte stream.
- JSON: an abstract body codec that inverts itself. Messages carry the fields the server acts on, routes carry domain, location, name and run id; the other fields are copied through unread.
- `bufio.Writer`: by a small specification (emitted plus buffered is what was written, errors stick).
- The HTTP data path of `internal/proxy` and the dial keys of routes.
- `strings.EqualFold`: on ASCII letters only.
- Nil `ReqWorkConnStats`, nil `OnWorkConn` and similar options that switch a counter or a callback off.
- The reply texts of `handleNewProxy` go to `sendCh`; that a full `sendCh` blocks the message loop is not modelled.
- Pools.Pool.RequestAsyncRefill: does not model the early return for n <= 0, because both callers ask for a positive number (see `PoolGuarantees.BurstBounds`).
- Pools.Pool.Close: a Close that finds another one running is followed only to its wait, because what it waits for is the other goroutine's progress.
- Pools.Pool.Work: follows the worker's goroutine for any given number of turns, because under unlimited new demand it need not end; that it ends without new demand is `PoolGuarantees.Settles`.
- ControlWriter.Writer.Run: follows the loop for any given number of turns, because it runs as long as its session.
- Registry.Registry.AggregateStats: reads each pool's counters at one moment, because the bounds it is used for are claimed at rest only.
- ControlSessions.Server.Turn: leaves the bytes written to `ControlWriter.Writer.Turn`; a response or tick is one step that may fail.
- Framing.WriteMsg: requires that the frame's length is an int64, because Go has no longer slices.
- WebSocketFrames.FrameRoundTrip: claims nothing of payloads of 2^63 bytes and more, because a length is an int there.
- SessionRoutes.CleanupComplete: supposes at most one Location per NewProxy, because with two it is false (see `SessionRoutes.SecondLocationLeaks`); for any number of them see `RouteLeaks.LeftAfterCleanupIff`.
- SentCounter.SentIsWrittenIff: takes a signal for written once WriteMsg took its message, because the control plane has no bytes; for the wire see `ControlWriter.SentOnWireIff`.
- StackRest.RestIff: says where the composed server may come to rest, not that it does, because ticks and responses can keep a writer going for ever.
- ServerStack.ClosesLivePoolIff: in the composed server a pool leaves the registry when its Close starts, because the registry's lock is held until it has ended.
