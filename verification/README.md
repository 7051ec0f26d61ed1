# Verified model of the local cache daemon

The daemon is one epoll thread, a pool of workers and an exact LRU cache behind a mutex, speaking a
length-prefixed binary protocol over Unix sockets. This project models its logic in Dafny 4.11 and proves what
its comments and design document promise, for every input, every trace and every interleaving.

`dafny verify dfyconfig.toml` checks everything.

## Layout

| files | what they model |
|---|---|
| `protocol.dfy`, `codec.dfy`, `stats_codec.dfy`, `stream.dfy` | frames, their encoder and incremental parsers, whole byte streams |
| `connection.dfy` | one connection: input buffer, output buffers, counters (a class), and its input and output as values |
| `lru_spec.dfy`, `lru_history.dfy`, `lru_inclusion.dfy`, `lru_least.dfy`, `lru_limits.dfy`, `lru_cache.dfy` | the cache as a state machine, its meaning in terms of history, caches of two sizes compared, and the list-plus-index class that refines it |
| `config.dfy` | option parsing and validation |
| `worker_pool.dfy` | the worker pool with its mutex and condition variables, as interleaved steps |
| `server_model.dfy` | event loop, workers, connections, queue, ready list and eventfd, as interleaved steps |
| `server_counts.dfy`, `server_known.dfy`, `server_conservation.dfy`, `server_interest.dfy`, `server_output.dfy`, `server_input.dfy`, `server_backlog.dfy`, `server_linear.dfy`, `server_drain.dfy`, `server_queue.dfy`, `server_marks.dfy`, `server_pulls.dfy` | one invariant family each, kept by every step |
| `server_reachable.dfy` | the invariant in every reachable state |
| `server_theorems.dfy`, `server_answers.dfy`, `server_sessions.dfy`, `server_progress.dfy` | what follows from it: wake-ups, streams, shutdown and linearizability; exact answers; how requests are taken up and connections end; progress |
| `server_runs.dfy`, `server_rounds.dfy` | runs that reach states the repository rules out |
| `pipeline_client.dfy` | the benchmark's pipelining client (a class) |

In `server_model.dfy` a step is one atomic operation or one critical section of the source. The loop's reads of
counters that workers may be changing are separate steps, so a theorem about every reachable state covers every
interleaving at that grain. What the kernel does (which events and bytes arrive, how much a send takes, whether
epoll_ctl fails, when deadlines pass) is an argument of the steps, so the theorems hold for all of it; readable and
writable events are reported only as registered at the last wait, the peer's shutting down always. What is submitted
or refused is what the parser makes of the bytes. The `submitted`, `history`, `log`, `dropped` and
`discarded` components are histories that no step reads.

Five statements of the repository do not hold of its code, and the code is what is modelled:

- `src/server.cpp:579-581` says a connection registered for neither reading nor writing always has requests in
  flight. While draining this is false. `ServerTheorems.NoInterestExactly` gives the exact condition and
  `ServerRuns.NoInterestWhileDraining` a run that shows the failure.
- `docs/DESIGN.md:91` says that for a client that lets its output grow over the hard threshold reads are paused and it
  is closed. A worker only marks it for closing, and a flush that blocks leaves it open: `ServerRuns.OverCapAndOpen`
  is such a run. Nor are reads paused altogether, because a peer that shuts down its sending side is read from
  whatever is registered: `ServerRuns.MarkedYetRead`. What holds is that an over-cap connection is always noticed
  (`ServerTheorems.OverCapIsNoticed`), that at rest it is registered for writing only
  (`ServerTheorems.OverCapAtDispatch`) and from the next wait on read from only in that one case
  (`ServerTheorems.OverCapReadsOnlyAfterPeerClosed`), and that a marked connection is closed after a flush exactly when
  nothing is unsent (`ServerTheorems.ClosedExactlyWhenFlushed`). `ServerBacklog.WaysToClosing` and
  `ServerBacklog.OnlyTheLoopCloses` list all that closes a connection: of it only the loop's own staging, of a
  SERVER_BUSY or a refusal, is for a backlog over the cap, and that does close (`ServerBacklog.ClosingIsCertain`,
  `ServerRuns.LoopClosesOverCap`). The threshold itself is twice the configured limit only while the doubling does not
  wrap (`Output.HardCapExactly`).
- `docs/DESIGN.md:92` bounds the ready list by the connection count. A connection can be closed while it is in the
  list: `ServerRuns.ReadyButClosed`. The open ones in it are no more than the open connections
  (`ServerTheorems.ReadyListIsBounded`).

- `src/server.cpp:404-406` and `docs/DESIGN.md:89` say that at the in-flight limit requests are left until responses
  drain, and that reads then resume. What process_input leaves in the buffer is not taken up when responses drain, but
  only by the next read from that connection: `ServerRounds.LeftThoughDrained` is a run after which everything is at
  rest and a whole request is still in the buffer, and `ServerSessions.OnlyReadsTakeUp` says of every run that nothing
  but a read takes it up. A request is left exactly when the limit is reached (`ServerSessions.RequestIsLeftExactly`).
  A client whose unanswered requests never exceed the limit less the number of workers never has one left
  (`ServerSessions.WindowIsTakenUp`).
- `docs/DESIGN.md:88` bounds a connection's input by a maximum frame and one read. That holds of a read that finds no
  request left over (`ServerRounds.InputIsBounded`). For the same reason as above it does not hold in general:
  `ServerRounds.InputHasNoBound` gives, for every size, a run after which more than that is in the buffer.

Exact LRU is known for stack inclusion (a larger cache holds whatever a smaller one does). With a byte limit beside
the entry limit this can fail: `LruInclusion.InclusionFailsWhenBytesBind` is a trace of five operations.
`LruLimits.InclusionExactly` says for which limits it holds on every trace, and `LruInclusion.StackInclusion` that it
holds, whatever the limits, on every trace on which the byte limit never decides.

## Model

| member | source | states |
|---|---|---|
| `ServerTheorems.NoConnectionIsParked` | src/server.cpp:522-594 | In every reachable state in which the loop is in epoll_wait, an open connection is registered as its counts call for (for reading iff the server is not draining, no more than the output limit is unsent, fewer than the in-flight limit are in flight and it is not marked for closing; for writing iff something is unsent), or a worker that touched it has yet to try the notify bit, or one is about to queue it, or it is queued and the eventfd is set or about to be. There is no lost-notification window. |
| `ServerTheorems.InterestIsExact` | src/server.cpp:571-594 | In every reachable state in which the loop is in epoll_wait, an open connection nobody has touched since is registered for reading iff the server is not draining, no more than the output limit is unsent, fewer than the in-flight limit are in flight and it is not marked for closing, and for writing iff something is unsent. |
| `ServerTheorems.QuietMeansExact` | src/server.cpp:571-594 | Once workers are idle and the eventfd is clear, every open connection is registered exactly so, one marked for closing still has bytes to send, and the ready list is empty. |
| `ServerTheorems.ReadyListIsBounded` | docs/DESIGN.md:92 | The notify bit is one token: the number of places holding it (a worker about to queue, the ready list, the swapped list) is 1 if the bit is set and 0 otherwise. So no connection is queued twice; the open connections in the ready list are no more than there are open connections; the rest of the list are closed ones, no more than have been closed; a non-empty list is announced. |
| `ServerRuns.ReadyButClosed` | src/server.cpp:596-610 | The bound by the current connection count is false: a run to a state with one ready entry and no open connection. |
| `ServerTheorems.NoInterestExactly` | src/server.cpp:579-581 | The exact form of the comment: an undisturbed open connection is registered for nothing if and only if it has no unsent output and either its in-flight limit is reached or the server is draining; when not draining, requests of it really are queued or being worked on. |
| `ServerRuns.NoInterestWhileDraining` | src/server.cpp:579-581 | The comment as written is false: a run after which an open, undisturbed connection is registered for nothing with nothing in flight. |
| `ServerTheorems.OverCapIsNoticed` | src/server.cpp:522-529 | In every reachable state an open connection whose backlog exceeds the hard cap is marked for closing, or a worker is about to mark it, or the loop is about to close it. |
| `ServerTheorems.ClosedForBacklogOnlyOverCap` | src/server.cpp:440-461 | Conversely, in every reachable state in which the loop is about to close a connection for its backlog, that does exceed the cap. |
| `ServerTheorems.OverCapAtDispatch` | docs/DESIGN.md:91 | When the loop is in epoll_wait with nothing on its way, such a connection is marked for closing and registered for writing only. |
| `ServerTheorems.OverCapReadsOnlyAfterPeerClosed` | src/server.cpp:376-381 | So the next epoll_wait reports no readable input on it, and what is still read from it is read because its peer has shut down its sending side. |
| `ServerRuns.MarkedYetRead` | src/server.cpp:376-381 | That does happen: a run in which an open connection, marked for closing, over its cap and registered for writing only, is read from, and the request read is submitted. |
| `ServerTheorems.ClosedExactlyWhenFlushed` | src/server.cpp:395-398 | After a flush, a connection marked for closing is closed if and only if none of its output is unsent; otherwise its interest is recomputed. |
| `ServerRuns.OverCapAndOpen` | docs/DESIGN.md:91 | The promise that such a client is closed is false: under a validated configuration, a run to a state in which the loop is in epoll_wait and an open connection, marked for closing, is over the cap. |
| `ServerRuns.BlockedFlushLeavesOpen` | src/server.cpp:391-399 | From every reachable state in which a flush is about to block on a connection marked for closing, whatever its backlog, a run leads to the state in which that connection is open, registered for writing only, and the loop done with it (in epoll_wait, unless the loop was working through a list). |
| `ServerRuns.LoopClosesOverCap` | src/server.cpp:440-461 | What does close on the backlog alone: from every state in which the loop has found the connection over its cap after a SERVER_BUSY or a refusal, one or two steps of its own are a run to a state in which it is closed. |
| `ServerBacklog.ClosingIsCertain` | src/server.cpp:440-461 | Once the loop is about to close a connection, every step of anybody leaves it closed or still about to be closed. |
| `ServerBacklog.OnlyTheLoopCloses` | src/server.cpp:596-610 | A step that closes an open connection is close_connection at the point the loop has come to, or the refusal of a malformed frame that took the backlog over the cap. |
| `ServerBacklog.WaysToClosing` | src/server.cpp:360-400 | A step leads to close_connection if and only if it is a hang-up or the end of run, a failed send, a failed read or end of stream, a failed registration, a marked connection found with nothing pending, or a SERVER_BUSY over the cap. |
| `ServerTheorems.InFlightIsExact` | src/server.cpp:433-450 | The in-flight counter equals the number of that connection's requests in the queue, in workers' hands and in the loop's, is never negative and never above the limit, whatever the interleaving of the relaxed increments and decrements. |
| `ServerTheorems.AtMostOneResponse` | src/server.cpp:463-539 | Every response staged for a request is staged on the connection it came from, carries its id and opcode, and is the only one. |
| `ServerTheorems.SubmissionsAreTheStream` | src/server.cpp:402-452 | Whatever the chunks, pauses and interleavings: the requests submitted on a connection are what parsing the bytes received from it in one go yields first; all of it, with the same error if any, whenever no whole frame is left. |
| `ServerTheorems.RefusalsEndTheStream` | src/server.cpp:412-432 | A reply that answers no request answers the frame that makes the stream malformed, and everything before that frame was submitted. |
| `ServerAnswers.RefusalsAreExact` | src/server.cpp:420-431 | What such a reply says, from the bytes it answers: their id and opcode, no value, and status UNSUPPORTED_VERSION iff byte 4 is not 1; VALUE_TOO_LARGE iff it is 1, flags and status are zero, the key length is within the limit and the value length above it; INVALID_REQUEST iff neither. |
| `ServerAnswers.InputIsTaken` | src/server.cpp:402-452 | What process_input does with the bytes at the head of the input, whatever workers do meanwhile: a whole request is submitted and exactly its bytes are consumed; a partial one changes nothing; a malformed one is answered with one frame iff magic and opcode are right, and otherwise marks the connection for closing unanswered. |
| `ServerAnswers.MarkedExactly` | src/server.cpp:412-432 | An open connection is marked for closing only if its input is malformed or some frame was staged on it with a backlog over the cap; a connection that was sent a refusal is marked once the loop has left the refusal, and closed at once iff the refusal took its backlog over the cap. |
| `ServerTheorems.NothingAfterRefusal` | src/server.cpp:412-432 | No run from a state with such a reply ever submits another request of that connection. |
| `ServerTheorems.ClientsSeeWholeFrames` | src/connection.cpp:87-150 | Bytes sent, bytes being written and bytes staged are together exactly the encodings of the frames staged on the connection, in staging order; a client parsing what was sent never meets a malformed frame, reads a prefix of those frames, and reads all of them once nothing is unsent. |
| `ServerTheorems.DrainIsExact` | src/server.cpp:285-296 | Whenever drain_complete is about to return true, although it read two counters per connection one after the other while workers ran, the queue is empty, every request ever submitted on a still-open connection has been answered and every byte of every answer has been sent. |
| `ServerSessions.DrainCanFinish` | src/server.cpp:265-296 | Conversely, from the dispatch of a draining server with an empty queue and nothing in flight or unsent on any open connection, the loop's own steps end the server. |
| `ServerTheorems.ShutdownTakesNothing` | src/server.cpp:237-238 | From every reachable draining state, no run submits another request on any connection, or ends the draining. |
| `ServerTheorems.OutcomesAreSequential` | src/server.cpp:463-520 | Linearizability: the responses are those of one sequential cache run in lock order; each answered request ran exactly once in it with that outcome, after it was submitted and before its answer was staged; or it was answered SERVER_BUSY, with its id and opcode and no value, never ran, and was refused by a queue as long as it may be. |
| `ServerTheorems.LoggedOnce` | src/server.cpp:463-520 | No request is executed twice. |
| `ServerTheorems.RealTimeOrder` | docs/DESIGN.md:100-109 | If the answer to one request was already staged when another was submitted, the first comes first in the lock order; so a client that awaits each answer gets sequential semantics. |
| `ServerTheorems.GetsReadTheLatestPut` | src/server.cpp:470-481 | In every concurrent run an executed GET returns the latest PUT of its key in lock order exactly when the key is stored and neither deleted, cleared nor evicted since; otherwise NOT_FOUND. |
| `ServerAnswers.AnswersAreExact` | src/server.cpp:463-512 | In every concurrent run every executed request is answered as the history before it in lock order says: a DELETE OK iff its key is live, else NOT_FOUND; a PUT OK iff value and entry are within the limits, else VALUE_TOO_LARGE; PING and CLEAR OK with no value; STATS OK with the payload. |
| `ServerAnswers.EffectsAreExact` | src/server.cpp:463-512 | What each does to any key, in terms of the history before and after: an OK PUT makes its key live with its value and can only take other keys away; a DELETE makes its key not live, a CLEAR every key; anything else changes nothing. |
| `ServerAnswers.QueueIsBounded` | src/thread_pool.cpp:21-31 | In every reachable state the queue is within its bound; a submission leaves it as it is and leads to SERVER_BUSY iff it is as long as allowed, and otherwise appends the request. |
| `ServerAnswers.RefusedByQueueIsAnswered` | src/server.cpp:438-450 | After a refusal by the queue the loop's next step, whatever it is, stages one SERVER_BUSY with the id and opcode of that request, stamped with the full queue. |
| `ServerSessions.RequestIsLeftExactly` | src/server.cpp:402-406 | process_input stops before the next frame iff the in-flight limit is reached, changing nothing but its position. |
| `ServerSessions.LeftOnlyAtTheLimit` | src/server.cpp:402-406 | Between events, on an open unmarked connection with fewer requests submitted than may be in flight, those submitted are all that its bytes contain. |
| `ServerSessions.OnlyReadsTakeUp` | src/server.cpp:541-569 | No run without a read from a connection submits anything on it: neither completions nor flushes nor other events take up what was left in its buffer. |
| `ServerSessions.WindowIsTakenUp` | src/server.cpp:402-452 | In every run in which the requests received on a connection and not answered never exceed the in-flight limit less the number of workers, no whole request is ever left in its buffer. |
| `ServerRounds.LeftThoughDrained` | src/server.cpp:404-406 | The comment as written is false: a run after which all responses have drained, workers are idle and the connection is registered for reading, with a whole request left in its buffer. |
| `ServerRounds.InputIsBounded` | docs/DESIGN.md:88 | Input with no whole or malformed frame at its head is shorter than the longest frame, and after one more read at most that and 64 KiB. |
| `ServerRounds.InputHasNoBound` | docs/DESIGN.md:88 | The bound as written is false: for every size a run after which, with everything at rest, one connection's input is at least that long. |
| `ServerSessions.ClosedStaysQuiet` | src/connection.cpp:87-95 | Once a connection is closed, the loop has turned from it and no worker is between looking at its closed flag and staging, no run reads from it, stages on it or sends to it. |
| `ServerSessions.FlushGoesOnExactly` | src/connection.cpp:121-136 | At the top of its loop flush_output sends iff something is unsent and returns iff nothing is. |
| `ServerSessions.WaysToReading` | src/server.cpp:370-386 | A step brings the loop to reading from a connection iff it is an event without EPOLLOUT, or the end of the flush that EPOLLOUT calls for, with nothing left to send or the socket blocked. |
| `ServerSessions.ConfiguredBoundsHold` | src/config.cpp:71-114 | Under a validated configuration, in every reachable state: queue, cache entries, cache bytes, value sizes and in-flight counts are within the configured limits, and while not draining an undisturbed unmarked connection is read from iff its unsent bytes and in-flight requests are below theirs. |
| `ServerReachable.RunKeepsInv` | src/server.cpp:205-283 | All invariants below hold after every run of any length, for every number of threads and every parameter set that validation admits. |
| `ServerTheorems.ValidatedServersStoreEveryPut` | src/config.cpp:80-91 | Under a validated configuration, in every run, a PUT that is answered is answered OK, or SERVER_BUSY by a queue holding the configured maximum; the cache refuses none. |
| `ServerTheorems.ValidatedParams` | src/config.cpp:71-114 | Every validated configuration meets what the theorems ask of the parameters. |
| `ServerProgress.WorkersAnswerEverything` | src/server.cpp:463-539 | From every reachable state in which the loop runs and is not itself submitting, any run of worker steps is no longer than the work left, and once no worker can move every request submitted on an open connection has its answer. |
| `ServerProgress.WorkersCanFinish` | src/server.cpp:463-539 | From every reachable state the workers alone can run until they are idle and the queue is empty. |
| `ServerProgress.StuckMeansDone` | src/thread_pool.cpp:38-61 | No worker can move if and only if all are idle and the queue is empty. |
| `ServerProgress.DoneMeansAnswered` | src/server.cpp:522-539 | With the loop running, the workers idle and the queue empty, every request submitted on an open connection has a staged answer of its own. |
| `ServerProgress.WorkersNeverStick` | src/thread_pool.cpp:38-61 | In every reachable state a worker can take a step if and only if it is not idle before an empty queue. |
| `ServerProgress.WorkersSettle` | src/server.cpp:522-539 | Any run of worker steps is no longer than the work outstanding, so the workers finish what they were given. |
| `ServerConservation.StepKeepsInFlight` | src/connection.cpp:87-110 | Every step of loop, worker or pool keeps the in-flight counter equal to the number of requests owed. |
| `ServerConservation.StepKeepsTicket` | src/server.cpp:433-450 | Every step keeps each submitted request in exactly one place: queue, worker, loop, staged frames, dropped, or discarded at shutdown. |
| `ServerConservation.StepKeepsToken` | src/server.cpp:522-552 | Every step keeps the number of holders of a connection's notify token equal to its notify bit. |
| `ServerConservation.StepKeepsAnnounced` | src/server.cpp:530-550 | Every step keeps a non-empty ready list announced: eventfd set, a worker about to set it, or the loop between its read and its swap. |
| `ServerInterest.StepKeepsInterest` | src/server.cpp:541-594 | Every step keeps, for each connection, registered interest equal to wanted interest (`InterestIsExact` says which that is) unless a recomputation is on its way; the same for the values update_interest has read one by one; and no flushed connection marked for closing goes unnoticed. |
| `ServerInterest.WorkersOnlyDirty` | src/server.cpp:522-539 | A worker step changes nothing on an open connection without leaving a recomputation on its way, and never cancels one. |
| `ServerOutput.StepKeepsOutput` | src/connection.cpp:87-150 | Every step keeps sent, unwritten and staged bytes together equal to the encodings of the staged frames, and the backlog counter equal to the unsent bytes plus those sent but not yet subtracted. |
| `ServerOutput.StepKeepsFit` | src/server.cpp:463-520 | Every step keeps the cache within its limits and every response within the wire limits. |
| `ServerOutput.AnswerFits` | src/server.cpp:463-520 | Executing any request keeps the cache well formed and yields a response that the client's parser accepts. |
| `ServerInput.StepKeepsInput` | src/connection.cpp:27-59 | Every step keeps received bytes equal to the encodings of the submitted requests followed by the unparsed bytes. |
| `ServerInput.StepKeepsRefusals` | src/server.cpp:412-432 | Every step keeps each refusal the one that the malformed frame at the head of the unparsed bytes calls for (`RefusalsAreExact` says which that is). |
| `ServerBacklog.StepKeepsNoticed` | src/server.cpp:440-529 | Every step keeps an over-cap open connection marked, about to be marked, or about to be closed. |
| `ServerLinear.StepKeepsLog` | src/server.cpp:463-520 | Every step keeps the cache equal to the replay of the lock-order log and each logged response equal to the sequential one (`AnswersAreExact` says which that is). |
| `ServerLinear.ReplayIsExec` | src/server.cpp:463-520 | The server's cache after any log is the cache whose recency list the history of its operations explains. |
| `ServerLinear.StepKeepsOnce` | src/server.cpp:463-520 | Every step keeps each request logged at most once, and not before a worker has executed it. |
| `ServerLinear.StepKeepsLogged` | src/server.cpp:463-539 | Every step keeps every response, in a worker's hands or staged, backed by an earlier log entry with that response, or SERVER_BUSY for a request that never ran. |
| `ServerLinear.StepKeepsStamps` | src/server.cpp:433-450 | Every step keeps log positions in real-time order with submissions and staged answers. |
| `ServerDrain.StepKeepsCap` | src/server.cpp:402-406 | Every step keeps each in-flight counter within its limit, although the limit is tested before the increment. |
| `ServerDrain.StepKeepsDrainReads` | src/server.cpp:285-296 | What drain_complete has read so far stays true while it reads on: with nothing in flight no worker can touch the connection again. |
| `ServerDrain.NothingInFlightIsStable` | src/server.cpp:285-296 | A worker step leaves an open connection with nothing in flight untouched in both counters; the reason why reading in-flight before output is sound. |
| `ServerDrain.StepKeepsDrainClosed` | src/server.cpp:376-385 | Every step keeps the loop out of taking requests while draining, and drain_complete going on only with an empty queue. |
| `ServerQueue.StepKeepsQueue` | src/thread_pool.cpp:21-31 | Every step keeps the queue within its bound, every SERVER_BUSY stamped with a full queue, and none in the hands of a worker. |
| `ServerMarks.StepKeepsMarks` | src/server.cpp:412-432 | Every step keeps: an open connection marked, or about to be marked, has malformed input or had a frame staged over the cap. |
| `ServerMarks.StepKeepsRefused` | src/server.cpp:412-432 | Every step keeps: a connection that was sent a refusal is marked once the loop has left it. |
| `ServerPulls.StepKeepsPulls` | src/server.cpp:402-406 | Every step keeps: in-flight requests were submitted, and an open unmarked connection away from process_input has no whole or malformed frame in its buffer unless as many requests were submitted on it as may be in flight. |
| `ServerPulls.StepKeepsAnswers` | src/server.cpp:522-528 | Every step keeps: requests in flight and requests answered are together no more than those submitted, but for answers staged whose in-flight number is still to be reduced. |
| `ServerKnown.StepKeepsKnown` | src/server.cpp:402-610 | Every step keeps every request, worker, loop position and staged frame referring to existing connections and tickets, with responses matching their requests. |
| `WorkerPool.NoJobIsStranded` | src/thread_pool.cpp:21-61 | In every run, with spurious wake-ups and notifications after unlocking: jobs start in submission order, the queue stays within its bound, and while a job is queued some worker is awake or about to be woken. |
| `WorkerPool.JoinMeansAllHandled` | src/thread_pool.cpp:63-87 | When all workers have exited, every accepted job was handled exactly once or is in the tail discarded at the timeout; until then, once joining, some worker is awake. |
| `WorkerPool.TakenOrRefused` | src/thread_pool.cpp:21-31 | In every run try_submit either appends the job or changes nothing, and it refuses iff the pool no longer accepts or the queue is as long as allowed. |
| `WorkerPool.StepKeepsWakeups` | src/thread_pool.cpp:21-61 | Every step keeps: while any worker sleeps, queued jobs are no more than awake workers plus notifications on their way. |
| `WorkerPool.StepHandlesOnce` | src/thread_pool.cpp:38-61 | Every step keeps each job popped as often as it is finished or in a worker's hands. |
| `WorkerPool.StepKeepsFifo` | src/thread_pool.cpp:21-61 | Every step keeps: accepted jobs are those popped, then those queued, then those discarded, in order. |
| `WorkerPool.RunKeepsInv` | src/thread_pool.cpp:38-87 | All pool invariants hold after every run. |
| `LruHistory.RecencyRefinesHistory` | src/lru_cache.cpp:10-83 | After every trace of operations the list holds exactly the keys stored and not erased, cleared or evicted since, ordered by last touch, each with the value of its latest stored put, within both limits. |
| `LruHistory.GetReturnsLatestPut` | src/lru_cache.cpp:10-21 | After every trace a get hits exactly the live keys and returns the latest put. |
| `LruHistory.PutsAreConserved` | src/lru_cache.cpp:110-132 | Stored puts are accounted for to the last one: present, replaced, erased, evicted or cleared. |
| `LruHistory.StepKeepsOrder` | src/lru_cache.cpp:10-60 | Every operation keeps the list in order of last touch. |
| `LruHistory.StepKeepsLive` | src/lru_cache.cpp:31-132 | Every operation keeps the list's keys equal to the live keys of the history. |
| `LruSpec.EvictionIsMinimal` | src/lru_cache.cpp:127-132 | What make_room keeps is a prefix of the recency list with which the new entry meets both limits, and with any longer prefix it would break one. |
| `LruSpec.ApplyKeepsBounds` | src/lru_cache.cpp:10-83 | Every operation keeps keys distinct and the entry, byte and value limits met. |
| `LruSpec.PayloadAndOverhead` | include/cache/lru_cache.h:86-91 | Accounted bytes are payload bytes plus the fixed overhead per entry. |
| `LruInclusion.StackInclusion` | src/lru_cache.cpp:31-60 | On every trace on which the byte limit never decides, the cache with fewer entries is a subsequence of the one with more, and each of its hits is the same hit there. |
| `LruInclusion.AmpleBytesNeverBind` | src/lru_cache.cpp:127-132 | A condition checked before any run: room for the maximum number of entries of the largest cost means the byte limit never decides. |
| `LruInclusion.InclusionFailsWhenBytesBind` | src/lru_cache.cpp:127-132 | Without it inclusion fails: a trace of five operations after which the smaller cache hits a key that the larger has evicted. |
| `LruLimits.InclusionExactly` | src/lru_cache.cpp:31-60 | For which limits inclusion holds on every trace, exactly: the smaller cache holds at most one entry, or both hold equally many, or the byte limit is below the least cost of one entry more than the smaller cache may hold. |
| `LruLeast.RoomForExactly` | include/cache/lru_cache.h:118-120 | Entries of n distinct keys fit in a byte limit if and only if it is at least a number computed from n. |
| `LruLeast.LeastIsLeast` | include/cache/lru_cache.h:118-120 | No entries of n distinct keys cost less than that number. |
| `LruLimits.InclusionFails` | src/lru_cache.cpp:127-132 | For all other limits the failing trace: fill both caches, get the oldest again, put an entry that takes the bytes left. |
| `LruLimits.EntryLimitsIdle` | src/lru_cache.cpp:127-132 | If the bytes never suffice for one entry more than the smaller limit, both caches are equal after every trace. |
| `LruLimits.OneEntryIncluded` | src/lru_cache.cpp:31-60 | A cache of at most one entry is included in every larger one, whatever the byte limit decides. |
| `LruImpl.LruCache.constructor` | src/lru_cache.cpp:8-8 | An empty, valid cache. |
| `LruImpl.LruCache.Get` | src/lru_cache.cpp:10-21 | List, index and counters after a get are those of the specification's get; the index is untouched and the nodes, addresses and all, are the same up to order. |
| `LruImpl.LruCache.Put` | src/lru_cache.cpp:31-60 | The whole state after a put in 64-bit arithmetic: status, list, index, byte counter and evictions. Unless a sum wraps, that is the specification's put, in which the replaced entry is not an eviction candidate for its own insertion. |
| `LruImpl.LruCache.Erase` | src/lru_cache.cpp:62-70 | The same for erase. |
| `LruImpl.LruCache.Clear` | src/lru_cache.cpp:77-83 | Everything empty, byte counters zero, eviction count kept. |
| `LruImpl.LruCache.Contains` | src/lru_cache.cpp:72-75 | Membership of the list, with no promotion. |
| `LruImpl.LruCache.Snapshot` | src/lru_cache.cpp:95-98 | The reported counters are the list's own length and sums, related by the overhead, and within the limits. |
| `LruImpl.LruCache.KeysMruToLru` | src/lru_cache.cpp:100-108 | The keys in recency order. |
| `LruImpl.LruCache.EraseLocked` | src/lru_cache.cpp:110-118 | Removes the entry of one key from list, index and both byte counters. |
| `LruImpl.LruCache.EvictLruLocked` | src/lru_cache.cpp:120-125 | Removes exactly the last entry and counts it. |
| `LruImpl.LruCache.MakeRoomLocked` | src/lru_cache.cpp:127-132 | The loop on index size and byte counter, in 64-bit arithmetic, evicts exactly what its specification in that arithmetic evicts. |
| `LruImpl.EvictionWrapsExactly` | src/lru_cache.cpp:127-132 | That is what unbounded arithmetic evicts if and only if the bytes left after meeting the entry limit and the incoming bytes have a sum that 64 bits hold. |
| `LruImpl.HalfRangeNeverWraps` | src/lru_cache.cpp:31-60 | Under a byte limit of at most half the 64-bit range no put wraps. |
| `LruImpl.UnlinkAgrees` | src/lru_cache.cpp:110-118 | Taking one node out of list, index and counters keeps them in agreement. |
| `LruImpl.LinkAgrees` | src/lru_cache.cpp:53-58 | Linking a fresh node in front keeps them in agreement. |
| `LruImpl.SpliceAgrees` | src/lru_cache.cpp:17-19 | Moving a node to the front keeps index and counters valid unchanged. |
| `Codec.RequestParsesExactly` | src/serializer.cpp:146-195 | The parser completes with request r after n bytes if and only if those n bytes are the encoding of r and r is acceptable under the limits. |
| `Codec.RequestVerdictStable` | src/serializer.cpp:146-195 | A verdict other than need-more never changes when more bytes arrive. |
| `Codec.RequestPrefixNeedsMore` | src/serializer.cpp:146-195 | Every strict prefix of an acceptable frame asks for more. |
| `Codec.RequestNeedMoreBound` | src/serializer.cpp:171-186 | An undecided input is shorter than one frame at the limits. |
| `Codec.PeekAndVerdict` | src/connection.cpp:61-77 | Which malformed frames can be identified: none with a wrong magic or opcode, one of another version iff its opcode is known, every other; a complete frame is identified as itself. |
| `Codec.RequestErrorsExactly` | src/serializer.cpp:146-195 | For each of the nine parse errors of a request, the condition on the header bytes under which, and only under which, it is returned. |
| `Codec.ResponseErrorsExactly` | src/serializer.cpp:197-228 | The same for responses. |
| `Codec.RequestPrefixFree` | src/serializer.cpp:110-120 | No acceptable frame is a prefix of another; encoding is injective. |
| `Codec.RequestRoundTrip` | src/serializer.cpp:110-195 | Parsing an encoded request followed by anything gives it back. |
| `Codec.ResponseParsesExactly` | src/serializer.cpp:197-228 | The same exactness for responses. |
| `Codec.ResponseRoundTrip` | src/serializer.cpp:128-228 | Parsing an encoded response followed by anything gives it back. |
| `Codec.ResponseVerdictStable` | src/serializer.cpp:197-228 | The same stability for responses. |
| `Codec.ResponsePrefixNeedsMore` | src/serializer.cpp:197-228 | Every strict prefix of an acceptable response asks for more. |
| `Codec.HeaderInverse` | src/serializer.cpp:29-63 | Twenty-four bytes decode to a header if and only if they are its encoding and its opcode is known. |
| `BigEndian.DecodeEncode` | src/serializer.cpp:71-108 | Reading what was written gives the integer, for every width that holds it. |
| `BigEndian.EncodeDecode` | src/serializer.cpp:71-108 | Writing what was read gives the bytes. |
| `BigEndian.AppendU64` | src/serializer.cpp:85-89 | The shift loop appends the big-endian encoding. |
| `BigEndian.ReadU64` | src/serializer.cpp:102-108 | The shift loop reads the integer whose encoding the eight bytes are. |
| `StatsCodec.SerializeStats` | src/serializer.cpp:230-238 | The loop writes a field count and the counters in wire order. |
| `StatsCodec.DeserializeStats` | src/serializer.cpp:240-253 | The loop reads as many known counters as the payload holds, keeps the others, and fails exactly on short input. |
| `StatsCodec.AnyVersionReadable` | src/serializer.cpp:240-253 | A payload with any number of counters and any trailing bytes is read: known counters taken, missing ones kept, extra ones ignored; with all counters this is the round trip. |
| `Protocol.OpcodeOf` | src/protocol.cpp:5-16 | Accepts exactly the six opcode bytes and inverts their encoding. |
| `Protocol.StatusOf` | src/protocol.cpp:18-30 | Accepts exactly the seven status bytes and inverts their encoding. |
| `Stream.ParsePastRequests` | src/connection.cpp:46-59 | Acceptable requests at the head of a stream are read back and the rest is read as if alone. |
| `Stream.MalformedIsFinal` | src/server.cpp:414-432 | Once a stream is malformed, nothing that follows changes what was read from it. |
| `Stream.ResumeResponses` | benchmark/async_client.cpp:157-189 | Reading a response stream in two parts, keeping the rest of the first, reads what reading it in one go does. |
| `Stream.SentPrefixReadable` | src/connection.cpp:121-150 | Any prefix of a stream of acceptable responses reads as whole frames in order and the beginning of the next, never as malformed. |
| `Connections.ChunkingIsUnobservable` | src/connection.cpp:27-85 | Over every sequence of reads of any size and extractions: what was extracted is what parsing all received bytes in one go yields first; an error is the same error at the same place. |
| `Connections.InputConserved` | src/connection.cpp:27-85 | Over the same sequences: received bytes are the encodings of the extracted requests followed by the unparsed bytes. |
| `Input.Extracting` | src/connection.cpp:46-59 | Handing out a request moves exactly its bytes from the unparsed to the extracted side. |
| `Input.ExtractedIsTheStream` | src/connection.cpp:27-59 | What was handed out is what parsing the received bytes in one go yields first, and the verdict on the unparsed part is the verdict on the stream there. |
| `Connections.Connection.constructor` | src/connection.cpp:24-25 | Nothing received, extracted, staged or in flight. |
| `Connections.Connection.ReadSome` | src/connection.cpp:27-44 | Received bytes are appended to the unparsed input and nothing else moves; the result tells end of stream, would-block and error apart. |
| `Connections.Connection.NextRequest` | src/connection.cpp:46-59 | The verdict is that of the parser on the unparsed input; exactly a complete frame is consumed; compaction is invisible. |
| `Connections.Connection.PeekRequestHeader` | src/connection.cpp:61-77 | Identifies a frame exactly when a whole header with the right magic and a known opcode is there. |
| `Connections.Connection.CompactInput` | src/connection.cpp:79-85 | Drops the consumed bytes and no others. |
| `Connections.Connection.EnqueueResponse` | src/connection.cpp:87-110 | A closed connection stages nothing; an open one stages the whole frame and is healthy iff the backlog is within the hard cap as the machine computes it; the in-flight count drops in both cases, with wrap-around. |
| `Connections.Connection.FlushOutput` | src/connection.cpp:121-150 | The output after a flush is what the socket's behaviour makes of it: as many bytes as it takes at each call, first what is being written, then what is staged. No byte is lost, repeated or reordered and the backlog counter stays exact; success means everything was sent; it gives up only on would-block, an error or a zero-byte send. |
| `Connections.Connection.TryMarkNotified` | include/cache/connection.h:91-94 | True for exactly one caller until cleared. |
| `Output.Stage` | src/connection.cpp:96-105 | Appends the frame to everything ever staged, and counts it. |
| `Output.Swap` | src/connection.cpp:123-131 | Moves the staged bytes to the write buffer without changing the stream. |
| `Output.Send` | src/connection.cpp:137-139 | Moves bytes from unwritten to sent without changing the stream. |
| `Output.HardCapExactly` | src/connection.cpp:96-105 | The hard cap is twice the configured limit iff the limit is at most half the 64-bit range; beyond that it is below the limit itself. |
| `Config.ParseSize` | src/config.cpp:20-51 | Accepts a text exactly when it is digits with an optional k, m or g suffix denoting a number that 64 bits hold, and returns that number. |
| `Config.SizesExactly` | src/config.cpp:20-51 | The texts that denote a size are digits alone, and digits with k, m or g in either case for 1024, 1024 squared and 1024 cubed; no others. |
| `Config.ValidatedSizesAreExact` | src/config.cpp:80-91 | For a validated configuration neither the 32-bit casts of the limits nor the sum in the cache-size check lose anything. |
| `Config.ValidExactly` | src/config.cpp:71-114 | A configuration is accepted iff every setting is in its range and the cache holds the largest key and value with the overhead, the sum taken without wrap-around. |
| `Config.ValidatedPutsAreStored` | src/config.cpp:80-91 | For a validated configuration every PUT that the parser accepts is stored, whatever the cache holds. |
| `Config.CacheSizeCheckIsNecessary` | src/config.cpp:89-91 | A configuration stopped by the cache-size check has a PUT that the parser accepts and the cache refuses. |
| `PipelineClient.Engine.constructor` | benchmark/async_client.cpp:60-94 | All connections live, nothing issued, nothing received. |
| `PipelineClient.Engine.FillPipeline` | benchmark/async_client.cpp:96-112 | Issues the generator's requests under fresh ids until depth is reached, the generator is dry or the quota is met; the generator is asked for each sequence number once, in order; other connections are untouched. |
| `PipelineClient.Engine.OnWritable` | benchmark/async_client.cpp:114-139 | Bytes sent and bytes still to send stay exactly the encodings of the requests issued; false iff a send breaks or the interest cannot be set; on true the connection is watched for writing iff something is left to write. |
| `PipelineClient.SendAll` | benchmark/async_client.cpp:116-128 | The connection after the send loop is what the socket's behaviour makes of it, as many bytes as it takes at each call; nothing is lost, repeated or reordered, and it stops only when all is written or a send blocks or breaks. |
| `PipelineClient.Engine.OnReadable` | benchmark/async_client.cpp:141-192 | Unless the peer is gone, exactly the responses that parsing the input in one go yields are delivered, in order, up to the first that answers no pending request. True iff the peer is not gone, no frame is malformed, every response is expected, and the write that follows neither breaks nor fails to register; then the remainder is kept. One failure is counted iff a frame is malformed or unexpected. |
| `PipelineClient.Engine.Complete` | benchmark/async_client.cpp:170-185 | A response is delivered iff its id is pending on that connection with that opcode, and then that id is no longer pending; otherwise the connections are as they were and one failure is counted. |
| `PipelineClient.Engine.Drop` | benchmark/async_client.cpp:194-202 | Marks one connection dead once and keeps the live count exact. |
| `PipelineClient.Engine.AllDone` | benchmark/async_client.cpp:204-211 | True exactly when nothing is left to issue, await or write. |
| `PipelineClient.Engine.HandleEvents` | benchmark/async_client.cpp:228-240 | Any batch of events, in any order and for any connection: every live connection is left watched for writing exactly while it has something to write, with a full pipeline and with exactly the responses in its byte stream delivered; one that is live afterwards was not hung up on and was given every byte the events brought. |
| `PipelineClient.Engine.HandleEvent` | benchmark/async_client.cpp:228-240 | A hang-up only drops the connection. Otherwise it is dropped only if the peer is gone, a response is malformed or unexpected, or a write can fail; if it is kept, what was readable has been read, and what was writable has been written until the socket stalls. |
| `PipelineClient.Engine.Run` | benchmark/async_client.cpp:213-243 | For every sequence of epoll results: success iff the run ends with nothing left to issue, all issued requests answered and nothing left to write; then every request issued was completed exactly once, on its own connection, by a response with its id and opcode, and every byte of it was sent. It gives up only with no live connection, or at a wait that timed out or failed, or when the results end. On every connection still live, what was delivered is exactly what the bytes brought by the results contain. |
| `PipelineClient.IssueKeepsAccounts` | benchmark/async_client.cpp:96-112 | Issuing the next id keeps: issued = completed + pending, each issued request pending on its connection or completed, none completed twice. |
| `PipelineClient.CompleteKeepsAccounts` | benchmark/async_client.cpp:170-185 | So does completing a pending request. |
| `PipelineClient.AllAnswered` | benchmark/async_client.cpp:204-211 | With nothing pending, every issued request was answered exactly once. |
| `PipelineClient.IssuedIsReadable` | benchmark/async_client.cpp:104-106 | A server parsing what was written on a connection finds exactly the requests issued on it, in order and under their ids, if each is within its limits. |

## Left out

- System calls, sockets, signals, descriptors and the accept loop's limits (`max_connections`, reuse of descriptor
  numbers): the kernel's choices are step arguments, and connections are numbered in order of acceptance.
- Weak memory: atomics and critical sections are steps of one interleaving; relaxed counters are taken to be
  sequentially consistent, and `close_after_flush_`, a plain bool that workers write and the loop reads, to be atomic.
- The concurrent files `src/server.cpp` and `src/thread_pool.cpp` are modelled on values, as step systems, not as
  classes: a method that mutates an object in one go would hide the interleavings that their properties are about.
  Aliasing of connections through shared pointers is by connection number.
- The server's own step system has a plain FIFO queue; the pool's mutex, condition variables and thread exits are in
  `WorkerPool`, and the two are not composed into one system.
- Liveness under fairness: `ServerProgress` proves that the workers' own steps lead to every answer, not that a
  scheduler lets the workers run.
- A bound on a connection's output buffer as a number of bytes (`docs/DESIGN.md:91`).
- `ServerRounds.LeftThoughDrained` and `ServerRounds.InputHasNoBound` give their runs for an in-flight limit of one.
- What later operations do after a put in which a 64-bit sum wrapped: its own outcome is stated, but the byte counter
  then no longer counts what is stored, so the class invariant is gone. `LruImpl.EvictionWrapsExactly` says when that
  is. The server's steps use the cache's specification, in which nothing wraps.
- A send or a read that reports more bytes than were offered is taken as all of them.
- Hash-table internals and the lifetime of `string_view` keys: the index maps keys to node addresses, and that every
  address it holds is that of a linked node with that key is part of the class invariant.
- `ServerStats` counters: the STATS payload is an arbitrary byte string of the right length in the server's steps.
- The benchmark's latency measurement, completion callbacks, and the order of a callback relative to the erase.
- The synchronous client, the command-line dispatch, logging, the banner, `to_string` functions and the benchmark's
  workloads and percentiles.
