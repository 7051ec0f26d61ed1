/** The event loop, the workers and the connections they share, as a system of interleaved steps. Each step is
    one atomic operation or one critical section; sockets and epoll are whatever the step's arguments say. */
module ServerModel {
  import opened Protocol
  import opened Codec
  import opened Input
  import opened Output
  import L = LruSpec

  datatype Params = Params(
    maxOutput: size, maxInflight: nat, maxPending: nat, wire: Limits, cache: L.CacheLimits)

  /** What validation guarantees about the parameters (module Config). */
  predicate ValidParams(p: Params) {
    && p.maxInflight > 0
    && p.cache.maxValue <= MAX_VALUE_BYTES
  }

  /** Epoll interest beyond the always-registered hang-up event. */
  datatype Interest = Interest(read: bool, write: bool)

  datatype Conn = Conn(
    closed: bool, closeAfterFlush: bool, notified: bool, inflight: int, input: InBuf, out: OutBuf, interest: Interest)

  /** A submitted request; `log` and `seen` record the lengths of the two histories when it was submitted. */
  datatype Job = Job(ticket: nat, conn: nat, request: Request, log: nat, seen: nat)

  /** One staged response frame; `ticket` is absent for replies to malformed input. `log` records the length of the
      log then, `backlog` the connection's backlog with the frame, `queued` the length of the queue that refused the
      request, for one that was refused. */
  datatype Frame = Frame(conn: nat, ticket: Option<nat>, response: Response, log: nat, backlog: int, queued: nat)

  /** One operation under the cache lock. */
  datatype Lin = Lin(ticket: nat, request: Request, stats: Bytes, response: Response)

  datatype Worker =
    | Idle
    | Popped(job: Job)
    | Answered(job: Job, response: Response)   // cache operation done
    | SawOpen(job: Job, response: Response)    // enqueue_response read closed() == false
    | SawClosed(job: Job)                      // ... or true
    | Staged(job: Job, over: bool)             // bytes staged, in-flight count not yet reduced
    | Unclaimed(conn: nat, mark: bool)         // enqueue_response returned; may have to mark close-after-flush
    | Claimed(conn: nat)                       // won the notify bit, not yet in the ready list
    | Pushed                                   // in the ready list, eventfd not yet written

  /** What handle_connection_event does after its first flush, or any handler after its last. */
  datatype Then = ThenRead(input: bool) | ThenCheck

  datatype Loop =
    | Next                                     // between events, or between items of a list
    | EventfdRead                              // drain_completions: before the swap
    | Cleared(c: nat)
    | FlushTop(c: nat, next: Then)
    | FlushSend(c: nat, next: Then)
    | FlushAccount(c: nat, next: Then, n: nat)
    | ReadPoint(c: nat, input: bool)           // input: the event had EPOLLIN or EPOLLRDHUP
    | Process(c: nat)                          // process_input: top of its loop
    | Parse(c: nat)                            // in-flight limit not reached
    | Refused(c: nat, over: bool)              // malformed frame answered
    | Submitting(c: nat, job: Job)             // counted, not yet queued
    | Busy(c: nat, job: Job, queued: nat)      // refused by a queue of this length
    | BusyStaged(c: nat, job: Job, over: bool)
    | CheckFlag(c: nat)
    | CheckPending(c: nat)
    | Closing(c: nat)
    | Update1(c: nat)                          // update_interest: before each of its reads
    | Update2(c: nat, mayRead: bool)
    | Update3(c: nat, mayRead: bool)
    | Update4(c: nat, mayRead: bool)
    | DrainInflight(rest: seq<nat>)            // drain_complete: before each of its reads
    | DrainPending(rest: seq<nat>)

  datatype State = State(
    p: Params,
    conns: seq<Conn>,
    workers: seq<Worker>,
    queue: seq<Job>,
    ready: seq<nat>,
    eventfd: nat,
    loop: Loop,
    todo: seq<nat>,          // rest of drain_completions' swapped list
    refresh: seq<nat>,       // rest of the connections whose interest shutdown recomputes
    polled: seq<Interest>,   // the interest registered at the last epoll_wait, by connection
    draining: bool,
    running: bool,
    cache: seq<L.Entry>,
    submitted: seq<Job>,     // history: submitted[t] is the job with ticket t
    history: seq<Frame>,     // history: staged frames, in staging order
    log: seq<Lin>,           // history: cache operations, in lock order
    dropped: seq<nat>,       // history: tickets whose response met a closed connection
    discarded: seq<Job>)     // history: jobs dropped by a timed-out drain

  // ----- The sequential meaning of a request -----

  datatype Reply = Reply(cache: seq<L.Entry>, response: Response)

  /** `handle_job` up to and including its cache operation; `stats` is the STATS payload, if asked for. */
  function Answer(cache: seq<L.Entry>, r: Request, stats: Bytes, lim: L.CacheLimits): Reply {
    match r.opcode
    case Get =>
      var n := L.Apply(cache, L.OpGet(r.key), lim);
      Reply(n.entries,
            if n.outcome.Hit? then Response(Get, Ok, r.id, n.outcome.value) else Response(Get, NotFound, r.id, []))
    case Put =>
      var n := L.Apply(cache, L.OpPut(r.key, r.value), lim);
      Reply(n.entries, Response(Put, if n.outcome.Stored? then Ok else Status.ValueTooLarge, r.id, []))
    case Delete =>
      var n := L.Apply(cache, L.OpErase(r.key), lim);
      Reply(n.entries, Response(Delete, if n.outcome.Erased? then Ok else NotFound, r.id, []))
    case Ping => Reply(cache, Response(Ping, Ok, r.id, []))
    case Stats => Reply(cache, Response(Stats, Ok, r.id, stats))
    case Clear => Reply(L.Apply(cache, L.OpClear, lim).entries, Response(Clear, Ok, r.id, []))
  }

  const STATS_PAYLOAD: nat := 114

  // ----- Worker steps -----

  datatype WorkerAct =
    | Pop
    | Execute(stats: Bytes)
    | LookClosed
    | DropDecrement
    | StageFrame
    | Decrement
    | MarkClose
    | Claim
    | Push
    | Signal

  predicate WorkerEnabled(s: State, w: nat, a: WorkerAct) {
    && w < |s.workers|
    && (WorkerHasConn(s.workers[w]) ==> WorkerConn(s.workers[w]) < |s.conns|)
    && var pc := s.workers[w];
       match a
       case Pop => pc.Idle? && s.queue != []
       case Execute(stats) => pc.Popped? && |stats| == STATS_PAYLOAD
       case LookClosed => pc.Answered?
       case DropDecrement => pc.SawClosed?
       case StageFrame => pc.SawOpen?
       case Decrement => pc.Staged?
       case MarkClose => pc.Unclaimed? && pc.mark
       case Claim => pc.Unclaimed? && !pc.mark
       case Push => pc.Claimed?
       case Signal => pc.Pushed?
  }

  predicate WorkerHasConn(w: Worker) { !w.Idle? && !w.Pushed? }

  /** The connection a worker is working for. */
  function WorkerConn(w: Worker): nat
    requires WorkerHasConn(w)
  {
    if w.Unclaimed? || w.Claimed? then w.conn else w.job.conn
  }

  predicate OverLimit(s: State, o: OutBuf) { o.pending > HardCap(s.p.maxOutput) }

  function With(s: State, c: nat, k: Conn): State
    requires c < |s.conns|
  {
    s.(conns := s.conns[c := k])
  }

  function TheAnswer(s: State, job: Job, stats: Bytes): Reply { Answer(s.cache, job.request, stats, s.p.cache) }

  /** The worker's connection after the step; for the steps that change it. */
  function WorkerConnAfter(s: State, w: nat, a: WorkerAct): Conn
    requires WorkerEnabled(s, w, a) && WorkerHasConn(s.workers[w])
  {
    var pc := s.workers[w];
    var k := s.conns[WorkerConn(pc)];
    match a
    case DropDecrement => k.(inflight := k.inflight - 1)
    case StageFrame => k.(out := Stage(k.out, SerializeResponse(pc.response)))
    case Decrement => k.(inflight := k.inflight - 1)
    case MarkClose => k.(closeAfterFlush := true)
    case Claim => k.(notified := true)
    case _ => k
  }

  /** The worker's program counter after the step. */
  function WorkerNext(s: State, w: nat, a: WorkerAct): Worker
    requires WorkerEnabled(s, w, a)
  {
    var pc := s.workers[w];
    match a
    case Pop => Popped(s.queue[0])
    case Execute(stats) => Answered(pc.job, TheAnswer(s, pc.job, stats).response)
    case LookClosed => if s.conns[pc.job.conn].closed then SawClosed(pc.job) else SawOpen(pc.job, pc.response)
    case DropDecrement => Unclaimed(pc.job.conn, true)
    case StageFrame => Staged(pc.job, OverLimit(s, WorkerConnAfter(s, w, a).out))
    case Decrement => Unclaimed(pc.job.conn, pc.over)
    case MarkClose => Unclaimed(pc.conn, false)
    case Claim => if s.conns[pc.conn].notified then Idle else Claimed(pc.conn)
    case Push => Pushed
    case Signal => Idle
  }

  function WorkerApply(s: State, w: nat, a: WorkerAct): State
    requires WorkerEnabled(s, w, a)
  {
    var pc := s.workers[w];
    var t := s.(
      workers := s.workers[w := WorkerNext(s, w, a)],
      conns := if WorkerHasConn(pc) then s.conns[WorkerConn(pc) := WorkerConnAfter(s, w, a)] else s.conns);
    match a
    case Pop => t.(queue := s.queue[1..])
    case Execute(stats) =>
      var r := TheAnswer(s, pc.job, stats);
      t.(cache := r.cache, log := s.log + [Lin(pc.job.ticket, pc.job.request, stats, r.response)])
    case DropDecrement => t.(dropped := s.dropped + [pc.job.ticket])
    case StageFrame =>
      var backlog := WorkerConnAfter(s, w, a).out.pending;
      t.(history := s.history + [Frame(pc.job.conn, Some(pc.job.ticket), pc.response, |s.log|, backlog, 0)])
    case Push => t.(ready := s.ready + [pc.conn])
    case Signal => t.(eventfd := s.eventfd + 1)
    case _ => t
  }

  // ----- Loop steps that only move the program counter -----

  /** In epoll_wait, or about to be. */
  predicate AtDispatch(s: State) { s.loop.Next? && s.todo == [] && s.refresh == [] }

  predicate IsOpen(s: State, c: nat) { c < |s.conns| && !s.conns[c].closed }

  /** The open connections, each at least once. */
  predicate CoversOpen(s: State, cs: seq<nat>) {
    && (forall c :: 0 <= c < |s.conns| && !s.conns[c].closed ==> c in cs)
    && (forall i :: 0 <= i < |cs| ==> cs[i] < |s.conns| && !s.conns[cs[i]].closed)
  }

  predicate HasOutput(k: Conn) { k.out.pending > 0 }

  /** The events epoll may have reported at the last wait; for a connection accepted since, whatever an earlier
      one on the same descriptor had. The peer's hang-up is reported always. */
  function Polled(s: State, c: nat): Interest { if c < |s.polled| then s.polled[c] else Interest(true, true) }

  /** What next_request says of a connection's input now. */
  function Verdict(s: State, c: nat): Parsed<Request>
    requires c < |s.conns|
  {
    ParseRequest(s.conns[c].input.unparsed, s.p.wire)
  }

  /** The status that answers a malformed frame. */
  function RefusalStatus(e: ParseError): Status {
    match e
    case ValueTooLarge => Status.ValueTooLarge
    case UnsupportedVersion => Status.UnsupportedVersion
    case _ => InvalidRequest
  }

  /** Socket outcomes, and reads of counters and flags that workers may be changing. */
  datatype ControlAct =
    | LookCleared                            // drain_completions: closed()
    | ConnEvent(conn: nat, writable: bool, readable: bool, peerClosed: bool)  // EPOLLOUT, EPOLLIN, EPOLLRDHUP
    | HangUp(conn: nat)
    | FlushMore                              // flush_output: bytes left in write_buf_
    | FlushDone                              // ... nothing left and nothing staged
    | SendInterrupted
    | SendBlocked
    | SendFailed
    | SkipRead                               // draining, no input event, or would-block
    | ReadFailed                             // end of stream or error
    | CheckLimit                             // inflight_limit_reached()
    | NeedsMore
    | ReadFlag                               // close_after_flush()
    | ReadPending                            // has_pending_output()
    | ReadBacklog                            // update_interest: read_paused(), first half
    | ReadInflight                           // ... second half
    | ReadFlagAgain                          // ... close_after_flush()
    | RegisterFailed                         // ... epoll_ctl error
    | StartDrainCheck(all: seq<nat>)         // drain_complete: the queue is empty
    | DrainReadInflight
    | DrainReadPending

  /** The connection the loop is working on, where there is one. */
  predicate HasConn(l: Loop) { !(l.Next? || l.EventfdRead? || l.DrainInflight? || l.DrainPending?) }

  predicate ControlEnabled(s: State, a: ControlAct) {
    && (HasConn(s.loop) ==> s.loop.c < |s.conns|)
    && match a
       case LookCleared => s.loop.Cleared?
       case ConnEvent(c, writable, readable, peerClosed) =>
         && AtDispatch(s) && s.running && IsOpen(s, c)
         && (writable ==> Polled(s, c).write) && (readable ==> Polled(s, c).read)
         && !(s.draining && peerClosed)
       case HangUp(c) => AtDispatch(s) && IsOpen(s, c)
       case FlushMore => s.loop.FlushTop? && s.conns[s.loop.c].out.unwritten != []
       case FlushDone => s.loop.FlushTop? && s.conns[s.loop.c].out.unwritten == s.conns[s.loop.c].out.staged == []
       case SendInterrupted => s.loop.FlushSend?
       case SendBlocked => s.loop.FlushSend?
       case SendFailed => s.loop.FlushSend?
       case SkipRead => s.loop.ReadPoint?
       case ReadFailed => s.loop.ReadPoint? && s.loop.input && !s.draining
       case CheckLimit => s.loop.Process?
       case NeedsMore => s.loop.Parse? && Verdict(s, s.loop.c).NeedMore?
       case ReadFlag => s.loop.CheckFlag?
       case ReadPending => s.loop.CheckPending?
       case ReadBacklog => s.loop.Update1?
       case ReadInflight => s.loop.Update2?
       case ReadFlagAgain => s.loop.Update3?
       case RegisterFailed => s.loop.Update4?
       case StartDrainCheck(all) => AtDispatch(s) && s.running && s.draining && s.queue == [] && CoversOpen(s, all)
       case DrainReadInflight => s.loop.DrainInflight? && s.loop.rest != [] && s.loop.rest[0] < |s.conns|
       case DrainReadPending => s.loop.DrainPending? && s.loop.rest != [] && s.loop.rest[0] < |s.conns|
  }

  function AfterFlush(c: nat, next: Then): Loop {
    match next
    case ThenRead(input) => ReadPoint(c, input)
    case ThenCheck => CheckFlag(c)
  }

  function ControlNext(s: State, a: ControlAct): Loop
    requires ControlEnabled(s, a)
  {
    match a
    case LookCleared => if s.conns[s.loop.c].closed then Next else FlushTop(s.loop.c, ThenCheck)
    case ConnEvent(c, writable, readable, peerClosed) =>
      var input := readable || peerClosed;
      if writable then FlushTop(c, ThenRead(input)) else ReadPoint(c, input)
    case HangUp(c) => Closing(c)
    case FlushMore => FlushSend(s.loop.c, s.loop.next)
    case FlushDone => AfterFlush(s.loop.c, s.loop.next)
    case SendInterrupted => FlushTop(s.loop.c, s.loop.next)
    case SendBlocked => AfterFlush(s.loop.c, s.loop.next)
    case SendFailed => Closing(s.loop.c)
    case SkipRead => FlushTop(s.loop.c, ThenCheck)
    case ReadFailed => Closing(s.loop.c)
    case CheckLimit =>
      if s.conns[s.loop.c].inflight >= s.p.maxInflight then FlushTop(s.loop.c, ThenCheck) else Parse(s.loop.c)
    case NeedsMore => FlushTop(s.loop.c, ThenCheck)
    case ReadFlag => if s.conns[s.loop.c].closeAfterFlush then CheckPending(s.loop.c) else Update1(s.loop.c)
    case ReadPending => if HasOutput(s.conns[s.loop.c]) then Update1(s.loop.c) else Closing(s.loop.c)
    case ReadBacklog => Update2(s.loop.c, !s.draining && s.conns[s.loop.c].out.pending <= s.p.maxOutput)
    case ReadInflight => Update3(s.loop.c, s.loop.mayRead && s.conns[s.loop.c].inflight < s.p.maxInflight)
    case ReadFlagAgain => Update4(s.loop.c, s.loop.mayRead && !s.conns[s.loop.c].closeAfterFlush)
    case RegisterFailed => Closing(s.loop.c)
    case StartDrainCheck(all) => DrainInflight(all)
    case DrainReadInflight => if s.conns[s.loop.rest[0]].inflight > 0 then Next else DrainPending(s.loop.rest)
    case DrainReadPending => if HasOutput(s.conns[s.loop.rest[0]]) then Next else DrainInflight(s.loop.rest[1..])
  }

  // ----- Loop steps on the shared lists and on the set of connections -----

  datatype ListAct =
    | Wait                                   // epoll_wait returns
    | ReadEventfd
    | SwapReady
    | ClearNext
    | Shutdown(all: seq<nat>)
    | RefreshNext
    | Accept
    | FinishDrain                            // drain_complete returned true
    | GiveUp                                 // drain deadline, or epoll_wait failed

  predicate ListEnabled(s: State, a: ListAct) {
    match a
    case Wait => AtDispatch(s) && s.running
    case ReadEventfd => AtDispatch(s) && (s.running ==> s.eventfd > 0)
    case SwapReady => s.loop.EventfdRead?
    case ClearNext => s.loop.Next? && s.refresh == [] && s.todo != [] && s.todo[0] < |s.conns|
    case Shutdown(all) => AtDispatch(s) && s.running && !s.draining && CoversOpen(s, all)
    case RefreshNext => s.loop.Next? && s.refresh != []
    case Accept => AtDispatch(s) && s.running && !s.draining
    case FinishDrain => s.loop == DrainInflight([])
    case GiveUp => AtDispatch(s) && s.running
  }

  const FRESH := Conn(false, false, false, 0, NOTHING, EMPTY, Interest(true, false))

  function ListApply(s: State, a: ListAct): State
    requires ListEnabled(s, a)
  {
    match a
    case Wait => s.(polled := seq(|s.conns|, i requires 0 <= i < |s.conns| => s.conns[i].interest))
    case ReadEventfd => s.(loop := EventfdRead, eventfd := 0)
    case SwapReady => s.(loop := Next, todo := s.ready, ready := [])
    case ClearNext =>
      With(s, s.todo[0], s.conns[s.todo[0]].(notified := false)).(loop := Cleared(s.todo[0]), todo := s.todo[1..])
    case Shutdown(all) => s.(draining := true, refresh := all)
    case RefreshNext => s.(loop := Update1(s.refresh[0]), refresh := s.refresh[1..])
    case Accept => s.(conns := s.conns + [FRESH])
    case FinishDrain => s.(loop := Next, running := false)
    case GiveUp => s.(running := false)
  }

  // ----- Loop steps that change one connection -----

  datatype ConnAct =
    | ReadOk(chunk: Bytes)                   // read_some: empty if interrupted
    | SwapStaged                             // flush_output: write_buf_.swap(staged_)
    | SendSome(n: nat)
    | AccountSent
    | GotRequest(request: Request)           // process_input
    | GotMalformed                           // ... a frame that cannot be identified
    | AnswerMalformed(reply: Response)
    | FinishRefusal
    | StageBusy
    | FinishBusy
    | Close
    | Register                               // update_interest: the new interest takes effect

  predicate ConnEnabled(s: State, a: ConnAct) {
    && HasConn(s.loop) && s.loop.c < |s.conns|
    && var o := s.conns[s.loop.c].out;
       match a
       case ReadOk(chunk) => s.loop.ReadPoint? && s.loop.input && !s.draining && |chunk| <= READ_CHUNK
       case SwapStaged => s.loop.FlushTop? && o.unwritten == [] && o.staged != []
       case SendSome(n) => s.loop.FlushSend? && 0 < n <= |o.unwritten|
       case AccountSent => s.loop.FlushAccount?
       case GotRequest(r) => s.loop.Parse? && Verdict(s, s.loop.c).Complete? && Verdict(s, s.loop.c).frame == r
       case GotMalformed => s.loop.Parse? && Verdict(s, s.loop.c).Malformed? && Peek(InputOf(s)).None?
       case AnswerMalformed(reply) =>
         && s.loop.Parse? && Verdict(s, s.loop.c).Malformed? && Peek(InputOf(s)).Some?
         && reply == Refusal(Verdict(s, s.loop.c).error, Peek(InputOf(s)).value)
       case FinishRefusal => s.loop.Refused?
       case StageBusy => s.loop.Busy?
       case FinishBusy => s.loop.BusyStaged?
       case Close => s.loop.Closing?
       case Register => s.loop.Update4?
  }

  const READ_CHUNK: nat := 64 * 1024

  function InputOf(s: State): Bytes
    requires HasConn(s.loop) && s.loop.c < |s.conns|
  {
    s.conns[s.loop.c].input.unparsed
  }

  function Refusal(e: ParseError, who: (uint64, Opcode)): Response { Response(who.1, RefusalStatus(e), who.0, []) }

  function BusyReply(r: Request): Response { Response(r.opcode, ServerBusy, r.id, []) }

  /** The connection after the step. */
  function ConnAfter(s: State, a: ConnAct): Conn
    requires ConnEnabled(s, a)
  {
    var k := s.conns[s.loop.c];
    match a
    case ReadOk(chunk) => k.(input := Receive(k.input, chunk))
    case SwapStaged => k.(out := Swap(k.out))
    case SendSome(n) => k.(out := Send(k.out, n))
    case AccountSent => k.(out := Account(k.out, s.loop.n))
    case GotRequest(_) => k.(inflight := k.inflight + 1, input := Extract(k.input, s.p.wire))
    case GotMalformed => k.(closeAfterFlush := true)
    case AnswerMalformed(reply) => k.(out := Stage(k.out, SerializeResponse(reply)))
    case FinishRefusal => k.(closed := k.closed || s.loop.over, closeAfterFlush := true)
    case StageBusy => k.(out := Stage(k.out, SerializeResponse(BusyReply(s.loop.job.request))))
    case FinishBusy => k.(inflight := k.inflight - 1)
    case Close => k.(closed := true)
    case Register => k.(interest := Interest(s.loop.mayRead, HasOutput(k)))
  }

  function NewJob(s: State, c: nat, r: Request): Job { Job(|s.submitted|, c, r, |s.log|, |s.history|) }

  /** The program counter after the step, given the connection after it. */
  function ConnNext(s: State, a: ConnAct, k: Conn): Loop
    requires ConnEnabled(s, a)
  {
    var c := s.loop.c;
    match a
    case ReadOk(_) => Process(c)
    case SwapStaged => FlushSend(c, s.loop.next)
    case SendSome(n) => FlushAccount(c, s.loop.next, n)
    case AccountSent => FlushTop(c, s.loop.next)
    case GotRequest(r) => Submitting(c, NewJob(s, c, r))
    case GotMalformed => FlushTop(c, ThenCheck)
    case AnswerMalformed(_) => Refused(c, OverLimit(s, k.out))
    case FinishRefusal => FlushTop(c, ThenCheck)
    case StageBusy => BusyStaged(c, s.loop.job, OverLimit(s, k.out))
    case FinishBusy => if s.loop.over then Closing(c) else Process(c)
    case Close => Next
    case Register => Next
  }

  /** The frames the step stages. */
  function ConnFrames(s: State, a: ConnAct): seq<Frame>
    requires ConnEnabled(s, a)
  {
    match a
    case AnswerMalformed(reply) => [Frame(s.loop.c, None, reply, |s.log|, ConnAfter(s, a).out.pending, 0)]
    case StageBusy =>
      [Frame(s.loop.c, Some(s.loop.job.ticket), BusyReply(s.loop.job.request), |s.log|, ConnAfter(s, a).out.pending,
             s.loop.queued)]
    case _ => []
  }

  /** The jobs the step creates. */
  function ConnJobs(s: State, a: ConnAct): seq<Job>
    requires ConnEnabled(s, a)
  {
    if a.GotRequest? then [NewJob(s, s.loop.c, a.request)] else []
  }

  function ConnApply(s: State, a: ConnAct): State
    requires ConnEnabled(s, a)
  {
    var k := ConnAfter(s, a);
    With(s, s.loop.c, k).(
      loop := ConnNext(s, a, k), history := s.history + ConnFrames(s, a), submitted := s.submitted + ConnJobs(s, a))
  }

  /** WorkerPool::try_submit as the loop sees it. */
  function TrySubmit(s: State): State
    requires s.loop.Submitting?
  {
    if |s.queue| < s.p.maxPending then s.(loop := Process(s.loop.c), queue := s.queue + [s.loop.job])
    else s.(loop := Busy(s.loop.c, s.loop.job, |s.queue|))
  }

  // ----- Runs -----

  datatype Step =
    | Work(w: nat, work: WorkerAct)
    | Control(control: ControlAct)
    | Lists(list: ListAct)
    | OnConn(conn: ConnAct)
    | Submit
    | Discard                      // the pool's drain timeout, after the loop has ended

  predicate Enabled(s: State, st: Step) {
    match st
    case Work(w, a) => WorkerEnabled(s, w, a)
    case Control(a) => ControlEnabled(s, a)
    case Lists(a) => ListEnabled(s, a)
    case OnConn(a) => ConnEnabled(s, a)
    case Submit => s.loop.Submitting?
    case Discard => !s.running
  }

  function Apply(s: State, st: Step): State
    requires Enabled(s, st)
  {
    match st
    case Work(w, a) => WorkerApply(s, w, a)
    case Control(a) => s.(loop := ControlNext(s, a))
    case Lists(a) => ListApply(s, a)
    case OnConn(a) => ConnApply(s, a)
    case Submit => TrySubmit(s)
    case Discard => s.(queue := [], discarded := s.discarded + s.queue)
  }

  function Start(p: Params, threads: nat): State {
    State(p, [], seq(threads, _ => Idle), [], [], 0, Next, [], [], [], false, true, [], [], [], [], [], [])
  }

  ghost predicate IsRun(start: State, steps: seq<Step>)
    decreases |steps|, 0
  {
    steps == [] ||
    (IsRun(start, steps[..|steps| - 1]) && Enabled(After(start, steps[..|steps| - 1]), steps[|steps| - 1]))
  }

  ghost function After(start: State, steps: seq<Step>): State
    requires IsRun(start, steps)
    decreases |steps|, 1
  {
    if steps == [] then start else Apply(After(start, steps[..|steps| - 1]), steps[|steps| - 1])
  }
}
