/** Rounds of one request each: what becomes of the requests that process_input leaves in the buffer. */
module ServerRounds {
  import opened Protocol
  import opened Codec
  import opened Input
  import opened Output
  import opened ServerModel
  import opened ServerCounts
  import opened ServerInterest
  import opened ServerReachable
  import opened ServerTheorems
  import opened ServerRuns

  // ----- Where the bound on the input holds -----

  /** A connection's input is shorter than the longest frame while no whole frame and no malformed one is at its head;
      so it is no longer than that and one read, if none was left when the read began. */
  lemma InputIsBounded(p: Params, threads: nat, s: State, c: nat, chunk: Bytes)
    requires Reachable(p, threads, s) && s.loop == ReadPoint(c, true) && c < |s.conns|
    requires ParseRequest(s.conns[c].input.unparsed, p.wire).NeedMore? && ConnEnabled(s, ReadOk(chunk))
    ensures |s.conns[c].input.unparsed| < 24 + KeyLimit(p.wire) + ValueLimit(p.wire)
    ensures c < |ConnApply(s, ReadOk(chunk)).conns|
    ensures |ConnApply(s, ReadOk(chunk)).conns[c].input.unparsed|
         <= 24 + KeyLimit(p.wire) + ValueLimit(p.wire) + 64 * 1024
  {
    RequestNeedMoreBound(s.conns[c].input.unparsed, p.wire);
    hide Reachable, ParseRequest, Peek, SerializeResponse;
  }

  // ----- One round -----

  /** `n` PINGs, one after the other. */
  function Pings(n: nat): Bytes { if n == 0 then [] else SerializeRequest(PING) + Pings(n - 1) }

  lemma {:induction false} PingsSize(n: nat)
    ensures |Pings(n)| == HEADER_SIZE * n
  {
    if n > 0 { PingsSize(n - 1); }
  }

  lemma {:induction false} PingsAppend(n: nat, m: nat)
    ensures Pings(n) + Pings(m) == Pings(n + m)
  {
    hide SerializeRequest;
    if n == 0 {
      assert [] + Pings(m) == Pings(m);
    } else {
      PingsAppend(n - 1, m);
      assert (SerializeRequest(PING) + Pings(n - 1)) + Pings(m) == SerializeRequest(PING) + (Pings(n - 1) + Pings(m));
    }
  }

  lemma PingsParse(n: nat, l: Limits)
    requires n > 0
    ensures ParseRequest(Pings(n), l) == Complete(PING, HEADER_SIZE)
    ensures |Pings(n)| >= HEADER_SIZE && Pings(n)[HEADER_SIZE..] == Pings(n - 1)
  {
    RequestRoundTrip(PING, l, Pings(n - 1));
  }

  /** One connection, in epoll_wait, with everything at rest: no worker busy, nothing queued, in flight or unsent,
      nothing announced, and read interest registered; but `n` PINGs in its buffer. */
  ghost predicate Quiet(p: Params, s: State, n: nat) {
    && s.p == p && AtDispatch(s) && AtRest(s) && s.workers == [Idle] && s.queue == [] && s.ready == [] && s.eventfd == 0
    && |s.conns| == 1 && AtEase(s.conns[0]) && s.conns[0].inflight == 0 && s.conns[0].input.unparsed == Pings(n)
  }

  /** Open, not to be closed, nothing unsent, not announced, registered for reading. */
  predicate AtEase(k: Conn) {
    && !k.closed && !k.closeAfterFlush && !k.notified && k.interest == Interest(true, false)
    && k.out.unwritten == [] && k.out.staged == [] && k.out.pending == 0
  }

  predicate Lenient(p: Params) {
    ValidParams(p) && p.maxInflight == 1 && p.maxPending > 0 && HEADER_SIZE <= HardCap(p.maxOutput)
  }

  /** `m` PINGs arrive in one read; the first of those in the buffer is submitted and the others are left. */
  lemma OneIsTaken(p: Params, s: State, n: nat, m: nat) returns (s': State, job: Job)
    requires Lenient(p) && Reachable(p, 1, s) && Quiet(p, s, n) && n + m > 0 && HEADER_SIZE * m <= READ_CHUNK
    ensures Reachable(p, 1, s') && AtRest(s') && s'.p == p && s'.workers == [Idle] && s'.queue == [job]
    ensures job.conn == 0 && job.request == PING && s'.ready == [] && s'.loop == FlushTop(0, ThenCheck)
    ensures |s'.conns| == 1 && AtEase(s'.conns[0]) && s'.conns[0].inflight == 1
    ensures s'.conns[0].input.unparsed == Pings(n + m - 1)
  {
    hide Reachable, SerializeRequest, ParseRequest, Pings, HardCap, ConnApply;
    var s1 := PingsArrive(p, s, n, m);
    ReachableStep(p, 1, s1, Control(CheckLimit));
    var s2 := s1.(loop := Parse(0));
    s', job := FirstIsSubmitted(p, s2, n + m);
    ReachableStep(p, 1, s', Control(CheckLimit));
    s' := s'.(loop := FlushTop(0, ThenCheck));
  }

  lemma PingsArrive(p: Params, s: State, n: nat, m: nat) returns (s': State)
    requires Reachable(p, 1, s) && Quiet(p, s, n) && HEADER_SIZE * m <= READ_CHUNK
    ensures Reachable(p, 1, s') && s' == s.(conns := s'.conns, polled := s'.polled, loop := Process(0))
    ensures |s'.conns| == 1 && s'.conns[0] == s.conns[0].(input := s'.conns[0].input)
    ensures s'.conns[0].input.unparsed == Pings(n + m)
  {
    PingsSize(m);
    PingsAppend(n, m);
    hide Reachable, Pings, Verdict, Peek, ConnFrames, ConnJobs;
    ReachableStep(p, 1, s, Lists(Wait));
    var s1 := ListApply(s, Wait);
    ReachableStep(p, 1, s1, Control(ConnEvent(0, false, true, false)));
    var s2 := s1.(loop := ReadPoint(0, true));
    ReachableStep(p, 1, s2, OnConn(ReadOk(Pings(m))));
    s' := ConnApply(s2, ReadOk(Pings(m)));
    QuietAct(s2, ReadOk(Pings(m)));
  }

  /** Most acts of the loop on a connection add nothing to the histories. */
  lemma QuietAct(s: State, a: ConnAct)
    requires ConnEnabled(s, a) && !a.GotRequest? && !a.AnswerMalformed? && !a.StageBusy?
    ensures var s' := ConnApply(s, a);
      s' == s.(conns := s.conns[s.loop.c := ConnAfter(s, a)], loop := ConnNext(s, a, ConnAfter(s, a)))
  {
    hide ConnAfter, ConnNext, Verdict, Peek;
    assert s.history + [] == s.history && s.submitted + [] == s.submitted;
  }

  lemma FirstIsSubmitted(p: Params, s: State, n: nat) returns (s': State, job: Job)
    requires Reachable(p, 1, s) && s.loop == Parse(0) && |s.conns| == 1 && s.p == p && s.queue == [] && p.maxPending > 0
    requires n > 0 && s.conns[0].input.unparsed == Pings(n)
    ensures Reachable(p, 1, s') && job.conn == 0 && job.request == PING && s'.queue == [job] && s'.loop == Process(0)
    ensures |s'.conns| == 1
    ensures s'.conns[0] == s.conns[0].(input := s'.conns[0].input, inflight := s.conns[0].inflight + 1)
    ensures s'.conns[0].input.unparsed == Pings(n - 1)
    ensures s' == s.(conns := s'.conns, queue := s'.queue, loop := s'.loop, submitted := s'.submitted)
  {
    PingsParse(n, p.wire);
    hide Reachable, Pings, SerializeRequest, ParseRequest;
    TakesRequest(s, PING);
    hide ConnApply, ConnEnabled, WorkerApply, WorkerEnabled, ListApply, ListEnabled, ControlNext, ControlEnabled;
    ReachableStep(p, 1, s, OnConn(GotRequest(PING)));
    job := NewJob(s, 0, PING);
    s' := OneIsQueued(p, ConnApply(s, GotRequest(PING)), job);
  }

  lemma OneIsQueued(p: Params, s: State, job: Job) returns (s': State)
    requires Reachable(p, 1, s) && s.loop == Submitting(0, job) && s.p.maxPending > 0 && s.queue == []
    ensures Reachable(p, 1, s') && s' == s.(queue := [job], loop := Process(0))
  {
    hide Reachable;
    ReachableStep(p, 1, s, Submit);
    assert s.queue + [job] == [job];
    s' := TrySubmit(s);
  }

  lemma TakesRequest(s: State, r: Request)
    requires s.loop == Parse(0) && |s.conns| == 1 && Verdict(s, 0).Complete? && Verdict(s, 0).frame == r
    requires Verdict(s, 0).consumed <= |s.conns[0].input.unparsed|
    ensures ConnEnabled(s, GotRequest(r))
    ensures var s' := ConnApply(s, GotRequest(r)); var k := s.conns[0];
      && s' == s.(conns := s'.conns, submitted := s'.submitted, loop := Submitting(0, NewJob(s, 0, r)))
      && s'.conns == [k.(inflight := k.inflight + 1, input := Extract(k.input, s.p.wire))]
      && s'.conns[0].input.unparsed == k.input.unparsed[Verdict(s, 0).consumed..]
  {
    hide ParseRequest, Peek;
    assert s.history + [] == s.history;
  }

  /** A worker answers the request while the loop is about to flush. */
  lemma OneIsAnswered(p: Params, s: State, job: Job) returns (s': State)
    requires Lenient(p) && Reachable(p, 1, s) && s.p == p && s.workers == [Idle] && s.queue == [job]
    requires job.conn == 0 && job.request == PING && |s.conns| == 1 && AtEase(s.conns[0]) && s.ready == []
    ensures Reachable(p, 1, s') && LoopSide(s.(queue := []), s') && s'.workers == [Idle] && s'.ready == [0]
    ensures |s'.conns| == 1 && s'.eventfd > 0
    ensures s'.conns[0] == s.conns[0].(notified := true, inflight := s.conns[0].inflight - 1, out := s'.conns[0].out)
    ensures var o := s'.conns[0].out; o.unwritten == [] && o.staged == ANSWER && o.pending == HEADER_SIZE
  {
    hide Reachable, SerializeResponse, HardCap;
    var s1 := PingExecuted(p, s, job);
    var s2 := PingStaged(p, s1, job);
    assert [] + ANSWER == ANSWER && |ANSWER| == HEADER_SIZE;
    var s3 := PingReleased(p, s2, job, false);
    s' := PingAnnounced(p, s3);
  }

  /** The answer is sent and the connection registered for reading again. */
  lemma AnswerIsSent(p: Params, s: State) returns (s': State)
    requires Lenient(p) && Reachable(p, 1, s) && s.p == p && s.loop == FlushTop(0, ThenCheck) && |s.conns| == 1
    requires !s.draining && !s.conns[0].closed && !s.conns[0].closeAfterFlush && s.conns[0].inflight == 0
    requires s.conns[0].out.unwritten == [] && s.conns[0].out.staged == ANSWER && s.conns[0].out.pending == HEADER_SIZE
    ensures Reachable(p, 1, s') && s' == s.(conns := s'.conns, loop := Next) && |s'.conns| == 1
    ensures s'.conns[0] == s.conns[0].(interest := Interest(true, false), out := s'.conns[0].out)
    ensures s'.conns[0].out.unwritten == [] && s'.conns[0].out.staged == [] && s'.conns[0].out.pending == 0
  {
    hide Reachable, SerializeResponse, HardCap, Verdict, Peek, ConnApply;
    assert |ANSWER| == HEADER_SIZE;
    ReachableStep(p, 1, s, OnConn(SwapStaged));
    QuietAct(s, SwapStaged);
    var s1 := ConnApply(s, SwapStaged);
    var s2 := AllIsTaken(p, s1);
    s' := RegisteredForReading(p, s2);
  }

  /** The socket takes everything in one send. */
  lemma AllIsTaken(p: Params, s: State) returns (s': State)
    requires Reachable(p, 1, s) && s.loop == FlushSend(0, ThenCheck) && |s.conns| == 1
    requires var o := s.conns[0].out; |o.unwritten| == o.pending == HEADER_SIZE && o.staged == []
    ensures Reachable(p, 1, s') && s' == s.(conns := s'.conns, loop := FlushTop(0, ThenCheck)) && |s'.conns| == 1
    ensures s'.conns[0] == s.conns[0].(out := s'.conns[0].out)
    ensures s'.conns[0].out.unwritten == [] && s'.conns[0].out.staged == [] && s'.conns[0].out.pending == 0
  {
    hide Reachable, SerializeResponse, HardCap, Verdict, Peek, ConnApply;
    ReachableStep(p, 1, s, OnConn(SendSome(HEADER_SIZE)));
    QuietAct(s, SendSome(HEADER_SIZE));
    var s1 := ConnApply(s, SendSome(HEADER_SIZE));
    ReachableStep(p, 1, s1, OnConn(AccountSent));
    QuietAct(s1, AccountSent);
    s' := ConnApply(s1, AccountSent);
  }

  /** With nothing to flush the loop registers the connection for reading. */
  lemma RegisteredForReading(p: Params, s: State) returns (s': State)
    requires Reachable(p, 1, s) && s.p == p && s.loop == FlushTop(0, ThenCheck) && |s.conns| == 1 && p.maxInflight == 1
    requires !s.draining && !s.conns[0].closed && !s.conns[0].closeAfterFlush && s.conns[0].inflight == 0
    requires s.conns[0].out.unwritten == [] && s.conns[0].out.staged == [] && s.conns[0].out.pending == 0
    ensures Reachable(p, 1, s')
    ensures s' == s.(conns := [s.conns[0].(interest := Interest(true, false))], loop := Next)
  {
    hide Reachable, SerializeResponse, Verdict, Peek, ConnApply, ListApply, WorkerApply;
    ReachableStep(p, 1, s, Control(FlushDone));
    ReachableStep(p, 1, s.(loop := CheckFlag(0)), Control(ReadFlag));
    s' := UpdatedForReading(p, s.(loop := Update1(0)));
  }

  lemma UpdatedForReading(p: Params, s: State) returns (s': State)
    requires Reachable(p, 1, s) && s.p == p && s.loop == Update1(0) && |s.conns| == 1 && p.maxInflight == 1
    requires !s.draining && !s.conns[0].closeAfterFlush && s.conns[0].inflight == 0 && s.conns[0].out.pending == 0
    ensures Reachable(p, 1, s')
    ensures s' == s.(conns := [s.conns[0].(interest := Interest(true, false))], loop := Next)
  {
    hide Reachable, SerializeResponse, Verdict, Peek, ConnApply, ListApply, ListEnabled, WorkerApply, WorkerEnabled;
    ReachableStep(p, 1, s, Control(ReadBacklog));
    ReachableStep(p, 1, s.(loop := Update2(0, true)), Control(ReadInflight));
    ReachableStep(p, 1, s.(loop := Update3(0, true)), Control(ReadFlagAgain));
    var s1 := s.(loop := Update4(0, true));
    ReachableStep(p, 1, s1, OnConn(Register));
    QuietAct(s1, Register);
    s' := ConnApply(s1, Register);
  }

  /** The completion is drained, and finds nothing to do. */
  lemma CompletionIsDrained(p: Params, s: State) returns (s': State)
    requires Lenient(p) && Reachable(p, 1, s) && s.p == p
    requires AtDispatch(s) && AtRest(s) && s.eventfd > 0 && s.ready == [0]
    requires |s.conns| == 1 && AtEase(s.conns[0].(notified := false)) && s.conns[0].inflight == 0
    ensures Reachable(p, 1, s')
    ensures s' == s.(conns := [s.conns[0].(notified := false)], eventfd := 0, ready := [])
  {
    hide Reachable, HardCap, ConnApply, CoversOpen;
    ReachableStep(p, 1, s, Lists(ReadEventfd));
    var s1 := ListApply(s, ReadEventfd);
    ReachableStep(p, 1, s1, Lists(SwapReady));
    var s2 := ListApply(s1, SwapReady);
    ReachableStep(p, 1, s2, Lists(ClearNext));
    var s3 := ListApply(s2, ClearNext);
    ReachableStep(p, 1, s3, Control(LookCleared));
    var s4 := s3.(loop := FlushTop(0, ThenCheck));
    s' := RegisteredForReading(p, s4);
  }

  /** One round: a read of `m` PINGs, one request answered, everything at rest again, and the others left. */
  lemma Round(p: Params, s: State, n: nat, m: nat) returns (s': State)
    requires Lenient(p) && Reachable(p, 1, s) && Quiet(p, s, n) && n + m > 0 && HEADER_SIZE * m <= READ_CHUNK
    ensures Reachable(p, 1, s') && Quiet(p, s', n + m - 1)
  {
    hide Reachable, SerializeResponse, HardCap, Pings;
    var s1, job := OneIsTaken(p, s, n, m);
    var s2 := OneIsAnswered(p, s1, job);
    var s3 := AnswerIsSent(p, s2);
    s' := CompletionIsDrained(p, s3);
  }

  lemma ClientAtRest(p: Params) returns (s: State)
    requires Lenient(p)
    ensures Reachable(p, 1, s) && Quiet(p, s, 0)
  {
    hide Reachable, HardCap;
    StartReachable(p, 1);
    var s0 := Start(p, 1);
    ReachableStep(p, 1, s0, Lists(Accept));
    s := s0.(conns := s0.conns + [FRESH]);
  }

  // ----- What process_input leaves is not taken up when responses drain -----

  /** Stopping at the in-flight limit "until responses drain" is not what happens: a run after which every response
      has drained, nothing is in flight, the workers are idle and the connection is registered for reading, and yet a
      whole request sits in its buffer. By `OnlyReadsTakeUp` it sits there until the client sends something more. */
  lemma LeftThoughDrained(p: Params) returns (s: State)
    requires Lenient(p)
    ensures Reachable(p, 1, s) && AtDispatch(s) && IsOpen(s, 0) && !s.conns[0].closeAfterFlush && !Dirty(s, 0)
    ensures s.workers == [Idle] && s.queue == [] && s.ready == [] && s.eventfd == 0
    ensures s.conns[0].inflight == 0 && Unsent(s.conns[0].out) == 0 && s.conns[0].interest == Interest(true, false)
    ensures Verdict(s, 0) == Complete(PING, HEADER_SIZE)
  {
    hide Reachable, Lenient, Quiet;
    var s0 := ClientAtRest(p);
    s := Round(p, s0, 0, 2) by { assert READ_CHUNK >= 2 * HEADER_SIZE; }
    QuietAndLeft(p, s);
  }

  lemma QuietAndLeft(p: Params, s: State)
    requires Quiet(p, s, 1)
    ensures AtDispatch(s) && IsOpen(s, 0) && !s.conns[0].closeAfterFlush && !Dirty(s, 0)
    ensures s.workers == [Idle] && s.queue == [] && s.ready == [] && s.eventfd == 0
    ensures s.conns[0].inflight == 0 && Unsent(s.conns[0].out) == 0 && s.conns[0].interest == Interest(true, false)
    ensures Verdict(s, 0) == Complete(PING, HEADER_SIZE)
  {
    PingsParse(1, p.wire);
    hide ParseRequest, SerializeRequest, Pings, CountWorkers;
    IdleCountsNothing(s.workers, Touched(0));
  }

  /** ... so the input of one connection has no bound at all: for every size there is a run after which, with
      everything at rest, more than that is in its buffer. */
  lemma {:induction false} InputHasNoBound(p: Params, rounds: nat) returns (s: State)
    requires Lenient(p)
    ensures Reachable(p, 1, s) && Quiet(p, s, 2 * rounds) && |s.conns[0].input.unparsed| >= rounds
  {
    hide Reachable, HardCap, Pings;
    if rounds == 0 {
      s := ClientAtRest(p);
    } else {
      var s0 := InputHasNoBound(p, rounds - 1);
      s := Round(p, s0, 2 * (rounds - 1), 3);
    }
    PingsSize(2 * rounds);
  }
}
