/** Runs that reach states which the repository's own words rule out. */
module ServerRuns {
  import opened Protocol
  import opened Codec
  import opened Stream
  import opened Input
  import opened Output
  import opened ServerModel
  import opened ServerCounts
  import opened ServerInterest
  import opened ServerOutput
  import opened ServerBacklog
  import opened ServerReachable
  import opened ServerTheorems

  /** The comment's claim without the draining case is false: a run after which an open connection is registered
      for nothing although it has nothing in flight. */
  lemma NoInterestWhileDraining(p: Params, threads: nat) returns (s: State)
    requires ValidParams(p)
    ensures Reachable(p, threads, s) && AtDispatch(s) && IsOpen(s, 0) && !Dirty(s, 0)
    ensures s.conns[0].interest == Interest(false, false) && s.conns[0].inflight == 0
  {
    hide Reachable;
    var start := Start(p, threads);
    StartReachable(p, threads);
    IdleCountsNothing(start.workers, Touched(0));
    ReachableStep(p, threads, start, Lists(Accept));
    var s1 := start.(conns := start.conns + [FRESH]);
    ReachableStep(p, threads, s1, Lists(Shutdown([0])));
    var s2 := s1.(draining := true, refresh := [0]);
    ReachableStep(p, threads, s2, Lists(RefreshNext));
    var s3 := s2.(refresh := s2.refresh[1..], loop := Update1(0));
    UpdateToNothing(s3);
    ReachableLeads(p, threads, s3, s3.(loop := Next, conns := [FRESH.(interest := Interest(false, false))]));
    s := s3.(loop := Next, conns := [FRESH.(interest := Interest(false, false))]);
  }

  lemma UpdateToNothing(s: State)
    requires s.draining && s.loop == Update1(0) && s.conns == [FRESH]
    ensures Leads(s, s.(loop := Next, conns := [FRESH.(interest := Interest(false, false))]))
  {
    hide Leads, ConnApply;
    LeadsSelf(s);
    UpdateReads(s, s, 0);
    LeadsStep(s, s.(loop := Update4(0, false)), OnConn(Register));
    RegisterNothing(s.(loop := Update4(0, false)));
  }

  /** The three reads of update_interest when they end in no read interest. */
  lemma UpdateReads(start: State, s: State, c: nat)
    requires Leads(start, s) && s.loop == Update1(c) && c < |s.conns|
    requires s.draining || s.conns[c].closeAfterFlush
    ensures Leads(start, s.(loop := Update4(c, false)))
  {
    hide Leads, ConnApply, ListApply, WorkerApply;
    LeadsStep(start, s, Control(ReadBacklog));
    var s2 := s.(loop := ControlNext(s, ReadBacklog));
    LeadsStep(start, s2, Control(ReadInflight));
    var s3 := s2.(loop := ControlNext(s2, ReadInflight));
    LeadsStep(start, s3, Control(ReadFlagAgain));
  }

  lemma RegisterNothing(s: State)
    requires s.loop == Update4(0, false) && s.conns == [FRESH]
    ensures ConnApply(s, Register) == s.(loop := Next, conns := [FRESH.(interest := Interest(false, false))])
  {
    assert s.history + [] == s.history && s.submitted + [] == s.submitted;
  }

  /** The connection registered for writing only, and the loop done with it. */
  function WriteOnly(s: State, c: nat): State
    requires c < |s.conns|
  {
    With(s, c, s.conns[c].(interest := Interest(false, true))).(loop := Next)
  }

  /** When a flush blocks, a run leads from there to a state in which the connection, marked for closing and however
      far over its cap, is open and registered for writing only; in epoll_wait, unless the loop was working through
      a list. */
  lemma BlockedFlushLeavesOpen(p: Params, threads: nat, s: State, c: nat)
    requires Reachable(p, threads, s) && s.loop == FlushSend(c, ThenCheck) && IsOpen(s, c)
    requires s.conns[c].closeAfterFlush
    ensures Leads(s, WriteOnly(s, c)) && IsOpen(WriteOnly(s, c), c)
    ensures s.todo == [] && s.refresh == [] ==> AtDispatch(WriteOnly(s, c))
  {
    hide Reachable, Leads;
    SendHasOutput(p, threads, s, c);
    FlushBlocks(s, c);
    UpdateToWriteOnly(s, s.(loop := Update1(c)), c);
  }

  lemma FlushBlocks(s: State, c: nat)
    requires s.loop == FlushSend(c, ThenCheck) && c < |s.conns|
    requires s.conns[c].closeAfterFlush && HasOutput(s.conns[c])
    ensures Leads(s, s.(loop := Update1(c)))
  {
    hide Leads, ConnApply, ListApply, WorkerApply;
    LeadsSelf(s);
    LeadsStep(s, s, Control(SendBlocked));
    LeadsStep(s, s.(loop := CheckFlag(c)), Control(ReadFlag));
    LeadsStep(s, s.(loop := CheckPending(c)), Control(ReadPending));
  }

  /** A send is only tried with something to send. */
  lemma SendHasOutput(p: Params, threads: nat, s: State, c: nat)
    requires Reachable(p, threads, s) && s.loop.FlushSend? && s.loop.c == c < |s.conns|
    ensures HasOutput(s.conns[c])
  {
    ReachableOutput(p, threads, s, c);
    hide Reachable, Total, SerializeResponses, FramesOf;
  }

  lemma UpdateToWriteOnly(start: State, s: State, c: nat)
    requires Leads(start, s) && s.loop == Update1(c) && c < |s.conns|
    requires s.conns[c].closeAfterFlush && HasOutput(s.conns[c])
    ensures Leads(start, WriteOnly(s, c))
  {
    hide Leads, ConnApply;
    UpdateReads(start, s, c);
    LeadsStep(start, s.(loop := Update4(c, false)), OnConn(Register));
    RegisterWriteOnly(s.(loop := Update4(c, false)), c);
  }

  lemma RegisterWriteOnly(s: State, c: nat)
    requires s.loop == Update4(c, false) && c < |s.conns| && HasOutput(s.conns[c])
    ensures ConnApply(s, Register) == WriteOnly(s, c)
  {
    assert s.history + [] == s.history && s.submitted + [] == s.submitted;
  }

  // ----- One PING, answered and queued for a wake-up -----

  const PING := Request(Ping, 0, [], [])
  const PONG := Response(Ping, Ok, 0, [])
  const ANSWER := SerializeResponse(PONG)
  const THE_JOB := Job(0, 0, PING, 0, 0)

  /** What one worker's steps leave alone. */
  ghost predicate LoopSide(s: State, s': State) {
    && s'.p == s.p && s'.loop == s.loop && s'.todo == s.todo && s'.refresh == s.refresh
    && s'.draining == s.draining && s'.running == s.running && s'.queue == s.queue
  }

  lemma PingFits(l: Limits)
    ensures |SerializeRequest(PING)| == HEADER_SIZE
    ensures ParseRequest(SerializeRequest(PING), l) == Complete(PING, HEADER_SIZE)
    ensures ParseRequest([], l) == NeedMore
  {
    RequestRoundTrip(PING, l, []);
    assert SerializeRequest(PING) + [] == SerializeRequest(PING);
  }

  /** A client connects, and epoll reports that it has sent something. */
  lemma ClientConnects(p: Params) returns (s: State)
    requires ValidParams(p)
    ensures Reachable(p, 1, s)
    ensures s == Start(p, 1).(conns := [FRESH], polled := [FRESH.interest], loop := ReadPoint(0, true))
  {
    hide Reachable;
    var s0 := Start(p, 1);
    StartReachable(p, 1);
    ReachableStep(p, 1, s0, Lists(Accept));
    var s1 := s0.(conns := s0.conns + [FRESH]);
    assert s1.conns == [FRESH];
    ReachableStep(p, 1, s1, Lists(Wait));
    var s2 := ListApply(s1, Wait);
    assert s2.polled == [FRESH.interest];
    ReachableStep(p, 1, s2, Control(ConnEvent(0, false, true, false)));
    s := s2.(loop := ReadPoint(0, true));
  }

  /** Its PING is read. */
  lemma PingArrives(p: Params) returns (s: State)
    requires ValidParams(p)
    ensures Reachable(p, 1, s) && AtRest(s) && s.p == p && s.workers == [Idle] && s.queue == [] && s.loop == Parse(0)
    ensures s.conns == [FRESH.(input := InBuf(SerializeRequest(PING), SerializeRequest(PING), []))]
    ensures s.submitted == [] && s.log == [] && s.history == [] && s.ready == []
  {
    hide Reachable, SerializeRequest, ConnApply;
    PingFits(p.wire);
    var s0 := ClientConnects(p);
    ReadsPing(s0);
    ReachableStep(p, 1, s0, OnConn(ReadOk(SerializeRequest(PING))));
    var s1 := ConnApply(s0, ReadOk(SerializeRequest(PING)));
    ReachableStep(p, 1, s1, Control(CheckLimit));
    s := s1.(loop := Parse(0));
    assert Start(p, 1).workers == [Idle];
  }

  lemma ReadsPing(s: State)
    requires s.conns == [FRESH] && s.loop == ReadPoint(0, true) && !s.draining
    requires |SerializeRequest(PING)| == HEADER_SIZE
    ensures ConnApply(s, ReadOk(SerializeRequest(PING)))
         == s.(loop := Process(0),
               conns := [FRESH.(input := InBuf(SerializeRequest(PING), SerializeRequest(PING), []))])
  {
    hide SerializeRequest;
    assert [] + SerializeRequest(PING) == SerializeRequest(PING);
    assert s.history + [] == s.history && s.submitted + [] == s.submitted;
  }

  /** Nothing left over from earlier events, and not shutting down. */
  predicate AtRest(s: State) { s.todo == [] && s.refresh == [] && !s.draining && s.running }

  /** ... and submitted. */
  lemma PingSubmitted(p: Params) returns (s: State)
    requires ValidParams(p) && p.maxPending > 0
    ensures Reachable(p, 1, s) && AtRest(s) && s.p == p && s.workers == [Idle] && s.queue == [THE_JOB]
    ensures s.loop == Process(0) && s.ready == []
    ensures s.conns == [FRESH.(inflight := 1, input := InBuf(SerializeRequest(PING), [], [PING]))]
  {
    hide Reachable, SerializeRequest, ParseRequest, Peek;
    PingFits(p.wire);
    var s0 := PingArrives(p);
    var s1 := ConnApply(s0, GotRequest(PING));
    ReachableStep(p, 1, s0, OnConn(GotRequest(PING)));
    assert s1.loop == Submitting(0, THE_JOB);
    assert SerializeRequest(PING)[HEADER_SIZE..] == [] && [] + [PING] == [PING];
    assert s1.conns == [FRESH.(inflight := 1, input := InBuf(SerializeRequest(PING), [], [PING]))];
    ReachableStep(p, 1, s1, Submit);
    s := TrySubmit(s1);
  }

  /** A worker takes it and runs it. */
  lemma PingExecuted(p: Params, s: State, job: Job) returns (s': State)
    requires Reachable(p, 1, s) && s.workers == [Idle] && s.queue == [job] && |s.conns| == 1
    requires job.conn == 0 && job.request == PING
    ensures Reachable(p, 1, s') && LoopSide(s.(queue := []), s') && s'.workers == [Answered(job, PONG)]
    ensures s'.conns == s.conns && s'.ready == s.ready
  {
    hide Reachable, SerializeResponse;
    ReachableStep(p, 1, s, Work(0, Pop));
    var s1 := WorkerApply(s, 0, Pop);
    var stats: Bytes := seq(STATS_PAYLOAD, _ => 0);
    ReachableStep(p, 1, s1, Work(0, Execute(stats)));
    s' := WorkerApply(s1, 0, Execute(stats));
  }

  /** The connection after one answer is staged on it. */
  function Staged1(k: Conn): Conn { k.(out := Stage(k.out, ANSWER)) }

  lemma PingStaged(p: Params, s: State, job: Job) returns (s': State)
    requires Reachable(p, 1, s) && s.workers == [Answered(job, PONG)] && |s.conns| == 1 && !s.conns[0].closed
    requires job.conn == 0
    ensures Reachable(p, 1, s') && LoopSide(s, s')
    ensures s'.workers == [Staged(job, OverLimit(s, Staged1(s.conns[0]).out))]
    ensures s'.conns == [Staged1(s.conns[0])] && s'.ready == s.ready
  {
    hide Reachable, SerializeResponse, HardCap;
    ReachableStep(p, 1, s, Work(0, LookClosed));
    var s1 := WorkerApply(s, 0, LookClosed);
    ReachableStep(p, 1, s1, Work(0, StageFrame));
    s' := WorkerApply(s1, 0, StageFrame);
  }

  lemma PingReleased(p: Params, s: State, job: Job, over: bool) returns (s': State)
    requires Reachable(p, 1, s) && s.workers == [Staged(job, over)] && |s.conns| == 1 && job.conn == 0
    ensures Reachable(p, 1, s') && LoopSide(s, s') && s'.workers == [Unclaimed(0, false)]
    ensures var k := s.conns[0];
      s'.conns == [k.(inflight := k.inflight - 1, closeAfterFlush := k.closeAfterFlush || over)] && s'.ready == s.ready
  {
    hide Reachable, SerializeResponse;
    ReachableStep(p, 1, s, Work(0, Decrement));
    s' := WorkerApply(s, 0, Decrement);
    if over {
      ReachableStep(p, 1, s', Work(0, MarkClose));
      s' := WorkerApply(s', 0, MarkClose);
    }
  }

  lemma PingAnnounced(p: Params, s: State) returns (s': State)
    requires Reachable(p, 1, s) && s.workers == [Unclaimed(0, false)] && |s.conns| == 1 && !s.conns[0].notified
    ensures Reachable(p, 1, s') && LoopSide(s, s') && s'.workers == [Idle]
    ensures s'.conns == [s.conns[0].(notified := true)] && s'.ready == s.ready + [0] && s'.eventfd > 0
  {
    hide Reachable, SerializeResponse;
    ReachableStep(p, 1, s, Work(0, Claim));
    var s1 := WorkerApply(s, 0, Claim);
    ReachableStep(p, 1, s1, Work(0, Push));
    var s2 := WorkerApply(s1, 0, Push);
    ReachableStep(p, 1, s2, Work(0, Signal));
    s' := WorkerApply(s2, 0, Signal);
  }

  /** The connection once the answer is being written. */
  function Answered1(p: Params): Conn {
    Conn(false, HEADER_SIZE > HardCap(p.maxOutput), true, 0, InBuf(SerializeRequest(PING), [], [PING]),
         OutBuf([], ANSWER, [], HEADER_SIZE), Interest(true, false))
  }

  /** The answer is staged, announced, and about to be sent. */
  lemma PingAnswered(p: Params) returns (s: State)
    requires ValidParams(p) && p.maxPending > 0
    ensures Reachable(p, 1, s) && AtRest(s) && s.p == p && s.workers == [Idle] && s.queue == []
    ensures s.loop == FlushSend(0, ThenCheck) && s.ready == [0] && s.conns == [Answered1(p)]
  {
    hide Reachable, SerializeResponse, SerializeRequest, HardCap, ParseRequest;
    var s0 := PingSubmitted(p);
    var s1 := PingExecuted(p, s0, THE_JOB);
    var s2 := PingStaged(p, s1, THE_JOB);
    assert Staged1(s0.conns[0]).out == OutBuf([], [], ANSWER, HEADER_SIZE);
    var s3 := PingReleased(p, s2, THE_JOB, HEADER_SIZE > HardCap(p.maxOutput));
    var s4 := PingAnnounced(p, s3);
    assert s4.conns == [Answered1(p).(out := OutBuf([], [], ANSWER, HEADER_SIZE))];
    s := StartsFlush(p, s4);
  }

  /** With no whole frame left the loop turns to the output. */
  lemma StartsFlush(p: Params, s: State) returns (s': State)
    requires Reachable(p, 1, s) && ValidParams(s.p) && s.loop == Process(0)
    requires s.conns == [Answered1(p).(out := OutBuf([], [], ANSWER, HEADER_SIZE))]
    ensures Reachable(p, 1, s') && LoopSide(s, s'.(loop := s.loop)) && s'.loop == FlushSend(0, ThenCheck)
    ensures s'.conns == [Answered1(p)] && s'.workers == s.workers && s'.ready == s.ready
  {
    hide Reachable, SerializeResponse, SerializeRequest, HardCap;
    NothingToParse(p, s);
    var s2 := s.(loop := FlushTop(0, ThenCheck));
    ReachableStep(p, 1, s2, OnConn(SwapStaged)) by { hide ConnApply; }
    hide Verdict, Peek;
    s' := ConnApply(s2, SwapStaged);
  }

  lemma NothingToParse(p: Params, s: State)
    requires Reachable(p, 1, s) && ValidParams(s.p) && s.loop == Process(0) && |s.conns| == 1
    requires s.conns[0].inflight == 0 && s.conns[0].input.unparsed == []
    ensures Reachable(p, 1, s.(loop := FlushTop(0, ThenCheck)))
  {
    PingFits(s.p.wire);
    hide Reachable, ParseRequest, ConnApply, ListApply, WorkerApply;
    ReachableStep(p, 1, s, Control(CheckLimit));
    ReachableStep(p, 1, s.(loop := Parse(0)), Control(NeedsMore));
  }

  // ----- Over the cap and open -----

  /** A configuration that validation accepts and whose hard cap is below the size of one response. */
  const TIGHT := Config.ServerConfig("s", 1, 194, 1, 65, 1, 1, 1, 1, 1, 1, 0)

  /** A backlog over the hard cap does not by itself close a connection: a run to a state in which the loop is in
      epoll_wait and an open connection, marked for closing, has more unsent than the cap allows. */
  lemma OverCapAndOpen() returns (s: State)
    ensures Config.Validate(TIGHT).None? && Reachable(ParamsOf(TIGHT), 1, s)
    ensures AtDispatch(s) && IsOpen(s, 0) && s.conns[0].closeAfterFlush
    ensures s.conns[0].out.pending > HardCap(s.p.maxOutput)
    ensures s.conns[0].interest == Interest(false, true)
  {
    TightIsValid();
    ValidatedParams(TIGHT);
    s := TightAndOpen(ParamsOf(TIGHT));
  }

  lemma TightIsValid()
    ensures Config.Validate(TIGHT).None?
    ensures HEADER_SIZE > HardCap(ParamsOf(TIGHT).maxOutput) && ParamsOf(TIGHT).maxPending > 0
  {
  }

  lemma TightAndOpen(p: Params) returns (s: State)
    requires ValidParams(p) && p.maxPending > 0 && HEADER_SIZE > HardCap(p.maxOutput)
    ensures Reachable(p, 1, s) && AtDispatch(s) && IsOpen(s, 0) && s.conns[0].closeAfterFlush
    ensures s.conns[0].out.pending > HardCap(s.p.maxOutput) && s.conns[0].interest == Interest(false, true)
    ensures AtRest(s) && s.p == p && s.conns[0].inflight == 0 && s.conns[0].input.unparsed == []
  {
    hide Reachable, Leads, SerializeResponse, SerializeRequest, HardCap;
    var s0 := PingAnswered(p);
    BlockedFlushLeavesOpen(p, 1, s0, 0);
    ReachableLeads(p, 1, s0, WriteOnly(s0, 0));
    s := WriteOnly(s0, 0);
  }

  /** Being marked and registered for writing only does not keep a connection from being read: a run in which its
      peer shuts down its sending side after one more PING, and that PING is submitted although the connection is
      marked for closing and over its cap. */
  lemma MarkedYetRead() returns (s: State, s': State)
    ensures Config.Validate(TIGHT).None? && Reachable(ParamsOf(TIGHT), 1, s) && Leads(s, s')
    ensures AtDispatch(s) && IsOpen(s, 0) && s.conns[0].closeAfterFlush
    ensures s.conns[0].out.pending > HardCap(s.p.maxOutput)
    ensures s.conns[0].interest == Interest(false, true)
    ensures IsOpen(s', 0) && s'.conns[0].closeAfterFlush && s'.conns[0].out.pending > HardCap(s'.p.maxOutput)
    ensures s'.conns[0].input.received == s.conns[0].input.received + SerializeRequest(PING)
    ensures |s'.submitted| == |s.submitted| + 1
  {
    TightIsValid();
    ValidatedParams(TIGHT);
    hide Reachable, Leads, HardCap, SerializeRequest;
    s := TightAndOpen(ParamsOf(TIGHT));
    s' := ReadAfterPeerClosed(s);
  }

  lemma ReadAfterPeerClosed(s: State) returns (s': State)
    requires AtDispatch(s) && AtRest(s) && ValidParams(s.p) && IsOpen(s, 0)
    requires s.conns[0].inflight == 0 && s.conns[0].input.unparsed == []
    ensures Leads(s, s') && s'.p == s.p && 0 < |s'.conns| && |s'.submitted| == |s.submitted| + 1
    ensures s'.conns[0] == s.conns[0].(inflight := 1, input := s'.conns[0].input)
    ensures s'.conns[0].input.received == s.conns[0].input.received + SerializeRequest(PING)
  {
    hide Leads, SerializeRequest, ParseRequest, Peek;
    PingFits(s.p.wire);
    var s1 := PeerCloses(s);
    var s2 := ConnApply(s1, GotRequest(PING));
    LeadsStep(s, s1, OnConn(GotRequest(PING)));
    s' := s2;
  }

  lemma PeerCloses(s: State) returns (s': State)
    requires AtDispatch(s) && AtRest(s) && ValidParams(s.p) && IsOpen(s, 0)
    requires s.conns[0].inflight == 0 && s.conns[0].input.unparsed == []
    ensures Leads(s, s') && s'.p == s.p && |s'.conns| == |s.conns| && s'.loop == Parse(0) && s'.submitted == s.submitted
    ensures s'.conns[0] == s.conns[0].(input := Receive(s.conns[0].input, SerializeRequest(PING)))
    ensures s'.conns[0].input.unparsed == SerializeRequest(PING)
  {
    hide Leads, SerializeRequest, Verdict, Peek, ConnApply, ListApply, WorkerApply, ParseRequest;
    PingFits(s.p.wire);
    LeadsSelf(s);
    LeadsStep(s, s, Control(ConnEvent(0, false, false, true)));
    var s1 := s.(loop := ReadPoint(0, true));
    ReadsMore(s1);
    LeadsStep(s, s1, OnConn(ReadOk(SerializeRequest(PING))));
    var s2 := ConnApply(s1, ReadOk(SerializeRequest(PING)));
    LeadsStep(s, s2, Control(CheckLimit));
    s' := s2.(loop := Parse(0));
  }

  lemma ReadsMore(s: State)
    requires s.loop == ReadPoint(0, true) && !s.draining && 0 < |s.conns| && s.conns[0].input.unparsed == []
    requires |SerializeRequest(PING)| == HEADER_SIZE
    ensures ConnEnabled(s, ReadOk(SerializeRequest(PING)))
    ensures var s' := ConnApply(s, ReadOk(SerializeRequest(PING)));
      && s' == s.(loop := Process(0), conns := s'.conns) && |s'.conns| == |s.conns|
      && s'.conns[0] == s.conns[0].(input := Receive(s.conns[0].input, SerializeRequest(PING)))
      && s'.conns[0].input.unparsed == SerializeRequest(PING)
  {
    hide SerializeRequest, Verdict, Peek;
    assert s.history + [] == s.history && s.submitted + [] == s.submitted;
    assert [] + SerializeRequest(PING) == SerializeRequest(PING);
  }

  /** What does close on the backlog alone is the loop's own staging: once it has found the connection over the cap
      after a SERVER_BUSY or a refusal, one or two steps of its own close it (and, as `ClosingIsCertain` says, nothing
      keeps it from taking them). */
  lemma LoopClosesOverCap(s: State, c: nat) returns (steps: seq<Step>)
    requires LoopCloses(s.loop, c) && c < |s.conns|
    ensures 1 <= |steps| <= 2 && forall i :: 0 <= i < |steps| ==> steps[i].OnConn?
    ensures IsRun(s, steps) && c < |After(s, steps).conns| && After(s, steps).conns[c].closed
  {
    var st := if s.loop.Refused? then FinishRefusal else if s.loop.BusyStaged? then FinishBusy else Close;
    LastLoopSteps(s, c, st);
    steps := [] + [OnConn(st)];
    hide ConnApply, ConnEnabled;
    RunStep(s, [], OnConn(st));
    if s.loop.BusyStaged? {
      var s1 := ConnApply(s, st);
      LastLoopSteps(s1, c, Close);
      RunStep(s, steps, OnConn(Close));
      steps := steps + [OnConn(Close)];
    }
  }

  lemma LastLoopSteps(s: State, c: nat, a: ConnAct)
    requires LoopCloses(s.loop, c) && c < |s.conns|
    requires a == if s.loop.Refused? then FinishRefusal else if s.loop.BusyStaged? then FinishBusy else Close
    ensures ConnEnabled(s, a) && c < |ConnApply(s, a).conns|
    ensures if s.loop.BusyStaged? then ConnApply(s, a).loop == Closing(c) else ConnApply(s, a).conns[c].closed
  {
    hide Verdict, Peek, SerializeResponse, ConnFrames, ConnJobs;
  }

  // ----- Ready but closed -----

  /** The ready list can be longer than the list of connections in service: a run to a state with one entry in the
      ready list and no open connection. */
  lemma ReadyButClosed(p: Params) returns (s: State)
    requires ValidParams(p) && p.maxPending > 0
    ensures Reachable(p, 1, s) && AtDispatch(s) && s.ready == [0] && HowMany(s.conns, false) == 0
  {
    hide Reachable, HardCap, HowMany, SerializeResponse, SerializeRequest;
    var s0 := PingAnswered(p);
    s := SendFails(p, s0);
  }

  /** The send fails and the only connection is closed. */
  lemma SendFails(p: Params, s: State) returns (s': State)
    requires Reachable(p, 1, s) && s.loop == FlushSend(0, ThenCheck) && |s.conns| == 1
    ensures Reachable(p, 1, s') && s'.loop == Next
    ensures s'.todo == s.todo && s'.refresh == s.refresh && s'.ready == s.ready
    ensures HowMany(s'.conns, false) == 0
  {
    hide Reachable, SerializeResponse, Verdict, Peek;
    ReachableStep(p, 1, s, Control(SendFailed));
    var s1 := s.(loop := Closing(0));
    ReachableStep(p, 1, s1, OnConn(Close));
    s' := ConnApply(s1, Close);
    assert s'.conns[..0] == [];
  }
}
