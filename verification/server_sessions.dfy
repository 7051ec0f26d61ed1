/** How the requests of a connection are taken up and how connections end, over every run. */
module ServerSessions {
  import opened Codec
  import opened Stream
  import opened Input
  import opened Output
  import opened ServerModel
  import opened ServerCounts
  import opened ServerOutput
  import opened ServerDrain
  import opened ServerInput
  import opened ServerPulls
  import opened ServerConservation
  import opened ServerInterest
  import opened ServerLinear
  import opened ServerReachable
  import opened ServerTheorems
  import opened ServerAnswers

  // ----- Whole requests left in the buffer -----

  lemma ReachablePulls(p: Params, threads: nat, s: State, c: nat)
    requires Reachable(p, threads, s)
    ensures PullsOk(s, c) && AnswersOk(s, c) && InputExact(s, c) && s.p == p
  {
    ReachableConn(p, threads, s, c);
    hide Reachable, GlobalInv, PullsOk, AnswersOk, InputExact;
  }

  /** process_input, faced with a whole request, leaves it in the buffer exactly when the in-flight limit is reached;
      otherwise it takes it. */
  lemma RequestIsLeftExactly(p: Params, threads: nat, s: State, c: nat, st: Step)
    requires Reachable(p, threads, s) && s.loop == Process(c) && c < |s.conns|
    requires Enabled(s, st) && !st.Work? && !st.Discard?
    ensures Apply(s, st) == s.(loop := Apply(s, st).loop)
    ensures Apply(s, st).loop == FlushTop(c, ThenCheck) <==> s.conns[c].inflight == p.maxInflight
    ensures Apply(s, st).loop == Parse(c) <==> s.conns[c].inflight < p.maxInflight
  {
    ReachableParams(p, threads, s);
    InFlightIsExact(p, threads, s, c);
    hide Reachable, InFlightWhere, Verdict, Peek, CoversOpen, SerializeResponse;
  }

  /** ... so between events the requests submitted on an open connection that is not to be closed are all those its
      client has sent, unless as many were submitted as may be in flight. */
  lemma LeftOnlyAtTheLimit(p: Params, threads: nat, s: State, c: nat)
    requires Reachable(p, threads, s) && s.loop.Next? && IsOpen(s, c) && !s.conns[c].closeAfterFlush
    requires |RequestsOf(s.submitted, c)| < p.maxInflight
    ensures ParseRequests(s.conns[c].input.received, p.wire).frames == RequestsOf(s.submitted, c)
  {
    ReachablePulls(p, threads, s, c);
    SubmissionsAreTheStream(p, threads, s, c);
    hide Reachable, ParseRequests, ParseRequest, RequestsOf;
  }

  /** No byte is read from connection `c` along the run. */
  ghost predicate Unread(s: State, steps: seq<Step>, c: nat)
    requires IsRun(s, steps)
  {
    steps == [] ||
    (var before, st := steps[..|steps| - 1], steps[|steps| - 1];
     Unread(s, before, c) && (st.OnConn? && st.conn.ReadOk? ==> After(s, before).loop != ReadPoint(c, true)))
  }

  /** And what process_input has left stays in the buffer until something more is read from that connection: no
      completion, no flush and no other event takes it up. */
  lemma {:induction false} OnlyReadsTakeUp(p: Params, threads: nat, s: State, c: nat, steps: seq<Step>)
    requires Reachable(p, threads, s) && c < |s.conns| && s.loop.Next? && IsRun(s, steps) && Unread(s, steps, c)
    ensures var s' := After(s, steps);
      && c < |s'.conns| && s'.conns[c].input == s.conns[c].input && !TakingFrom(s'.loop, c)
      && RequestsOf(s'.submitted, c) == RequestsOf(s.submitted, c)
  {
    hide Reachable, Enabled, Apply, RequestsOf;
    if steps != [] {
      var before, st := steps[..|steps| - 1], steps[|steps| - 1];
      OnlyReadsTakeUp(p, threads, s, c, before);
      StepTakesNothing(After(s, before), c, st);
    }
  }

  lemma StepTakesNothing(s: State, c: nat, st: Step)
    requires c < |s.conns| && !TakingFrom(s.loop, c) && Enabled(s, st)
    requires st.OnConn? && st.conn.ReadOk? ==> s.loop != ReadPoint(c, true)
    ensures var s' := Apply(s, st);
      && c < |s'.conns| && s'.conns[c].input == s.conns[c].input && !TakingFrom(s'.loop, c)
      && RequestsOf(s'.submitted, c) == RequestsOf(s.submitted, c)
  {
    hide WorkerApply, ControlNext, ListApply, ConnApply, RequestsOf;
    match st
    case Work(w, a) => WorkTakesNothing(s, w, a, c);
    case Control(a) => ControlLeavesOthers(s, a, c);
    case Lists(a) => ListTakesNothing(s, a, c);
    case OnConn(a) => ConnTakesNothingFrom(s, a, c);
    case _ =>
  }

  lemma ListTakesNothing(s: State, a: ListAct, c: nat)
    requires ListEnabled(s, a) && c < |s.conns| && !TakingFrom(s.loop, c)
    ensures var s' := ListApply(s, a);
      && s'.submitted == s.submitted && |s'.conns| >= |s.conns| && s'.conns[c].input == s.conns[c].input
      && !TakingFrom(s'.loop, c)
  {
    hide CoversOpen;
  }

  lemma WorkTakesNothing(s: State, w: nat, a: WorkerAct, c: nat)
    requires WorkerEnabled(s, w, a) && c < |s.conns|
    ensures var s' := WorkerApply(s, w, a);
      && s'.loop == s.loop && s'.submitted == s.submitted
      && |s'.conns| == |s.conns| && s'.conns[c].input == s.conns[c].input
  {
    hide SerializeResponse, TheAnswer, WorkerNext, Stage;
  }

  lemma ControlLeavesOthers(s: State, a: ControlAct, c: nat)
    requires ControlEnabled(s, a) && !TakingFrom(s.loop, c)
    ensures !TakingFrom(ControlNext(s, a), c)
  {
    hide Verdict, CoversOpen;
  }

  lemma ConnTakesNothingFrom(s: State, a: ConnAct, c: nat)
    requires ConnEnabled(s, a) && c < |s.conns| && !TakingFrom(s.loop, c)
    requires a.ReadOk? ==> s.loop != ReadPoint(c, true)
    ensures var s' := ConnApply(s, a);
      && c < |s'.conns| && s'.conns[c].input == s.conns[c].input && !TakingFrom(s'.loop, c)
      && RequestsOf(s'.submitted, c) == RequestsOf(s.submitted, c)
  {
    hide RequestsOf;
    ConnInputs(s, a, c);
    InputTouched(s, a);
    ConnTurnsTo(s, a, c);
    assert RequestsOf(s.submitted, c) + [] == RequestsOf(s.submitted, c);
    hide ConnEnabled, ConnApply, ConnAfter;
  }

  /** The loop turns to a connection's input only by reading from it. */
  lemma ConnTurnsTo(s: State, a: ConnAct, c: nat)
    requires ConnEnabled(s, a) && !TakingFrom(s.loop, c)
    ensures TakingFrom(ConnApply(s, a).loop, c) ==> a.ReadOk? && s.loop == ReadPoint(c, true)
    ensures s.loop.c == c ==> !a.GotRequest? && (a.ReadOk? ==> s.loop == ReadPoint(c, true))
  {
    hide Verdict, Peek, SerializeResponse, Stage, Swap, Send, Account, HardCap, ConnFrames, ConnJobs;
  }

  // ----- A client that keeps its window -----

  /** Of the requests the connection has received, those not yet answered leave room for every worker. */
  ghost predicate WithinWindow(s: State, c: nat) {
    c < |s.conns| ==>
      |ParseRequests(s.conns[c].input.received, s.p.wire).frames| - AnswersTo(s.history, c) + |s.workers|
        <= s.p.maxInflight
  }

  ghost predicate WindowKept(start: State, steps: seq<Step>, c: nat)
    requires IsRun(start, steps)
  {
    WithinWindow(After(start, steps), c) && (steps == [] || WindowKept(start, steps[..|steps| - 1], c))
  }

  /** No whole request is left behind. */
  ghost predicate NoneLeft(s: State, c: nat) {
    IsOpen(s, c) && !s.conns[c].closeAfterFlush && !TakingFrom(s.loop, c) && s.loop != Closing(c) ==>
      !Verdict(s, c).Complete?
  }

  /** A client whose unanswered requests never exceed the in-flight limit less the number of workers never has a whole
      request left in the buffer. (A worker stages an answer before it reduces the in-flight number, so the client may
      have the answer, and have sent its next request, while the request it answers still counts.) */
  lemma {:induction false} WindowIsTakenUp(p: Params, threads: nat, steps: seq<Step>, c: nat)
    requires ValidParams(p) && IsRun(Start(p, threads), steps) && WindowKept(Start(p, threads), steps, c)
    ensures NoneLeft(After(Start(p, threads), steps), c)
  {
    var start := Start(p, threads);
    if steps != [] {
      var before, st := steps[..|steps| - 1], steps[|steps| - 1];
      WindowIsTakenUp(p, threads, before, c);
      var s := After(start, before);
      assert Reachable(p, threads, s);
      ReachablePulls(p, threads, s, c);
      hide Reachable, Enabled, Apply, NoneLeft, PullsOk, AnswersOk, InputExact, WithinWindow;
      StepLeavesNone(s, st, c);
    }
  }

  lemma StepLeavesNone(s: State, st: Step, c: nat)
    requires Enabled(s, st) && NoneLeft(s, c) && WithinWindow(s, c) && AnswersOk(s, c) && InputExact(s, c)
    ensures NoneLeft(Apply(s, st), c)
  {
    hide WorkerApply, ControlNext, ListApply, ConnApply, ParseRequest, ParseRequests, CountWorkers, AnswersTo, InputOk,
         RequestsOf;
    match st
    case Work(w, a) => WorkLeavesNone(s, w, a, c);
    case Control(a) =>
      if s.loop == Process(c) && c < |s.conns| && Verdict(s, c).Complete? { LimitNotReached(s, c); }
      ControlLeavesNone(s, a, c);
    case Lists(a) => ListLeavesNone(s, a, c);
    case OnConn(a) => ConnLeavesNone(s, a, c);
    case _ =>
  }

  lemma {:induction false} CountAtMost(ws: seq<Worker>, sel: Sel)
    ensures CountWorkers(ws, sel) <= |ws|
  {
    if ws != [] { CountAtMost(ws[..|ws| - 1], sel); }
  }

  /** Within the window, the limit is not reached while a whole request is waiting. */
  lemma LimitNotReached(s: State, c: nat)
    requires s.loop == Process(c) && c < |s.conns| && Verdict(s, c).Complete?
    requires WithinWindow(s, c) && AnswersOk(s, c) && InputExact(s, c)
    ensures s.conns[c].inflight < s.p.maxInflight
  {
    var i := s.conns[c].input;
    CountAtMost(s.workers, Releasing(c));
    ParsePastRequests(i.extracted, i.unparsed, s.p.wire);
    assert |ParseRequests(i.unparsed, s.p.wire).frames| > 0;
    hide ParseRequest, CountWorkers, AnswersTo, RequestsOf, ParseRequests;
  }

  lemma WorkLeavesNone(s: State, w: nat, a: WorkerAct, c: nat)
    requires WorkerEnabled(s, w, a) && NoneLeft(s, c)
    ensures NoneLeft(WorkerApply(s, w, a), c)
  {
    hide SerializeResponse, TheAnswer, WorkerNext, Stage, ParseRequest;
  }

  lemma ControlLeavesNone(s: State, a: ControlAct, c: nat)
    requires ControlEnabled(s, a) && NoneLeft(s, c)
    requires s.loop == Process(c) && c < |s.conns| && Verdict(s, c).Complete? ==> s.conns[c].inflight < s.p.maxInflight
    ensures NoneLeft(s.(loop := ControlNext(s, a)), c)
  {
    hide ParseRequest, CoversOpen;
  }

  lemma ListLeavesNone(s: State, a: ListAct, c: nat)
    requires ListEnabled(s, a) && NoneLeft(s, c)
    ensures NoneLeft(ListApply(s, a), c)
  {
    hide ParseRequest, CoversOpen;
    if a.Accept? { NothingIsPartial(s.p.wire); }
  }

  lemma ConnLeavesNone(s: State, a: ConnAct, c: nat)
    requires ConnEnabled(s, a) && NoneLeft(s, c)
    ensures NoneLeft(ConnApply(s, a), c)
  {
    hide SerializeResponse, HardCap, ParseRequest, Peek, Stage, Swap, Send, Account, ConnFrames, ConnJobs;
  }

  // ----- Closed connections -----

  /** The loop is reading from the connection, answering on it or writing to it. */
  predicate Serving(l: Loop, c: nat) {
    HasConn(l) && l.c == c && !(l.Cleared? || l.Closing? || l.Update1? || l.Update2? || l.Update3? || l.Update4?)
  }

  /** Closed, and nobody is past looking. */
  ghost predicate Sealed(s: State, c: nat) {
    && c < |s.conns| && s.conns[c].closed && !Serving(s.loop, c)
    && (forall w :: 0 <= w < |s.workers| && s.workers[w].SawOpen? ==> s.workers[w].job.conn != c)
  }

  /** Once a connection is closed, the loop has turned from it and no worker is between looking at its closed flag and
      staging, nothing is ever read from it, staged on it or sent to it again. */
  lemma {:induction false} ClosedStaysQuiet(s: State, c: nat, steps: seq<Step>)
    requires Sealed(s, c) && IsRun(s, steps)
    ensures Sealed(After(s, steps), c)
    ensures FramesOf(After(s, steps).history, c) == FramesOf(s.history, c)
    ensures After(s, steps).conns[c].input == s.conns[c].input && After(s, steps).conns[c].out == s.conns[c].out
  {
    hide Enabled, Apply, FramesOf, Sealed;
    if steps != [] {
      var before, st := steps[..|steps| - 1], steps[|steps| - 1];
      ClosedStaysQuiet(s, c, before);
      SealedStep(After(s, before), c, st);
    }
    SealedExists(s, c);
    SealedExists(After(s, steps), c);
  }

  lemma SealedExists(s: State, c: nat)
    requires Sealed(s, c)
    ensures c < |s.conns|
  {
  }

  lemma SealedStep(s: State, c: nat, st: Step)
    requires Sealed(s, c) && Enabled(s, st)
    ensures Sealed(Apply(s, st), c) && FramesOf(Apply(s, st).history, c) == FramesOf(s.history, c)
    ensures Apply(s, st).conns[c].input == s.conns[c].input && Apply(s, st).conns[c].out == s.conns[c].out
  {
    hide WorkerApply, ControlNext, ListApply, ConnApply, FramesOf;
    match st
    case Work(w, a) => WorkOnSealed(s, w, a, c);
    case Control(a) => ControlOnSealed(s, a, c);
    case Lists(a) => ListOnSealed(s, a, c);
    case OnConn(a) => ConnOnSealed(s, a, c);
    case _ =>
  }

  lemma WorkOnSealed(s: State, w: nat, a: WorkerAct, c: nat)
    requires Sealed(s, c) && WorkerEnabled(s, w, a)
    ensures Sealed(WorkerApply(s, w, a), c) && FramesOf(WorkerApply(s, w, a).history, c) == FramesOf(s.history, c)
    ensures var k := WorkerApply(s, w, a).conns[c]; k.input == s.conns[c].input && k.out == s.conns[c].out
  {
    WorkStagesElsewhere(s, w, a, c);
    WorkTakesNothing(s, w, a, c);
    WorkSeesClosed(s, w, a, c);
    hide WorkerApply, WorkerEnabled, FramesOf;
  }

  lemma WorkStagesElsewhere(s: State, w: nat, a: WorkerAct, c: nat)
    requires WorkerEnabled(s, w, a) && !(s.workers[w].SawOpen? && s.workers[w].job.conn == c)
    ensures FramesOf(WorkerApply(s, w, a).history, c) == FramesOf(s.history, c)
  {
    if a.StageFrame? { StageOne(s.history, WorkerApply(s, w, a).history[|s.history|], c); }
    hide SerializeResponse, SerializeResponses, TheAnswer, WorkerConnAfter, WorkerNext, FramesOf;
    assert FramesOf(s.history, c) + [] == FramesOf(s.history, c);
  }

  lemma WorkSeesClosed(s: State, w: nat, a: WorkerAct, c: nat)
    requires WorkerEnabled(s, w, a) && c < |s.conns| && s.conns[c].closed
    requires !(s.workers[w].SawOpen? && s.workers[w].job.conn == c)
    ensures var s' := WorkerApply(s, w, a);
      && |s'.conns| == |s.conns| && s'.conns[c].closed && s'.workers == s.workers[w := WorkerNext(s, w, a)]
      && s'.conns[c].out == s.conns[c].out
      && !(WorkerNext(s, w, a).SawOpen? && WorkerNext(s, w, a).job.conn == c)
  {
    hide SerializeResponse, TheAnswer, Stage, HardCap;
  }

  lemma ControlOnSealed(s: State, a: ControlAct, c: nat)
    requires Sealed(s, c) && ControlEnabled(s, a)
    ensures Sealed(s.(loop := ControlNext(s, a)), c)
  {
    hide Verdict, CoversOpen;
  }

  lemma ListOnSealed(s: State, a: ListAct, c: nat)
    requires Sealed(s, c) && ListEnabled(s, a)
    ensures Sealed(ListApply(s, a), c) && ListApply(s, a).history == s.history
    ensures var k := ListApply(s, a).conns[c]; k.input == s.conns[c].input && k.out == s.conns[c].out
  {
    hide CoversOpen;
  }

  lemma ConnOnSealed(s: State, a: ConnAct, c: nat)
    requires Sealed(s, c) && ConnEnabled(s, a)
    ensures Sealed(ConnApply(s, a), c) && FramesOf(ConnApply(s, a).history, c) == FramesOf(s.history, c)
    ensures var k := ConnApply(s, a).conns[c]; k.input == s.conns[c].input && k.out == s.conns[c].out
  {
    FramesElsewhere(s, a, c);
    hide SerializeResponse, HardCap, Verdict, Peek, Stage, Swap, Send, Account, FramesOf, ConnFrames, ConnJobs;
  }

  lemma FramesElsewhere(s: State, a: ConnAct, c: nat)
    requires ConnEnabled(s, a) && !TakingFrom(s.loop, c)
    ensures FramesOf(s.history + ConnFrames(s, a), c) == FramesOf(s.history, c)
  {
    if a.StageBusy? || a.AnswerMalformed? {
      StageOne(s.history, ConnFrames(s, a)[0], c);
    } else {
      assert s.history + [] == s.history;
    }
    hide SerializeResponse, SerializeResponses, Verdict, Peek, FramesOf, ConnAfter;
    assert FramesOf(s.history, c) + [] == FramesOf(s.history, c);
  }

  // ----- Flushing -----

  /** flush_output goes on while there is anything to send: with nothing unsent the loop leaves it, with anything
      unsent it sends. */
  lemma FlushGoesOnExactly(p: Params, threads: nat, s: State, c: nat, st: Step)
    requires Reachable(p, threads, s) && s.loop.FlushTop? && s.loop.c == c && c < |s.conns|
    requires Enabled(s, st) && !st.Work? && !st.Discard?
    ensures Apply(s, st).loop == FlushSend(c, s.loop.next) <==> s.conns[c].out.pending > 0
    ensures Apply(s, st).loop == AfterFlush(c, s.loop.next) <==> s.conns[c].out.pending == 0
    ensures c < |Apply(s, st).conns| && Unsent(Apply(s, st).conns[c].out) == Unsent(s.conns[c].out)
  {
    BacklogIsExact(p, threads, s, c);
    hide Reachable;
    FlushTopSteps(s, c, st);
    hide Enabled, Apply;
  }

  lemma FlushTopSteps(s: State, c: nat, st: Step)
    requires s.loop.FlushTop? && s.loop.c == c && c < |s.conns| && Enabled(s, st) && !st.Work? && !st.Discard?
    ensures Apply(s, st).loop == (if Unsent(s.conns[c].out) > 0 then FlushSend(c, s.loop.next)
                                  else AfterFlush(c, s.loop.next))
    ensures c < |Apply(s, st).conns| && Unsent(Apply(s, st).conns[c].out) == Unsent(s.conns[c].out)
  {
    if st.OnConn? {
      FlushTopSwaps(s, c, st.conn);
      hide ConnEnabled, ConnApply;
    } else if st.Control? {
      FlushTopMoves(s, c, st.control);
      hide ControlEnabled, ControlNext;
    } else {
      hide CoversOpen;
    }
  }

  lemma FlushTopSwaps(s: State, c: nat, a: ConnAct)
    requires s.loop.FlushTop? && s.loop.c == c && c < |s.conns| && ConnEnabled(s, a)
    ensures Unsent(s.conns[c].out) > 0 && ConnApply(s, a).loop == FlushSend(c, s.loop.next)
    ensures c < |ConnApply(s, a).conns| && Unsent(ConnApply(s, a).conns[c].out) == Unsent(s.conns[c].out)
  {
    hide Verdict, Peek, SerializeResponse, HardCap, Send, Account, Stage;
  }

  lemma FlushTopMoves(s: State, c: nat, a: ControlAct)
    requires s.loop.FlushTop? && s.loop.c == c && c < |s.conns| && ControlEnabled(s, a)
    ensures ControlNext(s, a) == (if Unsent(s.conns[c].out) > 0 then FlushSend(c, s.loop.next)
                                  else AfterFlush(c, s.loop.next))
  {
    hide Verdict, CoversOpen;
  }

  /** An event's input is read only after what it reports writable has been flushed: a step brings the loop to its
      read if and only if it is an event without EPOLLOUT, or the end of the flush before a read, with nothing left to
      send or the socket blocked. */
  lemma WaysToReading(s: State, st: Step)
    requires Enabled(s, st) && !s.loop.ReadPoint?
    ensures Apply(s, st).loop.ReadPoint? <==>
      && st.Control?
      && (|| (st.control.ConnEvent? && !st.control.writable)
          || (st.control.FlushDone? && s.loop.next.ThenRead?)
          || (st.control.SendBlocked? && s.loop.next.ThenRead?))
    ensures Apply(s, st).loop.ReadPoint? && st.control.FlushDone? ==> Unsent(s.conns[s.loop.c].out) == 0
  {
    if st.OnConn? {
      ConnNeverToReading(s, st.conn);
      hide ConnApply, ConnEnabled;
    } else if st.Work? {
      hide SerializeResponse, TheAnswer, WorkerNext, WorkerConnAfter;
    } else {
      hide Verdict, CoversOpen;
    }
  }

  lemma ConnNeverToReading(s: State, a: ConnAct)
    requires ConnEnabled(s, a)
    ensures !ConnApply(s, a).loop.ReadPoint?
  {
    hide Verdict, Peek, SerializeResponse, ConnAfter, ConnFrames, ConnJobs, HardCap;
  }

  // ----- The end of a drain -----

  /** drain_complete finds out: from the dispatch of a draining server with an empty queue and nothing in flight or
      unsent on any open connection, the loop's own steps end the server. */
  lemma DrainCanFinish(s: State, all: seq<nat>)
    requires AtDispatch(s) && s.running && s.draining && s.queue == [] && CoversOpen(s, all)
    requires forall c :: 0 <= c < |s.conns| && !s.conns[c].closed ==> Settled(s, c)
    ensures Leads(s, s.(running := false))
  {
    hide Leads, CoversOpen;
    LeadsSelf(s);
    LeadsStep(s, s, Control(StartDrainCheck(all)));
    assert forall i :: 0 <= i < |all| ==> all[i] < |s.conns| && Settled(s, all[i]) by { ListedAreOpen(s, all); }
    DrainPasses(s, s, all);
    LeadsStep(s, s.(loop := DrainInflight([])), Lists(FinishDrain));
    assert s.(loop := DrainInflight([])).(loop := Next, running := false) == s.(running := false);
  }

  lemma ListedAreOpen(s: State, all: seq<nat>)
    requires CoversOpen(s, all)
    ensures forall i :: 0 <= i < |all| ==> IsOpen(s, all[i])
  {
  }

  lemma {:induction false} DrainPasses(start: State, s: State, rest: seq<nat>)
    requires Leads(start, s.(loop := DrainInflight(rest)))
    requires forall i :: 0 <= i < |rest| ==> rest[i] < |s.conns| && Settled(s, rest[i])
    ensures Leads(start, s.(loop := DrainInflight([])))
    decreases |rest|
  {
    hide Leads, CoversOpen;
    if rest != [] {
      LeadsStep(start, s.(loop := DrainInflight(rest)), Control(DrainReadInflight));
      LeadsStep(start, s.(loop := DrainPending(rest)), Control(DrainReadPending));
      DrainPasses(start, s, rest[1..]);
    }
  }

  // ----- A configured server -----

  /** Every bound of a validated configuration holds in every reachable state. */
  lemma ConfiguredBoundsHold(config: Config.ServerConfig, threads: nat, s: State, c: nat)
    requires Config.Validate(config).None? && Reachable(ParamsOf(config), threads, s)
    ensures |s.queue| <= config.maxPendingRequests
    ensures |s.cache| <= config.maxEntries && L.TotalCost(s.cache) <= config.maxCacheBytes
    ensures forall e :: e in s.cache ==> |e.value| <= config.maxValueBytes
    ensures c < |s.conns| ==> 0 <= s.conns[c].inflight <= config.maxInflightPerConn
    ensures AtDispatch(s) && IsOpen(s, c) && !Dirty(s, c) && !s.draining && !s.conns[c].closeAfterFlush ==>
      (s.conns[c].interest.read <==>
         Unsent(s.conns[c].out) <= config.maxConnOutputBytes && s.conns[c].inflight < config.maxInflightPerConn)
  {
    var p := ParamsOf(config);
    QueueIsBounded(p, threads, s);
    CacheIsBounded(p, threads, s);
    if c < |s.conns| { InFlightIsExact(p, threads, s, c); }
    if AtDispatch(s) && IsOpen(s, c) && !Dirty(s, c) { InterestIsExact(p, threads, s, c); }
    hide Reachable, InFlightWhere, Dirty, L.TotalCost, Config.Validate;
  }

  lemma CacheIsBounded(p: Params, threads: nat, s: State)
    requires Reachable(p, threads, s)
    ensures L.WellFormed(s.cache, p.cache)
  {
    ReachableLog(p, threads, s);
    ReplayIsExec(s.log, p.cache);
    H.RecencyRefinesHistory(OpsOf(s.log), p.cache);
    hide Reachable, Replay, H.Exec, L.WellFormed;
  }
}
