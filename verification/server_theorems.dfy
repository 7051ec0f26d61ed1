/** What holds in every reachable state of the server, for every number of workers and connections, every request
    mix, every socket behaviour and every interleaving. */
module ServerTheorems {
  import opened Protocol
  import opened Codec
  import opened Stream
  import opened Input
  import opened Output
  import opened ServerModel
  import opened ServerCounts
  import opened ServerKnown
  import opened ServerConservation
  import opened ServerInterest
  import opened ServerOutput
  import opened ServerLinear
  import opened ServerDrain
  import opened ServerInput
  import opened ServerBacklog
  import opened ServerMarks
  import opened ServerQueue
  import opened ServerReachable
  import Config

  // ----- Wake-ups -----

  ghost predicate SomeWorkerIs(s: State, sel: Sel) { exists w :: 0 <= w < |s.workers| && Picks(sel, s.workers[w]) }

  lemma FindWorker(s: State, sel: Sel)
    ensures CountWorkers(s.workers, sel) > 0 <==> SomeWorkerIs(s, sel)
  {
    if CountWorkers(s.workers, sel) > 0 { var w := SomeWorker(s.workers, sel); }
    if SomeWorkerIs(s, sel) {
      var w :| 0 <= w < |s.workers| && Picks(sel, s.workers[w]);
      WorkerCounted(s.workers, w, sel);
    }
  }

  /** Registered as the counts call for: for reading exactly when the server is not draining, no more than the limit
      is unsent, fewer than the limit are in flight and the connection is not marked for closing; for writing exactly
      when something is unsent. */
  predicate AsCounted(p: Params, s: State, c: nat)
    requires c < |s.conns|
  {
    var k := s.conns[c];
    && (k.interest.read <==>
          !s.draining && Unsent(k.out) <= p.maxOutput && k.inflight < p.maxInflight && !k.closeAfterFlush)
    && (k.interest.write <==> Unsent(k.out) > 0)
  }

  /** ... which every open connection is that nobody has touched since. */
  lemma InterestIsExact(p: Params, threads: nat, s: State, c: nat)
    requires Reachable(p, threads, s) && AtDispatch(s) && IsOpen(s, c) && !Dirty(s, c)
    ensures AsCounted(p, s, c)
  {
    ReachableInterest(p, threads, s, c);
    BacklogIsExact(p, threads, s, c);
    ReachableParams(p, threads, s);
    hide Reachable, CountWorkers;
  }

  lemma ReachableParams(p: Params, threads: nat, s: State)
    requires Reachable(p, threads, s)
    ensures s.p == p && ValidParams(p)
  {
    ReachableInv(p, threads, s);
  }

  /** No connection is ever parked: whenever the loop is in epoll_wait, an open connection is registered for
      exactly what its counters call for, or a worker that touched it has yet to try its notify bit, or is about
      to queue it, or it is queued and the eventfd is set or about to be. */
  lemma NoConnectionIsParked(p: Params, threads: nat, s: State, c: nat)
    requires Reachable(p, threads, s) && AtDispatch(s) && IsOpen(s, c)
    ensures
      || AsCounted(p, s, c)
      || SomeWorkerIs(s, Touched(c))
      || SomeWorkerIs(s, Token(c))
      || (c in s.ready && (s.eventfd > 0 || SomeWorkerIs(s, Signalling)))
  {
    ReachableConn(p, threads, s, c);
    if !Dirty(s, c) { InterestIsExact(p, threads, s, c); }
    hide Reachable, Known, ResponsesFit, LogOk, OutcomesLogged, StampsOk, OutputExact, CountWorkers, AsCounted, QueueOk,
         NoLostWakeup, MarksOk, CapNoticed;
    FindWorker(s, Touched(c));
    FindWorker(s, Token(c));
    FindWorker(s, Signalling);
    if CountOf(s.ready, c) > 0 { SomeId(s.ready, c); }
  }

  /** ... so once the workers are idle and the eventfd is clear, every open connection is registered exactly, with
      write interest if and only if it has unsent output, and none is waiting to be closed. */
  lemma QuietMeansExact(p: Params, threads: nat, s: State, c: nat)
    requires Reachable(p, threads, s) && AtDispatch(s) && IsOpen(s, c)
    requires s.eventfd == 0 && forall w :: 0 <= w < |s.workers| ==> s.workers[w].Idle?
    ensures AsCounted(p, s, c)
    ensures s.conns[c].closeAfterFlush ==> s.conns[c].interest.write
    ensures s.ready == []
  {
    ReachableConn(p, threads, s, c);
    QuietIsClean(p, threads, s, c);
    InterestIsExact(p, threads, s, c);
    IdleCountsNothing(s.workers, Touched(c));
    IdleCountsNothing(s.workers, Token(c));
    IdleCountsNothing(s.workers, Signalling);
    hide Reachable, Known, ResponsesFit, LogOk, OutcomesLogged, StampsOk, InFlightExact, CountWorkers, CountOf, Total,
         DrainReadsHold, RequestsFit, QueueOk, MarksOk, CapNoticed, InputExact, RefusalsExact;
    if s.ready != [] { assert false; }
  }

  /** With idle workers and a clear eventfd nobody has touched anything. */
  lemma QuietIsClean(p: Params, threads: nat, s: State, c: nat)
    requires Reachable(p, threads, s) && AtDispatch(s) && c < |s.conns|
    requires s.eventfd == 0 && forall w :: 0 <= w < |s.workers| ==> s.workers[w].Idle?
    ensures !Dirty(s, c)
  {
    ReadyListIsBounded(p, threads, s);
    IdleCountsNothing(s.workers, Touched(c));
    IdleCountsNothing(s.workers, Token(c));
    FindWorker(s, Signalling);
    IdleCountsNothing(s.workers, Signalling);
    hide Reachable, CountWorkers;
    assert TokensWhere(s, c) == One(s.conns[c].notified);
  }

  lemma IdleCountsNothing(ws: seq<Worker>, sel: Sel)
    requires forall w :: 0 <= w < |ws| ==> ws[w].Idle?
    ensures CountWorkers(ws, sel) == 0
  {
    NoWorker(ws, sel);
  }

  /** The notify bit is one token, wherever it is; so no connection is queued twice, the open connections in the
      ready list are no more than there are open connections, and what else is in it are closed ones, no more
      than have been closed. */
  lemma ReadyListIsBounded(p: Params, threads: nat, s: State)
    requires Reachable(p, threads, s)
    ensures forall c: nat :: c < |s.conns| ==> TokensWhere(s, c) == One(s.conns[c].notified)
    ensures forall c: nat :: CountOf(s.ready, c) <= 1
    ensures |WhichAre(s.ready, s.conns, false)| <= HowMany(s.conns, false)
    ensures |WhichAre(s.ready, s.conns, true)| <= HowMany(s.conns, true)
    ensures |s.ready| == |WhichAre(s.ready, s.conns, false)| + |WhichAre(s.ready, s.conns, true)|
    ensures s.ready != [] ==> s.eventfd > 0 || SomeWorkerIs(s, Signalling) || s.loop.EventfdRead?
  {
    ReachableInv(p, threads, s);
    FindWorker(s, Signalling);
    forall c: nat ensures CountOf(s.ready, c) <= 1 {
      assert ConnInv(s, c);
      if c >= |s.conns| { NoId(s.ready, c); }
    }
    forall c: nat | c < |s.conns| ensures TokensWhere(s, c) == One(s.conns[c].notified) { assert ConnInv(s, c); }
    hide Reachable, GlobalInv, ConnInv, TicketInv, CountOf;
    EachOnce(s.ready, s.conns, false);
    EachOnce(s.ready, s.conns, true);
    OpenOrClosed(s.ready, s.conns);
  }

  /** The ids, of those given, of connections whose closed flag is `closed`. */
  function WhichAre(ids: seq<nat>, cs: seq<Conn>, closed: bool): seq<nat> {
    if ids == [] then []
    else
      var last := ids[|ids| - 1];
      WhichAre(ids[..|ids| - 1], cs, closed) + (if last < |cs| && cs[last].closed == closed then [last] else [])
  }

  function HowMany(cs: seq<Conn>, closed: bool): nat {
    if cs == [] then 0 else HowMany(cs[..|cs| - 1], closed) + One(cs[|cs| - 1].closed == closed)
  }

  lemma {:induction false} CountWhich(ids: seq<nat>, cs: seq<Conn>, closed: bool, c: nat)
    ensures CountOf(WhichAre(ids, cs, closed), c)
         == if c < |cs| && cs[c].closed == closed then CountOf(ids, c) else 0
  {
    if ids != [] {
      var front, last := ids[..|ids| - 1], ids[|ids| - 1];
      CountWhich(front, cs, closed, c);
      var before := WhichAre(front, cs, closed);
      assert front + [last] == ids;
      AppendId(front, last, c);
      AppendId(before, last, c);
      hide CountOf;
      assert before + [] == before;
    }
  }

  lemma {:induction false} WhichExist(ids: seq<nat>, cs: seq<Conn>, closed: bool)
    ensures forall i :: 0 <= i < |WhichAre(ids, cs, closed)| ==> WhichAre(ids, cs, closed)[i] < |cs|
  {
    if ids != [] { WhichExist(ids[..|ids| - 1], cs, closed); }
  }

  lemma {:induction false} OpenOrClosed(ids: seq<nat>, cs: seq<Conn>)
    requires forall i :: 0 <= i < |ids| ==> ids[i] < |cs|
    ensures |ids| == |WhichAre(ids, cs, false)| + |WhichAre(ids, cs, true)|
  {
    if ids != [] { OpenOrClosed(ids[..|ids| - 1], cs); }
  }

  /** Ids that occur at most once are no more than the connections they can be of. */
  lemma EachOnce(ids: seq<nat>, cs: seq<Conn>, closed: bool)
    requires forall c: nat :: CountOf(ids, c) <= 1
    ensures |WhichAre(ids, cs, closed)| <= HowMany(cs, closed)
  {
    var which := WhichAre(ids, cs, closed);
    forall c: nat ensures CountOf(which, c) <= if c < |cs| && cs[c].closed == closed then 1 else 0 {
      CountWhich(ids, cs, closed, c);
    }
    WhichExist(ids, cs, closed);
    SumIsLength(which, |cs|);
    SumUpTo(which, cs, closed, |cs|);
    assert cs[..|cs|] == cs;
  }

  lemma {:induction false} SumUpTo(which: seq<nat>, cs: seq<Conn>, closed: bool, n: nat)
    requires n <= |cs|
    requires forall c: nat :: CountOf(which, c) <= if c < |cs| && cs[c].closed == closed then 1 else 0
    ensures SumBelow(which, n) <= HowMany(cs[..n], closed)
  {
    if n > 0 {
      SumUpTo(which, cs, closed, n - 1);
      assert cs[..n][..n - 1] == cs[..n - 1];
    }
  }

  // ----- No interest at all -----

  /** update_interest's own comment, made exact: an undisturbed open connection is registered for nothing exactly
      when it has no unsent output and either its in-flight limit is reached or the server is draining. */
  lemma NoInterestExactly(p: Params, threads: nat, s: State, c: nat)
    requires Reachable(p, threads, s) && AtDispatch(s) && IsOpen(s, c) && !Dirty(s, c)
    ensures s.conns[c].interest == Interest(false, false) <==>
      !HasOutput(s.conns[c]) && (s.draining || s.conns[c].inflight >= p.maxInflight)
    ensures s.conns[c].interest == Interest(false, false) && !s.draining && s.running ==>
      CountJobs(s.queue, Owes(c)) + CountWorkers(s.workers, Owes(c)) > 0
  {
    ReachableConn(p, threads, s, c);
    hide Reachable, Known, ResponsesFit, LogOk, OutcomesLogged, StampsOk, OutputExact, OneToken, CountWorkers;
    if s.running { NoJob(s.discarded, Owes(c)); }
  }

  // ----- Over the cap -----

  /** An open connection over its hard cap is marked for closing, or a worker is about to mark it, or the loop is
      about to close it. */
  lemma OverCapIsNoticed(p: Params, threads: nat, s: State, c: nat)
    requires Reachable(p, threads, s) && IsOpen(s, c) && s.conns[c].out.pending > HardCap(p.maxOutput)
    ensures s.conns[c].closeAfterFlush || SomeWorkerIs(s, Marking(c)) || LoopCloses(s.loop, c)
  {
    ReachableConn(p, threads, s, c);
    hide Reachable, GlobalInv, CountWorkers, HardCap, MarksOk, InputExact, RefusalsExact;
    FindWorker(s, Marking(c));
  }

  /** Conversely, the loop closes a connection for its backlog only while that exceeds the cap. */
  lemma ClosedForBacklogOnlyOverCap(p: Params, threads: nat, s: State, c: nat)
    requires Reachable(p, threads, s) && c < |s.conns| && LoopCloses(s.loop, c) && s.loop != Closing(c)
    ensures s.conns[c].out.pending > HardCap(p.maxOutput)
  {
    ReachableConn(p, threads, s, c);
    hide Reachable, GlobalInv, CountWorkers, HardCap, MarksOk, InputExact, RefusalsExact;
  }

  /** So whenever the loop is in epoll_wait and nothing is on its way, such a connection is marked for closing and
      registered for writing only. */
  lemma OverCapAtDispatch(p: Params, threads: nat, s: State, c: nat)
    requires Reachable(p, threads, s) && AtDispatch(s) && IsOpen(s, c) && !Dirty(s, c)
    requires s.conns[c].out.pending > HardCap(p.maxOutput)
    ensures s.conns[c].closeAfterFlush && s.conns[c].interest == Interest(false, true)
  {
    OverCapIsNoticed(p, threads, s, c);
    ReachableInterest(p, threads, s, c);
    hide Reachable, CountWorkers, CapNoticed;
    if SomeWorkerIs(s, Marking(c)) {
      var w :| 0 <= w < |s.workers| && Picks(Marking(c), s.workers[w]);
      WorkerCounted(s.workers, w, Touched(c));
    }
  }

  /** ... so epoll then reports no readable input on it: what is still read from it is read because its peer has
      shut down its sending side. */
  lemma OverCapReadsOnlyAfterPeerClosed(p: Params, threads: nat, s: State, c: nat, ev: ControlAct)
    requires Reachable(p, threads, s) && AtDispatch(s) && s.running
    requires IsOpen(s, c) && s.conns[c].out.pending > HardCap(p.maxOutput) && !Dirty(s, c)
    requires ev.ConnEvent? && ev.conn == c && ControlEnabled(ListApply(s, Wait), ev)
    ensures !ev.readable
    ensures var l := ControlNext(ListApply(s, Wait), ev);
      (l == ReadPoint(c, true) || l == FlushTop(c, ThenRead(true))) <==> ev.peerClosed
  {
    OverCapAtDispatch(p, threads, s, c);
    hide Reachable, HardCap, Dirty;
  }

  lemma ReachableOutput(p: Params, threads: nat, s: State, c: nat)
    requires Reachable(p, threads, s)
    ensures OutputExact(s, c)
  {
    ReachableConn(p, threads, s, c);
    hide Reachable, GlobalInv, OutputExact;
  }

  lemma ReachableInterest(p: Params, threads: nat, s: State, c: nat)
    requires Reachable(p, threads, s)
    ensures NoLostWakeup(s, c)
  {
    ReachableConn(p, threads, s, c);
    hide Reachable, GlobalInv, NoLostWakeup;
  }

  /** After a flush, a connection marked for closing is closed exactly when nothing of its output is unsent. */
  lemma ClosedExactlyWhenFlushed(p: Params, threads: nat, s: State, c: nat)
    requires Reachable(p, threads, s) && s.loop == CheckPending(c) && c < |s.conns|
    ensures ControlNext(s, ReadPending) == Closing(c) <==> Unsent(s.conns[c].out) == 0
    ensures ControlNext(s, ReadPending) == Update1(c) <==> Unsent(s.conns[c].out) > 0
  {
    BacklogIsExact(p, threads, s, c);
    hide Reachable;
  }

  lemma BacklogIsExact(p: Params, threads: nat, s: State, c: nat)
    requires Reachable(p, threads, s) && c < |s.conns| && !s.loop.FlushAccount?
    ensures s.conns[c].out.pending == Unsent(s.conns[c].out)
  {
    ReachableConn(p, threads, s, c);
    hide Reachable, GlobalInv, InFlightExact, OneToken, NoLostWakeup, WithinCap, DrainReadsHold, InputExact,
         RefusalsExact, CapNoticed, SerializeResponses, FramesOf, Total;
  }

  // ----- What clients send -----

  /** Whatever the chunks, the pauses and the interleaving: the requests submitted on a connection are what parsing
      the bytes received from it in one go yields first, and all of it whenever the loop has no whole frame left. */
  lemma SubmissionsAreTheStream(p: Params, threads: nat, s: State, c: nat)
    requires Reachable(p, threads, s) && c < |s.conns|
    ensures var whole := ParseRequests(s.conns[c].input.received, p.wire); var sent := RequestsOf(s.submitted, c);
      && sent <= whole.frames
      && (Verdict(s, c).NeedMore? ==> whole.frames == sent && whole.error == None)
      && (Verdict(s, c).Malformed? ==> whole.frames == sent && whole.error == Some(Verdict(s, c).error))
  {
    ReachableConn(p, threads, s, c);
    hide Reachable, GlobalInv, InFlightExact, OneToken, NoLostWakeup, OutputExact, RefusalsExact, CapNoticed,
         ParseRequest, ParseRequests;
    ExtractedIsTheStream(s.conns[c].input, p.wire);
  }

  /** A reply that answers no request is the refusal of the frame that makes the stream malformed, and everything
      before that frame was submitted. */
  lemma RefusalsEndTheStream(p: Params, threads: nat, s: State, i: nat)
    requires Reachable(p, threads, s) && i < |s.history| && s.history[i].ticket.None?
    ensures var c := s.history[i].conn;
      && c < |s.conns| && IsRefusal(s, c, s.history[i].response)
      && ParseRequests(s.conns[c].input.received, p.wire).frames == RequestsOf(s.submitted, c)
      && ParseRequests(s.conns[c].input.received, p.wire).error == Some(Verdict(s, c).error)
  {
    ReachableKnown(p, threads, s);
    assert FrameOk(s, s.history[i]);
    var c := s.history[i].conn;
    SubmissionsAreTheStream(p, threads, s, c);
    ReachableConn(p, threads, s, c);
    hide Reachable, GlobalInv, InFlightExact, OneToken, NoLostWakeup, OutputExact, InputExact, CapNoticed,
         ParseRequest, ParseRequests, Known;
  }

  /** ... and nothing after it ever is: no run from there submits another request of that connection. */
  lemma {:induction false} NothingAfterRefusal(p: Params, threads: nat, s: State, i: nat, steps: seq<Step>)
    requires Reachable(p, threads, s) && i < |s.history| && s.history[i].ticket.None? && IsRun(s, steps)
    ensures i < |After(s, steps).history| && After(s, steps).history[i] == s.history[i]
    ensures RequestsOf(After(s, steps).submitted, s.history[i].conn) == RequestsOf(s.submitted, s.history[i].conn)
  {
    hide Reachable, Enabled, Apply, RequestsOf;
    if steps != [] {
      var before, st := steps[..|steps| - 1], steps[|steps| - 1];
      NothingAfterRefusal(p, threads, s, i, before);
      ReachableRun(p, threads, s, before);
      RefusedTakesNothing(p, threads, After(s, before), i, st);
    }
  }

  lemma RefusedTakesNothing(p: Params, threads: nat, s: State, i: nat, st: Step)
    requires Reachable(p, threads, s) && i < |s.history| && s.history[i].ticket.None? && Enabled(s, st)
    ensures i < |Apply(s, st).history| && Apply(s, st).history[i] == s.history[i]
    ensures RequestsOf(Apply(s, st).submitted, s.history[i].conn) == RequestsOf(s.submitted, s.history[i].conn)
  {
    RefusalsEndTheStream(p, threads, s, i);
    hide Reachable, RequestsOf, ParseRequests, ParseRequest;
    StepAfterRefusal(s, s.history[i].conn, st);
  }

  lemma WorkLeavesRequests(s: State, w: nat, a: WorkerAct)
    requires WorkerEnabled(s, w, a)
    ensures WorkerApply(s, w, a).submitted == s.submitted && s.history <= WorkerApply(s, w, a).history
  {
    hide SerializeResponse, TheAnswer, WorkerNext, WorkerConnAfter;
  }

  lemma ConnAfterRefusal(s: State, a: ConnAct, c: nat)
    requires c < |s.conns| && Verdict(s, c).Malformed? && ConnEnabled(s, a)
    ensures RequestsOf(ConnApply(s, a).submitted, c) == RequestsOf(s.submitted, c)
    ensures s.history <= ConnApply(s, a).history
  {
    hide ConnAfter, ConnNext, ConnJobs, Peek, ParseRequest, RequestsOf, SerializeResponse;
    ConnInputs(s, a, c);
    assert RequestsOf(s.submitted, c) + [] == RequestsOf(s.submitted, c);
  }

  lemma StepAfterRefusal(s: State, c: nat, st: Step)
    requires c < |s.conns| && Verdict(s, c).Malformed? && Enabled(s, st)
    ensures RequestsOf(Apply(s, st).submitted, c) == RequestsOf(s.submitted, c) && s.history <= Apply(s, st).history
  {
    hide WorkerApply, ConnApply, RequestsOf;
    match st
    case Work(w, a) => WorkLeavesRequests(s, w, a);
    case OnConn(a) => ConnAfterRefusal(s, a, c);
    case _ => QuietSteps(s, st);
  }

  // ----- Requests and responses -----

  /** A connection's in-flight number is exact, never negative and never above its limit. */
  lemma InFlightIsExact(p: Params, threads: nat, s: State, c: nat)
    requires Reachable(p, threads, s) && c < |s.conns|
    ensures s.conns[c].inflight == InFlightWhere(s, c)
    ensures 0 <= s.conns[c].inflight <= p.maxInflight
    ensures s.running ==>
      s.conns[c].inflight ==
        CountJobs(s.queue, Owes(c)) + CountWorkers(s.workers, Owes(c)) + One(PicksLoop(Owes(c), s.loop))
  {
    ReachableConn(p, threads, s, c);
    hide Reachable, Known, ResponsesFit, LogOk, OutcomesLogged, StampsOk, OutputExact, OneToken, NoLostWakeup;
    if s.running { NoJob(s.discarded, Owes(c)); }
  }

  /** Every response staged for a request answers it on its own connection with its own id and opcode, and no
      request is answered twice. */
  lemma AtMostOneResponse(p: Params, threads: nat, s: State, i: nat, t: nat)
    requires Reachable(p, threads, s) && i < |s.history| && s.history[i].ticket == Some(t)
    ensures t < |s.submitted| && s.history[i].conn == s.submitted[t].conn
    ensures ResponseFor(s.history[i].response, s.submitted[t].request)
    ensures forall j :: 0 <= j < |s.history| && s.history[j].ticket == Some(t) ==> j == i
  {
    ReachableTicket(p, threads, s, t);
    assert FrameOk(s, s.history[i]);
    hide Reachable, Known, ResponsesFit, LogOk, OutcomesLogged, StampsOk, RunsOnce;
    forall j | 0 <= j < |s.history| && s.history[j].ticket == Some(t) ensures j == i {
      if j < i { TwoFramesCounted(s.history, j, i, t); }
      if i < j { TwoFramesCounted(s.history, i, j, t); }
    }
  }

  // ----- What clients receive -----

  /** The bytes sent on a connection are a prefix of its whole staged frames, and a client parsing them never sees
      a malformed frame. */
  lemma ClientsSeeWholeFrames(p: Params, threads: nat, s: State, c: nat)
    requires Reachable(p, threads, s) && c < |s.conns|
    ensures var frames := FramesOf(s.history, c); var o := s.conns[c].out;
      && o.sent + o.unwritten + o.staged == SerializeResponses(frames)
      && ParseResponses(o.sent, DEFAULT_LIMITS).error == None
      && ParseResponses(o.sent, DEFAULT_LIMITS).frames <= frames
      && (Unsent(o) == 0 ==> ParseResponses(o.sent, DEFAULT_LIMITS) == Whole(frames, [], None))
  {
    ReachableConn(p, threads, s, c);
    var frames := FramesOf(s.history, c);
    var sent := s.conns[c].out.sent;
    FramesFit(s.history, c);
    SentIsPrefix(s.conns[c].out);
    hide Reachable, GlobalInv, SerializeResponses, ParseResponses, FramesOf, ResponseOk;
    SentPrefixReadable(frames, |sent|, DEFAULT_LIMITS);
  }

  lemma SentIsPrefix(o: OutBuf)
    ensures |o.sent| <= |Total(o)| && Total(o)[..|o.sent|] == o.sent
    ensures Unsent(o) == 0 ==> |o.sent| == |Total(o)|
  {
  }

  // ----- Shutdown -----

  /** When drain_complete is about to return true, the queue is empty, every request ever submitted on a connection
      that is still open has been answered, and every byte of every answer has been handed to send. */
  lemma DrainIsExact(p: Params, threads: nat, s: State, c: nat)
    requires Reachable(p, threads, s) && s.loop == DrainInflight([]) && IsOpen(s, c)
    ensures s.conns[c].out.sent == SerializeResponses(FramesOf(s.history, c)) && s.queue == []
    ensures forall t :: 0 <= t < |s.submitted| && s.submitted[t].conn == c ==> exists i :: Answers(s, i, t)
  {
    ReachableDrain(p, threads, s);
    DrainedAllSent(p, threads, s, c);
    hide Reachable, SerializeResponses, FramesOf;
    forall t | 0 <= t < |s.submitted| && s.submitted[t].conn == c ensures exists i :: Answers(s, i, t) {
      DrainedHasAnswer(p, threads, s, c, t);
    }
  }

  lemma DrainedAllSent(p: Params, threads: nat, s: State, c: nat)
    requires Reachable(p, threads, s) && s.loop == DrainInflight([]) && IsOpen(s, c)
    ensures s.conns[c].inflight == 0 && s.conns[c].out.sent == SerializeResponses(FramesOf(s.history, c))
  {
    ReachableConn(p, threads, s, c);
    hide Reachable, GlobalInv;
    DrainedIsSent(s, c) by { hide ConnInv; }
  }

  lemma DrainedHasAnswer(p: Params, threads: nat, s: State, c: nat, t: nat)
    requires Reachable(p, threads, s) && s.loop == DrainInflight([]) && IsOpen(s, c)
    requires t < |s.submitted| && s.submitted[t].conn == c
    ensures exists i :: Answers(s, i, t)
  {
    DrainedAllSent(p, threads, s, c);
    ReachableConn(p, threads, s, c);
    ReachableTicket(p, threads, s, t);
    hide Reachable, OutputExact, OneToken, NoLostWakeup, InputExact, RefusalsExact, CapNoticed,
         SerializeResponses, FramesOf;
    DrainedIsAnswered(s, c, t);
  }

  /** Shutdown drains only what was submitted before it: from a draining state no run submits anything. */
  lemma {:induction false} ShutdownTakesNothing(p: Params, threads: nat, s: State, steps: seq<Step>)
    requires Reachable(p, threads, s) && s.draining && IsRun(s, steps)
    ensures After(s, steps).draining && After(s, steps).submitted == s.submitted
  {
    hide Reachable, Enabled, Apply;
    if steps != [] {
      var before := steps[..|steps| - 1];
      ShutdownTakesNothing(p, threads, s, before);
      ReachableRun(p, threads, s, before);
      ReachableDrain(p, threads, After(s, before));
      DrainingSubmitsNothing(After(s, before), steps[|steps| - 1]);
    }
  }

  lemma ReachableDrain(p: Params, threads: nat, s: State)
    requires Reachable(p, threads, s)
    ensures DrainTakesNothing(s)
  {
    ReachableInv(p, threads, s);
    hide Reachable, ConnInv, TicketInv, Known, DrainTakesNothing;
  }

  /** Frame `i` is the answer to ticket `t`. */
  predicate Answers(s: State, i: nat, t: nat) {
    && i < |s.history| && t < |s.submitted| && s.history[i].ticket == Some(t)
    && s.history[i].conn == s.submitted[t].conn && ResponseFor(s.history[i].response, s.submitted[t].request)
  }

  lemma DrainedIsSent(s: State, c: nat)
    requires s.loop == DrainInflight([]) && IsOpen(s, c) && ConnInv(s, c)
    ensures s.conns[c].inflight == 0
    ensures s.conns[c].out.sent == SerializeResponses(FramesOf(s.history, c))
  {
    hide InFlightExact, OneToken, NoLostWakeup, SerializeResponses, FramesOf;
    var o := s.conns[c].out;
    assert o.unwritten == [] && o.staged == [];
    assert o.sent + [] + [] == o.sent;
  }

  lemma DrainedIsAnswered(s: State, c: nat, t: nat)
    requires IsOpen(s, c) && s.conns[c].inflight == 0 && InFlightExact(s, c) && Known(s) && TicketInOnePlace(s, t)
    requires t < |s.submitted| && s.submitted[t].conn == c && !PicksLoop(Holds(t), s.loop)
    ensures exists i :: Answers(s, i, t)
  {
    NotWaiting(s, c, t);
    NotDropped(s, c, t);
    var i := SomeFrame(s.history, t);
    assert FrameOk(s, s.history[i]);
    assert Answers(s, i, t);
  }

  lemma NotWaiting(s: State, c: nat, t: nat)
    requires c < |s.conns| && s.conns[c].inflight == 0 && InFlightExact(s, c) && Known(s)
    requires t < |s.submitted| && s.submitted[t].conn == c
    ensures CountJobs(s.queue, Holds(t)) == 0 && CountJobs(s.discarded, Holds(t)) == 0
    ensures CountWorkers(s.workers, Holds(t)) == 0
  {
    if CountJobs(s.queue, Holds(t)) > 0 { var i := SomeJob(s.queue, Holds(t)); JobCounted(s.queue, i, Owes(c)); }
    if CountJobs(s.discarded, Holds(t)) > 0 {
      var i := SomeJob(s.discarded, Holds(t));
      JobCounted(s.discarded, i, Owes(c));
    }
    if CountWorkers(s.workers, Holds(t)) > 0 {
      var w := SomeWorker(s.workers, Holds(t));
      assert WorkerOk(s, s.workers[w]);
      WorkerCounted(s.workers, w, Owes(c));
    }
  }

  lemma NotDropped(s: State, c: nat, t: nat)
    requires Known(s) && IsOpen(s, c) && t < |s.submitted| && s.submitted[t].conn == c
    ensures CountOf(s.dropped, t) == 0
  {
    forall i | 0 <= i < |s.dropped| ensures s.dropped[i] != t { assert DropOk(s, s.dropped[i]); }
    NoId(s.dropped, t);
  }

  // ----- Linearizability -----

  /** The outcomes clients are given are those of one sequential cache, run in the order the lock was taken: each
      answered request ran exactly once in that order, after it was submitted and before its answer was staged; or it
      was answered SERVER_BUSY and never ran, because it was refused by a queue as long as it may be. */
  lemma OutcomesAreSequential(p: Params, threads: nat, s: State, i: nat, t: nat)
    requires Reachable(p, threads, s) && i < |s.history| && s.history[i].ticket == Some(t)
    ensures Sequential(s.log, p.cache) && s.cache == Replay(s.log, p.cache)
    ensures t < |s.submitted|
    ensures var r := s.submitted[t].request;
      if s.history[i].response.status == ServerBusy then
        && s.history[i].response == Response(r.opcode, ServerBusy, r.id, []) && s.history[i].queued == p.maxPending
        && (forall k :: 0 <= k < |s.log| ==> s.log[k].ticket != t)
      else exists k :: RanAt(s, k, i, t)
    ensures forall k, k' :: 0 <= k < |s.log| && 0 <= k' < |s.log| && s.log[k].ticket == s.log[k'].ticket ==> k == k'
  {
    AtMostOneResponse(p, threads, s, i, t);
    ReachableLog(p, threads, s);
    ReachableStamps(p, threads, s);
    ReachableLogged(p, threads, s, i);
    AnsweredBusyOrNot(p, threads, s, i);
    forall k, k' | 0 <= k < |s.log| && 0 <= k' < |s.log| && s.log[k].ticket == s.log[k'].ticket ensures k == k' {
      LoggedOnce(p, threads, s, k, k');
    }
    hide Reachable, Replay, Sequential, CountLog;
    if Ran(s.log, s.history[i].log, t, s.history[i].response) {
      var k :| 0 <= k < s.history[i].log && k < |s.log| && s.log[k].ticket == t
        && s.log[k].response == s.history[i].response;
      assert RanAt(s, k, i, t);
    } else {
      forall k | 0 <= k < |s.log| ensures s.log[k].ticket != t { if s.log[k].ticket == t { LogCounted(s.log, k, t); } }
    }
  }

  /** A full queue is the only reason for SERVER_BUSY, and no executed request is answered so. */
  lemma AnsweredBusyOrNot(p: Params, threads: nat, s: State, i: nat)
    requires Reachable(p, threads, s) && i < |s.history|
    ensures s.history[i].response.status == ServerBusy ==> s.history[i].queued == p.maxPending
    ensures forall k :: 0 <= k < |s.log| ==> s.log[k].response.status != ServerBusy
  {
    ReachableConn(p, threads, s, 0);
    hide Reachable, ConnInv, Known, ResponsesFit, OutcomesLogged, StampsOk, Replay, Answer;
    assert BusyOk(s.history[i], p.maxPending);
    forall k | 0 <= k < |s.log| ensures s.log[k].response.status != ServerBusy {
      AnswerIsNotBusy(Replay(s.log[..k], p.cache), s.log[k].request, s.log[k].stats, p.cache);
    }
  }

  /** Operation `k` of the lock order is the one frame `i` reports for ticket `t`. */
  predicate RanAt(s: State, k: nat, i: nat, t: nat) {
    && k < |s.log| && i < |s.history| && t < |s.submitted|
    && s.log[k].ticket == t && s.log[k].request == s.submitted[t].request
    && s.log[k].response == s.history[i].response
    && s.submitted[t].log <= k < s.history[i].log
  }

  lemma LoggedOnce(p: Params, threads: nat, s: State, k: nat, k': nat)
    requires Reachable(p, threads, s) && k < |s.log| && k' < |s.log| && s.log[k].ticket == s.log[k'].ticket
    ensures k == k'
  {
    var t := s.log[k].ticket;
    ReachableTicket(p, threads, s, t);
    hide Reachable, GlobalInv, TicketInOnePlace;
    if k < k' { TwoLogged(s.log, k, k', t); }
    if k' < k { TwoLogged(s.log, k', k, t); }
  }

  /** Real time is respected: if the answer to one request had been staged when another was submitted, the first
      one's operation comes first. */
  lemma RealTimeOrder(p: Params, threads: nat, s: State, i: nat, t: nat, k: nat, t2: nat, k2: nat)
    requires Reachable(p, threads, s)
    requires i < |s.history| && s.history[i].ticket == Some(t) && t2 < |s.submitted| && i < s.submitted[t2].seen
    requires k < |s.log| && s.log[k].ticket == t && k2 < |s.log| && s.log[k2].ticket == t2
    ensures k < k2
  {
    var j := LoggedBefore(p, threads, s, i, t, k);
    LoggedOnce(p, threads, s, j, k);
    ReachableStamps(p, threads, s);
    hide Reachable;
  }

  lemma ReachableStamps(p: Params, threads: nat, s: State)
    requires Reachable(p, threads, s)
    ensures StampsOk(s)
  {
    ReachableInv(p, threads, s);
  }

  lemma ReachableLogged(p: Params, threads: nat, s: State, i: nat)
    requires Reachable(p, threads, s) && i < |s.history|
    ensures FrameLogged(s, s.history[i])
  {
    ReachableInv(p, threads, s);
    hide FrameLogged, Ran, WorkerLogged, Known, StampsOk, LogOk, ConnInv, TicketInv, Reachable, RequestsFit;
  }

  /** A ticket that ran and has a staged answer ran before the answer was staged. */
  lemma LoggedBefore(p: Params, threads: nat, s: State, i: nat, t: nat, k: nat) returns (j: nat)
    requires Reachable(p, threads, s) && i < |s.history| && s.history[i].ticket == Some(t)
    requires k < |s.log| && s.log[k].ticket == t
    ensures j < |s.log| && j < s.history[i].log && s.log[j].ticket == t
  {
    ReachableLogged(p, threads, s, i);
    hide Reachable;
    LogCounted(s.log, k, t);
    j :| 0 <= j < s.history[i].log && j < |s.log| && s.log[j].ticket == t && s.log[j].response == s.history[i].response;
  }

  /** In any concurrent run, an executed GET returns the value of the latest PUT of its key in lock order, exactly
      when that key has been stored and neither deleted, cleared nor evicted since; otherwise NOT_FOUND. */
  lemma GetsReadTheLatestPut(p: Params, threads: nat, s: State, k: nat)
    requires Reachable(p, threads, s) && k < |s.log| && s.log[k].request.opcode.Get?
    ensures var r := s.log[k].request; var h := H.Exec(OpsOf(s.log[..k]), p.cache).history;
      && (H.Live(h, r.key) ==>
            H.LatestPut(h, r.key).Some? && s.log[k].response == Response(Get, Ok, r.id, H.LatestPut(h, r.key).value))
      && (!H.Live(h, r.key) ==> s.log[k].response == Response(Get, NotFound, r.id, []))
  {
    ReachableLog(p, threads, s);
    hide Reachable;
    ReplayIsExec(s.log[..k], p.cache);
    GetAfter(OpsOf(s.log[..k]), s.log[k].request, s.log[k].stats, p.cache);
  }

  lemma ReachableLog(p: Params, threads: nat, s: State)
    requires Reachable(p, threads, s)
    ensures s.p == p && LogOk(s)
  {
    ReachableInv(p, threads, s);
  }

  // ----- Validated configurations -----

  function ParamsOf(c: Config.ServerConfig): Params {
    Params(c.maxConnOutputBytes, c.maxInflightPerConn, c.maxPendingRequests,
           Config.WireLimitsOf(c), Config.CacheLimitsOf(c))
  }

  /** Under a validated configuration, in any run, a PUT is answered OK, or SERVER_BUSY because it met a full
      queue; the cache refuses none. */
  lemma ValidatedServersStoreEveryPut(config: Config.ServerConfig, threads: nat, s: State, i: nat, t: nat)
    requires Config.Validate(config).None? && Reachable(ParamsOf(config), threads, s)
    requires i < |s.history| && s.history[i].ticket == Some(t)
    ensures t < |s.submitted|
    ensures s.submitted[t].request.opcode.Put? ==>
      || s.history[i].response.status == Ok
      || (s.history[i].response.status == ServerBusy && s.history[i].queued == config.maxPendingRequests)
  {
    var p := ParamsOf(config);
    OutcomesAreSequential(p, threads, s, i, t);
    if s.submitted[t].request.opcode.Put? && s.history[i].response.status != ServerBusy {
      var k :| RanAt(s, k, i, t);
      ExecutedPutIsOk(config, threads, s, k);
    }
  }

  lemma ExecutedPutIsOk(config: Config.ServerConfig, threads: nat, s: State, k: nat)
    requires Config.Validate(config).None? && Reachable(ParamsOf(config), threads, s)
    requires k < |s.log| && s.log[k].request.opcode.Put?
    ensures s.log[k].response.status == Ok
  {
    var p := ParamsOf(config);
    ReachableConn(p, threads, s, 0);
    hide Reachable, ConnInv, Known, ResponsesFit, OutcomesLogged, Answer, Replay;
    assert RequestOk(s.log[k].request, p.wire);
    PutIsOk(config, Replay(s.log[..k], p.cache), s.log[k].request, s.log[k].stats);
  }

  lemma PutIsOk(config: Config.ServerConfig, cache: seq<L.Entry>, r: Request, stats: Bytes)
    requires Config.Validate(config).None? && RequestOk(r, Config.WireLimitsOf(config)) && r.opcode.Put?
    ensures Answer(cache, r, stats, Config.CacheLimitsOf(config)).response.status == Ok
  {
    Config.ValidatedSizesAreExact(config);
    hide Config.WireLimitsOf;
    assert L.PutOutcome(r.key, r.value, Config.CacheLimitsOf(config)).None?;
  }

  /** The parameters the theorems of this module ask for are those of any validated configuration. */
  lemma ValidatedParams(config: Config.ServerConfig)
    requires Config.Validate(config).None?
    ensures ValidParams(ParamsOf(config))
  {
  }
}
