/** The hard cap on a connection's output backlog: who has noticed that it is exceeded. */
module ServerBacklog {
  import opened Codec
  import opened Output
  import opened ServerModel
  import opened ServerCounts
  import opened ServerKnown

  /** The loop itself is about to close the connection for its backlog, or for any other reason. */
  predicate LoopCloses(l: Loop, c: nat) {
    || (l.Refused? && l.c == c && l.over)
    || (l.BusyStaged? && l.c == c && l.over)
    || l == Closing(c)
  }

  /** An open connection over its cap is marked for closing, or a worker is about to mark it, or the loop is about
      to close it; and the loop closes for the backlog only a connection that is over its cap. */
  ghost predicate CapNoticed(s: State, c: nat) {
    && (IsOpen(s, c) && OverLimit(s, s.conns[c].out) ==>
          s.conns[c].closeAfterFlush || CountWorkers(s.workers, Marking(c)) > 0 || LoopCloses(s.loop, c))
    && (c < |s.conns| && LoopCloses(s.loop, c) && s.loop != Closing(c) ==> OverLimit(s, s.conns[c].out))
  }

  lemma WorkKeepsNoticed(s: State, w: nat, a: WorkerAct, c: nat)
    requires WorkerEnabled(s, w, a) && WorkerOk(s, s.workers[w]) && CapNoticed(s, c)
    ensures CapNoticed(WorkerApply(s, w, a), c)
  {
    hide SerializeResponse, TheAnswer, CountWorkers, HardCap;
    ReplaceWorker(s.workers, w, WorkerNext(s, w, a), Marking(c));
    if Picks(Marking(c), WorkerNext(s, w, a)) {
      WorkerCounted(s.workers[w := WorkerNext(s, w, a)], w, Marking(c));
    }
  }

  lemma ConnKeepsNoticed(s: State, a: ConnAct, c: nat)
    requires ConnEnabled(s, a) && CapNoticed(s, c)
    ensures CapNoticed(ConnApply(s, a), c)
  {
    hide SerializeResponse, CountWorkers, HardCap, ConnFrames, ConnJobs, ParseRequest, Peek;
  }

  lemma ControlKeepsNoticed(s: State, a: ControlAct, c: nat)
    requires ControlEnabled(s, a) && CapNoticed(s, c)
    ensures CapNoticed(s.(loop := ControlNext(s, a)), c)
  {
    hide CountWorkers, HardCap, Verdict;
  }

  lemma ListKeepsNoticed(s: State, a: ListAct, c: nat)
    requires ListEnabled(s, a) && CapNoticed(s, c)
    ensures CapNoticed(ListApply(s, a), c)
  {
    hide CountWorkers, HardCap;
  }

  lemma StepKeepsNoticed(s: State, st: Step, c: nat)
    requires Enabled(s, st) && Known(s) && CapNoticed(s, c)
    ensures CapNoticed(Apply(s, st), c)
  {
    if st.Work? { assert WorkerOk(s, s.workers[st.w]); }
    hide Known, WorkerApply, ControlNext, ListApply, ConnApply, CountWorkers, HardCap;
    match st
    case Work(w, a) => WorkKeepsNoticed(s, w, a, c);
    case Control(a) => ControlKeepsNoticed(s, a, c);
    case Lists(a) => ListKeepsNoticed(s, a, c);
    case OnConn(a) => ConnKeepsNoticed(s, a, c);
    case _ =>
  }

  // ----- Closing -----

  /** Once the loop is about to close a connection, no step of anybody keeps it from doing so. */
  lemma ClosingIsCertain(s: State, st: Step, c: nat)
    requires LoopCloses(s.loop, c) && c < |s.conns| && Enabled(s, st)
    ensures c < |Apply(s, st).conns| && (Apply(s, st).conns[c].closed || LoopCloses(Apply(s, st).loop, c))
  {
    hide WorkerApply, ControlNext, ConnApply;
    match st
    case Work(w, a) => WorkersMoveNoLoop(s, w, a);
    case Control(a) => ControlWays(s, a, c);
    case OnConn(a) => ConnCloses(s, a, c);
    case _ =>
  }

  lemma WorkersMoveNoLoop(s: State, w: nat, a: WorkerAct)
    requires WorkerEnabled(s, w, a)
    ensures WorkerApply(s, w, a).loop == s.loop && |WorkerApply(s, w, a).conns| == |s.conns|
  {
    hide SerializeResponse, TheAnswer, WorkerNext, WorkerConnAfter;
  }

  lemma ConnCloses(s: State, a: ConnAct, c: nat)
    requires LoopCloses(s.loop, c) && c < |s.conns| && ConnEnabled(s, a)
    ensures var s' := ConnApply(s, a); c < |s'.conns| && (s'.conns[c].closed || LoopCloses(s'.loop, c))
  {
    hide SerializeResponse, ConnFrames, ConnJobs, Verdict, Peek, Stage, Swap, Send, Account;
  }

  /** A connection is closed by one of two steps only: close_connection, which the loop has come to, or the refusal
      of a malformed frame that takes the backlog over the cap. */
  lemma OnlyTheLoopCloses(s: State, st: Step, c: nat)
    requires Enabled(s, st) && IsOpen(s, c) && !IsOpen(Apply(s, st), c)
    ensures (st == OnConn(Close) && s.loop == Closing(c)) || (st == OnConn(FinishRefusal) && s.loop == Refused(c, true))
  {
    if st.Work? {
      WorkersCloseNothing(s, st.w, st.work, c);
    } else {
      hide SerializeResponse, WorkerApply, ConnNext, ConnFrames, ConnJobs, Verdict, Peek, CoversOpen, ControlNext;
    }
  }

  lemma WorkersCloseNothing(s: State, w: nat, a: WorkerAct, c: nat)
    requires WorkerEnabled(s, w, a) && IsOpen(s, c)
    ensures IsOpen(WorkerApply(s, w, a), c)
  {
    hide SerializeResponse, TheAnswer, WorkerNext;
  }

  /** The steps that lead to close_connection. */
  predicate LeadsToClosing(s: State, st: Step, c: nat) {
    || st == Control(HangUp(c))                                                       // hang-up, or the end of run
    || (st == Control(SendFailed) && s.loop.FlushSend? && s.loop.c == c)
    || (st == Control(ReadFailed) && s.loop == ReadPoint(c, true))                    // end of stream or error
    || (st == Control(RegisterFailed) && s.loop.Update4? && s.loop.c == c)
    || (st == Control(ReadPending) && s.loop == CheckPending(c) && c < |s.conns| && !HasOutput(s.conns[c]))
    || (st == OnConn(FinishBusy) && s.loop.BusyStaged? && s.loop.c == c && s.loop.over)
  }

  lemma WaysToClosing(s: State, st: Step, c: nat)
    requires Enabled(s, st) && s.loop != Closing(c)
    ensures Apply(s, st).loop == Closing(c) <==> LeadsToClosing(s, st, c)
  {
    hide WorkerApply, ControlNext, ConnApply;
    match st
    case Work(w, a) => WorkersMoveNoLoop(s, w, a);
    case Control(a) => ControlWays(s, a, c);
    case OnConn(a) => ConnWays(s, a, c);
    case _ =>
  }

  lemma ControlWays(s: State, a: ControlAct, c: nat)
    requires ControlEnabled(s, a)
    ensures s.loop != Closing(c)
    ensures ControlNext(s, a) == Closing(c) <==> LeadsToClosing(s, Control(a), c)
    ensures !LoopCloses(s.loop, c)
  {
    hide Verdict, CoversOpen;
  }

  lemma ConnWays(s: State, a: ConnAct, c: nat)
    requires ConnEnabled(s, a) && s.loop != Closing(c)
    ensures ConnApply(s, a).loop == Closing(c) <==> LeadsToClosing(s, OnConn(a), c)
  {
    hide SerializeResponse, ConnAfter, ConnFrames, ConnJobs, Verdict, Peek;
  }
}
