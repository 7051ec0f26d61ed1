/** When process_input leaves a whole frame in a connection's buffer: only at the in-flight limit. */
module ServerPulls {
  import opened Protocol
  import opened Codec
  import opened Output
  import opened ServerModel
  import opened ServerCounts
  import opened ServerDrain
  import opened ServerInput
  import opened ServerKnown

  /** The loop is in process_input for this connection. */
  predicate TakingFrom(l: Loop, c: nat) { Taking(l) && l.c == c }

  /** What is in flight was submitted. And while the loop is elsewhere, an open connection that is not to be closed has
      no more than part of a frame in its buffer, or as many requests were submitted on it as may be in flight. */
  ghost predicate PullsOk(s: State, c: nat) {
    c < |s.conns| ==>
      && s.conns[c].inflight <= |RequestsOf(s.submitted, c)|
      && (IsOpen(s, c) && !s.conns[c].closeAfterFlush && !TakingFrom(s.loop, c) && s.loop != Closing(c)
            && !Verdict(s, c).NeedMore? ==>
            |RequestsOf(s.submitted, c)| >= s.p.maxInflight)
  }

  lemma WorkKeepsPulls(s: State, w: nat, a: WorkerAct, c: nat)
    requires WorkerEnabled(s, w, a) && PullsOk(s, c)
    ensures PullsOk(WorkerApply(s, w, a), c)
  {
    hide SerializeResponse, TheAnswer, WorkerNext, Stage, ParseRequest, RequestsOf;
  }

  lemma ControlKeepsPulls(s: State, a: ControlAct, c: nat)
    requires ControlEnabled(s, a) && PullsOk(s, c)
    ensures PullsOk(s.(loop := ControlNext(s, a)), c)
  {
    hide ParseRequest, RequestsOf, CoversOpen;
  }

  lemma ListKeepsPulls(s: State, a: ListAct, c: nat)
    requires ListEnabled(s, a) && PullsOk(s, c)
    ensures PullsOk(ListApply(s, a), c)
  {
    hide ParseRequest, RequestsOf, CoversOpen;
    if a.Accept? { NothingIsPartial(s.p.wire); }
  }

  lemma NothingIsPartial(l: Limits)
    ensures ParseRequest([], l).NeedMore?
  {
  }

  lemma ConnKeepsPulls(s: State, a: ConnAct, c: nat)
    requires ConnEnabled(s, a) && PullsOk(s, c)
    ensures PullsOk(ConnApply(s, a), c)
  {
    hide SerializeResponse, HardCap, ParseRequest, Peek, Stage, Swap, Send, Account, RequestsOf, ConnFrames, ConnJobs;
    ConnAsks(s, a, c);
  }

  lemma StepKeepsPulls(s: State, st: Step, c: nat)
    requires Enabled(s, st) && PullsOk(s, c)
    ensures PullsOk(Apply(s, st), c)
  {
    hide WorkerApply, ControlNext, ListApply, ConnApply, ParseRequest, RequestsOf;
    match st
    case Work(w, a) => WorkKeepsPulls(s, w, a, c);
    case Control(a) => ControlKeepsPulls(s, a, c);
    case Lists(a) => ListKeepsPulls(s, a, c);
    case OnConn(a) => ConnKeepsPulls(s, a, c);
    case _ =>
  }

  // ----- Answers and what is in flight -----

  /** How many requests of connection `c` have been answered. */
  function AnswersTo(h: seq<Frame>, c: nat): nat {
    if h == [] then 0 else AnswersTo(h[..|h| - 1], c) + One(h[|h| - 1].conn == c && h[|h| - 1].ticket.Some?)
  }

  lemma AppendAnswer(h: seq<Frame>, f: Frame, c: nat)
    ensures AnswersTo(h + [f], c) == AnswersTo(h, c) + One(f.conn == c && f.ticket.Some?)
  {
    assert (h + [f])[..|h|] == h;
  }

  /** Submitted requests are in flight or answered; both only between the staging of an answer and the reduction of
      the in-flight number. */
  ghost predicate AnswersOk(s: State, c: nat) {
    c < |s.conns| ==>
      s.conns[c].inflight + AnswersTo(s.history, c) <=
        |RequestsOf(s.submitted, c)| + CountWorkers(s.workers, Releasing(c)) + One(s.loop.BusyStaged? && s.loop.c == c)
  }

  lemma WorkKeepsAnswers(s: State, w: nat, a: WorkerAct, c: nat)
    requires WorkerEnabled(s, w, a) && AnswersOk(s, c)
    ensures AnswersOk(WorkerApply(s, w, a), c)
  {
    hide SerializeResponse, TheAnswer, Stage, RequestsOf, CountWorkers, AnswersTo, HardCap;
    ReplaceWorker(s.workers, w, WorkerNext(s, w, a), Releasing(c));
    WorkAnswers(s, w, a, c);
  }

  lemma WorkAnswers(s: State, w: nat, a: WorkerAct, c: nat)
    requires WorkerEnabled(s, w, a)
    ensures AnswersTo(WorkerApply(s, w, a).history, c)
         == AnswersTo(s.history, c) + One(a.StageFrame? && s.workers[w].job.conn == c)
  {
    if a.StageFrame? { AppendAnswer(s.history, WorkerApply(s, w, a).history[|s.history|], c); }
    hide SerializeResponse, TheAnswer, WorkerNext, WorkerConnAfter, AnswersTo;
  }

  lemma ConnKeepsAnswers(s: State, a: ConnAct, c: nat)
    requires ConnEnabled(s, a) && AnswersOk(s, c)
    ensures AnswersOk(ConnApply(s, a), c)
  {
    hide SerializeResponse, HardCap, Verdict, Peek, Stage, Swap, Send, Account, RequestsOf, CountWorkers, AnswersTo;
    ConnAnswers(s, a, c);
    ConnAsks(s, a, c);
    hide ConnFrames, ConnJobs;
  }

  lemma ConnAnswers(s: State, a: ConnAct, c: nat)
    requires ConnEnabled(s, a)
    ensures AnswersTo(s.history + ConnFrames(s, a), c) == AnswersTo(s.history, c) + One(a.StageBusy? && s.loop.c == c)
  {
    if a.StageBusy? || a.AnswerMalformed? {
      AppendAnswer(s.history, ConnFrames(s, a)[0], c);
    } else {
      assert s.history + [] == s.history;
    }
    hide SerializeResponse, Verdict, Peek, ConnAfter, AnswersTo;
  }

  lemma ConnAsks(s: State, a: ConnAct, c: nat)
    requires ConnEnabled(s, a)
    ensures |RequestsOf(s.submitted + ConnJobs(s, a), c)|
         == |RequestsOf(s.submitted, c)| + One(a.GotRequest? && s.loop.c == c)
  {
    if a.GotRequest? {
      AppendRequest(s.submitted, NewJob(s, s.loop.c, a.request), c);
    } else {
      assert s.submitted + [] == s.submitted;
    }
    hide Verdict, Peek, RequestsOf;
  }

  lemma ControlKeepsAnswers(s: State, a: ControlAct, c: nat)
    requires ControlEnabled(s, a) && AnswersOk(s, c)
    ensures AnswersOk(s.(loop := ControlNext(s, a)), c)
  {
    hide RequestsOf, AnswersTo, CountWorkers, Verdict, CoversOpen;
  }

  lemma ListKeepsAnswers(s: State, a: ListAct, c: nat)
    requires ListEnabled(s, a) && AnswersOk(s, c) && Known(s)
    ensures AnswersOk(ListApply(s, a), c)
  {
    hide RequestsOf, AnswersTo, CountWorkers, Known, CoversOpen;
    if a.Accept? && c == |s.conns| { NoneAnswered(s, c); }
  }

  lemma StepKeepsAnswers(s: State, st: Step, c: nat)
    requires Enabled(s, st) && AnswersOk(s, c) && Known(s)
    ensures AnswersOk(Apply(s, st), c)
  {
    hide WorkerApply, ControlNext, ListApply, ConnApply, RequestsOf, AnswersTo, CountWorkers, Known;
    match st
    case Work(w, a) => WorkKeepsAnswers(s, w, a, c);
    case Control(a) => ControlKeepsAnswers(s, a, c);
    case Lists(a) => ListKeepsAnswers(s, a, c);
    case OnConn(a) => ConnKeepsAnswers(s, a, c);
    case _ =>
  }

  lemma NoneAnswered(s: State, c: nat)
    requires Known(s) && c >= |s.conns|
    ensures AnswersTo(s.history, c) == 0
  {
    forall i | 0 <= i < |s.history| ensures s.history[i].conn != c { assert FrameOk(s, s.history[i]); }
    NoAnswers(s.history, c);
  }

  lemma {:induction false} NoAnswers(h: seq<Frame>, c: nat)
    requires forall i :: 0 <= i < |h| ==> h[i].conn != c
    ensures AnswersTo(h, c) == 0
  {
    if h != [] { NoAnswers(h[..|h| - 1], c); }
  }
}
