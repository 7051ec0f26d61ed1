/** Nothing in the system refers to a request or a connection that does not exist, and every response belongs to
    its request. */
module ServerKnown {
  import opened Protocol
  import opened Codec
  import opened Input
  import opened Output
  import opened ServerModel
  import opened ServerCounts

  /** What only ever grows: connections, closed flags, submitted requests. */
  ghost predicate Grows(s: State, s': State) {
    && s'.p == s.p
    && |s.conns| <= |s'.conns|
    && (forall c :: 0 <= c < |s.conns| && s.conns[c].closed ==> s'.conns[c].closed)
    && s.submitted <= s'.submitted
  }

  predicate JobOk(s: State, j: Job) {
    j.ticket < |s.submitted| && s.submitted[j.ticket] == j && j.conn < |s.conns|
  }

  /** A response carries its request's identity. */
  predicate ResponseFor(r: Response, q: Request) { r.id == q.id && r.opcode == q.opcode }

  predicate WorkerOk(s: State, w: Worker) {
    && (HasJob(w) ==> JobOk(s, w.job))
    && (w.Answered? || w.SawOpen? ==> ResponseFor(w.response, w.job.request))
    && (w.SawClosed? ==> s.conns[w.job.conn].closed)
    && (w.Unclaimed? || w.Claimed? ==> w.conn < |s.conns|)
  }

  predicate LoopOk(s: State, l: Loop) {
    && (HasConn(l) ==> l.c < |s.conns|)
    && (l.Submitting? || l.Busy? || l.BusyStaged? ==> JobOk(s, l.job) && l.job.conn == l.c)
    && (l.DrainPending? ==> l.rest != [])
    && (l.DrainInflight? || l.DrainPending? ==> forall i :: 0 <= i < |l.rest| ==> l.rest[i] < |s.conns|)
  }

  predicate FrameOk(s: State, f: Frame) {
    && f.conn < |s.conns|
    && (f.ticket.Some? ==>
        var t := f.ticket.value;
        t < |s.submitted| && s.submitted[t].conn == f.conn && ResponseFor(f.response, s.submitted[t].request))
  }

  /** A dropped answer had met a closed connection. */
  predicate DropOk(s: State, t: nat) {
    t < |s.submitted| && s.submitted[t].conn < |s.conns| && s.conns[s.submitted[t].conn].closed
  }

  ghost predicate IdsOk(s: State, ids: seq<nat>) { forall i :: 0 <= i < |ids| ==> ids[i] < |s.conns| }

  ghost predicate JobsOk(s: State, js: seq<Job>) { forall i :: 0 <= i < |js| ==> JobOk(s, js[i]) }

  ghost predicate Known(s: State) {
    && (forall t :: 0 <= t < |s.submitted| ==> s.submitted[t].ticket == t && s.submitted[t].conn < |s.conns|)
    && (forall i :: 0 <= i < |s.workers| ==> WorkerOk(s, s.workers[i]))
    && JobsOk(s, s.queue) && JobsOk(s, s.discarded)
    && LoopOk(s, s.loop)
    && IdsOk(s, s.ready) && IdsOk(s, s.todo) && IdsOk(s, s.refresh)
    && (forall i :: 0 <= i < |s.history| ==> FrameOk(s, s.history[i]))
    && (forall i :: 0 <= i < |s.dropped| ==> DropOk(s, s.dropped[i]))
  }

  lemma WorkGrows(s: State, w: nat, a: WorkerAct)
    requires WorkerEnabled(s, w, a)
    ensures Grows(s, WorkerApply(s, w, a))
  {
    hide SerializeResponse, TheAnswer, WorkerNext;
  }

  lemma ListGrows(s: State, a: ListAct)
    requires ListEnabled(s, a)
    ensures Grows(s, ListApply(s, a))
  {
  }

  lemma ConnGrows(s: State, a: ConnAct)
    requires ConnEnabled(s, a)
    ensures Grows(s, ConnApply(s, a))
  {
    hide SerializeResponse, ConnNext;
  }

  /** The parts of `Known` that a step does not write survive because everything they rest on only grows. */
  lemma KnownGrows(s: State, s': State)
    requires Known(s) && Grows(s, s')
    requires s'.submitted == s.submitted || (|s'.submitted| == |s.submitted| + 1 &&
      s'.submitted[|s.submitted|].ticket == |s.submitted| && s'.submitted[|s.submitted|].conn < |s'.conns|)
    ensures forall t :: 0 <= t < |s'.submitted| ==> s'.submitted[t].ticket == t && s'.submitted[t].conn < |s'.conns|
    ensures forall i :: 0 <= i < |s.workers| ==> WorkerOk(s', s.workers[i])
    ensures JobsOk(s', s.queue) && JobsOk(s', s.discarded)
    ensures LoopOk(s', s.loop)
    ensures IdsOk(s', s.ready) && IdsOk(s', s.todo) && IdsOk(s', s.refresh)
    ensures forall i :: 0 <= i < |s.history| ==> FrameOk(s', s.history[i])
    ensures forall i :: 0 <= i < |s.dropped| ==> DropOk(s', s.dropped[i])
  {
    assert forall t :: 0 <= t < |s.submitted| ==> s'.submitted[t] == s.submitted[t];
  }

  lemma AnswerFor(cache: seq<L.Entry>, r: Request, stats: Bytes, lim: L.CacheLimits)
    ensures ResponseFor(Answer(cache, r, stats, lim).response, r)
  {
  }

  lemma WorkKeepsKnown(s: State, w: nat, a: WorkerAct)
    requires Known(s) && WorkerEnabled(s, w, a)
    ensures Known(WorkerApply(s, w, a))
  {
    hide SerializeResponse, TheAnswer, Grows, WorkerOk, WorkerNext, WorkerConnAfter, LoopOk, FrameOk, DropOk;
    var s' := WorkerApply(s, w, a);
    WorkGrows(s, w, a);
    KnownGrows(s, s');
    assert WorkerOk(s, s.workers[w]);
    NextWorkerOk(s, w, a);
  }

  lemma NextWorkerOk(s: State, w: nat, a: WorkerAct)
    requires WorkerEnabled(s, w, a) && WorkerOk(s, s.workers[w]) && (a.Pop? ==> JobOk(s, s.queue[0]))
    ensures WorkerOk(WorkerApply(s, w, a), WorkerNext(s, w, a))
    ensures var pc := s.workers[w];
      a.StageFrame? ==> FrameOk(WorkerApply(s, w, a), WorkerApply(s, w, a).history[|s.history|])
    ensures a.DropDecrement? ==> DropOk(WorkerApply(s, w, a), s.workers[w].job.ticket)
    ensures a.Push? ==> s.workers[w].conn < |s.conns|
  {
    if a.Execute? { AnswerFor(s.cache, s.workers[w].job.request, a.stats, s.p.cache); }
    hide SerializeResponse, Answer;
  }

  lemma ControlKeepsKnown(s: State, a: ControlAct)
    requires Known(s) && ControlEnabled(s, a)
    ensures Known(s.(loop := ControlNext(s, a)))
  {
    var s' := s.(loop := ControlNext(s, a));
    KnownGrows(s, s');
    assert LoopOk(s, ControlNext(s, a));
    hide ControlNext, JobOk, WorkerOk, FrameOk, DropOk;
  }

  lemma ListKeepsKnown(s: State, a: ListAct)
    requires Known(s) && ListEnabled(s, a)
    ensures Known(ListApply(s, a))
  {
    ListGrows(s, a);
    KnownGrows(s, ListApply(s, a));
  }

  lemma ConnKeepsKnown(s: State, a: ConnAct)
    requires Known(s) && ConnEnabled(s, a)
    ensures Known(ConnApply(s, a))
  {
    hide SerializeResponse, Grows, Verdict, Peek, Receive, Extract, Stage, Swap, Send, Account;
    var s' := ConnApply(s, a);
    ConnGrows(s, a);
    KnownGrows(s, s');
    assert LoopOk(s', s'.loop);
    forall i | 0 <= i < |ConnFrames(s, a)| ensures FrameOk(s', ConnFrames(s, a)[i]) { }
  }

  lemma SubmitKeepsKnown(s: State)
    requires Known(s) && s.loop.Submitting?
    ensures Known(TrySubmit(s))
  {
    KnownGrows(s, TrySubmit(s));
    assert JobsOk(s, s.queue + [s.loop.job]);
    hide WorkerOk, FrameOk, DropOk;
  }

  lemma DiscardKeepsKnown(s: State)
    requires Known(s)
    ensures Known(s.(queue := [], discarded := s.discarded + s.queue))
  {
    KnownGrows(s, s.(queue := [], discarded := s.discarded + s.queue));
    hide WorkerOk, FrameOk, DropOk, LoopOk;
  }

  /** What steps that are neither a worker's nor on a connection leave alone. */
  ghost predicate SameHistories(s: State, s': State) {
    && s'.p == s.p && s'.workers == s.workers && s'.cache == s.cache
    && s'.submitted == s.submitted && s'.history == s.history && s'.log == s.log
  }

  lemma ListsAreQuiet(s: State, a: ListAct)
    requires ListEnabled(s, a)
    ensures SameHistories(s, ListApply(s, a))
  {
  }

  lemma QuietSteps(s: State, st: Step)
    requires Enabled(s, st) && !st.Work? && !st.OnConn?
    ensures SameHistories(s, Apply(s, st))
  {
    if st.Lists? { ListsAreQuiet(s, st.list); }
    hide ControlEnabled, ControlNext, ListEnabled, ListApply;
  }

  lemma StepKeepsKnown(s: State, st: Step)
    requires Known(s) && Enabled(s, st)
    ensures Known(Apply(s, st))
  {
    hide Known, WorkerApply, ControlNext, ListApply, ConnApply, TrySubmit;
    match st
    case Work(w, a) => WorkKeepsKnown(s, w, a);
    case Control(a) => ControlKeepsKnown(s, a);
    case Lists(a) => ListKeepsKnown(s, a);
    case OnConn(a) => ConnKeepsKnown(s, a);
    case Submit => SubmitKeepsKnown(s);
    case Discard => DiscardKeepsKnown(s);
  }
}
