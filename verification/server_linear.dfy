/** Linearizability: every staged outcome is that of one sequential cache run in lock order, and that order
    respects real time. */
module ServerLinear {
  import opened Protocol
  import opened Codec
  import opened ServerModel
  import opened ServerCounts
  import opened ServerKnown
  import opened ServerConservation
  import H = LruHistory

  // ----- One sequential run -----

  /** The cache after the logged operations, run one after the other. */
  function Replay(log: seq<Lin>, lim: L.CacheLimits): seq<L.Entry> {
    if log == [] then []
    else
      var x := log[|log| - 1];
      Answer(Replay(log[..|log| - 1], lim), x.request, x.stats, lim).cache
  }

  /** Each logged response is the one the sequential run gives at that point. */
  ghost predicate Sequential(log: seq<Lin>, lim: L.CacheLimits) {
    forall i :: 0 <= i < |log| ==>
      log[i].response == Answer(Replay(log[..i], lim), log[i].request, log[i].stats, lim).response
  }

  ghost predicate LogOk(s: State) {
    s.cache == Replay(s.log, s.p.cache) && Sequential(s.log, s.p.cache)
  }

  lemma ExtendLog(log: seq<Lin>, x: Lin, lim: L.CacheLimits)
    requires Sequential(log, lim) && x.response == Answer(Replay(log, lim), x.request, x.stats, lim).response
    ensures Sequential(log + [x], lim)
    ensures Replay(log + [x], lim) == Answer(Replay(log, lim), x.request, x.stats, lim).cache
  {
    hide Answer, Replay;
    assert (log + [x])[..|log|] == log;
    forall i | 0 <= i < |log + [x]|
      ensures (log + [x])[i].response
           == Answer(Replay((log + [x])[..i], lim), (log + [x])[i].request, (log + [x])[i].stats, lim).response
    {
      if i < |log| { assert (log + [x])[..i] == log[..i]; }
    }
    ReplayStep(log, x, lim);
  }

  lemma ReplayStep(log: seq<Lin>, x: Lin, lim: L.CacheLimits)
    ensures Replay(log + [x], lim) == Answer(Replay(log, lim), x.request, x.stats, lim).cache
  {
    hide Answer;
    assert (log + [x])[..|log|] == log;
  }

  lemma StepKeepsLog(s: State, st: Step)
    requires Enabled(s, st) && LogOk(s)
    ensures LogOk(Apply(s, st))
  {
    hide SerializeResponse, Answer, Sequential, Replay, WorkerNext, WorkerConnAfter, ControlNext, ConnAfter,
         ConnNext, ConnFrames, ConnJobs;
    if st.Work? && st.work.Execute? {
      var job := s.workers[st.w].job;
      var r := TheAnswer(s, job, st.work.stats);
      ExtendLog(s.log, Lin(job.ticket, job.request, st.work.stats, r.response), s.p.cache);
    }
  }

  // ----- What that sequential run means -----

  /** The cache operation a request comes down to, if any. */
  function OpOf(r: Request): seq<L.Op> {
    match r.opcode
    case Get => [L.OpGet(r.key)]
    case Put => [L.OpPut(r.key, r.value)]
    case Delete => [L.OpErase(r.key)]
    case Clear => [L.OpClear]
    case _ => []
  }

  function OpsOf(log: seq<Lin>): seq<L.Op> {
    if log == [] then [] else OpsOf(log[..|log| - 1]) + OpOf(log[|log| - 1].request)
  }

  /** The server's cache is the cache whose recency list the history of operations explains. */
  lemma {:induction false} ReplayIsExec(log: seq<Lin>, lim: L.CacheLimits)
    ensures Replay(log, lim) == H.Exec(OpsOf(log), lim).entries
  {
    if log != [] {
      var before, x := log[..|log| - 1], log[|log| - 1];
      ReplayIsExec(before, lim);
      AnswerIsApply(H.Exec(OpsOf(before), lim).entries, x.request, x.stats, lim);
      hide Answer, L.Apply;
      var ops := OpsOf(before);
      if OpOf(x.request) == [] {
        assert ops + [] == ops;
      } else {
        assert (ops + OpOf(x.request))[..|ops|] == ops;
      }
    }
  }

  lemma AnswerIsApply(cache: seq<L.Entry>, r: Request, stats: Bytes, lim: L.CacheLimits)
    ensures Answer(cache, r, stats, lim).cache
         == if OpOf(r) == [] then cache else L.Apply(cache, OpOf(r)[0], lim).entries
  {
  }

  /** A GET after any sequence of operations. */
  lemma GetAfter(ops: seq<L.Op>, r: Request, stats: Bytes, lim: L.CacheLimits)
    requires r.opcode.Get?
    ensures var h := H.Exec(ops, lim).history; var a := Answer(H.Exec(ops, lim).entries, r, stats, lim).response;
      && (H.Live(h, r.key) ==>
            H.LatestPut(h, r.key).Some? && a == Response(Get, Ok, r.id, H.LatestPut(h, r.key).value))
      && (!H.Live(h, r.key) ==> a == Response(Get, NotFound, r.id, []))
  {
    H.GetReturnsLatestPut(ops, r.key, lim);
    hide H.Exec, H.Live, H.LatestPut, L.Lookup;
  }

  // ----- Each request runs at most once -----

  function RunsOf(s: State, t: nat): nat {
    CountJobs(s.queue, Waits(t)) + CountWorkers(s.workers, Waits(t)) + One(PicksLoop(Waits(t), s.loop))
    + CountLog(s.log, t)
  }

  ghost predicate RunsOnce(s: State, t: nat) { RunsOf(s, t) <= One(t < |s.submitted|) }

  lemma WorkKeepsOnce(s: State, w: nat, a: WorkerAct, t: nat)
    requires WorkerEnabled(s, w, a) && RunsOnce(s, t)
    ensures RunsOnce(WorkerApply(s, w, a), t)
  {
    hide SerializeResponse, TheAnswer, CountWorkers, CountJobs, CountLog, WorkerConnAfter;
    ReplaceWorker(s.workers, w, WorkerNext(s, w, a), Waits(t));
    if a.Pop? {
      FirstJob(s.queue, Waits(t));
    } else if a.Execute? {
      AppendLog(s.log, WorkerApply(s, w, a).log[|s.log|], t);
    }
  }

  lemma ConnKeepsOnce(s: State, a: ConnAct, t: nat)
    requires ConnEnabled(s, a) && RunsOnce(s, t)
    ensures RunsOnce(ConnApply(s, a), t)
  {
    hide SerializeResponse, CountWorkers, CountJobs, CountLog, ConnAfter, ConnFrames;
  }

  lemma ControlKeepsOnce(s: State, a: ControlAct, t: nat)
    requires ControlEnabled(s, a) && RunsOnce(s, t)
    ensures RunsOnce(s.(loop := ControlNext(s, a)), t)
  {
    hide CountWorkers, CountJobs, CountLog;
  }

  lemma ListKeepsOnce(s: State, a: ListAct, t: nat)
    requires ListEnabled(s, a) && RunsOnce(s, t)
    ensures RunsOnce(ListApply(s, a), t)
  {
    hide CountWorkers, CountJobs, CountLog;
  }

  lemma SubmitKeepsOnce(s: State, t: nat)
    requires RunsOnce(s, t) && s.loop.Submitting?
    ensures RunsOnce(TrySubmit(s), t)
  {
    hide CountWorkers, CountJobs, CountLog;
    AppendJob(s.queue, s.loop.job, Waits(t));
  }

  lemma DiscardKeepsOnce(s: State, t: nat)
    requires RunsOnce(s, t)
    ensures RunsOnce(s.(queue := [], discarded := s.discarded + s.queue), t)
  {
    NoJob([], Waits(t));
    hide CountWorkers, CountJobs, CountLog;
  }

  lemma StepKeepsOnce(s: State, st: Step, t: nat)
    requires Enabled(s, st) && RunsOnce(s, t)
    ensures RunsOnce(Apply(s, st), t)
  {
    hide RunsOnce, WorkerApply, ControlNext, ListApply, ConnApply, TrySubmit;
    match st
    case Work(w, a) => WorkKeepsOnce(s, w, a, t);
    case Control(a) => ControlKeepsOnce(s, a, t);
    case Lists(a) => ListKeepsOnce(s, a, t);
    case OnConn(a) => ConnKeepsOnce(s, a, t);
    case Submit => SubmitKeepsOnce(s, t);
    case Discard => DiscardKeepsOnce(s, t);
  }

  // ----- Every outcome is logged -----

  /** Ticket `t` ran among the first `n` operations, with response `r`. */
  ghost predicate Ran(log: seq<Lin>, n: nat, t: nat, r: Response) {
    exists i :: 0 <= i < n && i < |log| && log[i].ticket == t && log[i].response == r
  }

  lemma RanGrows(log: seq<Lin>, log': seq<Lin>, n: nat, n': nat, t: nat, r: Response)
    requires Ran(log, n, t, r) && log <= log' && n <= n'
    ensures Ran(log', n', t, r)
  {
    var i :| 0 <= i < n && i < |log| && log[i].ticket == t && log[i].response == r;
    assert log'[i] == log[i];
  }

  ghost predicate WorkerLogged(s: State, w: Worker) {
    w.Answered? || w.SawOpen? ==> Ran(s.log, |s.log|, w.job.ticket, w.response)
  }

  /** A staged answer was logged before it was staged, or it is SERVER_BUSY and was never run. */
  ghost predicate FrameLogged(s: State, f: Frame) {
    f.ticket.Some? ==>
      var t := f.ticket.value;
      || Ran(s.log, f.log, t, f.response)
      || (t < |s.submitted| && f.response == BusyReply(s.submitted[t].request) && CountLog(s.log, t) == 0)
  }

  ghost predicate OutcomesLogged(s: State) {
    && (forall i :: 0 <= i < |s.workers| ==> WorkerLogged(s, s.workers[i]))
    && (forall i :: 0 <= i < |s.history| ==> FrameLogged(s, s.history[i]))
  }

  /** Operations are logged after submission; answers staged before a submission were logged before it. */
  ghost predicate StampsOk(s: State) {
    && (forall i :: 0 <= i < |s.log| ==>
          var t := s.log[i].ticket;
          t < |s.submitted| && s.submitted[t].request == s.log[i].request && s.submitted[t].log <= i)
    && (forall t :: 0 <= t < |s.submitted| ==> s.submitted[t].log <= |s.log| && s.submitted[t].seen <= |s.history|)
    && (forall i :: 0 <= i < |s.history| ==> s.history[i].log <= |s.log|)
    && (forall t, i :: 0 <= t < |s.submitted| && 0 <= i < s.submitted[t].seen && i < |s.history| ==>
          s.history[i].log <= s.submitted[t].log)
  }

  lemma WorkKeepsLogged(s: State, w: nat, a: WorkerAct)
    requires WorkerEnabled(s, w, a) && Known(s) && OutcomesLogged(s)
    requires forall t: nat :: TicketInOnePlace(s, t)
    ensures OutcomesLogged(WorkerApply(s, w, a))
  {
    if a.Execute? {
      ExecuteKeepsLogged(s, w, a);
    } else {
      hide WorkerOk;
      assert WorkerLogged(s, s.workers[w]);
      hide Known, SerializeResponse, TheAnswer, WorkerConnAfter, CountLog, TicketInOnePlace, Ran;
      assert WorkerApply(s, w, a).log == s.log;
    }
  }

  lemma ExecuteKeepsLogged(s: State, w: nat, a: WorkerAct)
    requires WorkerEnabled(s, w, a) && a.Execute? && Known(s) && OutcomesLogged(s)
    requires forall t: nat :: TicketInOnePlace(s, t)
    ensures OutcomesLogged(WorkerApply(s, w, a))
  {
    var s' := WorkerApply(s, w, a);
    var job := s.workers[w].job;
    var x := s'.log[|s.log|];
    forall i | 0 <= i < |s'.workers| ensures WorkerLogged(s', s'.workers[i]) {
      if i == w {
        assert s'.log[|s.log|].ticket == job.ticket;
      } else {
        assert WorkerLogged(s, s.workers[i]);
        if s.workers[i].Answered? || s.workers[i].SawOpen? {
          RanGrows(s.log, s'.log, |s.log|, |s'.log|, s.workers[i].job.ticket, s.workers[i].response);
        }
      }
    }
    forall i | 0 <= i < |s.history| ensures FrameLogged(s', s.history[i]) {
      FrameStaysLogged(s, w, x, i);
    }
  }

  /** A ticket about to run has no staged answer, so running it disturbs none. */
  lemma FrameStaysLogged(s: State, w: nat, x: Lin, i: nat)
    requires w < |s.workers| && s.workers[w].Popped? && x.ticket == s.workers[w].job.ticket
    requires i < |s.history| && FrameLogged(s, s.history[i])
    requires forall t: nat :: TicketInOnePlace(s, t)
    ensures FrameLogged(s.(log := s.log + [x]), s.history[i])
  {
    var f := s.history[i];
    if f.ticket.Some? {
      var t := f.ticket.value;
      if Ran(s.log, f.log, t, f.response) {
        RanGrows(s.log, s.log + [x], f.log, f.log, t, f.response);
      } else {
        AppendLog(s.log, x, t);
        assert TicketInOnePlace(s, t);
        FrameCounted(s.history, i, t);
        if x.ticket == t { WorkerCounted(s.workers, w, Holds(t)); }
      }
    }
  }

  lemma ConnKeepsLogged(s: State, a: ConnAct)
    requires ConnEnabled(s, a) && Known(s) && OutcomesLogged(s)
    requires forall t: nat :: RunsOnce(s, t)
    ensures OutcomesLogged(ConnApply(s, a))
  {
    if a.StageBusy? { NewBusyFrame(s); }
    hide Known, SerializeResponse, ConnAfter, ConnNext, CountLog, Ran, RunsOnce;
    var s' := ConnApply(s, a);
    assert s'.log == s.log && s'.workers == s.workers && s.submitted <= s'.submitted;
    forall i | 0 <= i < |s'.history| ensures FrameLogged(s', s'.history[i]) {
      if i < |s.history| { assert FrameLogged(s, s.history[i]); }
    }
  }

  lemma NewBusyFrame(s: State)
    requires s.loop.Busy? && Known(s)
    requires forall t: nat :: RunsOnce(s, t)
    ensures s.loop.job.ticket < |s.submitted| && s.submitted[s.loop.job.ticket] == s.loop.job
    ensures CountLog(s.log, s.loop.job.ticket) == 0
  {
    assert RunsOnce(s, s.loop.job.ticket) && JobOk(s, s.loop.job);
  }

  lemma StepKeepsLogged(s: State, st: Step)
    requires Enabled(s, st) && Known(s) && OutcomesLogged(s)
    requires forall t: nat :: TicketInOnePlace(s, t) && RunsOnce(s, t)
    ensures OutcomesLogged(Apply(s, st))
  {
    hide Known, TicketInOnePlace, RunsOnce, Ran, CountLog, WorkerApply, ControlNext, ListApply, ConnApply, TrySubmit;
    if st.Work? {
      WorkKeepsLogged(s, st.w, st.work);
    } else if st.OnConn? {
      ConnKeepsLogged(s, st.conn);
    } else {
      QuietSteps(s, st);
    }
  }

  lemma WorkKeepsStamps(s: State, w: nat, a: WorkerAct)
    requires WorkerEnabled(s, w, a) && Known(s) && StampsOk(s)
    ensures StampsOk(WorkerApply(s, w, a))
  {
    assert WorkerOk(s, s.workers[w]);
    hide Known, SerializeResponse, TheAnswer, WorkerNext, WorkerConnAfter;
    var s' := WorkerApply(s, w, a);
    assert s.log <= s'.log && s.history <= s'.history && s'.submitted == s.submitted;
  }

  lemma ConnKeepsStamps(s: State, a: ConnAct)
    requires ConnEnabled(s, a) && StampsOk(s)
    ensures StampsOk(ConnApply(s, a))
  {
    hide SerializeResponse, ConnAfter, ConnNext;
  }

  lemma StepKeepsStamps(s: State, st: Step)
    requires Enabled(s, st) && Known(s) && StampsOk(s)
    ensures StampsOk(Apply(s, st))
  {
    hide Known, WorkerApply, ControlNext, ListApply, ConnApply, TrySubmit;
    if st.Work? {
      WorkKeepsStamps(s, st.w, st.work);
    } else if st.OnConn? {
      ConnKeepsStamps(s, st.conn);
    } else {
      QuietSteps(s, st);
    }
  }
}
