/** The bounded queue: never longer than configured, and SERVER_BUSY exactly for what it refuses. */
module ServerQueue {
  import opened Protocol
  import opened Codec
  import opened ServerModel

  /** The queue is within its bound; a request is refused only by a full queue, and only a refused one is answered
      SERVER_BUSY. */
  ghost predicate QueueOk(s: State) {
    && |s.queue| <= s.p.maxPending
    && (s.loop.Busy? ==> s.loop.queued == s.p.maxPending)
    && (forall w :: 0 <= w < |s.workers| && (s.workers[w].Answered? || s.workers[w].SawOpen?) ==>
          s.workers[w].response.status != ServerBusy)
    && (forall i :: 0 <= i < |s.history| ==> BusyOk(s.history[i], s.p.maxPending))
  }

  predicate BusyOk(f: Frame, maxPending: nat) {
    f.response.status == ServerBusy ==> f.ticket.Some? && f.queued == maxPending
  }

  lemma AnswerIsNotBusy(cache: seq<L.Entry>, r: Request, stats: Bytes, lim: L.CacheLimits)
    ensures Answer(cache, r, stats, lim).response.status != ServerBusy
  {
  }

  lemma WorkKeepsQueue(s: State, w: nat, a: WorkerAct)
    requires WorkerEnabled(s, w, a) && QueueOk(s)
    ensures QueueOk(WorkerApply(s, w, a))
  {
    if a.Execute? { AnswerIsNotBusy(s.cache, s.workers[w].job.request, a.stats, s.p.cache); }
    hide SerializeResponse, Answer, WorkerConnAfter;
  }

  lemma ControlKeepsQueue(s: State, a: ControlAct)
    requires ControlEnabled(s, a) && QueueOk(s)
    ensures QueueOk(s.(loop := ControlNext(s, a)))
  {
    hide Verdict, CoversOpen, BusyOk;
  }

  lemma ListKeepsQueue(s: State, a: ListAct)
    requires ListEnabled(s, a) && QueueOk(s)
    ensures QueueOk(ListApply(s, a))
  {
    hide CoversOpen, BusyOk;
  }

  lemma ConnKeepsQueue(s: State, a: ConnAct)
    requires ConnEnabled(s, a) && QueueOk(s)
    ensures QueueOk(ConnApply(s, a))
  {
    hide SerializeResponse, ConnAfter, ConnJobs, Verdict, Peek;
    var s' := ConnApply(s, a);
    forall i | 0 <= i < |s'.history| ensures BusyOk(s'.history[i], s.p.maxPending) {
      if i < |s.history| { assert BusyOk(s.history[i], s.p.maxPending); }
    }
  }

  lemma StepKeepsQueue(s: State, st: Step)
    requires Enabled(s, st) && QueueOk(s)
    ensures QueueOk(Apply(s, st))
  {
    hide WorkerApply, ControlNext, ListApply, ConnApply, BusyOk;
    match st
    case Work(w, a) => WorkKeepsQueue(s, w, a);
    case Control(a) => ControlKeepsQueue(s, a);
    case Lists(a) => ListKeepsQueue(s, a);
    case OnConn(a) => ConnKeepsQueue(s, a);
    case _ =>
  }
}
