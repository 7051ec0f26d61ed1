/** No lost wake-ups: the interest registered with epoll is the interest the counters call for, or somebody is
    about to have it recomputed. */
module ServerInterest {
  import opened Codec
  import opened Input
  import opened ServerModel
  import opened ServerCounts
  import opened ServerKnown

  // The three conditions update_interest reads one after the other.
  predicate BacklogOk(s: State, c: nat)
    requires c < |s.conns|
  {
    !s.draining && s.conns[c].out.pending <= s.p.maxOutput
  }

  predicate InflightOk(s: State, c: nat) requires c < |s.conns| { s.conns[c].inflight < s.p.maxInflight }
  predicate FlagOk(s: State, c: nat) requires c < |s.conns| { !s.conns[c].closeAfterFlush }

  /** What update_interest would register if it ran now without interference. */
  function Wanted(s: State, c: nat): Interest
    requires c < |s.conns|
  {
    Interest(BacklogOk(s, c) && InflightOk(s, c) && FlagOk(s, c), HasOutput(s.conns[c]))
  }

  /** A recomputation is on its way: the notify bit is set, or a worker that changed the connection has yet to
      try to set it. */
  predicate Dirty(s: State, c: nat)
    requires c < |s.conns|
  {
    s.conns[c].notified || CountWorkers(s.workers, Touched(c)) > 0
  }

  predicate Handled(l: Loop, c: nat) { HasConn(l) && l.c == c }

  predicate Updating(l: Loop, c: nat) { (l.Update1? || l.Update2? || l.Update3? || l.Update4?) && l.c == c }

  predicate InterestOk(s: State, c: nat) {
    IsOpen(s, c) && !Handled(s.loop, c) && c !in s.refresh ==> s.conns[c].interest == Wanted(s, c) || Dirty(s, c)
  }

  /** What update_interest has read so far is still true, or the connection is dirty. */
  predicate ReadsOk(s: State, c: nat) {
    IsOpen(s, c) && Updating(s.loop, c) && !s.loop.Update1? ==>
      || Dirty(s, c)
      || s.loop.mayRead ==
           (BacklogOk(s, c) && (s.loop.Update2? || (InflightOk(s, c) && (s.loop.Update3? || FlagOk(s, c)))))
  }

  /** A connection due to be closed once flushed is never left flushed and unnoticed. */
  predicate CloseOk(s: State, c: nat) {
    IsOpen(s, c) && (!Handled(s.loop, c) || Updating(s.loop, c)) ==>
      (s.conns[c].closeAfterFlush && !HasOutput(s.conns[c]) ==> Dirty(s, c))
  }

  predicate NoLostWakeup(s: State, c: nat) { InterestOk(s, c) && ReadsOk(s, c) && CloseOk(s, c) }

  /** Workers never clean a connection, and change nothing on an open one without leaving it dirty. */
  lemma WorkersOnlyDirty(s: State, w: nat, a: WorkerAct, c: nat)
    requires WorkerEnabled(s, w, a) && WorkerOk(s, s.workers[w]) && IsOpen(s, c)
    ensures var s' := WorkerApply(s, w, a);
      && s'.p == s.p && s'.loop == s.loop && s'.refresh == s.refresh && s'.draining == s.draining
      && IsOpen(s', c)
      && (Dirty(s, c) ==> Dirty(s', c))
      && (s'.conns[c] == s.conns[c] || Dirty(s', c))
  {
    hide SerializeResponse, TheAnswer, CountWorkers;
    ReplaceWorker(s.workers, w, WorkerNext(s, w, a), Touched(c));
    if Picks(Touched(c), WorkerNext(s, w, a)) {
      WorkerCounted(s.workers[w := WorkerNext(s, w, a)], w, Touched(c));
    }
  }

  lemma WorkersOpenNothing(s: State, w: nat, a: WorkerAct, c: nat)
    requires WorkerEnabled(s, w, a) && !IsOpen(s, c)
    ensures !IsOpen(WorkerApply(s, w, a), c)
  {
    hide SerializeResponse, TheAnswer, WorkerNext;
  }

  lemma WorkKeepsInterest(s: State, w: nat, a: WorkerAct, c: nat)
    requires WorkerEnabled(s, w, a) && Known(s) && NoLostWakeup(s, c)
    ensures NoLostWakeup(WorkerApply(s, w, a), c)
  {
    assert WorkerOk(s, s.workers[w]);
    hide Known, WorkerOk, WorkerEnabled, WorkerApply, CountWorkers;
    if IsOpen(s, c) { WorkersOnlyDirty(s, w, a, c); } else { WorkersOpenNothing(s, w, a, c); }
  }

  lemma ControlKeepsInterest(s: State, a: ControlAct, c: nat)
    requires ControlEnabled(s, a) && NoLostWakeup(s, c)
    ensures NoLostWakeup(s.(loop := ControlNext(s, a)), c)
  {
    hide CountWorkers, Verdict, CoversOpen;
  }

  lemma ListKeepsInterest(s: State, a: ListAct, c: nat)
    requires ListEnabled(s, a) && NoLostWakeup(s, c) && ValidParams(s.p)
    ensures NoLostWakeup(ListApply(s, a), c)
  {
    hide CountWorkers;
  }

  lemma ConnKeepsInterest(s: State, a: ConnAct, c: nat)
    requires ConnEnabled(s, a) && NoLostWakeup(s, c)
    ensures NoLostWakeup(ConnApply(s, a), c)
  {
    hide SerializeResponse, CountWorkers, ConnFrames, ConnJobs, Verdict, Peek, Receive, Extract;
  }

  lemma StepKeepsInterest(s: State, st: Step, c: nat)
    requires Enabled(s, st) && Known(s) && ValidParams(s.p) && NoLostWakeup(s, c)
    ensures NoLostWakeup(Apply(s, st), c)
  {
    hide Known, NoLostWakeup, WorkerApply, ControlNext, ListApply, ConnApply, TrySubmit;
    match st
    case Work(w, a) => WorkKeepsInterest(s, w, a, c);
    case Control(a) => ControlKeepsInterest(s, a, c);
    case Lists(a) => ListKeepsInterest(s, a, c);
    case OnConn(a) => ConnKeepsInterest(s, a, c);
    case Submit => QueueKeepsInterest(s, c);
    case Discard => QueueKeepsInterest(s, c);
  }

  lemma QueueKeepsInterest(s: State, c: nat)
    requires NoLostWakeup(s, c)
    ensures s.loop.Submitting? ==> NoLostWakeup(TrySubmit(s), c)
    ensures NoLostWakeup(s.(queue := [], discarded := s.discarded + s.queue), c)
  {
    hide CountWorkers;
  }
}
