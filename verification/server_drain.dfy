/** The in-flight cap and the drain check at shutdown. */
module ServerDrain {
  import opened Codec
  import opened Output
  import opened ServerModel
  import opened ServerCounts
  import opened ServerConservation
  import opened ServerOutput

  // ----- The in-flight cap -----

  /** At most `max_inflight` unanswered requests; strictly fewer once the limit check has passed. */
  ghost predicate WithinCap(s: State, c: nat) {
    c < |s.conns| ==>
      && s.conns[c].inflight <= s.p.maxInflight
      && (s.loop == Parse(c) ==> s.conns[c].inflight < s.p.maxInflight)
  }

  lemma WorkKeepsCap(s: State, w: nat, a: WorkerAct, c: nat)
    requires WorkerEnabled(s, w, a) && WithinCap(s, c)
    ensures WithinCap(WorkerApply(s, w, a), c)
  {
    hide SerializeResponse, TheAnswer, WorkerNext;
  }

  lemma ConnKeepsCap(s: State, a: ConnAct, c: nat)
    requires ConnEnabled(s, a) && WithinCap(s, c)
    ensures WithinCap(ConnApply(s, a), c)
  {
    hide SerializeResponse, ConnFrames, ConnJobs;
  }

  lemma StepKeepsCap(s: State, st: Step, c: nat)
    requires Enabled(s, st) && WithinCap(s, c)
    ensures WithinCap(Apply(s, st), c)
  {
    hide WorkerApply, ControlNext, ListApply, ConnApply, TrySubmit, WithinCap;
    match st
    case Work(w, a) => WorkKeepsCap(s, w, a, c);
    case Control(a) => ControlKeepsCap(s, a, c);
    case OnConn(a) => ConnKeepsCap(s, a, c);
    case _ => OthersKeepCap(s, st, c);
  }

  lemma ControlKeepsCap(s: State, a: ControlAct, c: nat)
    requires ControlEnabled(s, a) && WithinCap(s, c)
    ensures WithinCap(s.(loop := ControlNext(s, a)), c)
  {
  }

  lemma OthersKeepCap(s: State, st: Step, c: nat)
    requires Enabled(s, st) && (st.Lists? || st.Submit? || st.Discard?) && WithinCap(s, c)
    ensures WithinCap(Apply(s, st), c)
  {
    hide ListApply, CoversOpen;
    if st.Lists? { ListKeepsCap(s, st.list, c); }
  }

  lemma ListKeepsCap(s: State, a: ListAct, c: nat)
    requires ListEnabled(s, a) && WithinCap(s, c)
    ensures WithinCap(ListApply(s, a), c)
  {
    hide CoversOpen;
  }

  // ----- drain_complete -----

  /** Nothing in flight and nothing unsent. */
  predicate Settled(s: State, c: nat)
    requires c < |s.conns|
  {
    s.conns[c].inflight == 0 && s.conns[c].out.pending == 0
  }

  /** drain_complete reads two counters per connection while workers run. What it has already read still holds:
      a connection it has passed is settled, and one whose in-flight count it has read still has none. */
  ghost predicate DrainReadsHold(s: State, c: nat) {
    IsOpen(s, c) ==>
      && (s.loop.DrainInflight? && c !in s.loop.rest ==> Settled(s, c))
      && (s.loop.DrainPending? && c !in s.loop.rest ==> Settled(s, c))
      && (s.loop.DrainPending? && s.loop.rest != [] && s.loop.rest[0] == c ==> s.conns[c].inflight == 0)
  }

  /** Reading in-flight before output is what makes the check sound: with nothing in flight, no worker can touch
      the connection again. */
  lemma NothingInFlightIsStable(s: State, w: nat, a: WorkerAct, c: nat)
    requires WorkerEnabled(s, w, a) && InFlightExact(s, c) && IsOpen(s, c) && s.conns[c].inflight == 0
    ensures var s' := WorkerApply(s, w, a); s'.conns[c].inflight == 0 && s'.conns[c].out == s.conns[c].out
  {
    hide SerializeResponse, TheAnswer, CountWorkers, CountJobs;
    if Picks(Owes(c), s.workers[w]) { WorkerCounted(s.workers, w, Owes(c)); }
  }

  lemma WorkKeepsDrainReads(s: State, w: nat, a: WorkerAct, c: nat)
    requires WorkerEnabled(s, w, a) && InFlightExact(s, c) && DrainReadsHold(s, c)
    ensures DrainReadsHold(WorkerApply(s, w, a), c)
  {
    hide SerializeResponse, TheAnswer, WorkerNext, InFlightExact;
    if IsOpen(s, c) && s.conns[c].inflight == 0 { NothingInFlightIsStable(s, w, a, c); }
  }

  lemma ControlKeepsDrainReads(s: State, a: ControlAct, c: nat)
    requires ControlEnabled(s, a) && InFlightExact(s, c) && OutputExact(s, c) && DrainReadsHold(s, c)
    ensures DrainReadsHold(s.(loop := ControlNext(s, a)), c)
  {
    hide CountWorkers, CountJobs, Total;
  }

  lemma OthersKeepDrainReads(s: State, st: Step, c: nat)
    requires Enabled(s, st) && (st.Lists? || st.Submit? || st.Discard? || st.OnConn?) && DrainReadsHold(s, c)
    ensures DrainReadsHold(Apply(s, st), c)
  {
    hide ConnAfter, ConnFrames, ConnJobs, Verdict, Peek, CoversOpen;
  }

  lemma StepKeepsDrainReads(s: State, st: Step, c: nat)
    requires Enabled(s, st) && InFlightExact(s, c) && OutputExact(s, c) && DrainReadsHold(s, c)
    ensures DrainReadsHold(Apply(s, st), c)
  {
    hide InFlightExact, OutputExact, WorkerApply, ControlNext, ListApply, ConnApply, TrySubmit, DrainReadsHold;
    match st
    case Work(w, a) => WorkKeepsDrainReads(s, w, a, c);
    case Control(a) => ControlKeepsDrainReads(s, a, c);
    case _ => OthersKeepDrainReads(s, st, c);
  }

  // ----- Nothing new while draining -----

  /** The loop is taking requests from a connection's input. */
  predicate Taking(l: Loop) { l.Process? || l.Parse? || l.Submitting? || l.Busy? || l.BusyStaged? || l.Refused? }

  /** ... which it never does while draining; and drain_complete goes on only with an empty queue. */
  ghost predicate DrainTakesNothing(s: State) {
    && (s.draining ==> !Taking(s.loop))
    && (s.loop.DrainInflight? || s.loop.DrainPending? ==> s.draining && s.queue == [])
  }

  lemma StepKeepsDrainClosed(s: State, st: Step)
    requires Enabled(s, st) && DrainTakesNothing(s)
    ensures DrainTakesNothing(Apply(s, st))
  {
    hide WorkerApply, ControlNext, ConnApply, CoversOpen;
    match st
    case Work(w, a) => WorkLeavesDraining(s, w, a);
    case Control(a) => ControlTakesNothing(s, a);
    case OnConn(a) => ConnTakesNothing(s, a);
    case _ =>
  }

  lemma WorkLeavesDraining(s: State, w: nat, a: WorkerAct)
    requires WorkerEnabled(s, w, a)
    ensures var s' := WorkerApply(s, w, a);
      && s'.loop == s.loop && s'.draining == s.draining && s'.submitted == s.submitted
      && (s.queue == [] ==> s'.queue == [])
  {
    hide SerializeResponse, TheAnswer, WorkerNext, WorkerConnAfter;
  }

  lemma ControlTakesNothing(s: State, a: ControlAct)
    requires ControlEnabled(s, a) && DrainTakesNothing(s)
    ensures DrainTakesNothing(s.(loop := ControlNext(s, a)))
  {
    hide Verdict, CoversOpen;
  }

  lemma ConnTakesNothing(s: State, a: ConnAct)
    requires ConnEnabled(s, a)
    ensures ConnApply(s, a).draining == s.draining
    ensures s.draining && !Taking(s.loop) ==>
      !Taking(ConnApply(s, a).loop) && ConnApply(s, a).submitted == s.submitted
    ensures !ConnApply(s, a).loop.DrainInflight? && !ConnApply(s, a).loop.DrainPending?
  {
    hide SerializeResponse, ConnAfter, ConnFrames, Verdict, Peek;
    assert s.submitted + [] == s.submitted;
  }

  /** Once shutdown has begun no step submits a request, and none ends the shutdown. */
  lemma DrainingSubmitsNothing(s: State, st: Step)
    requires Enabled(s, st) && s.draining && DrainTakesNothing(s)
    ensures Apply(s, st).draining && Apply(s, st).submitted == s.submitted
  {
    hide WorkerApply, ControlNext, ConnApply, CoversOpen;
    match st
    case Work(w, a) => WorkLeavesDraining(s, w, a);
    case OnConn(a) => ConnTakesNothing(s, a);
    case _ =>
  }
}
