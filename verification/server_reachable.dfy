/** The invariant of the server: it holds at the start, every step keeps it, so it holds in every reachable state. */
module ServerReachable {
  import opened Protocol
  import opened Codec
  import opened ServerModel
  import opened ServerCounts
  import opened ServerKnown
  import opened ServerConservation
  import opened ServerInterest
  import opened ServerOutput
  import opened ServerLinear
  import opened ServerDrain
  import opened ServerInput
  import opened ServerBacklog
  import opened ServerMarks
  import opened ServerQueue
  import opened ServerPulls

  ghost predicate ConnInv(s: State, c: nat) {
    && InFlightExact(s, c) && OneToken(s, c) && NoLostWakeup(s, c)
    && OutputExact(s, c) && WithinCap(s, c) && DrainReadsHold(s, c)
    && InputExact(s, c) && RefusalsExact(s, c) && CapNoticed(s, c) && MarksOk(s, c)
    && RefusedIsMarked(s, c) && PullsOk(s, c) && AnswersOk(s, c)
  }

  ghost predicate TicketInv(s: State, t: nat) { TicketInOnePlace(s, t) && RunsOnce(s, t) }

  ghost predicate GlobalInv(s: State) {
    && ValidParams(s.p) && Known(s) && SwapIsEmpty(s) && ReadyIsAnnounced(s)
    && ResponsesFit(s) && LogOk(s) && OutcomesLogged(s) && StampsOk(s) && RequestsFit(s) && DrainTakesNothing(s)
    && QueueOk(s)
  }

  /** Jobs come from the parser, and none is discarded while the loop runs. */
  ghost predicate RequestsFit(s: State) {
    && (forall t :: 0 <= t < |s.submitted| ==> RequestOk(s.submitted[t].request, s.p.wire))
    && (s.running ==> s.discarded == [])
  }

  ghost predicate Inv(s: State) {
    && GlobalInv(s)
    && (forall c: nat :: ConnInv(s, c))
    && (forall t: nat :: TicketInv(s, t))
  }

  lemma StepKeepsConnInv(s: State, st: Step, c: nat)
    requires Enabled(s, st) && GlobalInv(s) && ConnInv(s, c)
    ensures ConnInv(Apply(s, st), c)
  {
    hide Enabled, Apply, Known, InFlightExact, OneToken, NoLostWakeup, OutputExact, WithinCap, DrainReadsHold,
         InputExact, RefusalsExact, CapNoticed, MarksOk, RefusedIsMarked, PullsOk, AnswersOk;
    StepKeepsInFlight(s, st, c);
    StepKeepsToken(s, st, c);
    StepKeepsInterest(s, st, c);
    StepKeepsOutput(s, st, c);
    StepKeepsCap(s, st, c);
    StepKeepsDrainReads(s, st, c);
    StepKeepsInput(s, st, c);
    StepKeepsRefusals(s, st, c);
    StepKeepsNoticed(s, st, c);
    StepKeepsMarks(s, st, c);
    StepKeepsRefused(s, st, c);
    StepKeepsPulls(s, st, c);
    StepKeepsAnswers(s, st, c);
  }

  lemma StepKeepsTicketInv(s: State, st: Step, t: nat)
    requires Enabled(s, st) && TicketInv(s, t)
    ensures TicketInv(Apply(s, st), t)
  {
    hide Enabled, Apply, TicketInOnePlace, RunsOnce;
    StepKeepsTicket(s, st, t);
    StepKeepsOnce(s, st, t);
  }

  lemma StepKeepsGlobalInv(s: State, st: Step)
    requires Enabled(s, st) && Inv(s)
    ensures GlobalInv(Apply(s, st))
  {
    assert forall t: nat :: TicketInOnePlace(s, t) && RunsOnce(s, t) by {
      forall t: nat ensures TicketInOnePlace(s, t) && RunsOnce(s, t) { assert TicketInv(s, t); }
    }
    StepKeepsParams(s, st);
    hide Enabled, Apply, Known, TicketInOnePlace, RunsOnce, ConnInv, SwapIsEmpty, ReadyIsAnnounced, ResponsesFit, LogOk,
         OutcomesLogged, StampsOk, RequestsFit, DrainTakesNothing, QueueOk;
    StepKeepsKnown(s, st);
    StepKeepsSwapEmpty(s, st);
    StepKeepsAnnounced(s, st);
    StepKeepsFit(s, st);
    StepKeepsLog(s, st);
    StepKeepsLogged(s, st);
    StepKeepsStamps(s, st);
    StepKeepsRequestsFit(s, st);
    StepKeepsDrainClosed(s, st);
    StepKeepsQueue(s, st);
  }

  lemma StepKeepsRequestsFit(s: State, st: Step)
    requires Enabled(s, st) && RequestsFit(s)
    ensures RequestsFit(Apply(s, st))
  {
    if st.Work? {
      WorkKeepsRequestsFit(s, st.w, st.work);
    } else if st.OnConn? {
      ConnKeepsRequestsFit(s, st.conn);
    } else {
      QuietSteps(s, st);
      hide RequestOk, ControlEnabled, ControlNext;
    }
  }

  lemma WorkKeepsRequestsFit(s: State, w: nat, a: WorkerAct)
    requires WorkerEnabled(s, w, a) && RequestsFit(s)
    ensures RequestsFit(WorkerApply(s, w, a))
  {
    hide SerializeResponse, TheAnswer, WorkerConnAfter, WorkerNext, RequestOk;
  }

  lemma ConnKeepsRequestsFit(s: State, a: ConnAct)
    requires ConnEnabled(s, a) && RequestsFit(s)
    ensures RequestsFit(ConnApply(s, a))
  {
    if a.GotRequest? { ParsedIsOk(s.conns[s.loop.c].input.unparsed, s.p.wire); }
    hide SerializeResponse, ConnAfter, ConnNext, ConnFrames, RequestOk, ParseRequest, Peek;
  }

  lemma ParsedIsOk(s: Bytes, l: Limits)
    requires ParseRequest(s, l).Complete?
    ensures RequestOk(ParseRequest(s, l).frame, l)
  {
    RequestParsesExactly(s, l, ParseRequest(s, l).frame, ParseRequest(s, l).consumed);
  }

  lemma StepKeepsParams(s: State, st: Step)
    requires Enabled(s, st)
    ensures Apply(s, st).p == s.p && |Apply(s, st).workers| == |s.workers|
  {
    if st.Work? || st.OnConn? {
      hide SerializeResponse, TheAnswer, ConnAfter, ConnNext, ConnFrames, ConnJobs, WorkerConnAfter, WorkerNext,
           Verdict, Peek;
    } else {
      QuietSteps(s, st);
      hide Apply, Enabled;
    }
  }

  lemma StartHoldsInv(p: Params, threads: nat)
    requires ValidParams(p)
    ensures Inv(Start(p, threads))
  {
    var s := Start(p, threads);
    forall c: nat ensures ConnInv(s, c) { }
    forall t: nat ensures TicketInv(s, t) {
      NoWorker(s.workers, Holds(t));
      NoWorker(s.workers, Waits(t));
    }
  }

  lemma {:induction false} RunKeepsInv(p: Params, threads: nat, steps: seq<Step>)
    requires ValidParams(p) && IsRun(Start(p, threads), steps)
    ensures Inv(After(Start(p, threads), steps))
    ensures After(Start(p, threads), steps).p == p && |After(Start(p, threads), steps).workers| == threads
  {
    var start := Start(p, threads);
    if steps == [] {
      StartHoldsInv(p, threads);
    } else {
      var before, st := steps[..|steps| - 1], steps[|steps| - 1];
      RunKeepsInv(p, threads, before);
      var s := After(start, before);
      hide Enabled, Apply, GlobalInv, ConnInv, TicketInv;
      StepKeepsGlobalInv(s, st);
      forall c: nat { StepKeepsConnInv(s, st, c); }
      forall t: nat { StepKeepsTicketInv(s, st, t); }
      StepKeepsParams(s, st);
    }
  }

  /** A state some run of the server leads to. */
  ghost predicate Reachable(p: Params, threads: nat, s: State) {
    ValidParams(p) && exists steps :: IsRun(Start(p, threads), steps) && After(Start(p, threads), steps) == s
  }

  lemma ReachableInv(p: Params, threads: nat, s: State)
    requires Reachable(p, threads, s)
    ensures Inv(s) && s.p == p
  {
    var steps :| IsRun(Start(p, threads), steps) && After(Start(p, threads), steps) == s;
    RunKeepsInv(p, threads, steps);
  }

  lemma ReachableConn(p: Params, threads: nat, s: State, c: nat)
    requires Reachable(p, threads, s)
    ensures s.p == p && GlobalInv(s) && ConnInv(s, c)
  {
    ReachableInv(p, threads, s);
  }

  lemma StartReachable(p: Params, threads: nat)
    requires ValidParams(p)
    ensures Reachable(p, threads, Start(p, threads))
  {
    assert IsRun(Start(p, threads), []) && After(Start(p, threads), []) == Start(p, threads);
  }

  lemma ReachableStep(p: Params, threads: nat, s: State, st: Step)
    requires Reachable(p, threads, s) && Enabled(s, st)
    ensures Reachable(p, threads, Apply(s, st))
  {
    hide Enabled, Apply;
    var start := Start(p, threads);
    var steps :| IsRun(start, steps) && After(start, steps) == s;
    var more := steps + [st];
    assert more[..|more| - 1] == steps;
    assert IsRun(start, more) && After(start, more) == Apply(s, st);
  }

  lemma ReachableTicket(p: Params, threads: nat, s: State, t: nat)
    requires Reachable(p, threads, s)
    ensures s.p == p && GlobalInv(s) && TicketInv(s, t)
  {
    ReachableInv(p, threads, s);
  }

  /** What is reached from a reachable state is reachable. */
  lemma {:induction false} ReachableRun(p: Params, threads: nat, s: State, steps: seq<Step>)
    requires Reachable(p, threads, s) && IsRun(s, steps)
    ensures Reachable(p, threads, After(s, steps))
  {
    hide Reachable, Enabled, Apply;
    if steps != [] {
      var before := steps[..|steps| - 1];
      ReachableRun(p, threads, s, before);
      ReachableStep(p, threads, After(s, before), steps[|steps| - 1]);
    }
  }

  lemma ReachableKnown(p: Params, threads: nat, s: State)
    requires Reachable(p, threads, s)
    ensures Known(s) && |s.workers| == threads
  {
    var steps :| IsRun(Start(p, threads), steps) && After(Start(p, threads), steps) == s;
    RunKeepsInv(p, threads, steps);
  }

  /** Some run leads from `s` to `s'`. */
  ghost predicate Leads(s: State, s': State) { exists steps :: IsRun(s, steps) && After(s, steps) == s' }

  lemma LeadsSelf(s: State)
    ensures Leads(s, s)
  {
    assert IsRun(s, []) && After(s, []) == s;
  }

  lemma LeadsStep(s: State, s': State, st: Step)
    requires Leads(s, s') && Enabled(s', st)
    ensures Leads(s, Apply(s', st))
  {
    hide Enabled, Apply;
    var steps :| IsRun(s, steps) && After(s, steps) == s';
    RunStep(s, steps, st);
  }

  lemma RunStep(s: State, steps: seq<Step>, st: Step)
    requires IsRun(s, steps) && Enabled(After(s, steps), st)
    ensures IsRun(s, steps + [st]) && After(s, steps + [st]) == Apply(After(s, steps), st)
  {
    hide Enabled, Apply;
    assert (steps + [st])[..|steps|] == steps;
  }

  lemma ReachableLeads(p: Params, threads: nat, s: State, s': State)
    requires Reachable(p, threads, s) && Leads(s, s')
    ensures Reachable(p, threads, s')
  {
    var steps :| IsRun(s, steps) && After(s, steps) == s';
    hide Reachable;
    ReachableRun(p, threads, s, steps);
  }
}
