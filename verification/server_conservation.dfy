/** Conservation in every reachable state: of in-flight requests, of tickets, of wake-up tokens. */
module ServerConservation {
  import opened Codec
  import opened ServerModel
  import opened ServerCounts
  import opened ServerKnown

  // ----- In-flight requests -----

  function InFlightWhere(s: State, c: nat): int {
    CountJobs(s.queue, Owes(c)) + CountWorkers(s.workers, Owes(c)) + One(PicksLoop(Owes(c), s.loop))
    + CountJobs(s.discarded, Owes(c))
  }

  /** A connection's in-flight number is its queued, executing, mid-submission and discarded jobs. */
  ghost predicate InFlightExact(s: State, c: nat) {
    c < |s.conns| ==> s.conns[c].inflight == InFlightWhere(s, c)
  }

  lemma WorkKeepsInFlight(s: State, w: nat, a: WorkerAct, c: nat)
    requires WorkerEnabled(s, w, a) && InFlightExact(s, c)
    ensures InFlightExact(WorkerApply(s, w, a), c)
  {
    hide SerializeResponse, TheAnswer, CountWorkers, CountJobs;
    ReplaceWorker(s.workers, w, WorkerNext(s, w, a), Owes(c));
    if a.Pop? { FirstJob(s.queue, Owes(c)); }
  }

  lemma ConnKeepsInFlight(s: State, a: ConnAct, c: nat)
    requires ConnEnabled(s, a) && InFlightExact(s, c) && LoopOk(s, s.loop)
    ensures InFlightExact(ConnApply(s, a), c)
  {
    hide SerializeResponse, CountWorkers, CountJobs;
  }

  lemma ControlKeepsInFlight(s: State, a: ControlAct, c: nat)
    requires ControlEnabled(s, a) && InFlightExact(s, c)
    ensures InFlightExact(s.(loop := ControlNext(s, a)), c)
  {
    hide CountWorkers, CountJobs;
  }

  lemma ListKeepsInFlight(s: State, a: ListAct, c: nat)
    requires ListEnabled(s, a) && InFlightExact(s, c) && Known(s)
    ensures InFlightExact(ListApply(s, a), c)
  {
    hide CountWorkers, CountJobs;
    if c == |s.conns| { NobodyOwes(s, c); }
  }

  /** A connection that does not exist yet has no jobs. */
  lemma NobodyOwes(s: State, c: nat)
    requires Known(s) && c >= |s.conns|
    ensures InFlightWhere(s, c) == 0
  {
    NoJob(s.queue, Owes(c));
    NoJob(s.discarded, Owes(c));
    forall i | 0 <= i < |s.workers| ensures !Picks(Owes(c), s.workers[i]) { assert WorkerOk(s, s.workers[i]); }
    NoWorker(s.workers, Owes(c));
  }

  lemma SubmitKeepsInFlight(s: State, c: nat)
    requires s.loop.Submitting? && InFlightExact(s, c)
    ensures InFlightExact(TrySubmit(s), c)
  {
    hide CountWorkers, CountJobs;
    AppendJob(s.queue, s.loop.job, Owes(c));
  }

  lemma DiscardKeepsInFlight(s: State, c: nat)
    requires InFlightExact(s, c)
    ensures InFlightExact(s.(queue := [], discarded := s.discarded + s.queue), c)
  {
    AppendJobs(s.discarded, s.queue, Owes(c));
  }

  lemma StepKeepsInFlight(s: State, st: Step, c: nat)
    requires Enabled(s, st) && Known(s) && InFlightExact(s, c)
    ensures InFlightExact(Apply(s, st), c)
  {
    assert LoopOk(s, s.loop);
    hide Known, InFlightExact, WorkerApply, ControlNext, ListApply, ConnApply, TrySubmit;
    match st
    case Work(w, a) => WorkKeepsInFlight(s, w, a, c);
    case Control(a) => ControlKeepsInFlight(s, a, c);
    case Lists(a) => ListKeepsInFlight(s, a, c);
    case OnConn(a) => ConnKeepsInFlight(s, a, c);
    case Submit => SubmitKeepsInFlight(s, c);
    case Discard => DiscardKeepsInFlight(s, c);
  }

  // ----- Tickets -----

  function TicketWhere(s: State, t: nat): nat {
    CountJobs(s.queue, Holds(t)) + CountWorkers(s.workers, Holds(t)) + One(PicksLoop(Holds(t), s.loop))
    + CountFrames(s.history, t) + CountOf(s.dropped, t) + CountJobs(s.discarded, Holds(t))
  }

  /** Every submitted request is in exactly one place: waiting, being handled, answered by one staged frame,
      dropped because its connection had closed, or discarded. */
  ghost predicate TicketInOnePlace(s: State, t: nat) {
    TicketWhere(s, t) == One(t < |s.submitted|)
  }

  lemma WorkKeepsTicket(s: State, w: nat, a: WorkerAct, t: nat)
    requires WorkerEnabled(s, w, a) && TicketInOnePlace(s, t)
    ensures TicketInOnePlace(WorkerApply(s, w, a), t)
  {
    hide SerializeResponse, TheAnswer, CountWorkers, CountJobs, CountFrames, CountOf, WorkerConnAfter;
    ReplaceWorker(s.workers, w, WorkerNext(s, w, a), Holds(t));
    match a
    case Pop => FirstJob(s.queue, Holds(t));
    case DropDecrement => AppendId(s.dropped, s.workers[w].job.ticket, t);
    case StageFrame =>
      AppendFrame(s.history, WorkerApply(s, w, a).history[|s.history|], t);
    case _ =>
  }

  lemma ConnKeepsTicket(s: State, a: ConnAct, t: nat)
    requires ConnEnabled(s, a) && TicketInOnePlace(s, t)
    ensures TicketInOnePlace(ConnApply(s, a), t)
  {
    hide SerializeResponse, CountWorkers, CountJobs, CountFrames, CountOf, ConnAfter;
    var fs := ConnFrames(s, a);
    if fs == [] { assert s.history + fs == s.history; } else { AppendFrame(s.history, fs[0], t); }
  }

  lemma ControlKeepsTicket(s: State, a: ControlAct, t: nat)
    requires ControlEnabled(s, a) && TicketInOnePlace(s, t)
    ensures TicketInOnePlace(s.(loop := ControlNext(s, a)), t)
  {
    hide CountWorkers, CountJobs, CountFrames, CountOf;
  }

  lemma ListKeepsTicket(s: State, a: ListAct, t: nat)
    requires ListEnabled(s, a) && TicketInOnePlace(s, t)
    ensures TicketInOnePlace(ListApply(s, a), t)
  {
    hide CountWorkers, CountJobs, CountFrames, CountOf;
  }

  lemma StepKeepsTicket(s: State, st: Step, t: nat)
    requires Enabled(s, st) && TicketInOnePlace(s, t)
    ensures TicketInOnePlace(Apply(s, st), t)
  {
    hide TicketInOnePlace, WorkerApply, ControlNext, ListApply, ConnApply, TrySubmit;
    match st
    case Work(w, a) => WorkKeepsTicket(s, w, a, t);
    case Control(a) => ControlKeepsTicket(s, a, t);
    case Lists(a) => ListKeepsTicket(s, a, t);
    case OnConn(a) => ConnKeepsTicket(s, a, t);
    case Submit => SubmitKeepsTicket(s, t);
    case Discard => DiscardKeepsTicket(s, t);
  }

  lemma SubmitKeepsTicket(s: State, t: nat)
    requires s.loop.Submitting? && TicketInOnePlace(s, t)
    ensures TicketInOnePlace(TrySubmit(s), t)
  {
    hide CountWorkers, CountJobs, CountFrames, CountOf;
    AppendJob(s.queue, s.loop.job, Holds(t));
  }

  lemma DiscardKeepsTicket(s: State, t: nat)
    requires TicketInOnePlace(s, t)
    ensures TicketInOnePlace(s.(queue := [], discarded := s.discarded + s.queue), t)
  {
    AppendJobs(s.discarded, s.queue, Holds(t));
  }

  // ----- Wake-up tokens -----

  function TokensWhere(s: State, c: nat): nat {
    CountWorkers(s.workers, Token(c)) + CountOf(s.ready, c) + CountOf(s.todo, c)
  }

  /** The notify bit is set exactly while one token for the connection exists: with a worker between claiming
      the bit and pushing, in the ready list, or in the part of the swapped list still to be cleared. */
  ghost predicate OneToken(s: State, c: nat) {
    c < |s.conns| ==> TokensWhere(s, c) == One(s.conns[c].notified)
  }

  ghost predicate SwapIsEmpty(s: State) { s.loop.EventfdRead? ==> s.todo == [] && s.refresh == [] }

  lemma WorkKeepsToken(s: State, w: nat, a: WorkerAct, c: nat)
    requires WorkerEnabled(s, w, a) && OneToken(s, c)
    ensures OneToken(WorkerApply(s, w, a), c)
  {
    hide SerializeResponse, TheAnswer, CountWorkers, CountOf;
    ReplaceWorker(s.workers, w, WorkerNext(s, w, a), Token(c));
    if a.Push? { AppendId(s.ready, s.workers[w].conn, c); }
  }

  lemma ConnKeepsToken(s: State, a: ConnAct, c: nat)
    requires ConnEnabled(s, a) && OneToken(s, c)
    ensures OneToken(ConnApply(s, a), c)
  {
    hide SerializeResponse, CountWorkers, CountOf, ConnNext, ConnFrames, ConnJobs;
  }

  lemma ListKeepsToken(s: State, a: ListAct, c: nat)
    requires ListEnabled(s, a) && OneToken(s, c) && SwapIsEmpty(s) && Known(s)
    ensures OneToken(ListApply(s, a), c)
  {
    hide CountWorkers;
    if a.ClearNext? {
      FirstId(s.todo, c);
    } else if a.Accept? && c == |s.conns| {
      NoTokens(s, c);
    }
  }

  lemma NoTokens(s: State, c: nat)
    requires Known(s) && c >= |s.conns|
    ensures TokensWhere(s, c) == 0
  {
    NoId(s.ready, c);
    NoId(s.todo, c);
    forall i | 0 <= i < |s.workers| ensures !Picks(Token(c), s.workers[i]) { assert WorkerOk(s, s.workers[i]); }
    NoWorker(s.workers, Token(c));
  }

  lemma StepKeepsToken(s: State, st: Step, c: nat)
    requires Enabled(s, st) && Known(s) && SwapIsEmpty(s) && OneToken(s, c)
    ensures OneToken(Apply(s, st), c)
  {
    if st.Work? || st.Lists? || st.OnConn? {
      hide Known, OneToken, WorkerApply, ControlNext, ListApply, ConnApply, TrySubmit;
      match st
      case Work(w, a) => WorkKeepsToken(s, w, a, c);
      case Lists(a) => ListKeepsToken(s, a, c);
      case OnConn(a) => ConnKeepsToken(s, a, c);
    }
  }

  lemma StepKeepsSwapEmpty(s: State, st: Step)
    requires Enabled(s, st) && SwapIsEmpty(s)
    ensures SwapIsEmpty(Apply(s, st))
  {
    hide SerializeResponse, TheAnswer, WorkerNext, WorkerConnAfter, ConnAfter, ConnFrames, ConnJobs, Verdict, Peek,
         CoversOpen;
  }

  // ----- The eventfd -----

  /** Connections in the ready list are never forgotten: the eventfd is non-zero, or about to be, or the loop has
      read it and is about to take the list. */
  ghost predicate ReadyIsAnnounced(s: State) {
    s.ready != [] ==> s.eventfd > 0 || CountWorkers(s.workers, Signalling) > 0 || s.loop.EventfdRead?
  }

  lemma WorkKeepsAnnounced(s: State, w: nat, a: WorkerAct)
    requires WorkerEnabled(s, w, a) && ReadyIsAnnounced(s)
    ensures ReadyIsAnnounced(WorkerApply(s, w, a))
  {
    hide SerializeResponse, TheAnswer, WorkerConnAfter, CountWorkers;
    ReplaceWorker(s.workers, w, WorkerNext(s, w, a), Signalling);
  }

  lemma StepKeepsAnnounced(s: State, st: Step)
    requires Enabled(s, st) && ReadyIsAnnounced(s)
    ensures ReadyIsAnnounced(Apply(s, st))
  {
    hide SerializeResponse, WorkerApply, ConnAfter, ConnFrames, ConnJobs, CountWorkers;
    if st.Work? { WorkKeepsAnnounced(s, st.w, st.work); }
  }
}
