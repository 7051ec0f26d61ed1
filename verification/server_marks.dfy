/** Why a connection is marked for closing: its client sent something malformed, or its backlog was over the cap. */
module ServerMarks {
  import opened Codec
  import opened Output
  import opened ServerModel
  import opened ServerCounts
  import opened ServerKnown

  /** Some frame was staged on the connection with which its backlog was over the hard cap. */
  ghost predicate WasOver(s: State, c: nat) { exists i :: OverWith(s, c, i) }

  predicate OverWith(s: State, c: nat, i: nat) {
    i < |s.history| && s.history[i].conn == c && s.history[i].backlog > HardCap(s.p.maxOutput)
  }

  /** There is a reason to close the connection. */
  ghost predicate Deserves(s: State, c: nat)
    requires c < |s.conns|
  {
    Verdict(s, c).Malformed? || WasOver(s, c)
  }

  /** Marked only for a reason. */
  ghost predicate MarksOk(s: State, c: nat) {
    && (IsOpen(s, c) && (s.conns[c].closeAfterFlush || CountWorkers(s.workers, Marking(c)) > 0) ==> Deserves(s, c))
    && (c < |s.conns| && s.loop.Refused? && s.loop.c == c ==> Verdict(s, c).Malformed?)
  }

  lemma OverStays(s: State, s': State, c: nat)
    requires s'.p == s.p && s.history <= s'.history && WasOver(s, c)
    ensures WasOver(s', c)
  {
    var i :| OverWith(s, c, i);
    assert OverWith(s', c, i);
  }

  lemma WorkKeepsMarks(s: State, w: nat, a: WorkerAct, c: nat)
    requires WorkerEnabled(s, w, a) && WorkerOk(s, s.workers[w]) && MarksOk(s, c)
    ensures MarksOk(WorkerApply(s, w, a), c)
  {
    var s' := WorkerApply(s, w, a);
    WorkOnMarks(s, w, a, c);
    ReplaceWorker(s.workers, w, WorkerNext(s, w, a), Marking(c));
    if Picks(Marking(c), s.workers[w]) { WorkerCounted(s.workers, w, Marking(c)); }
    hide WorkerApply, WorkerOk, CountWorkers, HardCap, ParseRequest;
    if WasOver(s, c) { OverStays(s, s', c); }
    if a.StageFrame? && IsOpen(s, c) && Picks(Marking(c), s'.workers[w]) { assert OverWith(s', c, |s.history|); }
  }

  /** What a worker step does to what marks rest on. */
  lemma WorkOnMarks(s: State, w: nat, a: WorkerAct, c: nat)
    requires WorkerEnabled(s, w, a) && WorkerOk(s, s.workers[w])
    ensures var s' := WorkerApply(s, w, a);
      && s'.p == s.p && s'.loop == s.loop && |s'.conns| == |s.conns| && s.history <= s'.history
      && s'.workers == s.workers[w := WorkerNext(s, w, a)]
      && (IsOpen(s', c) <==> IsOpen(s, c)) && (c < |s.conns| ==> s'.conns[c].input == s.conns[c].input)
    ensures var s' := WorkerApply(s, w, a);
      IsOpen(s, c) && s'.conns[c].closeAfterFlush && !s.conns[c].closeAfterFlush ==> Picks(Marking(c), s.workers[w])
    ensures IsOpen(s, c) && Picks(Marking(c), WorkerNext(s, w, a)) && !a.StageFrame? ==> Picks(Marking(c), s.workers[w])
    ensures var s' := WorkerApply(s, w, a);
      IsOpen(s, c) && Picks(Marking(c), WorkerNext(s, w, a)) && a.StageFrame? ==> OverWith(s', c, |s.history|)
  {
    hide SerializeResponse, TheAnswer, HardCap;
  }

  lemma ControlKeepsMarks(s: State, a: ControlAct, c: nat)
    requires ControlEnabled(s, a) && MarksOk(s, c)
    ensures MarksOk(s.(loop := ControlNext(s, a)), c)
  {
    hide ParseRequest, CountWorkers, CoversOpen, HardCap;
    var s' := s.(loop := ControlNext(s, a));
    if WasOver(s, c) { OverStays(s, s', c); }
  }

  lemma ListKeepsMarks(s: State, a: ListAct, c: nat)
    requires ListEnabled(s, a) && MarksOk(s, c) && Known(s)
    ensures MarksOk(ListApply(s, a), c)
  {
    hide ParseRequest, CountWorkers, CoversOpen, HardCap;
    var s' := ListApply(s, a);
    if WasOver(s, c) { OverStays(s, s', c); }
    if a.Accept? && c == |s.conns| { NobodyMarks(s, c); }
  }

  lemma NobodyMarks(s: State, c: nat)
    requires Known(s) && c >= |s.conns|
    ensures CountWorkers(s.workers, Marking(c)) == 0
  {
    forall i | 0 <= i < |s.workers| ensures !Picks(Marking(c), s.workers[i]) { assert WorkerOk(s, s.workers[i]); }
    NoWorker(s.workers, Marking(c));
  }

  lemma ConnKeepsMarks(s: State, a: ConnAct, c: nat)
    requires ConnEnabled(s, a) && MarksOk(s, c)
    ensures MarksOk(ConnApply(s, a), c)
  {
    var s' := ConnApply(s, a);
    ConnOnMarks(s, a, c);
    if c < |s.conns| && Verdict(s, c).Malformed? && c == s.loop.c && a.ReadOk? {
      RequestVerdictStable(s.conns[c].input.unparsed, s.p.wire, a.chunk);
    }
    hide ConnApply, ConnEnabled, CountWorkers, HardCap, ParseRequest;
    if WasOver(s, c) { OverStays(s, s', c); }
  }

  lemma ConnOnMarks(s: State, a: ConnAct, c: nat)
    requires ConnEnabled(s, a)
    ensures var s' := ConnApply(s, a);
      && s'.p == s.p && |s'.conns| == |s.conns| && s.history <= s'.history && s'.workers == s.workers
      && (IsOpen(s', c) ==> IsOpen(s, c))
      && (c < |s.conns| && !(c == s.loop.c && a.ReadOk?) && !(c == s.loop.c && a.GotRequest?) ==>
            s'.conns[c].input == s.conns[c].input)
      && (c < |s.conns| && c == s.loop.c && a.ReadOk? ==>
            s'.conns[c].input.unparsed == s.conns[c].input.unparsed + a.chunk)
    ensures var s' := ConnApply(s, a);
      c < |s.conns| && s'.conns[c].closeAfterFlush && !s.conns[c].closeAfterFlush ==>
        c == s.loop.c && (s.loop.Refused? || Verdict(s, c).Malformed?)
    ensures c < |s.conns| && c == s.loop.c && a.GotRequest? ==> Verdict(s, c).Complete?
    ensures ConnApply(s, a).loop.Refused? ==>
      ConnApply(s, a).loop.c == s.loop.c && Verdict(s, s.loop.c).Malformed? && a.AnswerMalformed?
    ensures s.loop.Refused? ==> a.FinishRefusal?
  {
    hide SerializeResponse, HardCap, ParseRequest, Peek, Stage, Swap, Send, Account;
  }

  lemma StepKeepsMarks(s: State, st: Step, c: nat)
    requires Enabled(s, st) && Known(s) && MarksOk(s, c)
    ensures MarksOk(Apply(s, st), c)
  {
    hide Known, WorkerApply, ControlNext, ListApply, ConnApply, CountWorkers, HardCap, ParseRequest, WorkerOk;
    match st
    case Work(w, a) =>
      WorkerIsOk(s, w);
      WorkKeepsMarks(s, w, a, c);
    case Control(a) => ControlKeepsMarks(s, a, c);
    case Lists(a) => ListKeepsMarks(s, a, c);
    case OnConn(a) => ConnKeepsMarks(s, a, c);
    case _ => if WasOver(s, c) { OverStays(s, Apply(s, st), c); }
  }

  lemma WorkerIsOk(s: State, w: nat)
    requires Known(s) && w < |s.workers|
    ensures WorkerOk(s, s.workers[w])
  {
  }

  // ----- What was refused is marked -----

  /** A connection that was sent a refusal is marked for closing, once the loop has left the refusal. */
  ghost predicate RefusedIsMarked(s: State, c: nat) {
    c < |s.conns| && !s.conns[c].closeAfterFlush && !(s.loop.Refused? && s.loop.c == c) ==>
      forall i :: 0 <= i < |s.history| && s.history[i].conn == c ==> s.history[i].ticket.Some?
  }

  lemma WorkKeepsRefused(s: State, w: nat, a: WorkerAct, c: nat)
    requires WorkerEnabled(s, w, a) && RefusedIsMarked(s, c)
    ensures RefusedIsMarked(WorkerApply(s, w, a), c)
  {
    hide SerializeResponse, TheAnswer, WorkerNext, Stage;
  }

  lemma ListKeepsRefused(s: State, a: ListAct, c: nat)
    requires ListEnabled(s, a) && RefusedIsMarked(s, c) && Known(s)
    ensures RefusedIsMarked(ListApply(s, a), c)
  {
    hide CoversOpen;
    forall i | 0 <= i < |s.history| ensures s.history[i].conn < |s.conns| { assert FrameOk(s, s.history[i]); }
  }

  lemma ConnKeepsRefused(s: State, a: ConnAct, c: nat)
    requires ConnEnabled(s, a) && RefusedIsMarked(s, c)
    ensures RefusedIsMarked(ConnApply(s, a), c)
  {
    hide SerializeResponse, HardCap, Verdict, Peek, Stage, Swap, Send, Account, ConnJobs;
  }

  lemma StepKeepsRefused(s: State, st: Step, c: nat)
    requires Enabled(s, st) && Known(s) && RefusedIsMarked(s, c)
    ensures RefusedIsMarked(Apply(s, st), c)
  {
    hide Known, WorkerApply, ListApply, ConnApply, Verdict, CoversOpen;
    match st
    case Work(w, a) => WorkKeepsRefused(s, w, a, c);
    case Lists(a) => ListKeepsRefused(s, a, c);
    case OnConn(a) => ConnKeepsRefused(s, a, c);
    case _ =>
  }
}
