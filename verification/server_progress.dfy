/** Progress: workers never get stuck, they finish what they have been given, and then every request has its
    answer. */
module ServerProgress {
  import opened Codec
  import opened ServerModel
  import opened ServerCounts
  import opened ServerKnown
  import opened ServerReachable
  import opened ServerTheorems

  /** How many steps a worker is from idle, at most. */
  function Rank(w: Worker): nat {
    match w
    case Idle => 0
    case Pushed => 1
    case Claimed(_) => 2
    case Unclaimed(_, mark) => if mark then 4 else 3
    case Staged(_, _) => 5
    case SawClosed(_) => 5
    case SawOpen(_, _) => 6
    case Answered(_, _) => 7
    case Popped(_) => 8
  }

  const STEPS_PER_JOB: nat := 9

  function TotalRank(ws: seq<Worker>): nat {
    if ws == [] then 0 else TotalRank(ws[..|ws| - 1]) + Rank(ws[|ws| - 1])
  }

  /** Worker steps left before every worker is idle and the queue empty. */
  function WorkLeft(s: State): nat { TotalRank(s.workers) + STEPS_PER_JOB * |s.queue| }

  lemma {:induction false} ReplaceRank(ws: seq<Worker>, i: nat, w: Worker)
    requires i < |ws|
    ensures TotalRank(ws[i := w]) + Rank(ws[i]) == TotalRank(ws) + Rank(w)
  {
    var n := |ws| - 1;
    if i == n {
      assert ws[i := w][..n] == ws[..n];
    } else {
      assert ws[i := w][..n] == ws[..n][i := w];
      ReplaceRank(ws[..n], i, w);
    }
  }

  lemma WorkDecreases(s: State, w: nat, a: WorkerAct)
    requires WorkerEnabled(s, w, a)
    ensures WorkLeft(WorkerApply(s, w, a)) < WorkLeft(s)
  {
    hide SerializeResponse, TheAnswer, TotalRank, WorkerConnAfter;
    ReplaceRank(s.workers, w, WorkerNext(s, w, a));
  }

  /** The workers cannot run for ever on what they have been given. */
  lemma {:induction false} WorkersSettle(s: State, steps: seq<Step>)
    requires IsRun(s, steps) && forall i :: 0 <= i < |steps| ==> steps[i].Work?
    ensures |steps| + WorkLeft(After(s, steps)) <= WorkLeft(s)
  {
    if steps != [] {
      var before, st := steps[..|steps| - 1], steps[|steps| - 1];
      assert forall i :: 0 <= i < |before| ==> before[i] == steps[i];
      WorkersSettle(s, before);
      WorkDecreases(After(s, before), st.w, st.work);
      hide WorkLeft, WorkerApply, WorkerEnabled;
    }
  }

  /** The step a worker can take next. */
  function WorkerMove(w: Worker): WorkerAct {
    match w
    case Idle => Pop
    case Popped(_) => Execute(seq(STATS_PAYLOAD, _ => 0))
    case Answered(_, _) => LookClosed
    case SawOpen(_, _) => StageFrame
    case SawClosed(_) => DropDecrement
    case Staged(_, _) => Decrement
    case Unclaimed(_, mark) => if mark then MarkClose else Claim
    case Claimed(_) => Push
    case Pushed => Signal
  }

  /** In every reachable state each worker can take a step, unless it is idle and the queue is empty: a submitted
      request is never stuck. */
  lemma WorkersNeverStick(p: Params, threads: nat, s: State, w: nat)
    requires Reachable(p, threads, s) && w < |s.workers|
    ensures WorkerEnabled(s, w, WorkerMove(s.workers[w])) <==> !(s.workers[w].Idle? && s.queue == [])
  {
    ReachableKnown(p, threads, s);
    WorkerCanMove(s, w) by { hide Reachable, WorkerOk; }
  }

  lemma WorkerCanMove(s: State, w: nat)
    requires w < |s.workers| && WorkerOk(s, s.workers[w])
    ensures WorkerEnabled(s, w, WorkerMove(s.workers[w])) <==> !(s.workers[w].Idle? && s.queue == [])
  {
  }

  ghost predicate WorkersDone(s: State) {
    s.queue == [] && forall w :: 0 <= w < |s.workers| ==> s.workers[w].Idle?
  }

  ghost predicate WorkersStuck(s: State) { forall w, a :: !WorkerEnabled(s, w, a) }

  ghost predicate OnlyWork(steps: seq<Step>) { forall i :: 0 <= i < |steps| ==> steps[i].Work? }

  /** The workers have stopped exactly when they are done. */
  lemma StuckMeansDone(p: Params, threads: nat, s: State)
    requires Reachable(p, threads, s) && threads > 0
    ensures WorkersStuck(s) <==> WorkersDone(s)
  {
    ReachableKnown(p, threads, s);
    forall w: nat | w < |s.workers|
      ensures WorkerEnabled(s, w, WorkerMove(s.workers[w])) <==> !(s.workers[w].Idle? && s.queue == [])
    {
      WorkersNeverStick(p, threads, s, w);
    }
    hide Reachable, Known, WorkerMove;
    if WorkersStuck(s) {
      forall w | 0 <= w < |s.workers| ensures s.workers[w].Idle? && s.queue == [] {
        assert !WorkerEnabled(s, w, WorkerMove(s.workers[w]));
      }
      assert s.workers[0].Idle?;
    }
  }

  /** From every reachable state the workers can run until they are done. */
  lemma WorkersCanFinish(p: Params, threads: nat, s: State) returns (steps: seq<Step>)
    requires Reachable(p, threads, s) && threads > 0
    ensures IsRun(s, steps) && OnlyWork(steps) && WorkersDone(After(s, steps))
  {
    hide Reachable, WorkLeft;
    steps := [];
    while !WorkersDone(After(s, steps))
      invariant IsRun(s, steps) && OnlyWork(steps) && Reachable(p, threads, After(s, steps))
      decreases WorkLeft(After(s, steps))
    {
      var s' := After(s, steps);
      StuckMeansDone(p, threads, s');
      var w, a :| WorkerEnabled(s', w, a);
      WorkDecreases(s', w, a);
      ReachableStep(p, threads, s', Work(w, a));
      hide WorkerApply, WorkerEnabled;
      var more := steps + [Work(w, a)];
      assert more[..|more| - 1] == steps;
      steps := more;
    }
  }

  /** What the workers cannot change. */
  ghost predicate SameLoop(s: State, s': State) {
    && s'.loop == s.loop && s'.running == s.running && s'.submitted == s.submitted
    && forall c: nat :: IsOpen(s', c) <==> IsOpen(s, c)
  }

  lemma WorkLeavesTheLoop(s: State, w: nat, a: WorkerAct)
    requires WorkerEnabled(s, w, a)
    ensures SameLoop(s, WorkerApply(s, w, a))
  {
    hide SerializeResponse, WorkerNext, TheAnswer;
  }

  lemma {:induction false} WorkersLeaveTheLoop(s: State, steps: seq<Step>)
    requires IsRun(s, steps) && OnlyWork(steps)
    ensures SameLoop(s, After(s, steps))
  {
    if steps != [] {
      var before, st := steps[..|steps| - 1], steps[|steps| - 1];
      assert OnlyWork(before);
      WorkersLeaveTheLoop(s, before);
      WorkLeavesTheLoop(After(s, before), st.w, st.work);
      hide WorkerApply, WorkerEnabled;
    }
  }

  /** The loop has a request in hand, not yet queued or answered. */
  predicate Submits(l: Loop) { l.Submitting? || l.Busy? || l.BusyStaged? }

  /** Once the workers are done, every request submitted on an open connection has been answered. */
  lemma DoneMeansAnswered(p: Params, threads: nat, s: State, t: nat)
    requires Reachable(p, threads, s) && s.running && !Submits(s.loop) && WorkersDone(s)
    requires t < |s.submitted| && IsOpen(s, s.submitted[t].conn)
    ensures exists i :: Answers(s, i, t)
  {
    var c := s.submitted[t].conn;
    InFlightIsExact(p, threads, s, c);
    IdleCountsNothing(s.workers, Owes(c));
    ReachableConn(p, threads, s, c);
    ReachableTicket(p, threads, s, t);
    hide Reachable;
    DrainedIsAnswered(s, c, t);
  }

  /** The workers answer everything by themselves: from every state in which the loop runs and is not itself
      submitting, they take at most as many steps as there is work left, and when they can take no more, every
      request submitted on an open connection has its answer. */
  lemma WorkersAnswerEverything(p: Params, threads: nat, s: State, steps: seq<Step>)
    requires Reachable(p, threads, s) && threads > 0 && s.running && !Submits(s.loop)
    requires IsRun(s, steps) && OnlyWork(steps)
    ensures |steps| <= WorkLeft(s)
    ensures WorkersStuck(After(s, steps)) ==>
      forall t :: 0 <= t < |s.submitted| && IsOpen(s, s.submitted[t].conn) ==>
        exists i :: Answers(After(s, steps), i, t)
  {
    WorkersSettle(s, steps);
    WorkersLeaveTheLoop(s, steps);
    ReachableRun(p, threads, s, steps);
    var s' := After(s, steps);
    hide Reachable, WorkLeft, After, IsRun;
    if WorkersStuck(s') {
      StuckMeansDone(p, threads, s');
      forall t | 0 <= t < |s.submitted| && IsOpen(s, s.submitted[t].conn) ensures exists i :: Answers(s', i, t) {
        DoneMeansAnswered(p, threads, s', t);
      }
    }
  }
}
