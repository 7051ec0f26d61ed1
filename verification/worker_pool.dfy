/** The worker pool under its mutex and condition variables, as a system of interleaved steps. */
module WorkerPool {

  /** Where a worker thread is in `worker_loop`. */
  datatype Worker<T> =
    | Ready            // about to take the pool mutex
    | Waiting          // asleep on work_available_
    | Running(job: T)  // in the handler, no lock held
    | Exited

  /** Where the thread in `drain_and_stop` is. */
  datatype Phase =
    | Open             // not called yet
    | Draining         // accepting_ is false, waiting for queue_drained_ or the timeout
    | Stopping         // stopping_ is true, work_available_.notify_all() still to come
    | Joining

  datatype Pool<T> = Pool(
    maxPending: nat,
    queue: seq<T>,
    workers: seq<Worker<T>>,
    notifies: nat,        // submitters that queued a job and have not called notify_one() yet
    phase: Phase,
    accepted: seq<T>,     // history: every job ever queued, popped, dropped at the timeout, handled
    popped: seq<T>,
    discarded: seq<T>,
    finished: seq<T>)

  datatype Step<T> =
    | Submit(job: T)     // try_submit returns true
    | Refuse(job: T)     // ... false
    | NotifyOne(w: nat)
    | NotifyNobody
    | TakeLock(w: nat)
    | SpuriousWake(w: nat)
    | Finish(w: nat)
    | BeginStop(timed: bool)
    | EndDrain
    | NotifyAll

  predicate IsStopping<T>(p: Pool<T>) { p.phase.Stopping? || p.phase.Joining? }

  predicate Enabled<T>(p: Pool<T>, s: Step<T>) {
    match s
    case Submit(_) => p.phase.Open? && |p.queue| < p.maxPending
    case Refuse(_) => !p.phase.Open? || |p.queue| >= p.maxPending
    case NotifyOne(w) => p.notifies > 0 && w < |p.workers| && p.workers[w].Waiting?
    case NotifyNobody => p.notifies > 0 && (forall w :: 0 <= w < |p.workers| ==> !p.workers[w].Waiting?)
    case TakeLock(w) => w < |p.workers| && p.workers[w].Ready?
    case SpuriousWake(w) => w < |p.workers| && p.workers[w].Waiting?
    case Finish(w) => w < |p.workers| && p.workers[w].Running?
    case BeginStop(_) => p.phase.Open?
    case EndDrain => p.phase.Draining?
    case NotifyAll => p.phase.Stopping?
  }

  function Wake<T>(w: Worker<T>): Worker<T> { if w.Waiting? then Ready else w }

  function Apply<T>(p: Pool<T>, s: Step<T>): Pool<T>
    requires Enabled(p, s)
  {
    match s
    case Submit(j) =>
      p.(queue := p.queue + [j], accepted := p.accepted + [j], notifies := p.notifies + 1)
    case Refuse(_) => p
    case NotifyOne(w) => p.(notifies := p.notifies - 1, workers := p.workers[w := Ready])
    case NotifyNobody => p.(notifies := p.notifies - 1)
    case TakeLock(w) =>
      if p.queue == [] then p.(workers := p.workers[w := if IsStopping(p) then Exited else Waiting])
      else p.(workers := p.workers[w := Running(p.queue[0])], queue := p.queue[1..], popped := p.popped + [p.queue[0]])
    case SpuriousWake(w) => p.(workers := p.workers[w := Ready])
    case Finish(w) => p.(workers := p.workers[w := Ready], finished := p.finished + [p.workers[w].job])
    case BeginStop(timed) => p.(phase := if timed && p.queue != [] then Draining else Stopping)
    case EndDrain => p.(phase := Stopping, queue := [], discarded := p.discarded + p.queue)
    case NotifyAll =>
      p.(phase := Joining, workers := seq(|p.workers|, i requires 0 <= i < |p.workers| => Wake(p.workers[i])))
  }

  function Start<T>(threads: nat, maxPending: nat): Pool<T> {
    Pool(maxPending, [], seq(threads, _ => Ready), 0, Open, [], [], [], [])
  }

  ghost predicate IsRun<T>(start: Pool<T>, steps: seq<Step<T>>)
    decreases |steps|, 0
  {
    steps == [] ||
    (IsRun(start, steps[..|steps| - 1]) && Enabled(After(start, steps[..|steps| - 1]), steps[|steps| - 1]))
  }

  ghost function After<T>(start: Pool<T>, steps: seq<Step<T>>): Pool<T>
    requires IsRun(start, steps)
    decreases |steps|, 1
  {
    if steps == [] then start else Apply(After(start, steps[..|steps| - 1]), steps[|steps| - 1])
  }

  // ----- Counting workers -----

  function CountReady<T>(ws: seq<Worker<T>>): nat {
    if ws == [] then 0 else CountReady(ws[..|ws| - 1]) + (if ws[|ws| - 1].Ready? then 1 else 0)
  }

  /** How many workers are handling `job`. */
  ghost function InHand<T>(ws: seq<Worker<T>>, job: T): nat {
    if ws == [] then 0 else InHand(ws[..|ws| - 1], job) + (if ws[|ws| - 1] == Running(job) then 1 else 0)
  }

  lemma {:induction false} ReplaceReady<T>(ws: seq<Worker<T>>, i: nat, w: Worker<T>)
    requires i < |ws|
    ensures CountReady(ws[i := w]) + (if ws[i].Ready? then 1 else 0) == CountReady(ws) + (if w.Ready? then 1 else 0)
  {
    var n := |ws| - 1;
    if i == n {
      assert ws[i := w][..n] == ws[..n];
    } else {
      assert ws[i := w][..n] == ws[..n][i := w];
      ReplaceReady(ws[..n], i, w);
    }
  }

  lemma {:induction false} ReplaceInHand<T>(ws: seq<Worker<T>>, i: nat, w: Worker<T>, job: T)
    requires i < |ws|
    ensures InHand(ws[i := w], job) + (if ws[i] == Running(job) then 1 else 0)
         == InHand(ws, job) + (if w == Running(job) then 1 else 0)
  {
    var n := |ws| - 1;
    if i == n {
      assert ws[i := w][..n] == ws[..n];
    } else {
      assert ws[i := w][..n] == ws[..n][i := w];
      ReplaceInHand(ws[..n], i, w, job);
    }
  }

  lemma {:induction false} WakeAll<T>(ws: seq<Worker<T>>, ws': seq<Worker<T>>, job: T)
    requires |ws'| == |ws| && forall i :: 0 <= i < |ws| ==> ws'[i] == Wake(ws[i])
    ensures InHand(ws', job) == InHand(ws, job)
  {
    if ws != [] { WakeAll(ws[..|ws| - 1], ws'[..|ws| - 1], job); }
  }

  lemma {:induction false} NobodyRunning<T>(ws: seq<Worker<T>>, job: T)
    requires forall i :: 0 <= i < |ws| ==> !ws[i].Running?
    ensures InHand(ws, job) == 0
  {
    if ws != [] { NobodyRunning(ws[..|ws| - 1], job); }
  }

  lemma {:induction false} ReadyExists<T>(ws: seq<Worker<T>>)
    requires CountReady(ws) > 0
    ensures exists i :: 0 <= i < |ws| && ws[i].Ready?
  {
    if ws[|ws| - 1].Ready? {
      assert ws[|ws| - 1].Ready?;
    } else {
      ReadyExists(ws[..|ws| - 1]);
      var i :| 0 <= i < |ws| - 1 && ws[..|ws| - 1][i].Ready?;
      assert ws[i].Ready?;
    }
  }

  // ----- What every step keeps -----

  /** Jobs leave the queue in the order they were accepted; none is lost or duplicated. */
  ghost predicate Fifo<T>(p: Pool<T>) {
    && |p.queue| <= p.maxPending
    && p.accepted == p.popped + p.queue + p.discarded
    && (p.discarded != [] ==> p.queue == [] && IsStopping(p))
  }

  /** Each popped job is in one worker's hands or finished, as often as it was popped. */
  ghost predicate HandledOnce<T(!new)>(p: Pool<T>) {
    forall job :: multiset(p.popped)[job] == multiset(p.finished)[job] + InHand(p.workers, job)
  }

  /** While any worker sleeps, every queued job has an awake worker or a wake-up on its way. */
  ghost predicate NoSleeperNeeded<T>(p: Pool<T>) {
    forall w :: 0 <= w < |p.workers| && p.workers[w].Waiting? ==> |p.queue| <= CountReady(p.workers) + p.notifies
  }

  /** A worker leaves only when the pool is stopping and the queue is empty, and none sleeps through the stop. */
  ghost predicate Shutdown<T>(p: Pool<T>) {
    && (forall w :: 0 <= w < |p.workers| && p.workers[w].Exited? ==> IsStopping(p) && p.queue == [])
    && (p.phase.Joining? ==> forall w :: 0 <= w < |p.workers| ==> !p.workers[w].Waiting?)
  }

  ghost predicate Inv<T(!new)>(p: Pool<T>) { Fifo(p) && HandledOnce(p) && NoSleeperNeeded(p) && Shutdown(p) }

  lemma StepKeepsFifo<T>(p: Pool<T>, s: Step<T>)
    requires Fifo(p) && Enabled(p, s)
    ensures Fifo(Apply(p, s))
  {
    var p' := Apply(p, s);
    if s.Submit? || s.EndDrain? {
      assert p.discarded == [];
    } else if s.TakeLock? && p.queue != [] {
      assert p.popped + p.queue == p'.popped + p'.queue;
    }
  }

  lemma StepHandlesOnce<T>(p: Pool<T>, s: Step<T>, job: T)
    requires Enabled(p, s)
    requires multiset(p.popped)[job] == multiset(p.finished)[job] + InHand(p.workers, job)
    ensures var p' := Apply(p, s); multiset(p'.popped)[job] == multiset(p'.finished)[job] + InHand(p'.workers, job)
  {
    var p' := Apply(p, s);
    if s.NotifyOne? || s.TakeLock? || s.SpuriousWake? || s.Finish? {
      ReplaceInHand(p.workers, s.w, p'.workers[s.w], job);
    } else if s.NotifyAll? {
      WakeAll(p.workers, p'.workers, job);
    }
  }

  lemma StepKeepsWakeups<T>(p: Pool<T>, s: Step<T>)
    requires NoSleeperNeeded(p) && Enabled(p, s)
    ensures NoSleeperNeeded(Apply(p, s))
  {
    var p' := Apply(p, s);
    if s.NotifyOne? || s.TakeLock? || s.SpuriousWake? || s.Finish? {
      ReplaceReady(p.workers, s.w, p'.workers[s.w]);
      forall w | 0 <= w < |p'.workers| && p'.workers[w].Waiting?
        ensures |p'.queue| <= CountReady(p'.workers) + p'.notifies
      {
        assert w == s.w || p'.workers[w] == p.workers[w];
      }
    }
  }

  lemma StepKeepsShutdown<T>(p: Pool<T>, s: Step<T>)
    requires Shutdown(p) && Enabled(p, s)
    ensures Shutdown(Apply(p, s))
  {
  }

  lemma {:induction false} RunKeepsInv<T(!new)>(threads: nat, maxPending: nat, steps: seq<Step<T>>)
    requires IsRun(Start(threads, maxPending), steps)
    ensures var p := After(Start(threads, maxPending), steps);
      Inv(p) && |p.workers| == threads && p.maxPending == maxPending
  {
    var start := Start<T>(threads, maxPending);
    if steps == [] {
      forall job: T { NobodyRunning(start.workers, job); }
    } else {
      var before, s := steps[..|steps| - 1], steps[|steps| - 1];
      RunKeepsInv(threads, maxPending, before);
      var p := After(start, before);
      StepKeepsFifo(p, s);
      forall job: T { StepHandlesOnce(p, s, job); }
      StepKeepsWakeups(p, s);
      StepKeepsShutdown(p, s);
    }
  }

  /** try_submit, in every run: a job is taken, at the end of the queue, or refused, with nothing changed; it is refused
      exactly when the pool no longer accepts or its queue is as long as it may be. */
  lemma TakenOrRefused<T(!new)>(threads: nat, maxPending: nat, steps: seq<Step<T>>, job: T)
    requires IsRun(Start(threads, maxPending), steps)
    ensures var p := After(Start(threads, maxPending), steps);
      && (Enabled(p, Refuse(job)) <==> !p.phase.Open? || |p.queue| == maxPending)
      && (Enabled(p, Submit(job)) <==> !Enabled(p, Refuse(job)))
      && (Enabled(p, Submit(job)) ==>
            Apply(p, Submit(job)).queue == p.queue + [job] && Apply(p, Submit(job)).accepted == p.accepted + [job])
      && (Enabled(p, Refuse(job)) ==> Apply(p, Refuse(job)) == p)
  {
    RunKeepsInv(threads, maxPending, steps);
  }

  predicate Awake<T>(w: Worker<T>) { w.Ready? || w.Running? }

  /** In every run: jobs start in submission order, the queue stays within its bound, and a queued job is
      never stranded: some worker is awake or about to be woken. */
  lemma NoJobIsStranded<T(!new)>(threads: nat, maxPending: nat, steps: seq<Step<T>>)
    requires threads > 0 && IsRun(Start(threads, maxPending), steps)
    ensures var p := After(Start(threads, maxPending), steps);
      && |p.queue| <= maxPending
      && p.popped <= p.accepted
      && (p.discarded == [] ==> p.accepted == p.popped + p.queue)
      && (p.queue != [] ==> p.notifies > 0 || exists w :: 0 <= w < |p.workers| && Awake(p.workers[w]))
  {
    RunKeepsInv(threads, maxPending, steps);
    var p := After(Start(threads, maxPending), steps);
    hide IsRun, After, HandledOnce, NoSleeperNeeded, Shutdown, CountReady;
    InOrder(p);
    if p.queue != [] && p.notifies == 0 { SomeoneAwake(p); }
  }

  lemma InOrder<T>(p: Pool<T>)
    requires Fifo(p)
    ensures p.popped <= p.accepted && (p.discarded == [] ==> p.accepted == p.popped + p.queue)
  {
    assert p.popped + p.queue + p.discarded == p.popped + (p.queue + p.discarded);
    if p.discarded == [] { assert p.popped + p.queue + [] == p.popped + p.queue; }
  }

  lemma SomeoneAwake<T(!new)>(p: Pool<T>)
    requires Inv(p) && |p.workers| > 0 && p.queue != [] && p.notifies == 0
    ensures exists w :: 0 <= w < |p.workers| && Awake(p.workers[w])
  {
    if p.workers[0].Waiting? {
      ReadyExists(p.workers);
      var w :| 0 <= w < |p.workers| && p.workers[w].Ready?;
      assert Awake(p.workers[w]);
    } else {
      assert Awake(p.workers[0]);
    }
  }

  ghost predicate AllExited<T>(p: Pool<T>) { forall w :: 0 <= w < |p.workers| ==> p.workers[w].Exited? }

  /** When every worker has been joined, every accepted job was handled exactly once or is in the discarded
      tail; until then some worker can still move, so the join is never waited for in vain. */
  lemma JoinMeansAllHandled<T(!new)>(threads: nat, maxPending: nat, steps: seq<Step<T>>)
    requires threads > 0 && IsRun(Start(threads, maxPending), steps)
    ensures var p := After(Start(threads, maxPending), steps);
      && (AllExited(p) ==> p.accepted == p.popped + p.discarded && multiset(p.finished) == multiset(p.popped))
      && (p.phase.Joining? && !AllExited(p) ==> exists w :: 0 <= w < |p.workers| && Awake(p.workers[w]))
  {
    RunKeepsInv(threads, maxPending, steps);
    var p := After(Start(threads, maxPending), steps);
    if AllExited(p) {
      assert p.workers[0].Exited?;
      forall job: T { NobodyRunning(p.workers, job); }
      assert p.popped + p.queue == p.popped;
    } else if p.phase.Joining? {
      var w :| 0 <= w < |p.workers| && !p.workers[w].Exited?;
      assert Awake(p.workers[w]);
    }
  }
}
