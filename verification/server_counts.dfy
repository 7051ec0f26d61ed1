/** Counting the places where a job, a ticket or a wake-up token can be. */
module ServerCounts {
  import opened Protocol
  import opened ServerModel

  datatype Sel =
    | Owes(conn: nat)        // counted in a connection's in-flight number
    | Holds(ticket: nat)     // holds a request not yet answered
    | Waits(ticket: nat)     // holds a request whose cache operation has not happened
    | Token(conn: nat)       // won the notify bit, not yet in the ready list
    | Touched(conn: nat)     // has staged for a connection and not yet tried its notify bit
    | Marking(conn: nat)     // found a connection over its cap, not yet marked it for closing
    | Releasing(conn: nat)   // has staged an answer for a connection and not yet reduced its in-flight number
    | Signalling             // about to write the eventfd

  predicate HasJob(w: Worker) { w.Popped? || w.Answered? || w.SawOpen? || w.SawClosed? || w.Staged? }

  predicate Picks(sel: Sel, w: Worker) {
    match sel
    case Owes(c) => HasJob(w) && w.job.conn == c
    case Holds(t) => HasJob(w) && !w.Staged? && w.job.ticket == t
    case Waits(t) => w.Popped? && w.job.ticket == t
    case Token(c) => w == Claimed(c)
    case Touched(c) => (w.Staged? && w.job.conn == c) || (w.Unclaimed? && w.conn == c)
    case Marking(c) => (w.Staged? && w.job.conn == c && w.over) || w == Unclaimed(c, true)
    case Releasing(c) => w.Staged? && w.job.conn == c
    case Signalling => w.Pushed?
  }

  predicate PicksJob(sel: Sel, j: Job) {
    match sel
    case Owes(c) => j.conn == c
    case Holds(t) => j.ticket == t
    case Waits(t) => j.ticket == t
    case _ => false
  }

  predicate PicksLoop(sel: Sel, l: Loop) {
    match sel
    case Owes(c) => (l.Submitting? || l.Busy? || l.BusyStaged?) && l.job.conn == c
    case Holds(t) => (l.Submitting? || l.Busy?) && l.job.ticket == t
    case Waits(t) => (l.Submitting? || l.Busy?) && l.job.ticket == t
    case _ => false
  }

  function One(b: bool): nat { if b then 1 else 0 }

  function CountWorkers(ws: seq<Worker>, sel: Sel): nat {
    if ws == [] then 0 else CountWorkers(ws[..|ws| - 1], sel) + One(Picks(sel, ws[|ws| - 1]))
  }

  function CountJobs(js: seq<Job>, sel: Sel): nat {
    if js == [] then 0 else CountJobs(js[..|js| - 1], sel) + One(PicksJob(sel, js[|js| - 1]))
  }

  /** How many staged frames answer ticket `t`. */
  function CountFrames(h: seq<Frame>, t: nat): nat {
    if h == [] then 0 else CountFrames(h[..|h| - 1], t) + One(h[|h| - 1].ticket == Some(t))
  }

  /** How many cache operations were for ticket `t`. */
  function CountLog(log: seq<Lin>, t: nat): nat {
    if log == [] then 0 else CountLog(log[..|log| - 1], t) + One(log[|log| - 1].ticket == t)
  }

  function CountOf(ids: seq<nat>, id: nat): nat {
    if ids == [] then 0 else CountOf(ids[..|ids| - 1], id) + One(ids[|ids| - 1] == id)
  }

  lemma {:induction false} ReplaceWorker(ws: seq<Worker>, i: nat, w: Worker, sel: Sel)
    requires i < |ws|
    ensures CountWorkers(ws[i := w], sel) + One(Picks(sel, ws[i])) == CountWorkers(ws, sel) + One(Picks(sel, w))
  {
    var n := |ws| - 1;
    if i == n {
      assert ws[i := w][..n] == ws[..n];
    } else {
      assert ws[i := w][..n] == ws[..n][i := w];
      ReplaceWorker(ws[..n], i, w, sel);
    }
  }

  lemma {:induction false} WorkerCounted(ws: seq<Worker>, i: nat, sel: Sel)
    requires i < |ws| && Picks(sel, ws[i])
    ensures CountWorkers(ws, sel) > 0
  {
    if i < |ws| - 1 { WorkerCounted(ws[..|ws| - 1], i, sel); }
  }

  lemma {:induction false} SomeWorker(ws: seq<Worker>, sel: Sel) returns (i: nat)
    requires CountWorkers(ws, sel) > 0
    ensures i < |ws| && Picks(sel, ws[i])
  {
    i := |ws| - 1;
    if !Picks(sel, ws[i]) { i := SomeWorker(ws[..|ws| - 1], sel); }
  }

  lemma {:induction false} NoWorker(ws: seq<Worker>, sel: Sel)
    requires forall i :: 0 <= i < |ws| ==> !Picks(sel, ws[i])
    ensures CountWorkers(ws, sel) == 0
  {
    if ws != [] { NoWorker(ws[..|ws| - 1], sel); }
  }

  lemma {:induction false} AppendJobs(a: seq<Job>, b: seq<Job>, sel: Sel)
    ensures CountJobs(a + b, sel) == CountJobs(a, sel) + CountJobs(b, sel)
  {
    if b == [] {
      assert a + b == a;
    } else {
      AppendJobs(a, b[..|b| - 1], sel);
      assert (a + b)[..|a + b| - 1] == a + b[..|b| - 1];
    }
  }

  lemma FirstJob(js: seq<Job>, sel: Sel)
    requires js != []
    ensures CountJobs(js, sel) == One(PicksJob(sel, js[0])) + CountJobs(js[1..], sel)
  {
    AppendJobs([js[0]], js[1..], sel);
    assert [js[0]] + js[1..] == js && [js[0]][..0] == [];
  }

  lemma AppendJob(js: seq<Job>, j: Job, sel: Sel)
    ensures CountJobs(js + [j], sel) == CountJobs(js, sel) + One(PicksJob(sel, j))
  {
    assert (js + [j])[..|js|] == js;
  }

  lemma {:induction false} JobCounted(js: seq<Job>, i: nat, sel: Sel)
    requires i < |js| && PicksJob(sel, js[i])
    ensures CountJobs(js, sel) > 0
  {
    if i < |js| - 1 { JobCounted(js[..|js| - 1], i, sel); }
  }

  lemma {:induction false} NoJob(js: seq<Job>, sel: Sel)
    requires forall i :: 0 <= i < |js| ==> !PicksJob(sel, js[i])
    ensures CountJobs(js, sel) == 0
  {
    if js != [] { NoJob(js[..|js| - 1], sel); }
  }

  lemma {:induction false} SomeJob(js: seq<Job>, sel: Sel) returns (i: nat)
    requires CountJobs(js, sel) > 0
    ensures i < |js| && PicksJob(sel, js[i])
  {
    i := |js| - 1;
    if !PicksJob(sel, js[i]) { i := SomeJob(js[..|js| - 1], sel); }
  }

  lemma AppendFrame(h: seq<Frame>, f: Frame, t: nat)
    ensures CountFrames(h + [f], t) == CountFrames(h, t) + One(f.ticket == Some(t))
  {
    assert (h + [f])[..|h|] == h;
  }

  lemma {:induction false} FrameCounted(h: seq<Frame>, i: nat, t: nat)
    requires i < |h| && h[i].ticket == Some(t)
    ensures CountFrames(h, t) > 0
  {
    if i < |h| - 1 { FrameCounted(h[..|h| - 1], i, t); }
  }

  lemma {:induction false} TwoFramesCounted(h: seq<Frame>, i: nat, j: nat, t: nat)
    requires i < j < |h| && h[i].ticket == h[j].ticket == Some(t)
    ensures CountFrames(h, t) >= 2
  {
    if j < |h| - 1 { TwoFramesCounted(h[..|h| - 1], i, j, t); } else { FrameCounted(h[..|h| - 1], i, t); }
  }

  lemma {:induction false} SomeFrame(h: seq<Frame>, t: nat) returns (i: nat)
    requires CountFrames(h, t) > 0
    ensures i < |h| && h[i].ticket == Some(t)
  {
    i := |h| - 1;
    if h[i].ticket != Some(t) { i := SomeFrame(h[..|h| - 1], t); }
  }

  lemma AppendLog(log: seq<Lin>, x: Lin, t: nat)
    ensures CountLog(log + [x], t) == CountLog(log, t) + One(x.ticket == t)
  {
    assert (log + [x])[..|log|] == log;
  }

  lemma {:induction false} LogCounted(log: seq<Lin>, i: nat, t: nat)
    requires i < |log| && log[i].ticket == t
    ensures CountLog(log, t) > 0
  {
    if i < |log| - 1 { LogCounted(log[..|log| - 1], i, t); }
  }

  lemma {:induction false} TwoLogged(log: seq<Lin>, i: nat, j: nat, t: nat)
    requires i < j < |log| && log[i].ticket == log[j].ticket == t
    ensures CountLog(log, t) >= 2
  {
    if j < |log| - 1 { TwoLogged(log[..|log| - 1], i, j, t); } else { LogCounted(log[..|log| - 1], i, t); }
  }

  lemma {:induction false} AppendIds(a: seq<nat>, b: seq<nat>, id: nat)
    ensures CountOf(a + b, id) == CountOf(a, id) + CountOf(b, id)
  {
    if b == [] {
      assert a + b == a;
    } else {
      AppendIds(a, b[..|b| - 1], id);
      assert (a + b)[..|a + b| - 1] == a + b[..|b| - 1];
    }
  }

  lemma FirstId(ids: seq<nat>, id: nat)
    requires ids != []
    ensures CountOf(ids, id) == One(ids[0] == id) + CountOf(ids[1..], id)
  {
    AppendIds([ids[0]], ids[1..], id);
    assert [ids[0]] + ids[1..] == ids && [ids[0]][..0] == [];
  }

  lemma AppendId(ids: seq<nat>, x: nat, id: nat)
    ensures CountOf(ids + [x], id) == CountOf(ids, id) + One(x == id)
  {
    assert (ids + [x])[..|ids|] == ids;
  }

  lemma {:induction false} NoId(ids: seq<nat>, id: nat)
    requires id !in ids
    ensures CountOf(ids, id) == 0
  {
    if ids != [] {
      assert id !in ids[..|ids| - 1];
      NoId(ids[..|ids| - 1], id);
    }
  }

  lemma {:induction false} SomeId(ids: seq<nat>, id: nat)
    requires CountOf(ids, id) > 0
    ensures id in ids
  {
    if ids[|ids| - 1] != id { SomeId(ids[..|ids| - 1], id); }
  }

  function SumBelow(ids: seq<nat>, n: nat): nat {
    if n == 0 then 0 else SumBelow(ids, n - 1) + CountOf(ids, n - 1)
  }

  lemma {:induction false} SumOfAppend(ids: seq<nat>, x: nat, n: nat)
    ensures SumBelow(ids + [x], n) == SumBelow(ids, n) + One(x < n)
  {
    if n > 0 {
      SumOfAppend(ids, x, n - 1);
      AppendId(ids, x, n - 1);
    }
  }

  lemma {:induction false} SumIsLength(ids: seq<nat>, n: nat)
    requires forall i :: 0 <= i < |ids| ==> ids[i] < n
    ensures SumBelow(ids, n) == |ids|
  {
    if ids == [] {
      SumIsSmall(ids, n, 0);
    } else {
      var front := ids[..|ids| - 1];
      SumIsLength(front, n);
      SumOfAppend(front, ids[|ids| - 1], n);
      assert front + [ids[|ids| - 1]] == ids;
    }
  }

  lemma {:induction false} SumIsSmall(ids: seq<nat>, n: nat, each: nat)
    requires forall id: nat :: CountOf(ids, id) <= each
    ensures SumBelow(ids, n) <= n * each
  {
    if n > 0 {
      SumIsSmall(ids, n - 1, each);
      assert n * each == (n - 1) * each + each;
    }
  }
}
