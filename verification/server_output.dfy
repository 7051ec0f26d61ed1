/** The bytes a client receives: whole frames, in staging order, and never malformed. */
module ServerOutput {
  import opened Protocol
  import opened Codec
  import opened Stream
  import opened Output
  import opened ServerModel
  import opened ServerKnown

  /** The responses staged for connection `c`, in staging order. */
  function FramesOf(h: seq<Frame>, c: nat): seq<Response> {
    if h == [] then []
    else FramesOf(h[..|h| - 1], c) + (if h[|h| - 1].conn == c then [h[|h| - 1].response] else [])
  }

  function InAccounting(l: Loop, c: nat): nat { if l.FlushAccount? && l.c == c then l.n else 0 }

  /** Sent, being written and staged bytes are exactly the staged frames; the backlog counter is the unsent
      length, except between a send and its accounting; and a send always has something to send. */
  ghost predicate OutputExact(s: State, c: nat) {
    c < |s.conns| ==>
      && Total(s.conns[c].out) == SerializeResponses(FramesOf(s.history, c))
      && s.conns[c].out.pending == Unsent(s.conns[c].out) + InAccounting(s.loop, c)
      && (s.loop.FlushSend? && s.loop.c == c ==> s.conns[c].out.unwritten != [])
  }

  lemma StageOne(h: seq<Frame>, f: Frame, c: nat)
    ensures FramesOf(h + [f], c) == FramesOf(h, c) + (if f.conn == c then [f.response] else [])
    ensures SerializeResponses(FramesOf(h + [f], c))
         == SerializeResponses(FramesOf(h, c)) + (if f.conn == c then SerializeResponse(f.response) else [])
  {
    hide SerializeResponse;
    assert (h + [f])[..|h|] == h;
    var before := FramesOf(h, c);
    if f.conn == c {
      assert (before + [f.response])[..|before|] == before;
    } else {
      assert before + [] == before;
    }
  }

  lemma {:induction false} NoFrames(h: seq<Frame>, c: nat)
    requires forall i :: 0 <= i < |h| ==> h[i].conn != c
    ensures FramesOf(h, c) == []
  {
    if h != [] { NoFrames(h[..|h| - 1], c); }
  }

  lemma WorkKeepsOutput(s: State, w: nat, a: WorkerAct, c: nat)
    requires WorkerEnabled(s, w, a) && OutputExact(s, c)
    ensures OutputExact(WorkerApply(s, w, a), c)
  {
    hide SerializeResponse, SerializeResponses, FramesOf, TheAnswer, Total;
    if a.StageFrame? {
      var pc := s.workers[w];
      var backlog := WorkerConnAfter(s, w, a).out.pending;
      StageOne(s.history, Frame(pc.job.conn, Some(pc.job.ticket), pc.response, |s.log|, backlog, 0), c);
    }
  }

  lemma ConnKeepsOutput(s: State, a: ConnAct, c: nat)
    requires ConnEnabled(s, a) && OutputExact(s, c)
    ensures OutputExact(ConnApply(s, a), c)
  {
    hide SerializeResponse, SerializeResponses, FramesOf, Total;
    var fs := ConnFrames(s, a);
    if fs == [] { assert s.history + fs == s.history; } else { StageOne(s.history, fs[0], c); }
  }

  lemma ControlKeepsOutput(s: State, a: ControlAct, c: nat)
    requires ControlEnabled(s, a) && OutputExact(s, c)
    ensures OutputExact(s.(loop := ControlNext(s, a)), c)
  {
    hide SerializeResponses, FramesOf, Total;
  }

  lemma ListKeepsOutput(s: State, a: ListAct, c: nat)
    requires ListEnabled(s, a) && OutputExact(s, c) && Known(s)
    ensures OutputExact(ListApply(s, a), c)
  {
    if a.Accept? && c == |s.conns| { NewHasNothing(s, c); }
    hide FramesOf, SerializeResponses, Total, Known, CoversOpen;
  }

  lemma NewHasNothing(s: State, c: nat)
    requires Known(s) && c == |s.conns|
    ensures SerializeResponses(FramesOf(s.history, c)) == [] == Total(EMPTY)
  {
    forall i | 0 <= i < |s.history| ensures s.history[i].conn != c { assert FrameOk(s, s.history[i]); }
    NoFrames(s.history, c);
  }

  lemma StepKeepsOutput(s: State, st: Step, c: nat)
    requires Enabled(s, st) && Known(s) && OutputExact(s, c)
    ensures OutputExact(Apply(s, st), c)
  {
    hide Known, WorkerApply, ControlNext, ListApply, ConnApply, SerializeResponses, FramesOf;
    match st
    case Work(w, a) => WorkKeepsOutput(s, w, a, c);
    case Control(a) => ControlKeepsOutput(s, a, c);
    case Lists(a) => ListKeepsOutput(s, a, c);
    case OnConn(a) => ConnKeepsOutput(s, a, c);
    case Submit =>
    case Discard =>
  }

  // ----- Frames fit the protocol -----

  /** Every stored value fits the protocol, hence so does every response made or staged. */
  ghost predicate ResponsesFit(s: State) {
    && L.WellFormed(s.cache, s.p.cache)
    && (forall i :: 0 <= i < |s.workers| && (s.workers[i].Answered? || s.workers[i].SawOpen?) ==>
          ResponseOk(s.workers[i].response, DEFAULT_LIMITS))
    && (forall i :: 0 <= i < |s.history| ==> ResponseOk(s.history[i].response, DEFAULT_LIMITS))
  }

  lemma AnswerFits(cache: seq<L.Entry>, r: Request, stats: Bytes, lim: L.CacheLimits)
    requires L.WellFormed(cache, lim) && lim.maxValue <= MAX_VALUE_BYTES && |stats| == STATS_PAYLOAD
    ensures L.WellFormed(Answer(cache, r, stats, lim).cache, lim)
    ensures ResponseOk(Answer(cache, r, stats, lim).response, DEFAULT_LIMITS)
  {
    hide L.WellFormed, L.MakeRoom, L.Drop;
    match r.opcode
    case Get =>
      L.ApplyKeepsBounds(cache, L.OpGet(r.key), lim);
      if L.HasKey(cache, r.key) { StoredFits(cache, r.key, lim); }
    case Put => L.ApplyKeepsBounds(cache, L.OpPut(r.key, r.value), lim);
    case Delete => L.ApplyKeepsBounds(cache, L.OpErase(r.key), lim);
    case Clear => L.ApplyKeepsBounds(cache, L.OpClear, lim);
    case _ =>
  }

  lemma StoredFits(cache: seq<L.Entry>, k: Bytes, lim: L.CacheLimits)
    requires L.WellFormed(cache, lim) && L.HasKey(cache, k)
    ensures |L.Lookup(cache, k).value| <= lim.maxValue
  {
    assert L.Entry(k, L.Lookup(cache, k).value) in cache;
  }

  lemma WorkKeepsFit(s: State, w: nat, a: WorkerAct)
    requires WorkerEnabled(s, w, a) && ResponsesFit(s) && ValidParams(s.p)
    ensures ResponsesFit(WorkerApply(s, w, a))
  {
    hide SerializeResponse, Answer, L.WellFormed, ResponseOk, WorkerConnAfter;
    if a.Execute? { AnswerFits(s.cache, s.workers[w].job.request, a.stats, s.p.cache); }
  }

  lemma ConnKeepsFit(s: State, a: ConnAct)
    requires ConnEnabled(s, a) && ResponsesFit(s)
    ensures ResponsesFit(ConnApply(s, a))
  {
    hide SerializeResponse, ConnAfter, ConnNext, ConnJobs, L.WellFormed, Verdict, Peek;
  }

  lemma StepKeepsFit(s: State, st: Step)
    requires Enabled(s, st) && ResponsesFit(s) && ValidParams(s.p)
    ensures ResponsesFit(Apply(s, st))
  {
    hide WorkerApply, ConnApply, ListApply, ControlNext, L.WellFormed, ResponseOk;
    match st
    case Work(w, a) => WorkKeepsFit(s, w, a);
    case OnConn(a) => ConnKeepsFit(s, a);
    case _ => QuietSteps(s, st);
  }

  lemma {:induction false} FramesFit(h: seq<Frame>, c: nat)
    requires forall i :: 0 <= i < |h| ==> ResponseOk(h[i].response, DEFAULT_LIMITS)
    ensures forall r :: r in FramesOf(h, c) ==> ResponseOk(r, DEFAULT_LIMITS)
  {
    if h != [] { FramesFit(h[..|h| - 1], c); }
  }
}
