/** What is submitted on a connection is what its client sent: the requests of the received byte stream, in order,
    however it was cut up; and a refusal is the answer to the frame that ends the stream. */
module ServerInput {
  import opened Protocol
  import opened Codec
  import opened Input
  import opened Output
  import opened ServerModel
  import opened ServerKnown

  /** The requests submitted on connection `c`, in order. */
  function RequestsOf(js: seq<Job>, c: nat): seq<Request> {
    if js == [] then []
    else RequestsOf(js[..|js| - 1], c) + (if js[|js| - 1].conn == c then [js[|js| - 1].request] else [])
  }

  /** Received bytes are those of the requests submitted, then the unparsed ones. */
  ghost predicate InputExact(s: State, c: nat) {
    c < |s.conns| ==>
      InputOk(s.conns[c].input, s.p.wire) && RequestsOf(s.submitted, c) == s.conns[c].input.extracted
  }

  /** A reply to no request is the refusal of the malformed frame at the head of the unparsed bytes. */
  predicate IsRefusal(s: State, c: nat, r: Response)
    requires c < |s.conns|
  {
    && Verdict(s, c).Malformed? && Peek(s.conns[c].input.unparsed).Some?
    && r == Refusal(Verdict(s, c).error, Peek(s.conns[c].input.unparsed).value)
  }

  ghost predicate RefusalsExact(s: State, c: nat) {
    c < |s.conns| ==>
      forall i :: 0 <= i < |s.history| && s.history[i].conn == c && s.history[i].ticket.None? ==>
        IsRefusal(s, c, s.history[i].response)
  }

  lemma AppendRequest(js: seq<Job>, j: Job, c: nat)
    ensures RequestsOf(js + [j], c) == RequestsOf(js, c) + (if j.conn == c then [j.request] else [])
  {
    assert (js + [j])[..|js|] == js;
  }

  lemma {:induction false} NoRequests(js: seq<Job>, c: nat)
    requires forall i :: 0 <= i < |js| ==> js[i].conn != c
    ensures RequestsOf(js, c) == []
  {
    if js != [] { NoRequests(js[..|js| - 1], c); }
  }

  // ----- The stream of requests -----

  lemma WorkKeepsInput(s: State, w: nat, a: WorkerAct, c: nat)
    requires WorkerEnabled(s, w, a) && InputExact(s, c)
    ensures InputExact(WorkerApply(s, w, a), c)
  {
    hide SerializeResponse, TheAnswer, WorkerNext, InputOk, RequestsOf;
  }

  lemma ListKeepsInput(s: State, a: ListAct, c: nat)
    requires ListEnabled(s, a) && InputExact(s, c) && Known(s)
    ensures InputExact(ListApply(s, a), c)
  {
    if a.Accept? && c == |s.conns| {
      NothingOk(s.p.wire);
      NoRequests(s.submitted, c);
    }
    hide InputOk, RequestsOf, Known;
  }

  /** Only reads and extractions touch a connection's input. */
  lemma InputTouched(s: State, a: ConnAct)
    requires ConnEnabled(s, a)
    ensures ConnAfter(s, a).input ==
      var i := s.conns[s.loop.c].input;
      if a.ReadOk? then Receive(i, a.chunk) else if a.GotRequest? then Extract(i, s.p.wire) else i
  {
    hide Verdict, Peek, SerializeResponse, Stage, Swap, Send, Account;
  }

  /** The input of every connection, and the requests of every connection, after a step. */
  lemma ConnInputs(s: State, a: ConnAct, c: nat)
    requires ConnEnabled(s, a) && c < |s.conns|
    ensures var s' := ConnApply(s, a);
      && s'.p == s.p && |s'.conns| == |s.conns|
      && s'.conns[c].input == (if c == s.loop.c then ConnAfter(s, a).input else s.conns[c].input)
      && RequestsOf(s'.submitted, c) ==
           RequestsOf(s.submitted, c) + (if c == s.loop.c && a.GotRequest? then [a.request] else [])
  {
    hide Verdict, Peek, ConnAfter, ConnNext, ConnFrames, RequestsOf;
    if a.GotRequest? {
      AppendRequest(s.submitted, NewJob(s, s.loop.c, a.request), c);
    } else {
      assert s.submitted + [] == s.submitted;
      assert RequestsOf(s.submitted, c) + [] == RequestsOf(s.submitted, c);
    }
  }

  lemma ConnKeepsInput(s: State, a: ConnAct, c: nat)
    requires ConnEnabled(s, a) && InputExact(s, c)
    ensures InputExact(ConnApply(s, a), c)
  {
    InputTouched(s, a);
    if c < |s.conns| {
      ConnInputs(s, a, c);
      if a.GotRequest? { assert Verdict(s, s.loop.c).Complete? && Verdict(s, s.loop.c).frame == a.request; }
      hide ConnEnabled, ConnApply, ConnAfter, InputOk, RequestsOf, ParseRequest;
      if c == s.loop.c && a.ReadOk? {
        ReceiveKeepsInput(s.conns[c].input, a.chunk, s.p.wire);
      } else if c == s.loop.c && a.GotRequest? {
        ExtractKeepsInput(s.conns[c].input, s.p.wire);
      }
      assert RequestsOf(s.submitted, c) + [] == RequestsOf(s.submitted, c);
    } else {
      hide ConnEnabled, ConnAfter, ConnNext, ConnFrames, ConnJobs;
    }
  }

  lemma StepKeepsInput(s: State, st: Step, c: nat)
    requires Enabled(s, st) && Known(s) && InputExact(s, c)
    ensures InputExact(Apply(s, st), c)
  {
    hide Known, WorkerApply, ControlNext, ListApply, ConnApply, InputOk, RequestsOf;
    match st
    case Work(w, a) => WorkKeepsInput(s, w, a, c);
    case Lists(a) => ListKeepsInput(s, a, c);
    case OnConn(a) => ConnKeepsInput(s, a, c);
    case _ =>
  }

  // ----- Refusals -----

  lemma WorkKeepsRefusals(s: State, w: nat, a: WorkerAct, c: nat)
    requires WorkerEnabled(s, w, a) && RefusalsExact(s, c)
    ensures RefusalsExact(WorkerApply(s, w, a), c)
  {
    hide SerializeResponse, TheAnswer, WorkerNext, ParseRequest, Peek;
  }

  lemma ListKeepsRefusals(s: State, a: ListAct, c: nat)
    requires ListEnabled(s, a) && RefusalsExact(s, c) && Known(s)
    ensures RefusalsExact(ListApply(s, a), c)
  {
    if a.Accept? && c == |s.conns| {
      forall i | 0 <= i < |s.history| ensures s.history[i].conn != c { assert FrameOk(s, s.history[i]); }
    }
    hide ParseRequest, Peek, Known;
  }

  /** More bytes change neither the verdict on a malformed frame nor its identity. */
  lemma RefusalStable(s: State, c: nat, chunk: Bytes, r: Response)
    requires c < |s.conns| && IsRefusal(s, c, r)
    ensures var k := s.conns[c]; IsRefusal(With(s, c, k.(input := Receive(k.input, chunk))), c, r)
  {
    var u := s.conns[c].input.unparsed;
    RequestVerdictStable(u, s.p.wire, chunk);
    PeekStable(u, chunk);
    hide ParseRequest, Peek;
  }

  lemma PeekStable(s: Bytes, more: Bytes)
    requires |s| >= HEADER_SIZE
    ensures Peek(s + more) == Peek(s)
  {
    assert (s + more)[0..4] == s[0..4] && (s + more)[8..16] == s[8..16];
  }

  lemma ConnKeepsRefusals(s: State, a: ConnAct, c: nat)
    requires ConnEnabled(s, a) && RefusalsExact(s, c)
    ensures RefusalsExact(ConnApply(s, a), c)
  {
    hide SerializeResponse, ParseRequest, Peek, ConnNext, Refusal;
    if c < |s.conns| {
      var s' := ConnApply(s, a);
      forall i | 0 <= i < |s'.history| && s'.history[i].conn == c && s'.history[i].ticket.None?
        ensures IsRefusal(s', c, s'.history[i].response)
      {
        if i < |s.history| {
          assert IsRefusal(s, c, s.history[i].response);
          if c == s.loop.c && a.ReadOk? { RefusalStable(s, c, a.chunk, s.history[i].response); }
        }
      }
    }
  }

  lemma StepKeepsRefusals(s: State, st: Step, c: nat)
    requires Enabled(s, st) && Known(s) && RefusalsExact(s, c)
    ensures RefusalsExact(Apply(s, st), c)
  {
    hide Known, WorkerApply, ControlNext, ListApply, ConnApply, ParseRequest, Peek;
    match st
    case Work(w, a) => WorkKeepsRefusals(s, w, a, c);
    case Lists(a) => ListKeepsRefusals(s, a, c);
    case OnConn(a) => ConnKeepsRefusals(s, a, c);
    case _ =>
  }
}
