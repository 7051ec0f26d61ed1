/** What a client is told, and when: exact answers to every kind of request, to malformed bytes and to a full queue,
    in every reachable state. */
module ServerAnswers {
  import opened Protocol
  import opened Codec
  import opened Stream
  import opened Output
  import opened ServerModel
  import opened ServerCounts
  import opened ServerKnown
  import opened ServerLinear
  import opened ServerInput
  import opened ServerMarks
  import opened ServerQueue
  import opened ServerReachable
  import opened ServerTheorems

  // ----- Executed requests -----

  /** The history of cache operations before the one at `k`. */
  function Before(s: State, k: nat): seq<H.Event>
    requires k <= |s.log|
  {
    H.Exec(OpsOf(s.log[..k]), s.p.cache).history
  }

  /** In any concurrent run, every executed request is answered as the history of operations before it in lock order
      says: a DELETE finds exactly the live keys, a PUT is stored exactly when both of its sizes are allowed. */
  lemma AnswersAreExact(p: Params, threads: nat, s: State, k: nat)
    requires Reachable(p, threads, s) && k < |s.log|
    ensures var r := s.log[k].request; var a := s.log[k].response;
      && (r.opcode.Delete? ==> a == Response(Delete, if H.Live(Before(s, k), r.key) then Ok else NotFound, r.id, []))
      && (r.opcode.Put? ==>
            var fits := |r.value| <= p.cache.maxValue && |r.key| + |r.value| + 128 <= p.cache.maxBytes
              && p.cache.maxEntries > 0;
            a == Response(Put, if fits then Ok else Status.ValueTooLarge, r.id, []))
      && (r.opcode.Ping? ==> a == Response(Ping, Ok, r.id, []))
      && (r.opcode.Clear? ==> a == Response(Clear, Ok, r.id, []))
      && (r.opcode.Stats? ==> a == Response(Stats, Ok, r.id, s.log[k].stats))
  {
    RanInOrder(p, threads, s, k);
    hide Reachable, Answer, Replay, OpsOf, H.Exec;
    ReplayIsExec(s.log[..k], p.cache);
    AnswerAfter(OpsOf(s.log[..k]), s.log[k].request, s.log[k].stats, p.cache);
  }

  /** The operation at `k` answered what the cache at that point gives. */
  lemma RanInOrder(p: Params, threads: nat, s: State, k: nat)
    requires Reachable(p, threads, s) && k < |s.log|
    ensures s.p == p
    ensures s.log[k].response == Answer(Replay(s.log[..k], p.cache), s.log[k].request, s.log[k].stats, p.cache).response
  {
    ReachableLog(p, threads, s);
    hide Reachable, Answer, Replay;
  }

  lemma AnswerAfter(ops: seq<L.Op>, r: Request, stats: Bytes, lim: L.CacheLimits)
    ensures var h := H.Exec(ops, lim).history; var a := Answer(H.Exec(ops, lim).entries, r, stats, lim).response;
      && (r.opcode.Delete? ==> a == Response(Delete, if H.Live(h, r.key) then Ok else NotFound, r.id, []))
      && (r.opcode.Put? ==>
            var fits := |r.value| <= lim.maxValue && |r.key| + |r.value| + 128 <= lim.maxBytes && lim.maxEntries > 0;
            a == Response(Put, if fits then Ok else Status.ValueTooLarge, r.id, []))
      && (r.opcode.Ping? ==> a == Response(Ping, Ok, r.id, []))
      && (r.opcode.Clear? ==> a == Response(Clear, Ok, r.id, []))
      && (r.opcode.Stats? ==> a == Response(Stats, Ok, r.id, stats))
  {
    H.RecencyRefinesHistory(ops, lim);
    hide H.Exec, H.Live, H.LatestPut, L.Lookup, L.Drop, L.MakeRoom;
  }

  /** ... and what it does to the cache is what it was told: a PUT that is Ok makes its key live with its value, one
      that is not changes nothing; a DELETE makes its key not live, a CLEAR all keys; every other request leaves every
      key as it was. */
  lemma EffectsAreExact(p: Params, threads: nat, s: State, k: nat, key: L.Key)
    requires Reachable(p, threads, s) && k < |s.log|
    ensures Effect(Before(s, k), Before(s, k + 1), s.log[k].request, s.log[k].response.status == Ok, key)
  {
    RanInOrder(p, threads, s, k);
    hide Reachable, H.Exec, Effect, Answer, Replay, OpsOf, OpOf;
    ReplayIsExec(s.log[..k], p.cache);
    OneMoreOp(s.log, k);
    EffectAfter(OpsOf(s.log[..k]), s.log[k].request, s.log[k].stats, p.cache, key);
  }

  /** What a request, answered Ok or not, does to one key, in terms of the histories before and after it. */
  predicate Effect(h: seq<H.Event>, h': seq<H.Event>, r: Request, ok: bool, key: L.Key) {
    if r.opcode.Clear? || (r.opcode.Delete? && r.key == key) then !H.Live(h', key)
    else if r.opcode.Put? && ok && r.key == key then H.Live(h', key) && H.LatestPut(h', key) == Some(r.value)
    else if r.opcode.Put? && ok then
      H.LatestPut(h', key) == H.LatestPut(h, key) && (H.Live(h', key) ==> H.Live(h, key))
    else H.LatestPut(h', key) == H.LatestPut(h, key) && (H.Live(h', key) <==> H.Live(h, key))
  }

  lemma OneMoreOp(log: seq<Lin>, k: nat)
    requires k < |log|
    ensures OpsOf(log[..k + 1]) == OpsOf(log[..k]) + OpOf(log[k].request)
  {
    assert log[..k + 1][..k] == log[..k];
  }

  lemma EffectAfter(ops: seq<L.Op>, r: Request, stats: Bytes, lim: L.CacheLimits, key: L.Key)
    ensures Effect(H.Exec(ops, lim).history, H.Exec(ops + OpOf(r), lim).history, r,
                   Answer(H.Exec(ops, lim).entries, r, stats, lim).response.status == Ok, key)
  {
    hide H.Exec, Answer, Effect;
    var run := H.Exec(ops, lim);
    var ok := Answer(run.entries, r, stats, lim).response.status == Ok;
    H.RecencyRefinesHistory(ops, lim);
    if OpOf(r) == [] {
      EffectOfNone(run.history, r, ok, key);
      assert ops + [] == ops;
    } else {
      ExecOne(ops, OpOf(r)[0], lim);
      EffectOfOne(run.entries, run.history, r, stats, lim, key);
      assert OpOf(r) == [OpOf(r)[0]];
    }
  }

  lemma EffectOfNone(h: seq<H.Event>, r: Request, ok: bool, key: L.Key)
    requires OpOf(r) == []
    ensures Effect(h, h, r, ok, key)
  {
  }

  lemma ExecOne(ops: seq<L.Op>, op: L.Op, lim: L.CacheLimits)
    ensures var run := H.Exec(ops, lim);
      H.Exec(ops + [op], lim).history == run.history + [H.Event(op, L.Apply(run.entries, op, lim).outcome)]
  {
    assert (ops + [op])[..|ops|] == ops;
  }

  lemma EffectOfOne(es: seq<L.Entry>, h: seq<H.Event>, r: Request, stats: Bytes, lim: L.CacheLimits, key: L.Key)
    requires H.HoldsLive(es, h) && OpOf(r) != []
    ensures var op := OpOf(r)[0]; var ok := Answer(es, r, stats, lim).response.status == Ok;
      Effect(h, h + [H.Event(op, L.Apply(es, op, lim).outcome)], r, ok, key)
  {
    var op := OpOf(r)[0];
    H.Extend(h, H.Event(op, L.Apply(es, op, lim).outcome), key);
    hide H.Live, H.LatestPut, H.LastTouch, L.Lookup, L.Drop, L.MakeRoom;
  }

  // ----- The queue -----

  lemma ReachableQueue(p: Params, threads: nat, s: State)
    requires Reachable(p, threads, s)
    ensures QueueOk(s) && s.p == p
  {
    ReachableConn(p, threads, s, 0);
    hide Reachable, ConnInv, Known, QueueOk;
  }

  /** The queue is never longer than configured; and a submission is refused, leaving it as it is, exactly when it is
      as long as that. */
  lemma QueueIsBounded(p: Params, threads: nat, s: State)
    requires Reachable(p, threads, s)
    ensures |s.queue| <= p.maxPending
    ensures s.loop.Submitting? ==>
      var s' := Apply(s, Submit);
      && (s'.loop.Busy? <==> |s.queue| == p.maxPending)
      && s'.queue == (if |s.queue| == p.maxPending then s.queue else s.queue + [s.loop.job])
      && (|s.queue| != p.maxPending ==> s'.loop == Process(s.loop.c))
  {
    ReachableQueue(p, threads, s);
    hide Reachable;
  }

  /** A refused request is answered SERVER_BUSY: nothing else can happen next on the loop's side. */
  lemma RefusedByQueueIsAnswered(p: Params, threads: nat, s: State, st: Step)
    requires Reachable(p, threads, s) && s.loop.Busy? && Enabled(s, st) && !st.Work? && !st.Discard?
    ensures var job := s.loop.job; var s' := Apply(s, st);
      && |s'.history| == |s.history| + 1 && s'.history[..|s.history|] == s.history
      && s'.history[|s.history|].conn == s.loop.c && s'.history[|s.history|].ticket == Some(job.ticket)
      && s'.history[|s.history|].response == Response(job.request.opcode, ServerBusy, job.request.id, [])
      && s'.history[|s.history|].queued == p.maxPending && s'.queue == s.queue
  {
    ReachableQueue(p, threads, s);
    hide Reachable, SerializeResponse, Stage, HardCap, Verdict, Peek, CoversOpen;
  }

  // ----- Malformed input -----

  /** What a refusal says, from the bytes it answers: the id and the opcode are those of the frame, and the status is
      UNSUPPORTED_VERSION for another version, VALUE_TOO_LARGE for a frame that is in order up to and including its key
      length but announces a value above the limit, and INVALID_REQUEST for anything else. */
  lemma RefusalsAreExact(p: Params, threads: nat, s: State, i: nat)
    requires Reachable(p, threads, s) && i < |s.history| && s.history[i].ticket.None?
    ensures s.history[i].conn < |s.conns|
    ensures var u := s.conns[s.history[i].conn].input.unparsed; var a := s.history[i].response;
      && |u| >= 24 && BE.Decode(u[0..4]) == 0x4C43_5331 && 1 <= u[5] <= 6
      && OpcodeByte(a.opcode) == u[5] && a.id == BE.Decode(u[8..16]) && a.value == []
      && (a.status == Status.UnsupportedVersion <==> u[4] != 1)
      && (a.status == Status.ValueTooLarge <==> u[4] == 1 && OnlyValueTooLarge(u, p.wire))
      && (a.status == InvalidRequest <==> u[4] == 1 && !OnlyValueTooLarge(u, p.wire))
  {
    RefusalsEndTheStream(p, threads, s, i);
    ReachableParams(p, threads, s);
    hide Reachable, ParseRequests, RequestsOf;
    RefusalOfBytes(s.conns[s.history[i].conn].input.unparsed, p.wire);
    hide ParseRequest, Peek;
  }

  /** In order but for the length of its value: no flags, no status, a key within the limit, a value above it. */
  predicate OnlyValueTooLarge(u: Bytes, l: Limits)
    requires |u| >= 24
  {
    && u[6] == 0 && u[7] == 0
    && BE.Decode(u[16..20]) <= l.maxKey && BE.Decode(u[16..20]) <= 64 * 1024
    && (BE.Decode(u[20..24]) > l.maxValue || BE.Decode(u[20..24]) > 64 * 1024 * 1024)
  }

  lemma RefusalOfBytes(u: Bytes, l: Limits)
    requires ParseRequest(u, l).Malformed? && Peek(u).Some?
    ensures var a := Refusal(ParseRequest(u, l).error, Peek(u).value);
      && |u| >= 24 && BE.Decode(u[0..4]) == 0x4C43_5331 && 1 <= u[5] <= 6
      && OpcodeByte(a.opcode) == u[5] && a.id == BE.Decode(u[8..16]) && a.value == []
      && (a.status == Status.UnsupportedVersion <==> u[4] != 1)
      && (a.status == Status.ValueTooLarge <==> u[4] == 1 && OnlyValueTooLarge(u, l))
      && (a.status == InvalidRequest <==> u[4] == 1 && !OnlyValueTooLarge(u, l))
  {
    BE.Ranges();
    RequestErrorsExactly(u, l);
    hide ParseRequest, BE.Decode;
  }

  /** What process_input does with the bytes at the head of the input, whatever the workers do meanwhile: a whole
      request is submitted, a partial one waits, a malformed one is answered if its opcode can be told and marks the
      connection for closing if not. */
  lemma InputIsTaken(p: Params, threads: nat, s: State, c: nat, st: Step)
    requires Reachable(p, threads, s) && s.loop == Parse(c) && c < |s.conns|
    requires Enabled(s, st) && !st.Work? && !st.Discard?
    ensures var s' := Apply(s, st); var u := s.conns[c].input.unparsed; var v := ParseRequest(u, p.wire);
      && c < |s'.conns|
      && (v.Complete? ==>
            && |s'.submitted| == |s.submitted| + 1 && s'.submitted[..|s.submitted|] == s.submitted
            && s'.submitted[|s.submitted|].request == v.frame && s'.submitted[|s.submitted|].conn == c
            && s'.history == s.history && s'.conns[c].inflight == s.conns[c].inflight + 1
            && v.consumed <= |u| && s'.conns[c].input.unparsed == u[v.consumed..])
      && (v.NeedMore? ==> s' == s.(loop := FlushTop(c, ThenCheck)))
      && (v.Malformed? ==> s'.submitted == s.submitted && s'.conns[c].input == s.conns[c].input)
      && (v.Malformed? && Identified(u) ==>
            && |s'.history| == |s.history| + 1 && s'.history[..|s.history|] == s.history
            && s'.history[|s.history|].conn == c && s'.history[|s.history|].ticket == None
            && s'.loop == Refused(c, s'.conns[c].out.pending > HardCap(p.maxOutput)))
      && (v.Malformed? && !Identified(u) ==> s'.history == s.history && s'.conns[c].closeAfterFlush)
  {
    ReachableParams(p, threads, s);
    hide Reachable;
    if st.OnConn? {
      if ParseRequest(s.conns[c].input.unparsed, p.wire).Complete? {
        ParsedWithin(s.conns[c].input.unparsed, p.wire);
      }
      TakenByConn(s, c, st.conn);
      hide ConnApply, ConnEnabled, ParseRequest, HardCap, Identified;
    } else {
      OnlyNeedsMore(s, c, st);
      hide ParseRequest, Enabled, Apply, HardCap, Identified;
    }
  }

  lemma OnlyNeedsMore(s: State, c: nat, st: Step)
    requires s.loop == Parse(c) && c < |s.conns| && Enabled(s, st) && !st.Work? && !st.Discard? && !st.OnConn?
    ensures ParseRequest(s.conns[c].input.unparsed, s.p.wire).NeedMore?
    ensures Apply(s, st) == s.(loop := FlushTop(c, ThenCheck))
  {
    hide ParseRequest, CoversOpen, ListApply;
  }

  /** The magic is right and the opcode is known. */
  predicate Identified(u: Bytes) { |u| >= 24 && BE.Decode(u[0..4]) == 0x4C43_5331 && 1 <= u[5] <= 6 }

  lemma ParsedWithin(u: Bytes, l: Limits)
    requires ParseRequest(u, l).Complete?
    ensures ParseRequest(u, l).consumed <= |u|
  {
    RequestParsesExactly(u, l, ParseRequest(u, l).frame, ParseRequest(u, l).consumed);
  }

  lemma PeekIsIdentified(u: Bytes)
    ensures Peek(u).Some? <==> Identified(u)
  {
    BE.Ranges();
  }

  lemma TakenByConn(s: State, c: nat, a: ConnAct)
    requires s.loop == Parse(c) && c < |s.conns| && ConnEnabled(s, a)
    ensures var s' := ConnApply(s, a); var u := s.conns[c].input.unparsed; var v := ParseRequest(u, s.p.wire);
      && c < |s'.conns| && !v.NeedMore?
      && (v.Complete? ==>
            && s'.submitted == s.submitted + [NewJob(s, c, v.frame)] && s'.history == s.history
            && s'.conns[c].inflight == s.conns[c].inflight + 1
            && (v.consumed <= |u| ==> s'.conns[c].input.unparsed == u[v.consumed..]))
      && (v.Malformed? ==> s'.submitted == s.submitted && s'.conns[c].input == s.conns[c].input)
      && (v.Malformed? && Identified(u) ==>
            && |s'.history| == |s.history| + 1 && s'.history[..|s.history|] == s.history
            && s'.history[|s.history|].conn == c && s'.history[|s.history|].ticket == None
            && s'.loop == Refused(c, s'.conns[c].out.pending > HardCap(s.p.maxOutput)))
      && (v.Malformed? && !Identified(u) ==> s'.history == s.history && s'.conns[c].closeAfterFlush)
  {
    PeekIsIdentified(s.conns[c].input.unparsed);
    hide SerializeResponse, Stage, HardCap, Peek, ParseRequest, Refusal, Identified;
  }

  /** A connection that was sent a refusal is marked for closing from the moment the loop leaves the refusal, and is
      closed at once if the refusal took its backlog over the cap; and it is marked for nothing but malformed input
      and a backlog over the cap. */
  lemma MarkedExactly(p: Params, threads: nat, s: State, c: nat)
    requires Reachable(p, threads, s) && c < |s.conns|
    ensures s.conns[c].closeAfterFlush && IsOpen(s, c) ==>
      ParseRequest(s.conns[c].input.unparsed, p.wire).Malformed?
      || exists i :: 0 <= i < |s.history| && s.history[i].conn == c && s.history[i].backlog > HardCap(p.maxOutput)
    ensures !s.conns[c].closeAfterFlush && !(s.loop.Refused? && s.loop.c == c) ==>
      forall i :: 0 <= i < |s.history| && s.history[i].conn == c ==> s.history[i].ticket.Some?
    ensures s.loop.Refused? && s.loop.c == c ==>
      forall st :: Enabled(s, st) && !st.Work? && !st.Discard? ==>
        var s' := Apply(s, st);
        c < |s'.conns| && s'.conns[c].closeAfterFlush && s'.conns[c].closed == (s.conns[c].closed || s.loop.over)
  {
    ReachableMarks(p, threads, s, c);
    if s.conns[c].closeAfterFlush && IsOpen(s, c) && WasOver(s, c) {
      var i :| OverWith(s, c, i);
    }
    forall st | s.loop.Refused? && s.loop.c == c && Enabled(s, st) && !st.Work? && !st.Discard?
      ensures var s' := Apply(s, st);
        c < |s'.conns| && s'.conns[c].closeAfterFlush && s'.conns[c].closed == (s.conns[c].closed || s.loop.over)
    {
      RefusalFinishes(s, c, st);
    }
    hide Reachable, ParseRequest, HardCap, Enabled, Apply, CountWorkers;
  }

  lemma ReachableMarks(p: Params, threads: nat, s: State, c: nat)
    requires Reachable(p, threads, s)
    ensures MarksOk(s, c) && RefusedIsMarked(s, c) && s.p == p
  {
    ReachableConn(p, threads, s, c);
    hide Reachable, GlobalInv, MarksOk, RefusedIsMarked;
  }

  lemma RefusalFinishes(s: State, c: nat, st: Step)
    requires s.loop.Refused? && s.loop.c == c && c < |s.conns| && Enabled(s, st) && !st.Work? && !st.Discard?
    ensures var s' := Apply(s, st);
      c < |s'.conns| && s'.conns[c].closeAfterFlush && s'.conns[c].closed == (s.conns[c].closed || s.loop.over)
  {
    hide SerializeResponse, Stage, HardCap, Verdict, Peek, CoversOpen;
  }
}
