/** A connection's output as a value: what has been sent, what is being written, what is staged. */
module Output {
  import opened Protocol

  datatype OutBuf = OutBuf(
    sent: Bytes,       // history: every byte send() has taken
    unwritten: Bytes,  // write_buf_ from write_pos_ on
    staged: Bytes,
    pending: int)      // pending_output_bytes_

  const EMPTY := OutBuf([], [], [], 0)

  /** Every byte ever staged, in order. */
  function Total(o: OutBuf): Bytes { o.sent + o.unwritten + o.staged }

  function Unsent(o: OutBuf): nat { |o.unwritten| + |o.staged| }

  function Stage(o: OutBuf, frame: Bytes): (r: OutBuf)
    ensures Total(r) == Total(o) + frame
    ensures r.pending - Unsent(r) == o.pending - Unsent(o)
  {
    o.(staged := o.staged + frame, pending := o.pending + |frame|)
  }

  function Swap(o: OutBuf): (r: OutBuf)
    requires o.unwritten == []
    ensures Total(r) == Total(o) && Unsent(r) == Unsent(o) && r.pending == o.pending
  {
    o.(unwritten := o.staged, staged := [])
  }

  function Send(o: OutBuf, n: nat): (r: OutBuf)
    requires n <= |o.unwritten|
    ensures Total(r) == Total(o) && Unsent(r) == Unsent(o) - n && r.pending == o.pending
  {
    assert o.unwritten == o.unwritten[..n] + o.unwritten[n..];
    o.(sent := o.sent + o.unwritten[..n], unwritten := o.unwritten[n..])
  }

  /** The hard cap on a backlog, as the machine doubles the configured limit. */
  function HardCap(maxOutput: size): size { AddSize(maxOutput, maxOutput) }

  /** It is twice the limit exactly while the doubling does not wrap; beyond that it is below the limit itself. */
  lemma HardCapExactly(maxOutput: size)
    ensures HardCap(maxOutput) == 2 * maxOutput <==> maxOutput <= SIZE_MAX / 2
    ensures HardCap(maxOutput) < maxOutput <==> maxOutput > SIZE_MAX / 2
  {
  }

  function Account(o: OutBuf, n: nat): (r: OutBuf)
    ensures Total(r) == Total(o) && Unsent(r) == Unsent(o)
  {
    o.(pending := o.pending - n)
  }
}

/** A connection's input as a value: what has been received, what of it is unparsed, what was handed out. */
module Input {
  import opened Protocol
  import opened Codec
  import opened Stream

  datatype InBuf = InBuf(received: Bytes, unparsed: Bytes, extracted: seq<Request>)

  const NOTHING := InBuf([], [], [])

  /** Every received byte is part of a request handed out or still unparsed. */
  ghost predicate InputOk(i: InBuf, l: Limits) {
    && i.received == SerializeRequests(i.extracted) + i.unparsed
    && (forall r :: r in i.extracted ==> RequestOk(r, l))
  }

  function Receive(i: InBuf, chunk: Bytes): InBuf {
    i.(received := i.received + chunk, unparsed := i.unparsed + chunk)
  }

  function Extract(i: InBuf, l: Limits): InBuf
    requires ParseRequest(i.unparsed, l).Complete?
  {
    var Complete(r, n) := ParseRequest(i.unparsed, l);
    i.(unparsed := i.unparsed[n..], extracted := i.extracted + [r])
  }

  lemma NothingOk(l: Limits)
    ensures InputOk(NOTHING, l)
  {
  }

  lemma ReceiveKeepsInput(i: InBuf, chunk: Bytes, l: Limits)
    requires InputOk(i, l)
    ensures InputOk(Receive(i, chunk), l)
  {
    hide SerializeRequests;
    Assoc(SerializeRequests(i.extracted), i.unparsed, chunk);
  }

  lemma ExtractKeepsInput(i: InBuf, l: Limits)
    requires InputOk(i, l) && ParseRequest(i.unparsed, l).Complete?
    ensures InputOk(Extract(i, l), l) && RequestOk(ParseRequest(i.unparsed, l).frame, l)
  {
    hide ParseRequest, SerializeRequest, SerializeRequests;
    Extracting(i.extracted, i.unparsed, l);
  }

  /** Handing out a request moves its bytes from the unparsed part to the extracted part. */
  lemma Extracting(extracted: seq<Request>, view: Bytes, l: Limits)
    requires ParseRequest(view, l).Complete?
    ensures var Complete(r, n) := ParseRequest(view, l);
      && RequestOk(r, l)
      && SerializeRequests(extracted) + view == SerializeRequests(extracted + [r]) + view[n..]
  {
    hide ParseRequest, SerializeRequest, SerializeRequests;
    var Complete(r, n) := ParseRequest(view, l);
    RequestParsesExactly(view, l, r, n);
    SerializeRequestsAppend(extracted, r);
    Assoc(SerializeRequests(extracted), view[..n], view[n..]);
    assert view == view[..n] + view[n..];
  }

  /** What was handed out is what parsing the received bytes in one go yields first, and the parser's verdict on
      the unparsed part is the verdict on the stream at that place. */
  lemma ExtractedIsTheStream(i: InBuf, l: Limits)
    requires InputOk(i, l)
    ensures var whole := ParseRequests(i.received, l);
      && i.extracted <= whole.frames
      && (ParseRequest(i.unparsed, l).NeedMore? ==> whole == Whole(i.extracted, i.unparsed, None))
      && (ParseRequest(i.unparsed, l).Malformed? ==>
            whole == Whole(i.extracted, i.unparsed, Some(ParseRequest(i.unparsed, l).error)))
  {
    hide ParseRequest, SerializeRequest, SerializeRequests;
    ParsePastRequests(i.extracted, i.unparsed, l);
    assert i.extracted + [] == i.extracted;
  }
}

/** One client connection as an object: its input buffer, its output buffers, its counters and flags. */
module Connections {
  import opened Protocol
  import opened Codec
  import opened Stream
  import opened Input
  import opened Output

  const COMPACT_THRESHOLD: nat := 32 * 1024

  datatype ConnectionLimits = ConnectionLimits(wire: Limits, maxOutput: size, maxInflight: nat)

  datatype IoResult = IoOk | WouldBlock | EndOfStream | Failed

  /** What the socket does when asked for some bytes; an empty chunk is the end of the stream. */
  datatype ReadOutcome = Got(chunk: Bytes) | ReadInterrupted | ReadAgain | ReadError

  /** What the socket does when asked to take some bytes. */
  datatype SendOutcome = Took(n: nat) | Interrupted | Again | Error

  /** A send after which flush_output sends again. */
  predicate KeepsGoing(o: SendOutcome) { o == Interrupted || (o.Took? && o.n > 0) }

  /** The output after the socket did what `script` says, for as long as there is anything to write and the socket
      goes on taking it: first what is being written, then whatever is staged. */
  function Flushed(o: OutBuf, script: seq<SendOutcome>): OutBuf
    decreases |script|
  {
    if o.unwritten == [] && o.staged == [] then o
    else
      var o := if o.unwritten == [] then Swap(o) else o;
      if script == [] || !KeepsGoing(script[0]) then o
      else if script[0].Took? then
        var n := Min(script[0].n, |o.unwritten|);
        Flushed(Account(Send(o, n), n), script[1..])
      else Flushed(o, script[1..])
  }

  class Connection {
    const limits: ConnectionLimits
    var inBuf: Bytes
    var inPos: nat
    var staged: Bytes
    var writeBuf: Bytes
    var writePos: nat
    var pending: nat
    var inflight: size
    var closed: bool
    var notifyPending: bool
    ghost var received: Bytes            // every byte read from the socket
    ghost var extracted: seq<Request>    // every request handed out
    ghost var sent: Bytes                // every byte the socket took

    /** Input not yet handed out. */
    ghost function Unparsed(): Bytes
      requires inPos <= |inBuf|
      reads this
    {
      inBuf[inPos..]
    }

    ghost function In(): InBuf
      requires inPos <= |inBuf|
      reads this
    {
      InBuf(received, Unparsed(), extracted)
    }

    ghost function Out(): OutBuf
      requires writePos <= |writeBuf|
      reads this
    {
      OutBuf(sent, writeBuf[writePos..], staged, pending)
    }

    ghost predicate Valid() reads this {
      && inPos <= |inBuf| && writePos <= |writeBuf|
      && InputOk(In(), limits.wire)
      && pending == Unsent(Out())
    }

    constructor (limits: ConnectionLimits)
      ensures Valid() && this.limits == limits
      ensures In() == NOTHING && Out() == EMPTY && inflight == 0 && !closed && !notifyPending
    {
      this.limits := limits;
      inBuf, inPos, staged, writeBuf, writePos, pending := [], 0, [], [], 0, 0;
      inflight, closed, notifyPending := 0, false, false;
      received, extracted, sent := [], [], [];
      new;
      NothingOk(limits.wire);
    }

    /** One read: whatever arrives goes behind what was there, and nothing else moves. */
    method ReadSome(outcome: ReadOutcome) returns (result: IoResult)
      requires Valid()
      modifies this`inBuf, this`received
      ensures Valid()
      ensures In() == if outcome.Got? then Receive(old(In()), outcome.chunk) else old(In())
      ensures result == EndOfStream <==> outcome == Got([])
      ensures result == WouldBlock <==> outcome == ReadAgain
      ensures result == Failed <==> outcome == ReadError
    {
      hide InputOk;
      match outcome {
        case Got(chunk) =>
          if chunk == [] { return EndOfStream; }
          ReceiveKeepsInput(In(), chunk, limits.wire);
          inBuf := inBuf + chunk;
          received := received + chunk;
          assert Unparsed() == old(Unparsed()) + chunk;
          return IoOk;
        case ReadInterrupted => return IoOk;
        case ReadAgain => return WouldBlock;
        case ReadError => return Failed;
      }
    }

    method CompactInput()
      requires Valid()
      modifies this`inBuf, this`inPos
      ensures Valid() && inPos == 0 && Unparsed() == old(Unparsed())
    {
      if inPos == 0 { return; }
      inBuf := inBuf[inPos..];
      inPos := 0;
    }

    /** The next request, by the incremental parser: compaction is invisible, and on a verdict other than
        Complete nothing is taken from the stream. */
    method NextRequest() returns (result: Parsed<Request>)
      requires Valid()
      modifies this`inBuf, this`inPos, this`extracted
      ensures Valid()
      ensures result == ParseRequest(old(Unparsed()), limits.wire)
      ensures In() == if result.Complete? then Extract(old(In()), limits.wire) else old(In())
    {
      hide ParseRequest, InputOk;
      var view := inBuf[inPos..];
      result := ParseRequest(view, limits.wire);
      if result.Complete? {
        ParseWithin(view, limits.wire);
        ExtractKeepsInput(In(), limits.wire);
        extracted := extracted + [result.frame];
        inPos := inPos + result.consumed;
        assert inBuf[inPos..] == view[result.consumed..];
        if inPos >= COMPACT_THRESHOLD { CompactInput(); }
      } else if result.NeedMore? {
        CompactInput();
      }
    }

    /** Best-effort identity of the frame at the head of the input. */
    method PeekRequestHeader() returns (who: Option<(uint64, Opcode)>)
      requires Valid()
      ensures who.Some? <==>
        |Unparsed()| >= HEADER_SIZE && ReadU32(Unparsed()[0..4]) == MAGIC && OpcodeOf(Unparsed()[5]).Some?
      ensures who == Peek(Unparsed())
    {
      var head := inBuf[inPos..];
      if |head| < HEADER_SIZE || ReadU32(head[0..4]) != MAGIC || OpcodeOf(head[5]).None? { return None; }
      who := Some((ReadWord64(head[8..16]), OpcodeOf(head[5]).value));
    }

    /** Stage a whole frame; false asks the caller to close. */
    method EnqueueResponse(frame: Bytes, completesRequest: bool) returns (healthy: bool)
      requires Valid()
      modifies this`staged, this`pending, this`inflight
      ensures Valid()
      ensures inflight == if completesRequest then SubSize(old(inflight), 1) else old(inflight)
      ensures closed ==> !healthy && Out() == old(Out())
      ensures !closed ==> Out() == Stage(old(Out()), frame) && (healthy <==> pending <= HardCap(limits.maxOutput))
    {
      if closed {
        if completesRequest { inflight := SubSize(inflight, 1); }
        return false;
      }
      staged := staged + frame;
      pending := pending + |frame|;
      healthy := pending <= HardCap(limits.maxOutput);
      if completesRequest { inflight := SubSize(inflight, 1); }
    }

    /** The socket took `n` bytes of what was offered. */
    method TakeBytes(n: nat)
      requires Valid() && 0 < n <= |writeBuf| - writePos
      modifies this`writePos, this`pending, this`sent
      ensures Valid() && Out() == Account(Send(old(Out()), n), n) && old(sent) <= sent
    {
      sent := sent + writeBuf[writePos..writePos + n];
      writePos := writePos + n;
      pending := pending - n;
      assert writeBuf[writePos..] == old(Out()).unwritten[n..];
    }

    /** Everything staged becomes the buffer being written. */
    method TakeStaged()
      requires Valid() && writePos >= |writeBuf|
      modifies this`staged, this`writeBuf, this`writePos
      ensures Valid() && Out() == Swap(old(Out())) && writePos == 0 && writeBuf == old(staged)
    {
      writeBuf, writePos, staged := staged, 0, [];
    }

    /** Write until the socket stops taking bytes; `script` is what it does at each call. Whatever happens, no
        byte is lost, repeated or reordered, and the backlog counter is exact. */
    method FlushOutput(script: seq<SendOutcome>) returns (result: IoResult, ghost calls: nat)
      requires Valid()
      modifies this`staged, this`writeBuf, this`writePos, this`pending, this`sent
      ensures Valid()
      ensures Out() == Flushed(old(Out()), script)
      ensures Total(Out()) == old(Total(Out()))
      ensures old(sent) <= sent
      ensures result == IoOk ==> pending == 0 && sent == Total(Out())
      ensures result == WouldBlock ==> pending > 0
      ensures result != EndOfStream && calls <= |script|
      ensures forall j :: 0 <= j < calls ==> KeepsGoing(script[j])
      ensures result == WouldBlock ==> calls == |script| || script[calls] == Again
      ensures result == Failed ==> calls < |script| && script[calls] in {Error, Took(0)}
    {
      hide InputOk, Flushed, Swap, Send, Account, Total;
      var i := 0;
      calls := 0;
      assert script[0..] == script;
      while true
        invariant 0 <= i <= |script|
        invariant Valid() && Total(Out()) == old(Total(Out())) && old(sent) <= sent
        invariant calls == i && forall j :: 0 <= j < i ==> KeepsGoing(script[j])
        invariant Flushed(Out(), script[i..]) == Flushed(old(Out()), script)
        decreases |script| - i
      {
        FlushedStep(Out(), script, i);
        if writePos >= |writeBuf| {
          if staged == [] {
            writeBuf, writePos := [], 0;
            AllSent(Out());
            return IoOk, i;
          }
          TakeStaged();
        }
        if i == |script| { return WouldBlock, i; }
        match script[i] {
          case Took(n) =>
            if n == 0 { return Failed, i; }
            TakeBytes(Min(n, |writeBuf| - writePos));
          case Interrupted =>
          case Again => return WouldBlock, i;
          case Error => return Failed, i;
        }
        i := i + 1;
        calls := i;
      }
    }

    /** Claim the right to queue a wake-up: true for exactly one caller until it is cleared. */
    method TryMarkNotified() returns (won: bool)
      modifies this`notifyPending
      ensures notifyPending && won == !old(notifyPending)
    {
      won := !notifyPending;
      notifyPending := true;
    }
  }

  lemma ParseWithin(view: Bytes, l: Limits)
    ensures ParseRequest(view, l).Complete? ==> ParseRequest(view, l).consumed <= |view|
  {
  }

  lemma AllSent(o: OutBuf)
    requires o.unwritten == [] && o.staged == []
    ensures Total(o) == o.sent
  {
    assert o.sent + [] + [] == o.sent;
  }

  lemma FlushedStep(o: OutBuf, script: seq<SendOutcome>, i: nat)
    requires i <= |script|
    ensures var done := o.unwritten == [] && o.staged == []; var o1 := if o.unwritten == [] then Swap(o) else o;
      && (done ==> Flushed(o, script[i..]) == o)
      && (!done && (i == |script| || !KeepsGoing(script[i])) ==> Flushed(o, script[i..]) == o1)
      && (!done && i < |script| && script[i] == Interrupted ==> Flushed(o, script[i..]) == Flushed(o1, script[i + 1..]))
      && (!done && i < |script| && script[i].Took? && script[i].n > 0 ==>
            var n := Min(script[i].n, |o1.unwritten|);
            Flushed(o, script[i..]) == Flushed(Account(Send(o1, n), n), script[i + 1..]))
      && (!done ==> Flushed(o1, script[i..]) == Flushed(o, script[i..]))
  {
    if i < |script| { assert script[i..][1..] == script[i + 1..]; }
  }

  // ----- Runs of reads and extractions -----

  datatype InputEvent = Read(chunk: Bytes) | TryExtract

  /** The input side after some reads and extractions, in any order and with any chunk sizes; extraction may be
      suspended for as long as the in-flight limit demands. */
  datatype InputState = InputState(buf: InBuf, error: Option<ParseError>)

  function InputAfter(events: seq<InputEvent>, l: Limits): InputState {
    if events == [] then InputState(NOTHING, None)
    else
      var s := InputAfter(events[..|events| - 1], l);
      match events[|events| - 1]
      case Read(chunk) => s.(buf := Receive(s.buf, chunk))
      case TryExtract =>
        match ParseRequest(s.buf.unparsed, l)
        case Complete(_, _) => s.(buf := Extract(s.buf, l))
        case NeedMore => s
        case Malformed(e) => s.(error := Some(e))
  }

  lemma {:induction false} InputConserved(events: seq<InputEvent>, l: Limits)
    ensures var s := InputAfter(events, l);
      && InputOk(s.buf, l)
      && (s.error.Some? ==> ParseRequest(s.buf.unparsed, l) == Malformed(s.error.value))
  {
    if events == [] {
      NothingOk(l);
    } else {
      hide ParseRequest, SerializeRequest, SerializeRequests, InputOk;
      var s := InputAfter(events[..|events| - 1], l);
      InputConserved(events[..|events| - 1], l);
      match events[|events| - 1]
      case Read(chunk) =>
        ReceiveKeepsInput(s.buf, chunk, l);
        if s.error.Some? { RequestVerdictStable(s.buf.unparsed, l, chunk); }
      case TryExtract =>
        if ParseRequest(s.buf.unparsed, l).Complete? { ExtractKeepsInput(s.buf, l); }
    }
  }

  /** Chunking, compaction and pauses are unobservable: what has been extracted is what parsing the received
      bytes in one go yields first, and an error is the same error at the same place. */
  lemma ChunkingIsUnobservable(events: seq<InputEvent>, l: Limits)
    ensures var s := InputAfter(events, l); var whole := ParseRequests(s.buf.received, l);
      && s.buf.extracted <= whole.frames
      && (s.error.Some? ==> whole.frames == s.buf.extracted && whole.error == s.error)
      && (ParseRequest(s.buf.unparsed, l).NeedMore? ==> whole == Whole(s.buf.extracted, s.buf.unparsed, None))
  {
    hide ParseRequest, SerializeRequest, SerializeRequests;
    InputConserved(events, l);
    ExtractedIsTheStream(InputAfter(events, l).buf, l);
  }
}
