/** The benchmark's pipelining client: many connections, one thread, responses matched by request id. */
module PipelineClient {
  import opened Protocol
  import opened Codec
  import opened Stream

  datatype RequestSpec = RequestSpec(opcode: Opcode, key: Bytes, value: Bytes)

  /** One connection; `wantWrite` is whether epoll watches it for writing, `pending` maps request ids to what was
      asked. `got` and `sent` are history: the bytes its socket has yielded and taken. */
  datatype Conn = Conn(
    live: bool, wantWrite: bool, input: Bytes, got: Bytes, sent: Bytes, output: Bytes, outputPos: nat,
    pending: map<nat, RequestSpec>)

  /** A request sent: history, in order of issue. */
  datatype Issue = Issue(conn: nat, id: uint64, spec: RequestSpec)

  /** A response handed to the completion callback: history, in order. */
  datatype Done = Done(conn: nat, id: nat, response: Response)

  // ----- What holds between any two operations -----

  function One(b: bool): nat { if b then 1 else 0 }

  function LiveCount(cs: seq<Conn>): nat {
    if cs == [] then 0 else LiveCount(cs[..|cs| - 1]) + One(cs[|cs| - 1].live)
  }

  function TotalPending(cs: seq<Conn>): nat {
    if cs == [] then 0 else TotalPending(cs[..|cs| - 1]) + |cs[|cs| - 1].pending|
  }

  lemma {:induction false} ReplaceConn(cs: seq<Conn>, i: nat, c: Conn)
    requires i < |cs|
    ensures TotalPending(cs[i := c]) + |cs[i].pending| == TotalPending(cs) + |c.pending|
    ensures LiveCount(cs[i := c]) + One(cs[i].live) == LiveCount(cs) + One(c.live)
  {
    var n := |cs| - 1;
    if i == n {
      assert cs[i := c][..n] == cs[..n];
    } else {
      assert cs[i := c][..n] == cs[..n][i := c];
      ReplaceConn(cs[..n], i, c);
    }
  }

  /** Request `id` was issued on connection `c` as `spec`; ids are issued as 1, 2, 3, ... */
  predicate IssuedOn(issues: seq<Issue>, id: nat, c: nat) {
    1 <= id <= |issues| && issues[id - 1].conn == c && issues[id - 1].id == id
  }

  function IssueFrame(x: Issue): Bytes { SerializeRequest(Request(x.spec.opcode, x.id, x.spec.key, x.spec.value)) }

  /** The bytes of all requests issued on a connection, in order. */
  function IssuedBytes(issues: seq<Issue>, c: nat): Bytes {
    if issues == [] then []
    else
      var x := issues[|issues| - 1];
      IssuedBytes(issues[..|issues| - 1], c) + (if x.conn == c then IssueFrame(x) else [])
  }

  /** Bytes taken by the socket and bytes still to write are exactly the requests issued on the connection. */
  ghost predicate StreamOk(c: Conn, issues: seq<Issue>, i: nat) {
    c.outputPos <= |c.output| && c.sent + c.output[c.outputPos..] == IssuedBytes(issues, i)
  }

  lemma IssueExtendsStream(c: Conn, issues: seq<Issue>, i: nat, x: Issue)
    requires StreamOk(c, issues, i)
    ensures x.conn == i ==> StreamOk(c.(output := c.output + IssueFrame(x)), issues + [x], i)
    ensures x.conn != i ==> StreamOk(c, issues + [x], i)
  {
    hide IssueFrame;
    assert (issues + [x])[..|issues|] == issues;
    var f := IssueFrame(x);
    assert (c.output + f)[c.outputPos..] == c.output[c.outputPos..] + f;
    assert c.sent + (c.output[c.outputPos..] + f) == (c.sent + c.output[c.outputPos..]) + f;
  }

  lemma ExtendStreams(cs: seq<Conn>, issues: seq<Issue>, x: Issue)
    requires x.conn < |cs| && forall c :: 0 <= c < |cs| ==> StreamOk(cs[c], issues, c)
    ensures forall c :: 0 <= c < |cs| && c != x.conn ==> StreamOk(cs[c], issues + [x], c)
    ensures StreamOk(AddPending(cs[x.conn], x), issues + [x], x.conn)
  {
    hide IssueFrame;
    forall c | 0 <= c < |cs| && c != x.conn ensures StreamOk(cs[c], issues + [x], c) {
      IssueExtendsStream(cs[c], issues, c, x);
    }
    IssueExtendsStream(cs[x.conn], issues, x.conn, x);
  }

  /** Pending requests are issued requests of that very connection. */
  ghost predicate PendingOk(cs: seq<Conn>, issues: seq<Issue>) {
    forall c, id :: 0 <= c < |cs| && id in cs[c].pending ==>
      IssuedOn(issues, id, c) && issues[id - 1].spec == cs[c].pending[id]
  }

  /** Completions are on the issuing connection, with the request's own id and opcode, of requests no longer
      pending, and no two are of the same request. */
  ghost predicate DoneOk(cs: seq<Conn>, issues: seq<Issue>, done: seq<Done>) {
    && (forall d :: 0 <= d < |done| ==>
          && done[d].conn < |cs|
          && IssuedOn(issues, done[d].id, done[d].conn)
          && done[d].id !in cs[done[d].conn].pending
          && done[d].response.id == done[d].id
          && done[d].response.opcode == issues[done[d].id - 1].spec.opcode)
    && (forall d, e :: 0 <= d < e < |done| ==> done[d].id != done[e].id)
  }

  ghost predicate Completed(done: seq<Done>, id: nat) { exists d :: 0 <= d < |done| && done[d].id == id }

  /** An issued request is pending on its connection or completed. */
  ghost predicate Remembered(cs: seq<Conn>, issues: seq<Issue>, done: seq<Done>, id: nat) {
    1 <= id <= |issues| ==>
      var c := issues[id - 1].conn;
      c < |cs| && (id in cs[c].pending || Completed(done, id))
  }

  ghost predicate NothingForgotten(cs: seq<Conn>, issues: seq<Issue>, done: seq<Done>) {
    forall id: nat :: Remembered(cs, issues, done, id)
  }

  ghost predicate Accounted(cs: seq<Conn>, issues: seq<Issue>, done: seq<Done>) {
    && |issues| == |done| + TotalPending(cs)
    && PendingOk(cs, issues) && DoneOk(cs, issues, done) && NothingForgotten(cs, issues, done)
  }

  /** The request is completed exactly once, on its own connection, under its own id and opcode. */
  ghost predicate AnsweredOnce(issues: seq<Issue>, done: seq<Done>, id: nat) {
    exists d :: 0 <= d < |done| && Answers(issues, done, d, id)
      && forall e :: 0 <= e < |done| && done[e].id == id ==> e == d
  }

  predicate Answers(issues: seq<Issue>, done: seq<Done>, d: nat, id: nat) {
    && d < |done| && done[d].id == done[d].response.id == id && IssuedOn(issues, id, done[d].conn)
    && done[d].response.opcode == issues[id - 1].spec.opcode
  }

  predicate SameInput(c: Conn, was: Conn) { c.live == was.live && c.input == was.input && c.got == was.got }

  function AddPending(c: Conn, x: Issue): Conn {
    c.(output := c.output + IssueFrame(x), pending := c.pending[x.id := x.spec])
  }

  lemma AddPendingFacts(c: Conn, x: Issue)
    requires x.id !in c.pending
    ensures var c' := AddPending(c, x);
      SameInput(c', c) && c'.sent == c.sent && |c'.pending| == |c.pending| + 1
  {
  }

  function DropPending(c: Conn, id: nat): Conn { c.(pending := c.pending - {id}) }

  /** Issuing the next id keeps the accounts. */
  lemma IssueKeepsAccounts(cs: seq<Conn>, issues: seq<Issue>, done: seq<Done>, x: Issue)
    requires Accounted(cs, issues, done) && x.conn < |cs| && x.id == |issues| + 1
    ensures x.id !in cs[x.conn].pending
    ensures Accounted(cs[x.conn := AddPending(cs[x.conn], x)], issues + [x], done)
  {
    hide IssueFrame;
    assert !IssuedOn(issues, x.id, x.conn);
    var c' := AddPending(cs[x.conn], x);
    var cs', issues' := cs[x.conn := c'], issues + [x];
    ReplaceConn(cs, x.conn, c');
    assert |c'.pending| == |cs[x.conn].pending| + 1;
    IssueKeepsPending(cs, issues, x);
    IssueKeepsDone(cs, issues, done, x);
    forall k: nat ensures Remembered(cs', issues', done, k) { assert Remembered(cs, issues, done, k); }
  }

  lemma IssueKeepsPending(cs: seq<Conn>, issues: seq<Issue>, x: Issue)
    requires PendingOk(cs, issues) && x.conn < |cs| && x.id == |issues| + 1
    ensures PendingOk(cs[x.conn := AddPending(cs[x.conn], x)], issues + [x])
  {
    var cs', issues' := cs[x.conn := AddPending(cs[x.conn], x)], issues + [x];
    forall c, k | 0 <= c < |cs'| && k in cs'[c].pending
      ensures IssuedOn(issues', k, c) && issues'[k - 1].spec == cs'[c].pending[k]
    {
      if k != x.id || c != x.conn { assert IssuedOn(issues, k, c); }
    }
  }

  lemma IssueKeepsDone(cs: seq<Conn>, issues: seq<Issue>, done: seq<Done>, x: Issue)
    requires DoneOk(cs, issues, done) && x.conn < |cs| && x.id == |issues| + 1
    ensures DoneOk(cs[x.conn := AddPending(cs[x.conn], x)], issues + [x], done)
  {
    forall d | 0 <= d < |done| ensures IssuedOn(issues + [x], done[d].id, done[d].conn) {
      assert IssuedOn(issues, done[d].id, done[d].conn);
    }
  }

  /** Completing a pending request keeps the accounts. */
  lemma CompleteKeepsAccounts(cs: seq<Conn>, issues: seq<Issue>, done: seq<Done>, i: nat, id: nat, r: Response)
    requires Accounted(cs, issues, done) && i < |cs| && id in cs[i].pending
    requires r.id == id && r.opcode == cs[i].pending[id].opcode
    ensures Accounted(cs[i := DropPending(cs[i], id)], issues, done + [Done(i, id, r)])
  {
    var c' := DropPending(cs[i], id);
    ReplaceConn(cs, i, c');
    PendingMinusOne(cs[i].pending, id);
    CompleteKeepsDone(cs, issues, done, i, id, r);
    CompleteRemembers(cs, issues, done, i, id, r);
  }

  lemma CompleteRemembers(cs: seq<Conn>, issues: seq<Issue>, done: seq<Done>, i: nat, id: nat, r: Response)
    requires NothingForgotten(cs, issues, done) && i < |cs| && id in cs[i].pending
    ensures NothingForgotten(cs[i := DropPending(cs[i], id)], issues, done + [Done(i, id, r)])
  {
    var cs', done' := cs[i := DropPending(cs[i], id)], done + [Done(i, id, r)];
    forall k: nat ensures Remembered(cs', issues, done', k) {
      assert Remembered(cs, issues, done, k);
      if k == id { assert done'[|done|].id == k; }
      if Completed(done, k) {
        var d :| 0 <= d < |done| && done[d].id == k;
        assert done'[d].id == k;
      }
    }
  }

  lemma CompleteKeepsDone(cs: seq<Conn>, issues: seq<Issue>, done: seq<Done>, i: nat, id: nat, r: Response)
    requires PendingOk(cs, issues) && DoneOk(cs, issues, done) && i < |cs| && id in cs[i].pending
    requires r.id == id && r.opcode == cs[i].pending[id].opcode
    ensures DoneOk(cs[i := DropPending(cs[i], id)], issues, done + [Done(i, id, r)])
  {
    assert IssuedOn(issues, id, i);
  }

  lemma PendingMinusOne(m: map<nat, RequestSpec>, id: nat)
    requires id in m
    ensures |m - {id}| == |m| - 1
  {
    assert (m - {id}).Keys == m.Keys - {id};
  }

  lemma {:induction false} NothingPending(cs: seq<Conn>)
    requires forall c :: 0 <= c < |cs| ==> |cs[c].pending| == 0
    ensures TotalPending(cs) == 0
  {
    if cs != [] { NothingPending(cs[..|cs| - 1]); }
  }

  lemma {:induction false} AllLive(cs: seq<Conn>)
    requires forall c :: 0 <= c < |cs| ==> cs[c].live
    ensures LiveCount(cs) == |cs|
  {
    if cs != [] { AllLive(cs[..|cs| - 1]); }
  }

  lemma AllAnswered(cs: seq<Conn>, issues: seq<Issue>, done: seq<Done>)
    requires Accounted(cs, issues, done) && forall c :: 0 <= c < |cs| ==> |cs[c].pending| == 0
    ensures forall id :: 1 <= id <= |issues| ==> AnsweredOnce(issues, done, id)
  {
    hide TotalPending;
    forall id | 1 <= id <= |issues| ensures AnsweredOnce(issues, done, id) {
      var c := issues[id - 1].conn;
      assert Remembered(cs, issues, done, id);
      var d :| 0 <= d < |done| && done[d].id == id;
      assert Answers(issues, done, d, id);
    }
  }

  // ----- The engine -----

  datatype RecvOutcome = Data(bytes: Bytes) | Interrupted | Drained | Gone

  datatype SendOutcome = Took(n: nat) | Retry | Blocked | Broken

  /** A send after which on_writable sends again. */
  predicate KeepsGoing(o: SendOutcome) { o == Retry || (o.Took? && o.n > 0) }

  predicate Breaks(o: SendOutcome) { o == Broken || o == Took(0) }

  predicate Unsent(c: Conn) { c.outputPos < |c.output| }

  /** What the socket and epoll do in one call of on_writable. */
  datatype Writing = Writing(sends: seq<SendOutcome>, registers: bool)

  /** An event and what the sockets do while it is handled: `read` for on_readable's own writing, `write` for the
      writing that follows if the event says so. */
  datatype Event = Event(
    conn: nat, hangUp: bool, readable: bool, writable: bool,
    recvs: seq<RecvOutcome>, read: Writing, write: Writing)

  datatype Wait = Ready(events: seq<Event>) | TimedOut | WaitInterrupted | WaitFailed

  /** The bytes that arrive before the socket has no more. */
  function Arrived(recvs: seq<RecvOutcome>): Bytes {
    if recvs == [] || recvs[0].Drained? then []
    else (if recvs[0].Data? then recvs[0].bytes else []) + Arrived(recvs[1..])
  }

  /** The peer closes, or the read fails, before the socket has no more. */
  predicate PeerGone(recvs: seq<RecvOutcome>) {
    recvs != [] && !recvs[0].Drained? && (recvs[0].Gone? || PeerGone(recvs[1..]))
  }

  lemma OneRead(recvs: seq<RecvOutcome>, k: nat)
    requires k < |recvs| && !recvs[k].Drained?
    ensures Arrived(recvs[k..]) == (if recvs[k].Data? then recvs[k].bytes else []) + Arrived(recvs[k + 1..])
    ensures PeerGone(recvs[k..]) == (recvs[k].Gone? || PeerGone(recvs[k + 1..]))
  {
    assert recvs[k..][1..] == recvs[k + 1..];
  }

  lemma NoMoreReads(recvs: seq<RecvOutcome>, k: nat)
    requires k <= |recvs| && (k < |recvs| ==> recvs[k].Drained?)
    ensures Arrived(recvs[k..]) == [] && !PeerGone(recvs[k..])
  {
  }

  /** A response to one of the pending requests. */
  predicate Expects(pending: map<nat, RequestSpec>, r: Response) {
    r.id in pending && r.opcode == pending[r.id].opcode
  }

  /** How many of the responses, taken in order, answer pending requests, each a different one. */
  function ExpectedPrefix(pending: map<nat, RequestSpec>, rs: seq<Response>): (n: nat)
    ensures n <= |rs|
  {
    if rs == [] || !Expects(pending, rs[0]) then 0 else 1 + ExpectedPrefix(pending - {rs[0].id}, rs[1..])
  }

  /** Every response of the input is whole and expected. */
  predicate ReadsWell(pending: map<nat, RequestSpec>, input: Bytes) {
    var w := ParseResponses(input, DEFAULT_LIMITS);
    w.error == None && ExpectedPrefix(pending, w.frames) == |w.frames|
  }

  /** Reading `input` in one go gives `frames` and then what reading from `consumed` on gives: nothing, if `over`. */
  ghost predicate ReadSoFar(input: Bytes, consumed: nat, frames: seq<Response>, over: bool)
    requires consumed <= |input|
  {
    var w := ParseResponses(input[consumed..], DEFAULT_LIMITS);
    && ParseResponses(input, DEFAULT_LIMITS) == Whole(frames + w.frames, w.rest, w.error)
    && (over ==> w == Whole([], input[consumed..], None))
  }

  lemma ReadNone(input: Bytes)
    ensures ReadSoFar(input, 0, [], false)
  {
    hide ParseResponses;
    assert input[0..] == input;
    var frames := ParseResponses(input, DEFAULT_LIMITS).frames;
    assert [] + frames == frames;
  }

  /** Delivering has read `frames`, all expected, and what is left to read is as expected as the whole was. */
  ghost predicate Delivering(
    input: Bytes, consumed: nat, frames: seq<Response>, over: bool, before: map<nat, RequestSpec>,
    now: map<nat, RequestSpec>)
    requires consumed <= |input|
  {
    && ReadSoFar(input, consumed, frames, over)
    && ExpectedPrefix(before, ParseResponses(input, DEFAULT_LIMITS).frames)
         == |frames| + ExpectedPrefix(now, ParseResponses(input[consumed..], DEFAULT_LIMITS).frames)
  }

  lemma DeliveringNone(input: Bytes, pending: map<nat, RequestSpec>)
    ensures Delivering(input, 0, [], false, pending, pending)
  {
    hide ParseResponses;
    ReadNone(input);
    assert input[0..] == input;
  }

  /** Delivering stopped after `frames`: at a malformed frame, or at a response nobody asked for. */
  ghost predicate Stopped(input: Bytes, frames: seq<Response>, before: map<nat, RequestSpec>) {
    var w := ParseResponses(input, DEFAULT_LIMITS);
    frames <= w.frames && ExpectedPrefix(before, w.frames) == |frames| && !(w.error == None && |frames| == |w.frames|)
  }

  lemma ReadStep(
    input: Bytes, consumed: nat, frames: seq<Response>, before: map<nat, RequestSpec>, now: map<nat, RequestSpec>)
    requires consumed <= |input| && Delivering(input, consumed, frames, false, before, now)
    ensures var p := ParseResponse(input[consumed..], DEFAULT_LIMITS);
      && (p.NeedMore? ==> Delivering(input, consumed, frames + [], true, before, now))
      && (p.Complete? ==> 0 < p.consumed <= |input| - consumed)
      && (p.Complete? && Expects(now, p.frame) ==>
            Delivering(input, consumed + p.consumed, frames + [p.frame], false, before, now - {p.frame.id}))
      && (p.Malformed? || (p.Complete? && !Expects(now, p.frame)) ==> Stopped(input, frames, before))
  {
    hide ParseResponse, ParseResponses, ReadSoFar;
    var p := ParseResponse(input[consumed..], DEFAULT_LIMITS);
    if p.NeedMore? {
      ReadOver(input, consumed, frames);
    } else if p.Complete? {
      ParseOnce(input[consumed..]);
      if Expects(now, p.frame) { ExpectedNext(input, consumed, p, frames, before, now); } else {
        StoppedHere(input, consumed, frames, before, now);
      }
    } else {
      ParseStops(input[consumed..]);
      StoppedHere(input, consumed, frames, before, now);
    }
  }

  lemma ExpectedNext(
    input: Bytes, consumed: nat, p: Parsed<Response>, frames: seq<Response>, before: map<nat, RequestSpec>,
    now: map<nat, RequestSpec>)
    requires consumed <= |input| && Delivering(input, consumed, frames, false, before, now)
    requires p.Complete? && p.consumed <= |input[consumed..]| && Expects(now, p.frame)
    requires var rest := input[consumed..]; var later := ParseResponses(rest[p.consumed..], DEFAULT_LIMITS);
      ParseResponses(rest, DEFAULT_LIMITS) == Whole([p.frame] + later.frames, later.rest, later.error)
    ensures Delivering(input, consumed + p.consumed, frames + [p.frame], false, before, now - {p.frame.id})
  {
    hide ParseResponses;
    ReadOne(input, consumed, input[consumed..], p, frames);
    DropTwice(input, consumed, p.consumed);
    var later := ParseResponses(input[consumed + p.consumed..], DEFAULT_LIMITS).frames;
    assert ([p.frame] + later)[1..] == later;
  }

  lemma StoppedHere(
    input: Bytes, consumed: nat, frames: seq<Response>, before: map<nat, RequestSpec>, now: map<nat, RequestSpec>)
    requires consumed <= |input| && Delivering(input, consumed, frames, false, before, now)
    requires var w := ParseResponses(input[consumed..], DEFAULT_LIMITS);
      if w.frames == [] then w.error != None else !Expects(now, w.frames[0])
    ensures Stopped(input, frames, before)
  {
    hide ParseResponses;
  }

  lemma ParseStops(s: Bytes)
    requires ParseResponse(s, DEFAULT_LIMITS).Malformed?
    ensures var w := ParseResponses(s, DEFAULT_LIMITS); w.frames == [] && w.error != None
  {
  }

  lemma ReadOver(input: Bytes, consumed: nat, frames: seq<Response>)
    requires consumed <= |input| && ReadSoFar(input, consumed, frames, false)
    requires ParseResponse(input[consumed..], DEFAULT_LIMITS).NeedMore?
    ensures ReadSoFar(input, consumed, frames + [], true)
  {
    hide ParseResponse, ParseResponses;
    ParseNone(input[consumed..]);
    assert frames + [] == frames;
  }

  lemma ParseNone(s: Bytes)
    requires ParseResponse(s, DEFAULT_LIMITS).NeedMore?
    ensures ParseResponses(s, DEFAULT_LIMITS) == Whole([], s, None)
  {
  }

  lemma ReadOne(input: Bytes, consumed: nat, rest: Bytes, p: Parsed<Response>, frames: seq<Response>)
    requires consumed <= |input| && rest == input[consumed..] && ReadSoFar(input, consumed, frames, false)
    requires p.Complete? && p.consumed <= |rest|
    requires var later := ParseResponses(rest[p.consumed..], DEFAULT_LIMITS);
      ParseResponses(rest, DEFAULT_LIMITS) == Whole([p.frame] + later.frames, later.rest, later.error)
    ensures ReadSoFar(input, consumed + p.consumed, frames + [p.frame], false)
  {
    hide ParseResponses;
    DropTwice(input, consumed, p.consumed);
    Regroup(frames, p.frame, ParseResponses(rest[p.consumed..], DEFAULT_LIMITS).frames);
  }

  lemma ReadAll(
    input: Bytes, consumed: nat, frames: seq<Response>, over: bool, before: map<nat, RequestSpec>,
    now: map<nat, RequestSpec>)
    requires consumed <= |input| && Delivering(input, consumed, frames, over, before, now)
    requires over || consumed == |input|
    ensures ParseResponses(input, DEFAULT_LIMITS) == Whole(frames, input[consumed..], None)
    ensures ExpectedPrefix(before, frames) == |frames|
  {
    EmptyInput(DEFAULT_LIMITS);
    assert consumed == |input| ==> input[consumed..] == [];
    assert frames + [] == frames;
  }

  lemma ParseOnce(s: Bytes)
    requires ParseResponse(s, DEFAULT_LIMITS).Complete?
    ensures var p := ParseResponse(s, DEFAULT_LIMITS);
      && HEADER_SIZE <= p.consumed <= |s|
      && var later := ParseResponses(s[p.consumed..], DEFAULT_LIMITS);
         ParseResponses(s, DEFAULT_LIMITS) == Whole([p.frame] + later.frames, later.rest, later.error)
  {
  }

  lemma DropTwice(s: Bytes, m: nat, n: nat)
    requires m + n <= |s|
    ensures s[m..][n..] == s[m + n..]
  {
  }

  lemma Regroup(frames: seq<Response>, r: Response, later: seq<Response>)
    ensures frames + ([r] + later) == (frames + [r]) + later
  {
  }

  function Delivered(i: nat, rs: seq<Response>): seq<Done> {
    seq(|rs|, k requires 0 <= k < |rs| => Done(i, rs[k].id, rs[k]))
  }

  /** Exactly `rs` were delivered on connection `i` since `before`. */
  ghost predicate DeliveredSince(done: seq<Done>, before: seq<Done>, i: nat, rs: seq<Response>) {
    done == before + Delivered(i, rs)
  }

  lemma DeliveredNone(done: seq<Done>, i: nat)
    ensures DeliveredSince(done, done, i, [])
  {
    assert done + [] == done;
  }

  lemma DeliveredMore(done: seq<Done>, before: seq<Done>, i: nat, rs: seq<Response>, more: seq<Response>)
    requires DeliveredSince(done, before, i, rs)
    ensures DeliveredSince(done + Delivered(i, more), before, i, rs + more)
  {
    assert Delivered(i, rs + more) == Delivered(i, rs) + Delivered(i, more);
    assert before + (Delivered(i, rs) + Delivered(i, more)) == (before + Delivered(i, rs)) + Delivered(i, more);
  }

  lemma DeliveredGrows(done: seq<Done>, before: seq<Done>, i: nat, rs: seq<Response>)
    requires DeliveredSince(done, before, i, rs)
    ensures before <= done && done == before + Delivered(i, rs)
  {
  }

  /** The responses delivered on one connection, in order. */
  function DoneOn(done: seq<Done>, c: nat): seq<Response> {
    if done == [] then []
    else DoneOn(done[..|done| - 1], c) + (if done[|done| - 1].conn == c then [done[|done| - 1].response] else [])
  }

  lemma DoneOnOne(done: seq<Done>, d: Done, c: nat)
    ensures DoneOn(done + [d], c) == DoneOn(done, c) + (if d.conn == c then [d.response] else [])
  {
    assert (done + [d])[..|done|] == done;
  }

  lemma {:induction false} DoneOnMore(done: seq<Done>, i: nat, rs: seq<Response>, c: nat)
    ensures DoneOn(done + Delivered(i, rs), c) == DoneOn(done, c) + (if c == i then rs else [])
    decreases |rs|
  {
    hide DoneOn, Delivered;
    DeliveredLast(i, rs);
    var before := DoneOn(done, c);
    if rs == [] {
      assert done + [] == done && before + [] == before;
    } else {
      var n := |rs| - 1;
      var most, last := Delivered(i, rs[..n]), Done(i, rs[n].id, rs[n]);
      DoneOnMore(done, i, rs[..n], c);
      DoneOnOne(done + most, last, c);
      assert done + (most + [last]) == (done + most) + [last];
      assert before + [] + [] == before && (before + rs[..n]) + [rs[n]] == before + rs;
    }
  }

  lemma DeliveredLast(i: nat, rs: seq<Response>)
    ensures rs == [] ==> Delivered(i, rs) == []
    ensures rs != [] ==>
      var n := |rs| - 1; Delivered(i, rs) == Delivered(i, rs[..n]) + [Done(i, rs[n].id, rs[n])]
  {
  }

  /** What was delivered on the connection is what its byte stream says, and the rest of that is still to be read. */
  ghost predicate Reading(c: Conn, done: seq<Done>, i: nat) {
    ParseResponses(c.got, DEFAULT_LIMITS) == Whole(DoneOn(done, i), c.input, None)
  }

  lemma ReadingNothing(c: Conn, i: nat)
    requires c.got == [] && c.input == []
    ensures Reading(c, [], i)
  {
    EmptyInput(DEFAULT_LIMITS);
  }

  lemma ReadingMore(was: Conn, done: seq<Done>, i: nat, more: Bytes, c: Conn)
    requires Reading(was, done, i) && c.got == was.got + more
    requires ParseResponses(was.input + more, DEFAULT_LIMITS).error == None
    requires ParseResponses(was.input + more, DEFAULT_LIMITS).rest == c.input
    ensures Reading(c, done + Delivered(i, ParseResponses(was.input + more, DEFAULT_LIMITS).frames), i)
  {
    hide ParseResponses, Delivered, DoneOn;
    ResumeResponses(was.got, more, DEFAULT_LIMITS);
    DoneOnMore(done, i, ParseResponses(was.input + more, DEFAULT_LIMITS).frames, i);
  }

  lemma ReadingElsewhere(c: Conn, done: seq<Done>, k: nat, i: nat, rs: seq<Response>)
    requires Reading(c, done, k) && k != i
    ensures Reading(c, done + Delivered(i, rs), k)
  {
    hide ParseResponses, Delivered, DoneOn;
    DoneOnMore(done, i, rs, k);
    assert DoneOn(done, k) + [] == DoneOn(done, k);
  }

  /** A live connection between events: watched for writing exactly while it has something to write, its pipeline full
      unless there is nothing left to issue (`over`), and what was delivered on it what its byte stream says. */
  ghost predicate SteadyConn(c: Conn, over: bool, depth: nat, done: seq<Done>, i: nat) {
    c.live ==> c.wantWrite == Unsent(c) && (over || |c.pending| == depth) && Reading(c, done, i)
  }

  /** Delivering on one connection does not unsettle another. */
  lemma OthersStay(
    cs: seq<Conn>, over: bool, over': bool, depth: nat, done: seq<Done>, done': seq<Done>, i: nat, rs: seq<Response>)
    requires (over ==> over') && done' == done + Delivered(i, rs)
    ensures forall c :: 0 <= c < |cs| && c != i && SteadyConn(cs[c], over, depth, done, c) ==>
      SteadyConn(cs[c], over', depth, done', c)
  {
    hide Reading, Delivered;
    forall c | 0 <= c < |cs| && c != i && SteadyConn(cs[c], over, depth, done, c)
      ensures SteadyConn(cs[c], over', depth, done', c)
    {
      if cs[c].live { ReadingElsewhere(cs[c], done, c, i, rs); }
    }
  }

  // ----- Requests as the server reads them -----

  /** The requests issued on one connection, in order. */
  function RequestsIssued(issues: seq<Issue>, c: nat): seq<Request> {
    if issues == [] then []
    else
      var x := issues[|issues| - 1];
      RequestsIssued(issues[..|issues| - 1], c)
      + (if x.conn == c then [Request(x.spec.opcode, x.id, x.spec.key, x.spec.value)] else [])
  }

  lemma {:induction false} IssuedAsFrames(issues: seq<Issue>, c: nat)
    ensures IssuedBytes(issues, c) == SerializeRequests(RequestsIssued(issues, c))
  {
    if issues != [] {
      var front, x := issues[..|issues| - 1], issues[|issues| - 1];
      IssuedAsFrames(front, c);
      hide SerializeRequest;
      var rs := RequestsIssued(front, c);
      if x.conn == c {
        SerializeRequestsAppend(rs, Request(x.spec.opcode, x.id, x.spec.key, x.spec.value));
      } else {
        assert rs + [] == rs && SerializeRequests(rs) + [] == SerializeRequests(rs);
      }
    }
  }

  /** The server that parses what the client wrote on a connection finds exactly the requests issued on it, in order
      and under their ids, if each is within the server's limits. */
  lemma IssuedIsReadable(issues: seq<Issue>, c: nat, l: Limits)
    requires forall r :: r in RequestsIssued(issues, c) ==> RequestOk(r, l)
    ensures ParseRequests(IssuedBytes(issues, c), l) == Whole(RequestsIssued(issues, c), [], None)
  {
    IssuedAsFrames(issues, c);
    var rs := RequestsIssued(issues, c);
    ParsePastRequests(rs, [], l);
    assert SerializeRequests(rs) + [] == SerializeRequests(rs) && rs + [] == rs;
    NothingToRead(l);
    hide SerializeRequests, ParseRequests, RequestsIssued, IssuedBytes;
  }

  lemma NothingToRead(l: Limits)
    ensures ParseRequests([], l) == Whole([], [], None)
  {
  }

  // ----- Writing -----

  /** The connection after its socket took `n` more bytes. */
  function Take(c: Conn, n: nat): Conn
    requires c.outputPos + n <= |c.output|
  {
    c.(sent := c.sent + c.output[c.outputPos..c.outputPos + n], outputPos := c.outputPos + n)
  }

  lemma TakeFacts(c: Conn, n: nat)
    requires c.outputPos + n <= |c.output|
    ensures Written(Take(c, n)) == Written(c) && c.sent <= Take(c, n).sent
  {
    assert c.output[c.outputPos..] == c.output[c.outputPos..c.outputPos + n] + c.output[c.outputPos + n..];
  }

  /** What was sent and what is left to send, together. */
  function Written(c: Conn): Bytes
    requires c.outputPos <= |c.output|
  {
    c.sent + c.output[c.outputPos..]
  }

  /** The connection after its socket did what `sends` says, for as long as there is anything to write and the socket
      goes on taking it. */
  function SentBy(c: Conn, sends: seq<SendOutcome>): Conn
    requires c.outputPos <= |c.output|
    decreases |sends|
  {
    if !Unsent(c) || sends == [] || !KeepsGoing(sends[0]) then c
    else SentBy(if sends[0].Took? then Take(c, Min(sends[0].n, |c.output| - c.outputPos)) else c, sends[1..])
  }

  /** Send until everything is written or the socket takes no more: no byte is lost, repeated or reordered. */
  method SendAll(before: Conn, sends: seq<SendOutcome>) returns (c: Conn, broken: bool, calls: nat)
    requires before.outputPos <= |before.output|
    ensures c == SentBy(before, sends)
    ensures c == before.(sent := c.sent, outputPos := c.outputPos) && c.outputPos <= |c.output|
    ensures before.sent <= c.sent && Written(c) == Written(before)
    ensures WentOn(sends, calls)
    ensures broken <==> Unsent(c) && calls < |sends| && Breaks(sends[calls])
    ensures Unsent(c) ==> calls == |sends| || sends[calls] == Blocked || Breaks(sends[calls])
  {
    c, broken, calls := before, false, 0;
    assert sends[0..] == sends;
    while c.outputPos < |c.output|
      invariant c == before.(sent := c.sent, outputPos := c.outputPos) && c.outputPos <= |c.output|
      invariant before.sent <= c.sent && Written(c) == Written(before)
      invariant WentOn(sends, calls) && SentBy(c, sends[calls..]) == SentBy(before, sends)
      decreases |sends| - calls
    {
      if calls == |sends| { return; }
      assert sends[calls..][1..] == sends[calls + 1..];
      match sends[calls] {
        case Took(n) =>
          if n == 0 { return c, true, calls; }
          TakeFacts(c, Min(n, |c.output| - c.outputPos));
          c := Take(c, Min(n, |c.output| - c.outputPos));
        case Retry =>
        case Blocked => return;
        case Broken => return c, true, calls;
      }
      calls := calls + 1;
    }
  }

  /** The first `calls` sends each went on to the next. */
  predicate WentOn(sends: seq<SendOutcome>, calls: nat) {
    calls <= |sends| && forall j :: 0 <= j < calls ==> KeepsGoing(sends[j])
  }

  /** The write can fail: the interest cannot be set, or a send breaks after some that went on. */
  ghost predicate CanFail(w: Writing) {
    !w.registers || exists n: nat :: WentOn(w.sends, n) && n < |w.sends| && Breaks(w.sends[n])
  }

  /** The socket stops taking bytes: after some sends that went on, it blocks (or is asked no more). */
  ghost predicate Stalls(w: Writing) {
    exists n: nat :: WentOn(w.sends, n) && (n == |w.sends| || w.sends[n] == Blocked)
  }

  /** What the events bring in on connection `c`. */
  function BroughtBy(events: seq<Event>, c: nat): Bytes {
    if events == [] then []
    else
      var ev := events[|events| - 1];
      BroughtBy(events[..|events| - 1], c)
      + (if ev.conn == c && ev.readable && !ev.hangUp then Arrived(ev.recvs) else [])
  }

  function BroughtOver(waits: seq<Wait>, c: nat): Bytes {
    if waits == [] then []
    else
      BroughtOver(waits[..|waits| - 1], c)
      + (if waits[|waits| - 1].Ready? then BroughtBy(waits[|waits| - 1].events, c) else [])
  }

  class Engine {
    const depth: nat
    const requests: uint64
    const generator: (nat, nat) -> Option<RequestSpec>   // its answer for a connection and a sequence number
    var conns: seq<Conn>
    var issued: nat
    var nextRequestId: nat
    var exhausted: bool
    var received: nat
    var liveConnections: nat
    var protocolFailures: nat
    ghost var issues: seq<Issue>
    ghost var done: seq<Done>
    ghost var asked: seq<(nat, nat)>     // every call of the generator, in order

    ghost predicate Valid() reads this {
      && issued == |issues| <= requests && nextRequestId == issued + 1 && received == |done|
      && (forall c :: 0 <= c < |conns| ==> |conns[c].pending| <= depth && StreamOk(conns[c], issues, c))
      && liveConnections == LiveCount(conns)
      && Accounted(conns, issues, done)
      && Generated()
    }

    /** The generator is asked for each sequence number once, in order, and never again once it was dry: whatever
        state it keeps, its answers are a function of the sequence number. The n-th request issued is its answer. */
    ghost predicate Generated() reads this {
      && |asked| == |issues| + One(exhausted)
      && (forall n :: 0 <= n < |asked| ==> asked[n].1 == n)
      && (forall n :: 0 <= n < |issues| ==> asked[n].0 == issues[n].conn)
      && (forall n :: 0 <= n < |issues| ==> generator(issues[n].conn, n) == Some(issues[n].spec))
      && (exhausted ==> exists c :: 0 <= c < |conns| && generator(c, |issues|).None?)
    }

    constructor (connections: nat, depth: nat, requests: uint64, generator: (nat, nat) -> Option<RequestSpec>)
      ensures Valid() && AllRead() && issues == [] && done == [] && |conns| == connections
      ensures forall c :: 0 <= c < |conns| ==> conns[c].live && conns[c].got == []
      ensures this.depth == depth && this.requests == requests && this.generator == generator
    {
      this.depth, this.requests, this.generator := depth, requests, generator;
      conns := seq(connections, _ => Conn(true, false, [], [], [], [], 0, map[]));
      issued, nextRequestId, exhausted, received := 0, 1, false, 0;
      liveConnections, protocolFailures := connections, 0;
      issues, done, asked := [], [], [];
      new;
      NothingPending(conns);
      AllLive(conns);
      forall c | 0 <= c < |conns| ensures Reading(conns[c], done, c) { ReadingNothing(conns[c], c); }
    }

    /** What is delivered on each live connection is what its byte stream says. */
    ghost predicate AllRead() reads this {
      forall c :: 0 <= c < |conns| && conns[c].live ==> Reading(conns[c], done, c)
    }

    /** There is nothing left to issue. */
    ghost predicate NothingLeft() reads this { exhausted || issued == requests }

    /** The connection's pipeline is as full as it may be, or there is nothing left to issue. */
    ghost predicate Full(c: nat) reads this
      requires c < |conns|
    {
      NothingLeft() || |conns[c].pending| == depth
    }

    ghost predicate SteadyAt(c: nat) reads this
      requires c < |conns|
    {
      SteadyConn(conns[c], NothingLeft(), depth, done, c)
    }

    ghost predicate Steady() reads this { Valid() && forall c :: 0 <= c < |conns| ==> SteadyAt(c) }

    /** What goes on on one connection does not unsettle another. */
    twostate predicate OthersSteady(i: nat) reads this {
      && |conns| == |old(conns)|
      && forall c :: 0 <= c < |conns| && c != i && old(SteadyAt(c)) ==> SteadyAt(c)
    }

    /** Nothing to issue once there was nothing to issue. */
    twostate predicate Onward() reads this {
      (old(exhausted) ==> exhausted) && old(issued) <= issued && old(issues) <= issues
    }

    /** Issue requests until the connection has `depth` of them outstanding or there are no more. */
    method FillPipeline(i: nat)
      requires Valid() && i < |conns|
      modifies this
      ensures Valid() && Untouched(i, old(conns)) && Onward() && done == old(done) && Full(i)
      ensures SameInput(conns[i], old(conns[i])) && conns[i].sent == old(conns[i].sent)
      ensures protocolFailures == old(protocolFailures)
    {
      hide Accounted, StreamOk;
      while !exhausted && |conns[i].pending| < depth && issued < requests
        invariant Valid() && Untouched(i, old(conns)) && Onward() && done == old(done)
        invariant SameInput(conns[i], old(conns[i])) && conns[i].sent == old(conns[i].sent)
        invariant protocolFailures == old(protocolFailures)
        decreases requests - issued, !exhausted
      {
        var spec := generator(i, issued);
        if spec.None? {
          asked := asked + [(i, issued)];
          exhausted := true;
        } else {
          IssueOne(i, spec.value);
        }
      }
    }

    /** No other connection changed. */
    ghost predicate Untouched(i: nat, before: seq<Conn>) reads this {
      && |conns| == |before|
      && forall c :: 0 <= c < |before| && c != i ==> conns[c] == before[c]
    }

    method IssueOne(i: nat, spec: RequestSpec)
      requires Valid() && i < |conns| && |conns[i].pending| < depth && issued < requests
      requires !exhausted && generator(i, issued) == Some(spec)
      modifies this
      ensures Valid() && Untouched(i, old(conns))
      ensures issues == old(issues) + [Issue(i, issued, spec)] && done == old(done)
      ensures !exhausted && issued == old(issued) + 1 && protocolFailures == old(protocolFailures)
      ensures SameInput(conns[i], old(conns[i])) && conns[i].sent == old(conns[i].sent)
    {
      hide Accounted, StreamOk, AddPending, TotalPending, LiveCount, IssuedOn;
      var x := Issue(i, nextRequestId, spec);
      nextRequestId := nextRequestId + 1;
      IssueKeepsAccounts(conns, issues, done, x);
      ReplaceConn(conns, i, AddPending(conns[i], x));
      ExtendStreams(conns, issues, x);
      AddPendingFacts(conns[i], x);
      conns := conns[i := AddPending(conns[i], x)];
      issues := issues + [x];
      asked := asked + [(i, issued)];
      issued := issued + 1;
    }

    /** Write what the socket takes, then set the epoll interest (`registers`: it worked): for writing exactly if
        something is left to write. False, which asks the caller to drop the connection, exactly if a send breaks
        or the interest cannot be set; `calls` is how many sends went on. */
    method OnWritable(i: nat, sends: seq<SendOutcome>, registers: bool) returns (ok: bool, ghost calls: nat)
      requires Valid() && i < |conns|
      modifies this
      ensures Valid() && Untouched(i, old(conns)) && Onward() && done == old(done) && Full(i)
      ensures old(conns[i].sent) <= conns[i].sent && SameInput(conns[i], old(conns[i]))
      ensures WentOn(sends, calls) && protocolFailures == old(protocolFailures)
      ensures ok <==> registers && !(Unsent(conns[i]) && calls < |sends| && Breaks(sends[calls]))
      ensures ok ==> conns[i].wantWrite == Unsent(conns[i])
      ensures OthersSteady(i)
      ensures Unsent(conns[i]) ==> calls == |sends| || sends[calls] == Blocked || Breaks(sends[calls])
    {
      hide Accounted, StreamOk, Reading, Delivered, LiveCount, SteadyConn;
      FillPipeline(i);
      var broken;
      broken, calls := SendOn(i, sends);
      if broken {
        ok := false;
      } else {
        ok := UpdateInterest(i, conns[i].outputPos < |conns[i].output|, registers);
      }
      DeliveredNone(done, i);
      OthersStay(conns, old(NothingLeft()), NothingLeft(), depth, old(done), done, i, []);
    }

    /** Send what there is; once everything is written, start over with an empty buffer. */
    method SendOn(i: nat, sends: seq<SendOutcome>) returns (broken: bool, ghost calls: nat)
      requires Valid() && i < |conns|
      modifies this`conns
      ensures Valid() && Untouched(i, old(conns)) && old(conns[i].sent) <= conns[i].sent
      ensures SameInput(conns[i], old(conns[i])) && conns[i].pending == old(conns[i].pending)
      ensures !Unsent(conns[i]) ==> conns[i].output == []
      ensures WentOn(sends, calls) && conns[i].sent == SentBy(old(conns[i]), sends).sent
      ensures broken <==> Unsent(conns[i]) && calls < |sends| && Breaks(sends[calls])
      ensures Unsent(conns[i]) ==> calls == |sends| || sends[calls] == Blocked || Breaks(sends[calls])
    {
      assert StreamOk(conns[i], issues, i);
      hide SentBy;
      var c;
      var n;
      c, broken, n := SendAll(conns[i], sends);
      calls := n;
      if !Unsent(c) {
        assert c.sent + [] == c.sent;
        c := c.(output := [], outputPos := 0);
      }
      assert StreamOk(c, issues, i);
      hide StreamOk, Accounted;
      SetConn(i, c);
    }

    /** epoll_ctl; when it fails the registered interest is what it was. */
    method UpdateInterest(i: nat, wantWrite: bool, registers: bool) returns (ok: bool)
      requires Valid() && i < |conns|
      modifies this`conns
      ensures Valid() && Untouched(i, old(conns)) && ok == registers
      ensures conns[i] == if registers then old(conns[i]).(wantWrite := wantWrite) else old(conns[i])
    {
      if registers { SetConn(i, conns[i].(wantWrite := wantWrite)); }
      ok := registers;
    }

    /** Change one connection in a way that concerns neither its requests nor their bytes. */
    method SetConn(i: nat, c: Conn)
      requires Valid() && i < |conns| && StreamOk(c, issues, i)
      requires c.pending == conns[i].pending && c.live == conns[i].live
      modifies this`conns
      ensures Valid() && Untouched(i, old(conns)) && conns[i] == c
    {
      hide Accounted, StreamOk;
      SamePending(conns, issues, done, i, c);
      ReplaceConn(conns, i, c);
      conns := conns[i := c];
    }

    /** A response was parsed: match it by id and opcode, or fail. */
    method Complete(i: nat, r: Response) returns (ok: bool)
      requires Valid() && i < |conns|
      modifies this
      ensures Valid() && Untouched(i, old(conns)) && issues == old(issues)
      ensures done == if ok then old(done) + [Done(i, r.id, r)] else old(done)
      ensures ok <==> Expects(old(conns[i].pending), r)
      ensures conns[i] == if ok then DropPending(old(conns[i]), r.id) else old(conns[i])
      ensures protocolFailures == old(protocolFailures) + One(!ok)
      ensures issued == old(issued) && exhausted == old(exhausted)
    {
      hide Accounted, IssuedBytes, TotalPending, LiveCount;
      if r.id !in conns[i].pending || r.opcode != conns[i].pending[r.id].opcode {
        protocolFailures := protocolFailures + 1;
        return false;
      }
      CompleteKeepsAccounts(conns, issues, done, i, r.id, r);
      PendingMinusOne(conns[i].pending, r.id);
      ReplaceConn(conns, i, DropPending(conns[i], r.id));
      conns := conns[i := DropPending(conns[i], r.id)];
      done := done + [Done(i, r.id, r)];
      received := received + 1;
      ok := true;
    }

    /** Read everything the socket has, then match every complete response. Unless the peer is gone, exactly the
        responses that parsing the bytes in one go yields are delivered, in order, up to the first that answers no
        pending request. It succeeds exactly if the peer is not gone, no frame is malformed, every response is
        expected, and the writing that follows succeeds; and then the rest of the bytes is kept. */
    method OnReadable(i: nat, recvs: seq<RecvOutcome>, sends: seq<SendOutcome>, registers: bool)
      returns (ok: bool, ghost calls: nat)
      requires Valid() && i < |conns| && (conns[i].live ==> Reading(conns[i], done, i))
      modifies this
      ensures Valid() && Untouched(i, old(conns)) && Onward() && WentOn(sends, calls) && OthersSteady(i)
      ensures conns[i].live == old(conns[i].live)
      ensures ok <==>
        && !PeerGone(recvs) && ReadsWell(old(conns[i].pending), old(conns[i].input) + Arrived(recvs))
        && registers && !(Unsent(conns[i]) && calls < |sends| && Breaks(sends[calls]))
      ensures PeerGone(recvs) ==> done == old(done) && protocolFailures == old(protocolFailures)
      ensures !PeerGone(recvs) ==>
        var w := ParseResponses(old(conns[i].input) + Arrived(recvs), DEFAULT_LIMITS);
        done == old(done) + Delivered(i, w.frames[..ExpectedPrefix(old(conns[i].pending), w.frames)])
      ensures !PeerGone(recvs) ==>
        protocolFailures ==
          old(protocolFailures) + One(!ReadsWell(old(conns[i].pending), old(conns[i].input) + Arrived(recvs)))
      ensures ok ==> conns[i].input == ParseResponses(old(conns[i].input) + Arrived(recvs), DEFAULT_LIMITS).rest
      ensures ok ==> conns[i].got == old(conns[i].got) + Arrived(recvs) && SteadyAt(i)
      ensures ok && Unsent(conns[i]) ==> calls == |sends| || sends[calls] == Blocked
    {
      hide Accounted, StreamOk, ParseResponses, Delivered, ExpectedPrefix, Reading, ReadsWell, Arrived, PeerGone,
           LiveCount;
      calls := 0;
      NoneWentOn(sends);
      ok := TakeIn(i, recvs);
      if ok {
        ghost var mid := conns[i];
        FillPipeline(i);
        ok, calls := OnWritable(i, sends, registers);
        if conns[i].live { StillReading(mid, conns[i], done, i); }
      }
    }

    /** The reading half of on_readable. */
    method TakeIn(i: nat, recvs: seq<RecvOutcome>) returns (ok: bool)
      requires Valid() && i < |conns| && (conns[i].live ==> Reading(conns[i], done, i))
      modifies this
      ensures Valid() && Untouched(i, old(conns)) && Onward() && OthersSteady(i)
      ensures conns[i].live == old(conns[i].live)
      ensures ok <==> !PeerGone(recvs) && ReadsWell(old(conns[i].pending), old(conns[i].input) + Arrived(recvs))
      ensures PeerGone(recvs) ==> done == old(done) && protocolFailures == old(protocolFailures)
      ensures !PeerGone(recvs) ==>
        var w := ParseResponses(old(conns[i].input) + Arrived(recvs), DEFAULT_LIMITS);
        done == old(done) + Delivered(i, w.frames[..ExpectedPrefix(old(conns[i].pending), w.frames)])
      ensures !PeerGone(recvs) ==> protocolFailures == old(protocolFailures) + One(!ok)
      ensures ok ==> conns[i].input == ParseResponses(old(conns[i].input) + Arrived(recvs), DEFAULT_LIMITS).rest
      ensures ok ==> conns[i].got == old(conns[i].got) + Arrived(recvs)
      ensures ok && conns[i].live ==> Reading(conns[i], done, i)
    {
      hide Accounted, StreamOk, ParseResponses, Delivered, ExpectedPrefix, Reading, Arrived, PeerGone, LiveCount,
           SteadyConn, ReadsWell;
      ghost var was, before := conns[i], done;
      ok := ReceiveAll(i, recvs);
      ghost var frames := [];
      DeliveredNone(done, i);
      if ok {
        var consumed;
        consumed, ok, frames := DeliverAll(i);
        TakeAll(ParseResponses(was.input + Arrived(recvs), DEFAULT_LIMITS).frames, frames);
        if ok {
          SetInput(i, conns[i].input[consumed..], conns[i].got);
          WhenReadWell(was.pending, was.input + Arrived(recvs), frames);
          if conns[i].live { ReadingMore(was, before, i, Arrived(recvs), conns[i]); }
        }
      }
      OthersStay(conns, old(NothingLeft()), NothingLeft(), depth, old(done), done, i, frames);
    }

    /** Read until the socket has no more; false exactly if the peer is gone. */
    method ReceiveAll(i: nat, recvs: seq<RecvOutcome>) returns (ok: bool)
      requires Valid() && i < |conns|
      modifies this`conns
      ensures Valid() && Untouched(i, old(conns)) && ok == !PeerGone(recvs)
      ensures conns[i] == old(conns[i]).(input := conns[i].input, got := conns[i].got)
      ensures ok ==> conns[i].input == old(conns[i].input) + Arrived(recvs)
      ensures ok ==> conns[i].got == old(conns[i].got) + Arrived(recvs)
    {
      hide Accounted, StreamOk, LiveCount, Arrived, PeerGone;
      var k := 0;
      assert recvs[0..] == recvs;
      while k < |recvs| && !recvs[k].Drained?
        invariant 0 <= k <= |recvs| && PeerGone(recvs[k..]) == PeerGone(recvs)
        invariant Valid() && Untouched(i, old(conns))
        invariant conns[i] == old(conns[i]).(input := conns[i].input, got := conns[i].got)
        invariant conns[i].input + Arrived(recvs[k..]) == old(conns[i].input) + Arrived(recvs)
        invariant conns[i].got + Arrived(recvs[k..]) == old(conns[i].got) + Arrived(recvs)
      {
        OneRead(recvs, k);
        match recvs[k] {
          case Data(bytes) =>
            Assoc(conns[i].input, bytes, Arrived(recvs[k + 1..]));
            Assoc(conns[i].got, bytes, Arrived(recvs[k + 1..]));
            SetInput(i, conns[i].input + bytes, conns[i].got + bytes);
          case Interrupted =>
          case Gone => return false;
        }
        k := k + 1;
      }
      NoMoreReads(recvs, k);
      assert conns[i].input + [] == conns[i].input && conns[i].got + [] == conns[i].got;
      ok := true;
    }

    /** Deliver every complete response in the input, up to the first that is not expected; `consumed` is how far that
        got. */
    method DeliverAll(i: nat) returns (consumed: nat, ok: bool, ghost frames: seq<Response>)
      requires Valid() && i < |conns|
      modifies this
      ensures Valid() && Untouched(i, old(conns)) && Onward() && issues == old(issues)
      ensures SameInput(conns[i], old(conns[i])) && consumed <= |conns[i].input|
      ensures done == old(done) + Delivered(i, frames)
      ensures var w := ParseResponses(conns[i].input, DEFAULT_LIMITS);
        frames <= w.frames && |frames| == ExpectedPrefix(old(conns[i].pending), w.frames)
      ensures ok <==> ReadsWell(old(conns[i].pending), conns[i].input)
      ensures protocolFailures == old(protocolFailures) + One(!ok)
      ensures ok ==> conns[i].input[consumed..] == ParseResponses(conns[i].input, DEFAULT_LIMITS).rest
    {
      hide Accounted, StreamOk, Delivering, Delivered, DeliveredSince, TotalPending, LiveCount, Stopped;
      ghost var pending := conns[i].pending;
      DeliveredNone(done, i);
      DeliveringNone(conns[i].input, pending);
      var input := conns[i].input;
      var n := 1;
      frames, consumed, ok := [], 0, true;
      while consumed < |input| && n > 0
        invariant Valid() && Untouched(i, old(conns)) && Onward() && issues == old(issues)
        invariant consumed <= |input| && conns[i].input == input && SameInput(conns[i], old(conns[i]))
        invariant DeliveredSince(done, old(done), i, frames) && protocolFailures == old(protocolFailures)
        invariant Delivering(input, consumed, frames, n == 0, pending, conns[i].pending)
        decreases |input| - consumed, n
      {
        ghost var before, r := done, [];
        n, ok, r := DeliverNext(i, input, consumed, frames, pending);
        if !ok {
          DeliveredGrows(done, old(done), i, frames);
          WhenStopped(input, frames, pending);
          return;
        }
        DeliveredMore(before, old(done), i, frames, r);
        frames := frames + r;
        consumed := consumed + n;
      }
      DeliveredGrows(done, old(done), i, frames);
      ReadAll(input, consumed, frames, n == 0, pending, conns[i].pending);
    }

    /** Deliver the response at `consumed`, of `n` bytes, if it is whole (`n` is 0 if not) and expected. */
    method DeliverNext(
      i: nat, input: Bytes, consumed: nat, ghost frames: seq<Response>, ghost pending: map<nat, RequestSpec>)
      returns (n: nat, ok: bool, ghost r: seq<Response>)
      requires Valid() && i < |conns| && consumed <= |input|
      requires Delivering(input, consumed, frames, false, pending, conns[i].pending)
      modifies this
      ensures Valid() && Untouched(i, old(conns)) && Onward() && issues == old(issues)
      ensures SameInput(conns[i], old(conns[i]))
      ensures ok ==> consumed + n <= |input|
      ensures ok ==> Delivering(input, consumed + n, frames + r, n == 0, pending, conns[i].pending)
      ensures ok ==> |r| <= 1 && done == old(done) + Delivered(i, r)
      ensures !ok ==> done == old(done) && Stopped(input, frames, pending)
      ensures protocolFailures == old(protocolFailures) + One(!ok)
    {
      hide Accounted, StreamOk, ParseResponses, Delivering, ParseResponse, Stopped;
      var parsed := ParseResponse(input[consumed..], DEFAULT_LIMITS);
      n, ok, r := 0, true, [];
      ReadStep(input, consumed, frames, pending, conns[i].pending);
      if parsed.Malformed? {
        protocolFailures := protocolFailures + 1;
        ok := false;
      } else if parsed.Complete? {
        n, r := parsed.consumed, [parsed.frame];
        ok := Complete(i, parsed.frame);
      }
    }

    method SetInput(i: nat, input: Bytes, got: Bytes)
      requires Valid() && i < |conns|
      modifies this`conns
      ensures Valid() && Untouched(i, old(conns)) && conns[i] == old(conns[i]).(input := input, got := got)
    {
      SetConn(i, conns[i].(input := input, got := got));
    }

    method Drop(i: nat)
      requires Valid() && i < |conns|
      modifies this`conns, this`liveConnections
      ensures Valid() && Untouched(i, old(conns)) && conns[i] == old(conns[i]).(live := false) && OthersSteady(i)
    {
      hide Accounted, TotalPending, LiveCount, IssuedBytes, Reading, Delivered, SteadyConn;
      SamePending(conns, issues, done, i, conns[i].(live := false));
      ReplaceConn(conns, i, conns[i].(live := false));
      liveConnections := liveConnections - One(conns[i].live);
      conns := conns[i := conns[i].(live := false)];
      DeliveredNone(done, i);
      OthersStay(conns, old(NothingLeft()), NothingLeft(), depth, old(done), done, i, []);
    }

    /** Everything that will be issued has been answered, and nothing is left to write. */
    ghost predicate Finished() reads this {
      && (exhausted || issued == requests) && received == issued
      && forall c :: 0 <= c < |conns| ==> |conns[c].pending| == 0 && conns[c].outputPos == |conns[c].output|
    }

    method AllDone() returns (r: bool)
      requires Valid()
      ensures r <==> Finished()
    {
      if !exhausted && issued < requests { return false; }
      if received < issued { return false; }
      for c := 0 to |conns|
        invariant forall k :: 0 <= k < c ==> |conns[k].pending| == 0 && conns[k].outputPos == |conns[k].output|
      {
        if |conns[c].pending| != 0 || conns[c].outputPos < |conns[c].output| { return false; }
      }
      r := true;
    }

    /** Drive the connections through any sequence of epoll results. The run succeeds exactly if it ends with nothing
        left to issue, every issued request answered and nothing left to write; then every request issued was
        completed exactly once, on its own connection, by a response with its id and opcode, and every byte of it was
        handed to its socket. It gives up only when no connection is left, or at a wait that timed out or failed.
        `used` is how many waits it went through; a connection still live then has been given every byte they
        brought for it. */
    method Run(first: seq<Writing>, waits: seq<Wait>) returns (success: bool, ghost used: nat)
      requires Valid() && AllRead() && |first| == |conns|
      modifies this
      ensures Steady() && |conns| == |old(conns)|
      ensures success <==> Finished()
      ensures forall j :: 0 <= j < used && j < |waits| ==> waits[j].Ready? || waits[j].WaitInterrupted?
      ensures used <= |waits| && GivenAll(old(conns), waits[..used])
      ensures !success ==> LiveCount(conns) == 0 || used == |waits| || waits[used] in {TimedOut, WaitFailed}
      ensures success ==> forall id :: 1 <= id <= |issues| ==> AnsweredOnce(issues, done, id)
      ensures success ==> forall c :: 0 <= c < |conns| ==> conns[c].sent == IssuedBytes(issues, c)
    {
      hide Accounted, SteadyConn, StreamOk, BroughtOver, BroughtBy, CanFail, IssuedBytes, AnsweredOnce, LiveCount,
           TotalPending;
      ghost var before := conns;
      StartAll(first);
      var k := 0;
      NothingBrought();
      assert waits[..0] == [];
      var finished := AllDone();
      while !finished
        invariant 0 <= k <= |waits| && Steady() && |conns| == |before| && GivenAll(before, waits[..k])
        invariant forall j :: 0 <= j < k ==> waits[j].Ready? || waits[j].WaitInterrupted?
        invariant finished <==> Finished()
        decreases |waits| - k
      {
        if liveConnections == 0 || k == |waits| || waits[k].TimedOut? || waits[k].WaitFailed? { return false, k; }
        OneWait(before, waits, k);
        k := k + 1;
        finished := AllDone();
      }
      AllAnswered(conns, issues, done);
      forall c | 0 <= c < |conns| ensures conns[c].sent == IssuedBytes(issues, c) { AllSent(conns[c], issues, c); }
      return true, k;
    }

    /** Each connection still live has been given every byte the waits brought for it. */
    ghost predicate GivenAll(before: seq<Conn>, waits: seq<Wait>) reads this {
      forall c :: 0 <= c < |conns| && conns[c].live ==>
        c < |before| && conns[c].got == before[c].got + BroughtOver(waits, c)
    }

    method OneWait(ghost before: seq<Conn>, waits: seq<Wait>, k: nat)
      requires Steady() && k < |waits| && (waits[k].Ready? || waits[k].WaitInterrupted?)
      requires |before| == |conns| && GivenAll(before, waits[..k])
      modifies this
      ensures Steady() && |conns| == |before| && GivenAll(before, waits[..k + 1])
    {
      hide Accounted, SteadyConn, BroughtOver, BroughtBy;
      ghost var was := conns;
      if waits[k].Ready? { HandleEvents(waits[k].events); }
      forall c | 0 <= c < |conns| && conns[c].live
        ensures conns[c].got == before[c].got + BroughtOver(waits[..k + 1], c)
      {
        BroughtByOneMore(waits, k, c, before[c].got, was[c].got, conns[c].got);
      }
    }

    /** Fill and write every connection once before the first wait. */
    method StartAll(first: seq<Writing>)
      requires Valid() && AllRead() && |first| == |conns|
      modifies this
      ensures Steady() && |conns| == |old(conns)|
      ensures forall c :: 0 <= c < |conns| ==> conns[c].got == old(conns[c].got)
      ensures forall c :: 0 <= c < |conns| ==> conns[c].live || !old(conns[c].live) || CanFail(first[c])
    {
      hide Accounted, StreamOk, Reading, CanFail, LiveCount;
      for i := 0 to |conns|
        invariant Valid() && |conns| == |old(conns)| && done == old(done)
        invariant forall c :: 0 <= c < i ==> SteadyAt(c)
        invariant forall c :: 0 <= c < |conns| ==> conns[c].got == old(conns[c].got)
        invariant forall c :: i <= c < |conns| ==> conns[c] == old(conns[c])
        invariant forall c :: 0 <= c < i ==> conns[c].live || !old(conns[c].live) || CanFail(first[c])
      {
        StartOne(i, first[i]);
      }
    }

    method StartOne(i: nat, w: Writing)
      requires Valid() && i < |conns| && (conns[i].live ==> Reading(conns[i], done, i))
      modifies this
      ensures Valid() && Untouched(i, old(conns)) && OthersSteady(i) && SteadyAt(i) && done == old(done)
      ensures conns[i].got == old(conns[i].got)
      ensures conns[i].live || !old(conns[i].live) || CanFail(w)
    {
      hide Accounted, StreamOk, Reading, LiveCount, Delivered;
      ghost var was := conns[i];
      FillPipeline(i);
      var ok;
      ghost var calls;
      ok, calls := OnWritable(i, w.sends, w.registers);
      if !ok { Drop(i); }
      if conns[i].live { StillReading(was, conns[i], done, i); }
      DeliveredNone(done, i);
      OthersStay(conns, old(NothingLeft()), NothingLeft(), depth, old(done), done, i, []);
    }

    /** Every event of a live connection is handled: one that is live afterwards was not hung up on and has been given
        every byte the events brought for it. */
    method HandleEvents(events: seq<Event>)
      requires Steady()
      modifies this
      ensures Steady() && |conns| == |old(conns)|
      ensures forall c :: 0 <= c < |conns| && conns[c].live ==>
        old(conns[c].live) && conns[c].got == old(conns[c].got) + BroughtBy(events, c)
      ensures forall e :: 0 <= e < |events| && events[e].hangUp && events[e].conn < |conns| ==>
        !conns[events[e].conn].live
    {
      hide Accounted, StreamOk, SteadyAt, Reading, BroughtBy, PeerGone, ReadsWell, Arrived, CanFail, Stalls;
      NothingBrought();
      assert events[..0] == [];
      for e := 0 to |events|
        invariant Steady() && |conns| == |old(conns)|
        invariant forall c :: 0 <= c < |conns| && conns[c].live ==>
          old(conns[c].live) && conns[c].got == old(conns[c].got) + BroughtBy(events[..e], c)
        invariant forall j :: 0 <= j < e && events[j].hangUp && events[j].conn < |conns| ==> !conns[events[j].conn].live
      {
        ghost var before := conns;
        if events[e].conn < |conns| && conns[events[e].conn].live { HandleEvent(events[e]); }
        forall c | 0 <= c < |conns| && conns[c].live
          ensures conns[c].got == old(conns[c].got) + BroughtBy(events[..e + 1], c)
        {
          BroughtOneMore(events, e, c, old(conns[c].got), before[c].got, conns[c].got);
        }
      }
      assert events[..|events|] == events;
    }

    /** One event. A hang-up only drops the connection. Otherwise the connection is dropped only if reading went wrong
        or a write can fail; and if it is kept, what was reported readable has been read, and what was reported
        writable has been written until the socket stalled. */
    method HandleEvent(ev: Event)
      requires Steady() && ev.conn < |conns| && conns[ev.conn].live
      modifies this
      ensures Steady() && Untouched(ev.conn, old(conns))
      ensures ev.hangUp ==> conns[ev.conn] == old(conns[ev.conn]).(live := false) && done == old(done)
      ensures var c := conns[ev.conn]; var was := old(conns[ev.conn]);
        c.live ==>
          && !ev.hangUp && c.got == was.got + (if ev.readable then Arrived(ev.recvs) else [])
          && (ev.readable ==>
                !PeerGone(ev.recvs) && ReadsWell(was.pending, was.input + Arrived(ev.recvs)) && ev.read.registers)
          && (ev.writable ==> ev.write.registers && (Unsent(c) ==> Stalls(ev.write)))
          && (ev.readable && !ev.writable && Unsent(c) ==> Stalls(ev.read))
      ensures var c := conns[ev.conn]; var was := old(conns[ev.conn]);
        !c.live ==>
          || ev.hangUp
          || (ev.readable && (PeerGone(ev.recvs) || !ReadsWell(was.pending, was.input + Arrived(ev.recvs))))
          || (ev.readable && CanFail(ev.read)) || (ev.writable && CanFail(ev.write))
    {
      hide Accounted, StreamOk, Reading, Delivered, ParseResponses, Arrived, ReadsWell, PeerGone, WentOn, LiveCount;
      ghost var was := conns[ev.conn];
      assert was.got + [] == was.got && SteadyAt(ev.conn);
      if ev.hangUp {
        Drop(ev.conn);
        return;
      }
      var ok := true;
      ghost var calls;
      if ev.readable { ok, calls := OnReadable(ev.conn, ev.recvs, ev.read.sends, ev.read.registers); }
      if ok && ev.writable { ok, calls := KeepWriting(ev.conn, ev.write); }
      if !ok { Drop(ev.conn); }
    }

    /** on_writable between events. */
    method KeepWriting(i: nat, w: Writing) returns (ok: bool, ghost calls: nat)
      requires Valid() && i < |conns| && conns[i].live && Reading(conns[i], done, i)
      modifies this
      ensures Valid() && Untouched(i, old(conns)) && OthersSteady(i) && done == old(done)
      ensures SameInput(conns[i], old(conns[i]))
      ensures ok ==> SteadyAt(i) && w.registers && (Unsent(conns[i]) ==> Stalls(w))
      ensures !ok ==> CanFail(w)
    {
      hide Accounted, StreamOk, Reading, LiveCount;
      ghost var was := conns[i];
      ok, calls := OnWritable(i, w.sends, w.registers);
      StillReading(was, conns[i], done, i);
    }
  }

  lemma StillReading(was: Conn, c: Conn, done: seq<Done>, i: nat)
    requires Reading(was, done, i) && c.got == was.got && c.input == was.input
    ensures Reading(c, done, i)
  {
  }

  lemma NoneWentOn(sends: seq<SendOutcome>)
    ensures WentOn(sends, 0)
  {
  }

  lemma TakeAll(whole: seq<Response>, part: seq<Response>)
    requires part <= whole
    ensures whole[..|part|] == part
  {
  }

  lemma WhenReadWell(pending: map<nat, RequestSpec>, input: Bytes, frames: seq<Response>)
    requires ReadsWell(pending, input) && frames <= ParseResponses(input, DEFAULT_LIMITS).frames
    requires |frames| == ExpectedPrefix(pending, ParseResponses(input, DEFAULT_LIMITS).frames)
    ensures frames == ParseResponses(input, DEFAULT_LIMITS).frames
    ensures ParseResponses(input, DEFAULT_LIMITS).error == None
  {
  }

  lemma WhenStopped(input: Bytes, frames: seq<Response>, before: map<nat, RequestSpec>)
    requires Stopped(input, frames, before)
    ensures var w := ParseResponses(input, DEFAULT_LIMITS);
      frames <= w.frames && |frames| == ExpectedPrefix(before, w.frames) && !ReadsWell(before, input)
  {
  }

  lemma NothingBrought()
    ensures forall c: nat :: BroughtBy([], c) == [] && BroughtOver([], c) == []
  {
  }

  lemma BroughtOneMore(events: seq<Event>, e: nat, c: nat, first: Bytes, before: Bytes, now: Bytes)
    requires e < |events| && before == first + BroughtBy(events[..e], c)
    requires var ev := events[e];
      now == before + (if ev.conn == c && ev.readable && !ev.hangUp then Arrived(ev.recvs) else [])
    ensures now == first + BroughtBy(events[..e + 1], c)
  {
    hide Arrived;
    assert events[..e + 1][..e] == events[..e];
  }

  lemma BroughtByOneMore(waits: seq<Wait>, k: nat, c: nat, first: Bytes, before: Bytes, now: Bytes)
    requires k < |waits| && before == first + BroughtOver(waits[..k], c)
    requires now == before + (if waits[k].Ready? then BroughtBy(waits[k].events, c) else [])
    ensures now == first + BroughtOver(waits[..k + 1], c)
  {
    hide BroughtBy;
    assert waits[..k + 1][..k] == waits[..k];
  }

  lemma AllSent(c: Conn, issues: seq<Issue>, i: nat)
    requires StreamOk(c, issues, i) && c.outputPos == |c.output|
    ensures c.sent == IssuedBytes(issues, i)
  {
    assert c.sent + [] == c.sent;
  }

  /** Changes that leave `pending` alone leave the accounts alone. */
  lemma SamePending(cs: seq<Conn>, issues: seq<Issue>, done: seq<Done>, i: nat, c: Conn)
    requires Accounted(cs, issues, done) && i < |cs| && c.pending == cs[i].pending
    ensures Accounted(cs[i := c], issues, done)
  {
    ReplaceConn(cs, i, c);
    var cs' := cs[i := c];
    forall k: nat ensures Remembered(cs', issues, done, k) { assert Remembered(cs, issues, done, k); }
  }
}
