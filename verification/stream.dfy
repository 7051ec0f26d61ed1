/** Whole byte streams: what a connection's input and output are, independent of how they are cut up. */
module Stream {
  import opened Protocol
  import opened Codec

  function SerializeRequests(rs: seq<Request>): Bytes {
    if rs == [] then [] else SerializeRequest(rs[0]) + SerializeRequests(rs[1..])
  }

  function SerializeResponses(rs: seq<Response>): Bytes {
    if rs == [] then [] else SerializeResponses(rs[..|rs| - 1]) + SerializeResponse(rs[|rs| - 1])
  }

  /** A stream read in one go: its leading frames, the bytes left over, and the error that stopped it. */
  datatype Whole<T> = Whole(frames: seq<T>, rest: Bytes, error: Option<ParseError>)

  function ParseRequests(s: Bytes, l: Limits): Whole<Request>
    decreases |s|
  {
    match ParseRequest(s, l)
    case Complete(r, n) =>
      var w := ParseRequests(s[n..], l);
      Whole([r] + w.frames, w.rest, w.error)
    case NeedMore => Whole([], s, None)
    case Malformed(e) => Whole([], s, Some(e))
  }

  function ParseResponses(s: Bytes, l: Limits): Whole<Response>
    decreases |s|
  {
    match ParseResponse(s, l)
    case Complete(r, n) =>
      var w := ParseResponses(s[n..], l);
      Whole([r] + w.frames, w.rest, w.error)
    case NeedMore => Whole([], s, None)
    case Malformed(e) => Whole([], s, Some(e))
  }

  lemma Assoc(a: Bytes, b: Bytes, c: Bytes)
    ensures (a + b) + c == a + (b + c)
  {
  }

  lemma {:induction false} SerializeRequestsAppend(rs: seq<Request>, r: Request)
    ensures SerializeRequests(rs + [r]) == SerializeRequests(rs) + SerializeRequest(r)
  {
    if rs == [] {
      assert rs + [r] == [r];
    } else {
      SerializeRequestsAppend(rs[1..], r);
      assert (rs + [r])[1..] == rs[1..] + [r];
      Assoc(SerializeRequest(rs[0]), SerializeRequests(rs[1..]), SerializeRequest(r));
    }
  }

  /** Acceptable requests at the head of a stream are parsed back, and the rest is parsed as if alone. */
  lemma {:induction false} ParsePastRequests(rs: seq<Request>, rest: Bytes, l: Limits)
    requires forall r :: r in rs ==> RequestOk(r, l)
    ensures ParseRequests(SerializeRequests(rs) + rest, l)
         == (var w := ParseRequests(rest, l); Whole(rs + w.frames, w.rest, w.error))
  {
    hide SerializeRequest, ParseRequest;
    if rs == [] {
      assert SerializeRequests(rs) + rest == rest;
    } else {
      var tail := SerializeRequests(rs[1..]) + rest;
      Assoc(SerializeRequest(rs[0]), SerializeRequests(rs[1..]), rest);
      ParsePastRequest(rs[0], tail, l);
      ParsePastRequests(rs[1..], rest, l);
      assert forall t: seq<Request> :: [rs[0]] + (rs[1..] + t) == rs + t;
    }
  }

  lemma ParsePastRequest(r: Request, tail: Bytes, l: Limits)
    requires RequestOk(r, l)
    ensures ParseRequests(SerializeRequest(r) + tail, l)
         == (var w := ParseRequests(tail, l); Whole([r] + w.frames, w.rest, w.error))
  {
    var f := SerializeRequest(r);
    RequestRoundTrip(r, l, tail);
    assert (f + tail)[|f|..] == tail;
  }

  /** Once a stream is malformed, nothing that follows changes what was read from it. */
  lemma {:induction false} MalformedIsFinal(s: Bytes, more: Bytes, l: Limits)
    requires ParseRequests(s, l).error.Some?
    ensures ParseRequests(s + more, l).frames == ParseRequests(s, l).frames
    ensures ParseRequests(s + more, l).error == ParseRequests(s, l).error
    decreases |s|
  {
    RequestVerdictStable(s, l, more);
    if ParseRequest(s, l).Complete? {
      var n := ParseRequest(s, l).consumed;
      MalformedIsFinal(s[n..], more, l);
      assert (s + more)[n..] == s[n..] + more;
    }
  }

  /** A prefix of well-formed output is never malformed to its reader: it is whole frames, in order, and
      then the beginning of the next one. */
  lemma {:induction false} SentPrefixReadable(rs: seq<Response>, k: nat, l: Limits)
    requires forall r :: r in rs ==> ResponseOk(r, l)
    requires k <= |SerializeResponses(rs)|
    ensures ParseResponses(SerializeResponses(rs)[..k], l).error == None
    ensures ParseResponses(SerializeResponses(rs)[..k], l).frames <= rs
    ensures k == |SerializeResponses(rs)| ==> ParseResponses(SerializeResponses(rs)[..k], l) == Whole(rs, [], None)
    decreases |rs|
  {
    hide SerializeResponse, ParseResponse;
    if rs == [] {
      assert SerializeResponses(rs)[..k] == [];
      EmptyInput(l);
    } else {
      var first, rest := rs[0], rs[1..];
      FirstResponse(rs);
      var f, whole := SerializeResponse(first), SerializeResponses(rs);
      if k < |f| {
        assert whole[..k] == f[..k];
        ResponsePrefixNeedsMore(first, l, k);
      } else {
        var tail := SerializeResponses(rest)[..k - |f|];
        assert whole[..k] == f + tail;
        ParsePastResponse(first, tail, l);
        SentPrefixReadable(rest, k - |f|, l);
        assert [first] + rest == rs;
      }
    }
  }

  /** Parsing can be resumed: what is read from a stream and its continuation is what was read from the stream, and
      then what is read from its rest and the continuation. */
  lemma {:induction false} ResumeResponses(s: Bytes, more: Bytes, l: Limits)
    requires ParseResponses(s, l).error == None
    ensures var a := ParseResponses(s, l); var w := ParseResponses(a.rest + more, l);
      ParseResponses(s + more, l) == Whole(a.frames + w.frames, w.rest, w.error)
    decreases |s|
  {
    hide ParseResponse;
    var p := ParseResponse(s, l);
    if p.Complete? {
      ResponseVerdictStable(s, l, more);
      ResponseConsumed(s, l);
      ResumeResponses(s[p.consumed..], more, l);
      assert (s + more)[p.consumed..] == s[p.consumed..] + more;
      var a := ParseResponses(s[p.consumed..], l);
      assert forall t: seq<Response> :: ([p.frame] + a.frames) + t == [p.frame] + (a.frames + t);
    } else {
      assert forall t: seq<Response> :: [] + t == t;
    }
  }

  lemma ResponseConsumed(s: Bytes, l: Limits)
    requires ParseResponse(s, l).Complete?
    ensures 0 < ParseResponse(s, l).consumed <= |s|
  {
  }

  lemma EmptyInput(l: Limits)
    ensures ParseResponse([], l) == NeedMore
  {
  }

  lemma ParsePastResponse(r: Response, tail: Bytes, l: Limits)
    requires ResponseOk(r, l)
    ensures ParseResponses(SerializeResponse(r) + tail, l)
         == (var w := ParseResponses(tail, l); Whole([r] + w.frames, w.rest, w.error))
  {
    hide SerializeResponse, ParseResponse;
    var f := SerializeResponse(r);
    ResponseRoundTrip(r, l, tail);
    assert (f + tail)[|f|..] == tail;
  }

  lemma {:induction false} FirstResponse(rs: seq<Response>)
    requires rs != []
    ensures SerializeResponses(rs) == SerializeResponse(rs[0]) + SerializeResponses(rs[1..])
  {
    if |rs| > 1 {
      FirstResponse(rs[..|rs| - 1]);
      assert rs[..|rs| - 1][1..] == rs[1..][..|rs| - 2];
    }
  }
}
