/** Big-endian integers of any byte width. */
module BigEndian {
  import opened Protocol

  /** 256 to the power `width`: one more than the largest integer of that many bytes. */
  function Range(width: nat): (r: nat)
    ensures r > 0
  {
    if width == 0 then 1 else 256 * Range(width - 1)
  }

  /** The low `width` bytes of `n`, most significant first. */
  function Encode(n: nat, width: nat): (s: Bytes)
    ensures |s| == width
  {
    if width == 0 then [] else Encode(n / 256, width - 1) + [n % 256]
  }

  function Decode(s: Bytes): nat {
    if s == [] then 0 else 256 * Decode(s[..|s| - 1]) + s[|s| - 1]
  }

  lemma Ranges()
    ensures Range(1) == 0x100 && Range(2) == 0x1_0000
    ensures Range(4) == 0x1_0000_0000 && Range(8) == 0x1_0000_0000_0000_0000
  {
    assert Range(3) == 0x100_0000;
    assert Range(5) == 0x100_0000_0000;
    assert Range(6) == 0x1_0000_0000_0000;
    assert Range(7) == 0x100_0000_0000_0000;
  }

  lemma {:induction false} DecodeBound(s: Bytes)
    ensures Decode(s) < Range(|s|)
  {
    if s != [] { DecodeBound(s[..|s| - 1]); }
  }

  /** Reading back what was written gives the integer, for every width it fits in. */
  lemma {:induction false} DecodeEncode(n: nat, width: nat)
    requires n < Range(width)
    ensures Decode(Encode(n, width)) == n
  {
    if width > 0 {
      DecodeEncode(n / 256, width - 1);
      assert Encode(n, width)[..width - 1] == Encode(n / 256, width - 1);
    }
  }

  /** Writing back what was read gives the bytes. */
  lemma {:induction false} EncodeDecode(s: Bytes)
    ensures Encode(Decode(s), |s|) == s
  {
    if s != [] {
      var front := s[..|s| - 1];
      EncodeDecode(front);
      assert Decode(s) / 256 == Decode(front) && Decode(s) % 256 == s[|s| - 1];
      assert s == front + [s[|s| - 1]];
    }
  }

  /** `n >> 8 * bytes`. */
  function ShiftRight(n: nat, bytes: nat): nat {
    if bytes == 0 then n else ShiftRight(n, bytes - 1) / 256
  }

  /** `append_u64`: eight shifted bytes, highest first. */
  method AppendU64(out: Bytes, value: uint64) returns (r: Bytes)
    ensures r == out + Encode(value, 8)
  {
    r := out;
    var shift := 8;
    while shift > 0
      invariant 0 <= shift <= 8
      invariant r == out + Encode(ShiftRight(value, shift), 8 - shift)
    {
      shift := shift - 1;
      r := r + [ShiftRight(value, shift) % 256];
    }
  }

  /** `read_u64`: shift in eight bytes. */
  method ReadU64(data: Bytes) returns (value: uint64)
    requires |data| >= 8
    ensures value == Decode(data[..8])
    ensures Encode(value, 8) == data[..8]
  {
    var acc: nat := 0;
    for i := 0 to 8
      invariant acc == Decode(data[..i])
    {
      assert data[..i + 1][..i] == data[..i];
      acc := acc * 256 + data[i];
    }
    Ranges();
    DecodeBound(data[..8]);
    EncodeDecode(data[..8]);
    value := acc;
  }
}

/** Frame encoder and incremental frame parsers. */
module Codec {
  import opened Protocol
  import BE = BigEndian

  /** The fixed part of a frame after the magic, version and flags have been checked. */
  datatype Header = Header(opcode: byte, status: byte, id: uint64, keyLen: uint32, valueLen: uint32)

  function EncodeHeader(h: Header): (s: Bytes)
    ensures |s| == HEADER_SIZE
  {
    BE.Encode(MAGIC, 4) + [VERSION, h.opcode, 0, h.status]
    + BE.Encode(h.id, 8) + BE.Encode(h.keyLen, 4) + BE.Encode(h.valueLen, 4)
  }

  function ReadU32(s: Bytes): (n: uint32)
    requires |s| == 4
  {
    BE.Ranges();
    BE.DecodeBound(s);
    BE.Decode(s)
  }

  function ReadWord64(s: Bytes): (n: uint64)
    requires |s| == 8
  {
    BE.Ranges();
    BE.DecodeBound(s);
    BE.Decode(s)
  }

  datatype Decoded = Good(header: Header) | Bad(error: ParseError)

  /** `decode_common_header`: the checks shared by requests and responses, in order. */
  function DecodeHeader(s: Bytes): Decoded
    requires |s| >= HEADER_SIZE
  {
    if ReadU32(s[0..4]) != MAGIC then Bad(BadMagic)
    else if s[4] != VERSION then Bad(ParseError.UnsupportedVersion)
    else if OpcodeOf(s[5]).None? then Bad(InvalidOpcode)
    else if s[6] != 0 then Bad(ReservedFlags)
    else Good(Header(s[5], s[7], ReadWord64(s[8..16]), ReadU32(s[16..20]), ReadU32(s[20..24])))
  }

  /** A header decodes to `h` exactly when it is the encoding of `h` and the opcode is known. */
  lemma HeaderInverse(s: Bytes, h: Header)
    requires |s| >= HEADER_SIZE
    ensures DecodeHeader(s) == Good(h) <==> s[..HEADER_SIZE] == EncodeHeader(h) && OpcodeOf(h.opcode).Some?
  {
    BE.Ranges();
    if DecodeHeader(s) == Good(h) {
      BE.EncodeDecode(s[0..4]);
      BE.EncodeDecode(s[8..16]);
      BE.EncodeDecode(s[16..20]);
      BE.EncodeDecode(s[20..24]);
      assert s[4..8] == [VERSION, h.opcode, 0, h.status];
      assert s[..HEADER_SIZE] == s[0..4] + s[4..8] + s[8..16] + s[16..20] + s[20..24];
    }
    if s[..HEADER_SIZE] == EncodeHeader(h) && OpcodeOf(h.opcode).Some? {
      HeaderFields(s, h);
      BE.DecodeEncode(MAGIC, 4);
      BE.DecodeEncode(h.id, 8);
      BE.DecodeEncode(h.keyLen, 4);
      BE.DecodeEncode(h.valueLen, 4);
    }
  }

  lemma HeaderFields(s: Bytes, h: Header)
    requires |s| >= HEADER_SIZE && s[..HEADER_SIZE] == EncodeHeader(h)
    ensures s[0..4] == BE.Encode(MAGIC, 4)
    ensures s[4] == VERSION && s[5] == h.opcode && s[6] == 0 && s[7] == h.status
    ensures s[8..16] == BE.Encode(h.id, 8)
    ensures s[16..20] == BE.Encode(h.keyLen, 4)
    ensures s[20..24] == BE.Encode(h.valueLen, 4)
  {
    var e := EncodeHeader(h);
    forall i | 0 <= i < HEADER_SIZE ensures s[i] == e[i] { assert s[i] == s[..HEADER_SIZE][i]; }
    assert s[0..4] == e[0..4];
    assert s[8..16] == e[8..16];
    assert s[16..20] == e[16..20];
    assert s[20..24] == e[20..24];
  }

  /** The 32-bit length field of a payload: the cast keeps the low 32 bits. */
  function LengthField(n: nat): uint32 { n % 0x1_0000_0000 }

  function RequestHeader(r: Request): Header {
    Header(OpcodeByte(r.opcode), 0, r.id, LengthField(|r.key|), LengthField(|r.value|))
  }

  function SerializeRequest(r: Request): (s: Bytes)
    ensures |s| == HEADER_SIZE + |r.key| + |r.value|
  {
    EncodeHeader(RequestHeader(r)) + r.key + r.value
  }

  function ResponseHeader(r: Response): Header {
    Header(OpcodeByte(r.opcode), StatusByte(r.status), r.id, 0, LengthField(|r.value|))
  }

  function SerializeResponse(r: Response): (s: Bytes)
    ensures |s| == HEADER_SIZE + |r.value|
  {
    EncodeHeader(ResponseHeader(r)) + r.value
  }

  /** The header checks of `deserialize_request`, in order; no payload is looked at. */
  function CheckRequestHeader(h: Header, l: Limits): Option<ParseError>
    requires OpcodeOf(h.opcode).Some?
  {
    var op := OpcodeOf(h.opcode).value;
    if h.status != 0 then Some(InvalidStatus)
    else if h.keyLen > KeyLimit(l) then Some(KeyTooLarge)
    else if h.valueLen > ValueLimit(l) then Some(ParseError.ValueTooLarge)
    else if RequiresKey(op) && h.keyLen == 0 then Some(MissingKey)
    else if !RequiresKey(op) && h.keyLen != 0 then Some(PayloadNotAllowed)
    else if !AllowsValue(op) && h.valueLen != 0 then Some(PayloadNotAllowed)
    else if HEADER_SIZE + h.keyLen + h.valueLen > MAX_FRAME_BYTES then Some(ParseError.ValueTooLarge)
    else None
  }

  function ParseRequest(s: Bytes, l: Limits): (p: Parsed<Request>)
    ensures p.Complete? ==> HEADER_SIZE <= p.consumed <= |s|
  {
    if |s| < HEADER_SIZE then NeedMore
    else match DecodeHeader(s)
      case Bad(e) => Malformed(e)
      case Good(h) =>
        match CheckRequestHeader(h, l)
        case Some(e) => Malformed(e)
        case None =>
          var keyEnd := HEADER_SIZE + h.keyLen;
          var size := keyEnd + h.valueLen;
          if |s| < size then NeedMore
          else Complete(Request(OpcodeOf(h.opcode).value, h.id, s[HEADER_SIZE..keyEnd], s[keyEnd..size]), size)
  }

  /** The header checks of `deserialize_response`, in order. */
  function CheckResponseHeader(h: Header, l: Limits): Option<ParseError> {
    if StatusOf(h.status).None? then Some(InvalidStatus)
    else if h.keyLen != 0 then Some(PayloadNotAllowed)
    else if h.valueLen > ValueLimit(l) then Some(ParseError.ValueTooLarge)
    else None
  }

  function ParseResponse(s: Bytes, l: Limits): (p: Parsed<Response>)
    ensures p.Complete? ==> HEADER_SIZE <= p.consumed <= |s|
  {
    if |s| < HEADER_SIZE then NeedMore
    else match DecodeHeader(s)
      case Bad(e) => Malformed(e)
      case Good(h) =>
        match CheckResponseHeader(h, l)
        case Some(e) => Malformed(e)
        case None =>
          var size := HEADER_SIZE + h.valueLen;
          if |s| < size then NeedMore
          else Complete(Response(OpcodeOf(h.opcode).value, StatusOf(h.status).value, h.id, s[HEADER_SIZE..size]), size)
  }

  // ----- Requests: printer and parser undo each other -----

  /** A parse is complete exactly on an acceptable request's own encoding, followed by anything. */
  lemma RequestParsesExactly(s: Bytes, l: Limits, r: Request, n: nat)
    ensures ParseRequest(s, l) == Complete(r, n)
       <==> n <= |s| && s[..n] == SerializeRequest(r) && RequestOk(r, l)
  {
    if ParseRequest(s, l) == Complete(r, n) { RequestParseSound(s, l, r, n); }
    if n <= |s| && s[..n] == SerializeRequest(r) && RequestOk(r, l) { RequestParseComplete(s, l, r, n); }
  }

  lemma RequestParseSound(s: Bytes, l: Limits, r: Request, n: nat)
    requires ParseRequest(s, l) == Complete(r, n)
    ensures n <= |s| && s[..n] == SerializeRequest(r) && RequestOk(r, l)
  {
    hide EncodeHeader, DecodeHeader;
    RequestParts(s, l, r, n);
    HeaderInverse(s, RequestHeader(r));
    SplitFrame(s, HEADER_SIZE + |r.key|, n);
  }

  lemma RequestParts(s: Bytes, l: Limits, r: Request, n: nat)
    requires ParseRequest(s, l) == Complete(r, n)
    ensures n == HEADER_SIZE + |r.key| + |r.value| <= |s| && RequestOk(r, l)
    ensures r.key == s[HEADER_SIZE..HEADER_SIZE + |r.key|] && r.value == s[HEADER_SIZE + |r.key|..n]
    ensures DecodeHeader(s) == Good(RequestHeader(r))
  {
  }

  lemma SplitFrame(s: Bytes, keyEnd: nat, n: nat)
    requires HEADER_SIZE <= keyEnd <= n <= |s|
    ensures s[..n] == s[..HEADER_SIZE] + s[HEADER_SIZE..keyEnd] + s[keyEnd..n]
  {
  }

  lemma RequestParseComplete(s: Bytes, l: Limits, r: Request, n: nat)
    requires n <= |s| && s[..n] == SerializeRequest(r) && RequestOk(r, l)
    ensures ParseRequest(s, l) == Complete(r, n)
  {
    hide EncodeHeader, DecodeHeader;
    var h := RequestHeader(r);
    FrameParts(s, n, EncodeHeader(h), r.key, r.value);
    HeaderInverse(s, h);
    assert OpcodeOf(OpcodeByte(r.opcode)).value == r.opcode;
  }

  lemma FrameParts(s: Bytes, n: nat, head: Bytes, key: Bytes, value: Bytes)
    requires n <= |s| && s[..n] == head + key + value
    ensures var h, k := |head|, |head| + |key|;
      s[..h] == head && s[h..k] == key && s[k..n] == value
  {
    var h, k := |head|, |head| + |key|;
    var f := head + key + value;
    assert s[..h] == f[..h] == head;
    assert s[h..k] == f[h..k] == key;
    assert s[k..n] == f[k..n] == value;
  }

  lemma RequestRoundTrip(r: Request, l: Limits, tail: Bytes)
    requires RequestOk(r, l)
    ensures ParseRequest(SerializeRequest(r) + tail, l) == Complete(r, |SerializeRequest(r)|)
  {
    var f := SerializeRequest(r);
    assert (f + tail)[..|f|] == f;
    RequestParsesExactly(f + tail, l, r, |f|);
  }

  /** A verdict other than NeedMore never changes as more bytes arrive. */
  lemma RequestVerdictStable(s: Bytes, l: Limits, more: Bytes)
    requires !ParseRequest(s, l).NeedMore?
    ensures ParseRequest(s + more, l) == ParseRequest(s, l)
  {
    SameHeader(s, s + more);
    if ParseRequest(s, l).Complete? {
      var Complete(r, n) := ParseRequest(s, l);
      RequestParsesExactly(s, l, r, n);
      assert (s + more)[..n] == s[..n];
      RequestParsesExactly(s + more, l, r, n);
    }
  }

  lemma SameHeader(s: Bytes, t: Bytes)
    requires |s| >= HEADER_SIZE && s <= t
    ensures DecodeHeader(t) == DecodeHeader(s)
  {
    assert t[0..4] == s[0..4];
    assert t[8..16] == s[8..16];
    assert t[16..20] == s[16..20];
    assert t[20..24] == s[20..24];
  }

  /** Every strict prefix of a valid frame asks for more. */
  lemma RequestPrefixNeedsMore(r: Request, l: Limits, k: nat)
    requires RequestOk(r, l) && k < |SerializeRequest(r)|
    ensures ParseRequest(SerializeRequest(r)[..k], l) == NeedMore
  {
    var f := SerializeRequest(r);
    if !ParseRequest(f[..k], l).NeedMore? {
      RequestVerdictStable(f[..k], l, f[k..]);
      assert f[..k] + f[k..] == f + [];
      RequestRoundTrip(r, l, []);
    }
  }

  /** An undecided input is short: the parser never waits for more than one maximal frame. */
  lemma RequestNeedMoreBound(s: Bytes, l: Limits)
    requires ParseRequest(s, l) == NeedMore
    ensures |s| < HEADER_SIZE + KeyLimit(l) + ValueLimit(l)
  {
  }

  /** Valid frames are prefix-free, so encoding is injective. */
  lemma RequestPrefixFree(a: Request, b: Request, l: Limits)
    requires RequestOk(a, l) && RequestOk(b, l) && SerializeRequest(a) <= SerializeRequest(b)
    ensures a == b
  {
    var f, g := SerializeRequest(a), SerializeRequest(b);
    RequestRoundTrip(a, l, g[|f|..]);
    RequestRoundTrip(b, l, []);
    assert f + g[|f|..] == g + [];
  }

  /** Which error a request gets, from the bytes of its header alone: the first of the checks that fails. */
  lemma RequestErrorsExactly(s: Bytes, l: Limits)
    requires |s| >= HEADER_SIZE
    ensures var v := ParseRequest(s, l);
      var key, value := BE.Decode(s[16..20]), BE.Decode(s[20..24]);
      var magic := BE.Decode(s[0..4]) == 0x4C43_5331;
      var known := magic && s[4] == 1 && 1 <= s[5] <= 6;
      var clean := known && s[6] == 0 && s[7] == 0;
      var keyFits := clean && key <= l.maxKey && key <= 64 * 1024;
      var fits := keyFits && value <= l.maxValue && value <= 64 * 1024 * 1024;
      var keyed := s[5] in {1, 2, 3};
      && (v == Malformed(BadMagic) <==> !magic)
      && (v == Malformed(ParseError.UnsupportedVersion) <==> magic && s[4] != 1)
      && (v == Malformed(InvalidOpcode) <==> magic && s[4] == 1 && !(1 <= s[5] <= 6))
      && (v == Malformed(ReservedFlags) <==> known && s[6] != 0)
      && (v == Malformed(InvalidStatus) <==> known && s[6] == 0 && s[7] != 0)
      && (v == Malformed(KeyTooLarge) <==> clean && !keyFits)
      && (v == Malformed(ParseError.ValueTooLarge) <==> keyFits && !fits)
      && (v == Malformed(MissingKey) <==> fits && keyed && key == 0)
      && (v == Malformed(PayloadNotAllowed) <==>
            fits && ((!keyed && key != 0) || (s[5] != 2 && value != 0)) && !(keyed && key == 0))
  {
    BE.Ranges();
  }

  lemma ResponseErrorsExactly(s: Bytes, l: Limits)
    requires |s| >= HEADER_SIZE
    ensures var v := ParseResponse(s, l);
      var key, value := BE.Decode(s[16..20]), BE.Decode(s[20..24]);
      var magic := BE.Decode(s[0..4]) == 0x4C43_5331;
      var known := magic && s[4] == 1 && 1 <= s[5] <= 6;
      var clean := known && s[6] == 0 && s[7] <= 6;
      && (v == Malformed(BadMagic) <==> !magic)
      && (v == Malformed(ParseError.UnsupportedVersion) <==> magic && s[4] != 1)
      && (v == Malformed(InvalidOpcode) <==> magic && s[4] == 1 && !(1 <= s[5] <= 6))
      && (v == Malformed(ReservedFlags) <==> known && s[6] != 0)
      && (v == Malformed(InvalidStatus) <==> known && s[6] == 0 && s[7] > 6)
      && (v == Malformed(PayloadNotAllowed) <==> clean && key != 0)
      && (v == Malformed(ParseError.ValueTooLarge) <==>
            clean && key == 0 && (value > l.maxValue || value > 64 * 1024 * 1024))
  {
    BE.Ranges();
  }

  /** `peek_request_header`: best-effort identity of the frame at the head of the input. */
  function Peek(s: Bytes): Option<(uint64, Opcode)> {
    if |s| < HEADER_SIZE || ReadU32(s[0..4]) != MAGIC || OpcodeOf(s[5]).None? then None
    else Some((ReadWord64(s[8..16]), OpcodeOf(s[5]).value))
  }

  /** Which malformed frames can be answered: never one whose magic or opcode is wrong, one of another version
      exactly when its opcode is known, and always any other. A complete frame is identified as itself. */
  lemma PeekAndVerdict(s: Bytes, l: Limits)
    ensures var v := ParseRequest(s, l);
      && (v.Malformed? && v.error in {BadMagic, InvalidOpcode} ==> Peek(s) == None)
      && (v == Malformed(ParseError.UnsupportedVersion) ==>
            |s| >= HEADER_SIZE && (Peek(s).Some? <==> OpcodeOf(s[5]).Some?))
      && (v.Malformed? && v.error !in {BadMagic, InvalidOpcode, ParseError.UnsupportedVersion} ==> Peek(s).Some?)
      && (v.Complete? ==> Peek(s) == Some((v.frame.id, v.frame.opcode)))
  {
  }

  // ----- Responses -----

  lemma ResponseParsesExactly(s: Bytes, l: Limits, r: Response, n: nat)
    ensures ParseResponse(s, l) == Complete(r, n)
       <==> n <= |s| && s[..n] == SerializeResponse(r) && ResponseOk(r, l)
  {
    if ParseResponse(s, l) == Complete(r, n) { ResponseParseSound(s, l, r, n); }
    if n <= |s| && s[..n] == SerializeResponse(r) && ResponseOk(r, l) { ResponseParseComplete(s, l, r, n); }
  }

  lemma ResponseParseSound(s: Bytes, l: Limits, r: Response, n: nat)
    requires ParseResponse(s, l) == Complete(r, n)
    ensures n <= |s| && s[..n] == SerializeResponse(r) && ResponseOk(r, l)
  {
    ResponseParts(s, l, r, n);
    hide EncodeHeader, DecodeHeader;
    HeaderInverse(s, ResponseHeader(r));
    SplitFrame(s, HEADER_SIZE, n);
    assert s[HEADER_SIZE..HEADER_SIZE] == [];
  }

  lemma ResponseParts(s: Bytes, l: Limits, r: Response, n: nat)
    requires ParseResponse(s, l) == Complete(r, n)
    ensures n == HEADER_SIZE + |r.value| <= |s| && ResponseOk(r, l)
    ensures r.value == s[HEADER_SIZE..n]
    ensures DecodeHeader(s) == Good(ResponseHeader(r))
  {
  }

  lemma ResponseParseComplete(s: Bytes, l: Limits, r: Response, n: nat)
    requires n <= |s| && s[..n] == SerializeResponse(r) && ResponseOk(r, l)
    ensures ParseResponse(s, l) == Complete(r, n)
  {
    hide EncodeHeader, DecodeHeader;
    var h := ResponseHeader(r);
    assert EncodeHeader(h) + [] + r.value == EncodeHeader(h) + r.value;
    FrameParts(s, n, EncodeHeader(h), [], r.value);
    HeaderInverse(s, h);
    assert OpcodeOf(OpcodeByte(r.opcode)).value == r.opcode;
    assert StatusOf(StatusByte(r.status)).value == r.status;
  }

  lemma ResponseRoundTrip(r: Response, l: Limits, tail: Bytes)
    requires ResponseOk(r, l)
    ensures ParseResponse(SerializeResponse(r) + tail, l) == Complete(r, |SerializeResponse(r)|)
  {
    var f := SerializeResponse(r);
    assert (f + tail)[..|f|] == f;
    ResponseParsesExactly(f + tail, l, r, |f|);
  }

  lemma ResponseVerdictStable(s: Bytes, l: Limits, more: Bytes)
    requires !ParseResponse(s, l).NeedMore?
    ensures ParseResponse(s + more, l) == ParseResponse(s, l)
  {
    SameHeader(s, s + more);
    if ParseResponse(s, l).Complete? {
      var Complete(r, n) := ParseResponse(s, l);
      ResponseParsesExactly(s, l, r, n);
      assert (s + more)[..n] == s[..n];
      ResponseParsesExactly(s + more, l, r, n);
    }
  }

  lemma ResponsePrefixNeedsMore(r: Response, l: Limits, k: nat)
    requires ResponseOk(r, l) && k < |SerializeResponse(r)|
    ensures ParseResponse(SerializeResponse(r)[..k], l) == NeedMore
  {
    var f := SerializeResponse(r);
    if !ParseResponse(f[..k], l).NeedMore? {
      ResponseVerdictStable(f[..k], l, f[k..]);
      assert f[..k] + f[k..] == f + [];
      ResponseRoundTrip(r, l, []);
    }
  }
}
