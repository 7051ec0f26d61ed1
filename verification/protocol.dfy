/** Wire-level vocabulary of the cache daemon: opcodes, statuses, limits, frames. */
module Protocol {

  type byte = x: int | 0 <= x < 256
  type Bytes = seq<byte>

  /** Unsigned machine words. */
  type uint32 = x: int | 0 <= x < 0x1_0000_0000
  type uint64 = x: int | 0 <= x < 0x1_0000_0000_0000_0000

  /** `size_t`: 64 bits, with wrap-around. */
  const SIZE_MAX: nat := 0xFFFF_FFFF_FFFF_FFFF
  type size = x: int | 0 <= x <= SIZE_MAX

  function AddSize(a: size, b: size): size { (a + b) % (SIZE_MAX + 1) }

  lemma AddExact(a: size, b: size)
    ensures a + b <= SIZE_MAX ==> AddSize(a, b) == a + b
    ensures a + b > SIZE_MAX ==> AddSize(a, b) == a + b - SIZE_MAX - 1
  {
  }

  function SubSize(a: size, b: size): size { (a - b) % (SIZE_MAX + 1) }

  const MAGIC: uint32 := 0x4C43_5331
  const VERSION: byte := 1
  const HEADER_SIZE: nat := 24
  const MAX_KEY_BYTES: nat := 64 * 1024
  const MAX_VALUE_BYTES: nat := 64 * 1024 * 1024
  const MAX_FRAME_BYTES: nat := HEADER_SIZE + MAX_KEY_BYTES + MAX_VALUE_BYTES

  datatype Option<+T> = None | Some(value: T)

  datatype Opcode = Get | Put | Delete | Ping | Stats | Clear

  datatype Status =
    | Ok | NotFound | InvalidRequest | ValueTooLarge | ServerBusy | InternalError | UnsupportedVersion

  function OpcodeByte(op: Opcode): byte {
    match op
    case Get => 1 case Put => 2 case Delete => 3 case Ping => 4 case Stats => 5 case Clear => 6
  }

  /** The opcode a raw byte denotes, if any: `is_valid_opcode` and the cast that follows it. */
  function OpcodeOf(raw: byte): (r: Option<Opcode>)
    ensures r.Some? <==> 1 <= raw <= 6
    ensures r.Some? ==> OpcodeByte(r.value) == raw
  {
    match raw
    case 1 => Some(Get) case 2 => Some(Put) case 3 => Some(Delete)
    case 4 => Some(Ping) case 5 => Some(Stats) case 6 => Some(Clear)
    case _ => None
  }

  function StatusByte(st: Status): byte {
    match st
    case Ok => 0 case NotFound => 1 case InvalidRequest => 2 case ValueTooLarge => 3
    case ServerBusy => 4 case InternalError => 5 case UnsupportedVersion => 6
  }

  /** The status a raw byte denotes, if any: `is_valid_status` and the cast that follows it. */
  function StatusOf(raw: byte): (r: Option<Status>)
    ensures r.Some? <==> raw <= 6
    ensures r.Some? ==> StatusByte(r.value) == raw
  {
    match raw
    case 0 => Some(Ok) case 1 => Some(NotFound) case 2 => Some(InvalidRequest)
    case 3 => Some(Status.ValueTooLarge) case 4 => Some(ServerBusy) case 5 => Some(InternalError)
    case 6 => Some(Status.UnsupportedVersion)
    case _ => None
  }

  predicate RequiresKey(op: Opcode) { op.Get? || op.Put? || op.Delete? }

  predicate AllowsValue(op: Opcode) { op.Put? }

  datatype Request = Request(opcode: Opcode, id: uint64, key: Bytes, value: Bytes)

  datatype Response = Response(opcode: Opcode, status: Status, id: uint64, value: Bytes)

  datatype ParseError =
    | BadMagic | UnsupportedVersion | InvalidOpcode | InvalidStatus | ReservedFlags
    | KeyTooLarge | ValueTooLarge | PayloadNotAllowed | MissingKey

  /** Outcome of one incremental parse; `consumed` counts bytes of the input's head. */
  datatype Parsed<+T> = Complete(frame: T, consumed: nat) | NeedMore | Malformed(error: ParseError)

  /** Per-parse limits; values above the protocol ceilings are clamped by the parser. */
  datatype Limits = Limits(maxKey: uint32, maxValue: uint32)

  const DEFAULT_LIMITS := Limits(MAX_KEY_BYTES, MAX_VALUE_BYTES)

  function Min(a: nat, b: nat): nat { if a <= b then a else b }

  function KeyLimit(l: Limits): nat { Min(l.maxKey, MAX_KEY_BYTES) }

  function ValueLimit(l: Limits): nat { Min(l.maxValue, MAX_VALUE_BYTES) }

  /** What the request parser accepts, said of the request itself. */
  predicate RequestOk(r: Request, l: Limits) {
    && |r.key| <= KeyLimit(l)
    && |r.value| <= ValueLimit(l)
    && (RequiresKey(r.opcode) <==> r.key != [])
    && (r.value != [] ==> AllowsValue(r.opcode))
  }

  /** What the response parser accepts, said of the response itself. */
  predicate ResponseOk(r: Response, l: Limits) {
    |r.value| <= ValueLimit(l)
  }
}
