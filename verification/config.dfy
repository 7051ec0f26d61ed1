/** Option parsing and validation, and what validation guarantees to the rest of the daemon. */
module Config {
  import opened Protocol
  import opened Codec
  import opened LruSpec

  // ----- parse_size -----

  predicate IsDigit(c: char) { '0' <= c <= '9' }

  predicate AllDigits(s: string) { forall i :: 0 <= i < |s| ==> IsDigit(s[i]) }

  /** The number a digit string denotes, with no bound. */
  function DecimalValue(s: string): nat
    requires AllDigits(s)
  {
    if s == [] then 0 else 10 * DecimalValue(s[..|s| - 1]) + (s[|s| - 1] as int - '0' as int)
  }

  function Multiplier(c: char): nat {
    if c == 'k' || c == 'K' then 0x400
    else if c == 'm' || c == 'M' then 0x10_0000
    else if c == 'g' || c == 'G' then 0x4000_0000
    else 1
  }

  /** The digits of a size, without its suffix letter. */
  function Digits(text: string): string
    requires text != []
  {
    if Multiplier(text[|text| - 1]) > 1 then text[..|text| - 1] else text
  }

  /** The size a text denotes in unbounded arithmetic; nothing if it is not digits and an optional suffix. */
  function Denotes(text: string): Option<nat> {
    if text == [] || Digits(text) == [] || !AllDigits(Digits(text)) then None
    else Some(DecimalValue(Digits(text)) * Multiplier(text[|text| - 1]))
  }

  /** The four forms of a size: digits alone, and digits with one letter, in either case, for a power of 1024; nothing
      else denotes one. */
  lemma SizesExactly(text: string)
    ensures Denotes(text).Some? <==>
      || (text != [] && AllDigits(text))
      || (|text| > 1 && AllDigits(text[..|text| - 1]) && text[|text| - 1] in {'k', 'K', 'm', 'M', 'g', 'G'})
    ensures text != [] && AllDigits(text) ==> Denotes(text) == Some(DecimalValue(text))
    ensures |text| > 1 && AllDigits(text[..|text| - 1]) ==>
      var n, unit := DecimalValue(text[..|text| - 1]), text[|text| - 1];
      && (unit in {'k', 'K'} ==> Denotes(text) == Some(n * 1024))
      && (unit in {'m', 'M'} ==> Denotes(text) == Some(n * (1024 * 1024)))
      && (unit in {'g', 'G'} ==> Denotes(text) == Some(n * (1024 * 1024 * 1024)))
  {
    if text != [] {
      var unit := text[|text| - 1];
      assert IsDigit(unit) ==> Multiplier(unit) == 1;
      if Multiplier(unit) == 1 && AllDigits(text) { assert DecimalValue(text) * 1 == DecimalValue(text); }
      if Multiplier(unit) > 1 { assert !IsDigit(unit); }
    }
  }

  lemma {:induction false} PrefixValue(s: string, n: nat)
    requires AllDigits(s) && n <= |s|
    ensures DecimalValue(s[..n]) <= DecimalValue(s)
    decreases |s|
  {
    if n < |s| {
      PrefixValue(s[..|s| - 1], n);
      assert s[..|s| - 1][..n] == s[..n];
    } else {
      assert s[..n] == s;
    }
  }

  /** The guard before `value * multiplier` is exact. */
  lemma ProductGuard(value: nat, multiplier: nat)
    requires multiplier in {1, 0x400, 0x10_0000, 0x4000_0000}
    ensures value > SIZE_MAX / multiplier <==> value * multiplier > SIZE_MAX
  {
  }

  /** Once the digits read so far overflow, so does the whole text. */
  lemma Overflows(digits: string, i: nat, multiplier: nat)
    requires i < |digits| && AllDigits(digits[..i + 1]) && DecimalValue(digits[..i + 1]) > SIZE_MAX && multiplier >= 1
    ensures AllDigits(digits) ==> DecimalValue(digits) * multiplier > SIZE_MAX
  {
    if AllDigits(digits) {
      PrefixValue(digits, i + 1);
      ScaleUp(DecimalValue(digits), multiplier);
    }
  }

  lemma ScaleUp(v: nat, m: nat)
    requires m >= 1
    ensures v * m >= v
  {
    assert v * m == v * (m - 1) + v;
  }

  /** A size is accepted exactly when it denotes a number that 64 bits hold, and then it is that number. */
  method ParseSize(text: string) returns (out: Option<nat>)
    ensures out == if Denotes(text).Some? && Denotes(text).value <= SIZE_MAX then Denotes(text) else None
  {
    if text == [] { return None; }
    var multiplier := Multiplier(text[|text| - 1]);
    var digits := Digits(text);
    if digits == [] { return None; }
    var value := 0;
    var i := 0;
    while i < |digits|
      invariant 0 <= i <= |digits|
      invariant AllDigits(digits[..i]) && value == DecimalValue(digits[..i]) <= SIZE_MAX
    {
      if !IsDigit(digits[i]) { return None; }
      var digit := digits[i] as int - '0' as int;
      assert digits[..i + 1][..i] == digits[..i];
      if value > (SIZE_MAX - digit) / 10 {
        Overflows(digits, i, multiplier);
        return None;
      }
      value := value * 10 + digit;
      i := i + 1;
    }
    assert digits[..i] == digits;
    ProductGuard(value, multiplier);
    if multiplier > 1 && value > SIZE_MAX / multiplier { return None; }
    out := Some(value * multiplier);
  }

  // ----- validate -----

  datatype ServerConfig = ServerConfig(
    socketPath: string,
    maxEntries: size, maxCacheBytes: size, maxValueBytes: size, maxKeyBytes: size,
    workerThreads: size, maxPendingRequests: size, maxConnections: size,
    maxConnOutputBytes: size, maxInflightPerConn: size,
    acceptBacklog: int, shutdownDrainMs: int)

  datatype ConfigError =
    | EmptySocketPath | SocketPathTooLong | BadMaxEntries | BadMaxValue | BadMaxKey | CacheTooSmall
    | BadWorkers | BadMaxPending | BadMaxConnections | BadMaxInflight | OutputTooSmall | BadBacklog | BadDrain

  const SUN_PATH_BYTES: nat := 108
  const MAX_WORKER_THREADS: nat := 1024

  /** The checks of `ServerConfig::validate`, in order, with machine arithmetic. */
  function Validate(c: ServerConfig): Option<ConfigError> {
    if c.socketPath == [] then Some(EmptySocketPath)
    else if |c.socketPath| >= SUN_PATH_BYTES then Some(SocketPathTooLong)
    else if c.maxEntries == 0 then Some(BadMaxEntries)
    else if c.maxValueBytes == 0 || c.maxValueBytes > MAX_VALUE_BYTES then Some(BadMaxValue)
    else if c.maxKeyBytes == 0 || c.maxKeyBytes > MAX_KEY_BYTES then Some(BadMaxKey)
    else if c.maxCacheBytes < AddSize(AddSize(c.maxValueBytes, c.maxKeyBytes), ENTRY_OVERHEAD) then Some(CacheTooSmall)
    else if c.workerThreads == 0 || c.workerThreads > MAX_WORKER_THREADS then Some(BadWorkers)
    else if c.maxPendingRequests == 0 then Some(BadMaxPending)
    else if c.maxConnections == 0 then Some(BadMaxConnections)
    else if c.maxInflightPerConn == 0 then Some(BadMaxInflight)
    else if c.maxConnOutputBytes < c.maxValueBytes then Some(OutputTooSmall)
    else if c.acceptBacklog <= 0 then Some(BadBacklog)
    else if c.shutdownDrainMs < 0 then Some(BadDrain)
    else None
  }

  /** A configuration is accepted exactly when every setting is in its range and the cache can hold the largest entry;
      the sum that says so does not wrap. */
  lemma ValidExactly(c: ServerConfig)
    ensures Validate(c).None? <==>
      && 0 < |c.socketPath| < 108 && c.maxEntries > 0
      && 0 < c.maxValueBytes <= 64 * 1024 * 1024 && 0 < c.maxKeyBytes <= 64 * 1024
      && c.maxCacheBytes >= c.maxValueBytes + c.maxKeyBytes + 128
      && 0 < c.workerThreads <= 1024 && c.maxPendingRequests > 0 && c.maxConnections > 0 && c.maxInflightPerConn > 0
      && c.maxConnOutputBytes >= c.maxValueBytes && c.acceptBacklog > 0 && c.shutdownDrainMs >= 0
  {
    if c.maxValueBytes <= MAX_VALUE_BYTES && c.maxKeyBytes <= MAX_KEY_BYTES {
      AddExact(c.maxValueBytes, c.maxKeyBytes);
      AddExact(AddSize(c.maxValueBytes, c.maxKeyBytes), ENTRY_OVERHEAD);
    }
  }

  function CacheLimitsOf(c: ServerConfig): CacheLimits {
    CacheLimits(c.maxEntries, c.maxCacheBytes, c.maxValueBytes)
  }

  /** The per-connection parser limits: each size is cut to 32 bits. */
  function WireLimitsOf(c: ServerConfig): Limits {
    Limits(c.maxKeyBytes % 0x1_0000_0000, c.maxValueBytes % 0x1_0000_0000)
  }

  /** Some PUT that the wire parser lets through on a connection of this server. */
  ghost predicate ArrivesAsPut(s: Bytes, c: ServerConfig, r: Request) {
    r.opcode.Put? && exists n :: ParseRequest(s, WireLimitsOf(c)) == Complete(r, n)
  }

  ghost predicate EveryPutIsStored(c: ServerConfig) {
    forall s, r, es :: ArrivesAsPut(s, c, r) ==>
      Apply(es, OpPut(r.key, r.value), CacheLimitsOf(c)).outcome.Stored?
  }

  /** Validation loses nothing to 32-bit casts or to wrap-around in its own sum. */
  lemma ValidatedSizesAreExact(c: ServerConfig)
    requires Validate(c).None?
    ensures WireLimitsOf(c) == Limits(c.maxKeyBytes, c.maxValueBytes)
    ensures KeyLimit(WireLimitsOf(c)) == c.maxKeyBytes && ValueLimit(WireLimitsOf(c)) == c.maxValueBytes
    ensures AddSize(AddSize(c.maxValueBytes, c.maxKeyBytes), ENTRY_OVERHEAD)
         == c.maxValueBytes + c.maxKeyBytes + ENTRY_OVERHEAD
  {
  }

  /** Under a validated configuration the cache never turns away a PUT that the parser accepted. */
  lemma ValidatedPutsAreStored(c: ServerConfig)
    requires Validate(c).None?
    ensures EveryPutIsStored(c)
  {
    forall s, r, es | ArrivesAsPut(s, c, r)
      ensures Apply(es, OpPut(r.key, r.value), CacheLimitsOf(c)).outcome.Stored?
    {
      var n :| ParseRequest(s, WireLimitsOf(c)) == Complete(r, n);
      RequestParsesExactly(s, WireLimitsOf(c), r, n);
      ValidatedSizesAreExact(c);
    }
  }

  /** ... and the cache-size check is not stricter than that needs: a configuration that fails it alone has
      a PUT that passes the parser and is refused. */
  lemma CacheSizeCheckIsNecessary(c: ServerConfig)
    requires Validate(c) == Some(CacheTooSmall)
    ensures !EveryPutIsStored(c)
  {
    hide SerializeRequest, ParseRequest;
    var r := Request(Put, 0, seq(c.maxKeyBytes, _ => 0), seq(c.maxValueBytes, _ => 0));
    var s := SerializeRequest(r) + [];
    RequestRoundTrip(r, WireLimitsOf(c), []);
    assert ArrivesAsPut(s, c, r);
    assert EntryCost(r.key, r.value) > c.maxCacheBytes;
    assert !Apply([], OpPut(r.key, r.value), CacheLimitsOf(c)).outcome.Stored?;
  }
}
