/** The STATS payload: a field count, then that many 64-bit counters. */
module StatsCodec {
  import opened Protocol
  import BE = BigEndian

  const FIELDS: nat := 14

  /** The fourteen counters of a snapshot in wire order. */
  type Snapshot = f: seq<uint64> | |f| == FIELDS witness seq(FIELDS, _ => 0)

  function Words(fields: seq<uint64>): (s: Bytes)
    ensures |s| == 8 * |fields|
  {
    if fields == [] then []
    else Words(fields[..|fields| - 1]) + BE.Encode(fields[|fields| - 1], 8)
  }

  /** The payload a peer with any number of fields would send. */
  function Payload(fields: seq<uint64>): Bytes {
    BE.Encode(|fields|, 2) + Words(fields)
  }

  function Word(s: Bytes, i: nat): uint64
    requires |s| >= 2 + 8 * (i + 1)
  {
    BE.Ranges();
    BE.DecodeBound(s[2 + 8 * i..10 + 8 * i]);
    BE.Decode(s[2 + 8 * i..10 + 8 * i])
  }

  /** `deserialize_stats` as a function: the snapshot read over the top of `old`, or nothing. */
  function ReadStats(s: Bytes, before: Snapshot): Option<Snapshot> {
    if |s| < 2 then None
    else
      var count := BE.Decode(s[..2]);
      if |s| < 2 + 8 * count then None
      else Some(seq(FIELDS, i requires 0 <= i < FIELDS => if i < count then Word(s, i) else before[i]))
  }

  method SerializeStats(stats: Snapshot) returns (out: Bytes)
    ensures out == Payload(stats)
  {
    out := BE.Encode(FIELDS, 2);
    for i := 0 to FIELDS
      invariant out == BE.Encode(FIELDS, 2) + Words(stats[..i])
    {
      assert stats[..i + 1][..i] == stats[..i];
      out := BE.AppendU64(out, stats[i]);
    }
    assert stats[..FIELDS] == stats;
  }

  method DeserializeStats(input: Bytes, before: Snapshot) returns (ok: bool, out: Snapshot)
    ensures ok == ReadStats(input, before).Some?
    ensures out == if ok then ReadStats(input, before).value else before
  {
    if |input| < 2 { return false, before; }
    var count := BE.Decode(input[..2]);
    if |input| < 2 + 8 * count { return false, before; }
    var readable := Min(count, FIELDS);
    var fields: seq<uint64> := before;
    for i := 0 to readable
      invariant |fields| == FIELDS
      invariant forall k :: 0 <= k < FIELDS ==> fields[k] == if k < i then Word(input, k) else before[k]
    {
      var w := BE.ReadU64(input[2 + 8 * i..]);
      assert input[2 + 8 * i..][..8] == input[2 + 8 * i..10 + 8 * i];
      fields := fields[i := w];
    }
    ok, out := true, fields;
  }

  lemma {:induction false} WordAt(fields: seq<uint64>, i: nat)
    requires i < |fields|
    ensures Words(fields)[8 * i..8 * i + 8] == BE.Encode(fields[i], 8)
  {
    var front := fields[..|fields| - 1];
    if i < |front| {
      WordAt(front, i);
      assert Words(fields)[8 * i..8 * i + 8] == Words(front)[8 * i..8 * i + 8];
    }
  }

  /** Peers of any version understand each other: known fields are read, missing ones kept, extra ones and
      trailing bytes ignored. With fourteen fields this is the plain round trip. */
  lemma AnyVersionReadable(fields: seq<uint64>, tail: Bytes, before: Snapshot)
    requires |fields| < 0x1_0000
    ensures var r := ReadStats(Payload(fields) + tail, before);
      && r.Some?
      && (forall i :: 0 <= i < FIELDS ==> r.value[i] == if i < |fields| then fields[i] else before[i])
    ensures |fields| == FIELDS ==> ReadStats(Payload(fields) + tail, before) == Some(fields)
  {
    var s := Payload(fields) + tail;
    BE.Ranges();
    BE.DecodeEncode(|fields|, 2);
    assert s[..2] == BE.Encode(|fields|, 2);
    forall i | 0 <= i < |fields| ensures Word(s, i) == fields[i] {
      WordAt(fields, i);
      assert s[2 + 8 * i..10 + 8 * i] == Words(fields)[8 * i..8 * i + 8];
      BE.DecodeEncode(fields[i], 8);
    }
    if |fields| == FIELDS { assert ReadStats(s, before).value == fields; }
  }
}
