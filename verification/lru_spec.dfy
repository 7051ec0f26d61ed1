/** The exact LRU cache as a pure state machine over its recency list, most recently used first. */
module LruSpec {
  import opened Protocol

  type Key = Bytes
  type Value = Bytes

  const ENTRY_OVERHEAD: nat := 128

  datatype CacheLimits = CacheLimits(maxEntries: size, maxBytes: size, maxValue: size)

  datatype Entry = Entry(key: Key, value: Value)

  function EntryCost(key: Key, value: Value): nat { |key| + |value| + ENTRY_OVERHEAD }

  function Cost(e: Entry): nat { EntryCost(e.key, e.value) }

  function TotalCost(es: seq<Entry>): nat {
    if es == [] then 0 else TotalCost(es[..|es| - 1]) + Cost(es[|es| - 1])
  }

  function TotalPayload(es: seq<Entry>): nat {
    if es == [] then 0 else TotalPayload(es[..|es| - 1]) + |es[|es| - 1].key| + |es[|es| - 1].value|
  }

  ghost predicate DistinctKeys(es: seq<Entry>) {
    forall i, j :: 0 <= i < j < |es| ==> es[i].key != es[j].key
  }

  predicate HasKey(es: seq<Entry>, k: Key) { exists i :: 0 <= i < |es| && es[i].key == k }

  function Lookup(es: seq<Entry>, k: Key): (r: Option<Value>)
    ensures r.Some? <==> HasKey(es, k)
    ensures r.Some? ==> Entry(k, r.value) in es
  {
    if es == [] then None
    else if es[0].key == k then Some(es[0].value)
    else
      var r := Lookup(es[1..], k);
      assert HasKey(es[1..], k) <==> HasKey(es, k) by {
        if HasKey(es, k) { var i :| 0 <= i < |es| && es[i].key == k; assert es[1..][i - 1].key == k; }
      }
      r
  }

  /** The list without the entry for `k`, if there is one. */
  function Drop(es: seq<Entry>, k: Key): (r: seq<Entry>)
    ensures |r| <= |es|
    ensures forall e :: e in r ==> e in es
  {
    if es == [] then []
    else if es[0].key == k then es[1..]
    else [es[0]] + Drop(es[1..], k)
  }

  /** Whether an entry of this cost can join `es` without breaking either limit. */
  predicate Fits(es: seq<Entry>, cost: nat, lim: CacheLimits) {
    |es| + 1 <= lim.maxEntries && TotalCost(es) + cost <= lim.maxBytes
  }

  /** Evict from the LRU end until the incoming entry fits or nothing is left. */
  function MakeRoom(es: seq<Entry>, cost: nat, lim: CacheLimits): seq<Entry> {
    if es == [] || Fits(es, cost, lim) then es else MakeRoom(es[..|es| - 1], cost, lim)
  }

  /** The list cut down so that one more entry meets the entry limit. */
  function Trim(es: seq<Entry>, maxEntries: nat): seq<Entry> {
    if |es| + 1 <= maxEntries || es == [] then es else es[..|es| - 1]
  }

  datatype Op = OpGet(key: Key) | OpPut(key: Key, value: Value) | OpErase(key: Key) | OpClear

  datatype Outcome =
    | Hit(value: Value) | Miss
    | Stored(replaced: bool, evicted: seq<Entry>) | ValueTooBig | EntryTooBig
    | Erased | Absent
    | Cleared(count: nat)

  datatype Next = Next(entries: seq<Entry>, outcome: Outcome)

  function PutOutcome(key: Key, value: Value, lim: CacheLimits): Option<Outcome> {
    if |value| > lim.maxValue then Some(ValueTooBig)
    else if EntryCost(key, value) > lim.maxBytes || lim.maxEntries == 0 then Some(EntryTooBig)
    else None
  }

  /** One operation under the cache lock. */
  function Apply(es: seq<Entry>, op: Op, lim: CacheLimits): Next {
    match op
    case OpGet(k) =>
      (match Lookup(es, k)
       case None => Next(es, Miss)
       case Some(v) => Next([Entry(k, v)] + Drop(es, k), Hit(v)))
    case OpPut(k, v) =>
      (match PutOutcome(k, v, lim)
       case Some(o) => Next(es, o)
       case None =>
         var others := Drop(es, k);
         var kept := MakeRoom(others, EntryCost(k, v), lim);
         MakeRoomPrefix(others, EntryCost(k, v), lim);
         Next([Entry(k, v)] + kept, Stored(HasKey(es, k), others[|kept|..])))
    case OpErase(k) =>
      if HasKey(es, k) then Next(Drop(es, k), Erased) else Next(es, Absent)
    case OpClear => Next([], Cleared(|es|))
  }

  lemma {:induction false} MakeRoomPrefix(es: seq<Entry>, cost: nat, lim: CacheLimits)
    ensures MakeRoom(es, cost, lim) <= es
    decreases |es|
  {
    if es != [] && !Fits(es, cost, lim) { MakeRoomPrefix(es[..|es| - 1], cost, lim); }
  }

  lemma {:induction false} CostOfPrefix(es: seq<Entry>, m: nat)
    requires m <= |es|
    ensures TotalCost(es[..m]) <= TotalCost(es)
    decreases |es|
  {
    if m < |es| {
      var front := es[..|es| - 1];
      CostOfPrefix(front, m);
      assert front[..m] == es[..m];
    } else {
      assert es[..m] == es;
    }
  }

  /** Eviction is exact: with what is kept the incoming entry meets both limits, and with any longer prefix of the
      recency list it would break one of them. */
  lemma {:induction false} EvictionIsMinimal(es: seq<Entry>, cost: nat, lim: CacheLimits)
    requires cost <= lim.maxBytes && lim.maxEntries > 0
    ensures var kept := MakeRoom(es, cost, lim);
      && kept <= es
      && |kept| + 1 <= lim.maxEntries && TotalCost(kept) + cost <= lim.maxBytes
      && (forall m :: |kept| < m <= |es| ==> m + 1 > lim.maxEntries || TotalCost(es[..m]) + cost > lim.maxBytes)
    decreases |es|
  {
    if es != [] && !Fits(es, cost, lim) {
      var front := es[..|es| - 1];
      EvictionIsMinimal(front, cost, lim);
      forall m | |MakeRoom(front, cost, lim)| < m <= |es|
        ensures m + 1 > lim.maxEntries || TotalCost(es[..m]) + cost > lim.maxBytes
      {
        if m == |es| { assert es[..m] == es; } else { assert es[..m] == front[..m]; }
      }
    } else {
      assert es[..|es|] == es;
    }
  }

  lemma {:induction false} DropMissing(es: seq<Entry>, k: Key)
    requires !HasKey(es, k)
    ensures Drop(es, k) == es
  {
    if es != [] {
      assert forall i :: 0 <= i < |es| - 1 ==> es[1..][i] == es[i + 1];
      DropMissing(es[1..], k);
    }
  }

  lemma {:induction false} DropAt(es: seq<Entry>, i: nat)
    requires DistinctKeys(es) && i < |es|
    ensures Drop(es, es[i].key) == es[..i] + es[i + 1..]
  {
    if i > 0 {
      DropAt(es[1..], i - 1);
      assert es[1..][i - 1] == es[i];
      assert es[..i] == [es[0]] + es[1..][..i - 1];
    }
  }

  lemma {:induction false} CostSplit(a: seq<Entry>, b: seq<Entry>)
    ensures TotalCost(a + b) == TotalCost(a) + TotalCost(b)
    ensures TotalPayload(a + b) == TotalPayload(a) + TotalPayload(b)
    decreases |b|
  {
    if b == [] {
      assert a + b == a;
    } else {
      CostSplit(a, b[..|b| - 1]);
      assert (a + b)[..|a + b| - 1] == a + b[..|b| - 1];
    }
  }

  lemma CostOfOne(e: Entry)
    ensures TotalCost([e]) == Cost(e)
    ensures TotalPayload([e]) == |e.key| + |e.value|
  {
    assert [e][..0] == [];
  }

  /** Taking the entry at `i` out of the list takes out its cost and nothing else. */
  lemma CostWithout(es: seq<Entry>, i: nat)
    requires i < |es|
    ensures TotalCost(es[..i] + es[i + 1..]) + Cost(es[i]) == TotalCost(es)
    ensures TotalPayload(es[..i] + es[i + 1..]) + |es[i].key| + |es[i].value| == TotalPayload(es)
  {
    assert es == es[..i] + ([es[i]] + es[i + 1..]);
    CostSplit(es[..i], [es[i]] + es[i + 1..]);
    CostSplit([es[i]], es[i + 1..]);
    CostSplit(es[..i], es[i + 1..]);
    CostOfOne(es[i]);
  }

  lemma {:induction false} PayloadAndOverhead(es: seq<Entry>)
    ensures TotalCost(es) == TotalPayload(es) + ENTRY_OVERHEAD * |es|
  {
    if es != [] { PayloadAndOverhead(es[..|es| - 1]); }
  }

  /** What every reachable recency list satisfies. */
  ghost predicate WellFormed(es: seq<Entry>, lim: CacheLimits) {
    && DistinctKeys(es)
    && |es| <= lim.maxEntries
    && TotalCost(es) <= lim.maxBytes
    && (forall e :: e in es ==> |e.value| <= lim.maxValue)
  }

  lemma DropIndex(es: seq<Entry>, k: Key) returns (i: nat)
    requires DistinctKeys(es) && HasKey(es, k)
    ensures i < |es| && es[i].key == k && Drop(es, k) == es[..i] + es[i + 1..]
  {
    i :| 0 <= i < |es| && es[i].key == k;
    DropAt(es, i);
  }

  lemma DropFacts(es: seq<Entry>, k: Key)
    requires DistinctKeys(es)
    ensures DistinctKeys(Drop(es, k)) && !HasKey(Drop(es, k), k)
    ensures forall k2 :: k2 != k ==> (HasKey(Drop(es, k), k2) <==> HasKey(es, k2))
    ensures |Drop(es, k)| == |es| - (if HasKey(es, k) then 1 else 0)
  {
    if HasKey(es, k) {
      var i := DropIndex(es, k);
      var r := Drop(es, k);
      forall j | 0 <= j < |r| ensures r[j] == es[if j < i then j else j + 1] { }
      forall k2 | k2 != k && HasKey(es, k2) ensures HasKey(r, k2) {
        var j :| 0 <= j < |es| && es[j].key == k2;
        assert r[if j < i then j else j - 1].key == k2;
      }
    } else {
      DropMissing(es, k);
    }
  }

  lemma DropCost(es: seq<Entry>, k: Key)
    requires DistinctKeys(es)
    ensures TotalCost(Drop(es, k)) + (if HasKey(es, k) then Cost(Entry(k, Lookup(es, k).value)) else 0) == TotalCost(es)
  {
    if HasKey(es, k) {
      var i := DropIndex(es, k);
      CostWithout(es, i);
      LookupAt(es, i);
    } else {
      DropMissing(es, k);
    }
  }

  lemma {:induction false} LookupAt(es: seq<Entry>, i: nat)
    requires DistinctKeys(es) && i < |es|
    ensures Lookup(es, es[i].key) == Some(es[i].value)
  {
    if i > 0 { LookupAt(es[1..], i - 1); }
  }

  /** Every operation keeps keys distinct and both limits met, whatever it does. */
  lemma ApplyKeepsBounds(es: seq<Entry>, op: Op, lim: CacheLimits)
    requires WellFormed(es, lim)
    ensures WellFormed(Apply(es, op, lim).entries, lim)
  {
    if !op.OpClear? {
      DropFacts(es, op.key);
      DropCost(es, op.key);
      match op
      case OpGet(k) =>
        if HasKey(es, k) { ConsFacts(Entry(k, Lookup(es, k).value), Drop(es, k)); }
      case OpPut(k, v) =>
        if PutOutcome(k, v, lim).None? { PutKeepsBounds(Drop(es, k), k, v, lim); }
      case OpErase(k) =>
    }
  }

  /** The entry being inserted is kept, in front of exactly what eviction kept. */
  lemma PutKeepsBounds(others: seq<Entry>, k: Key, v: Value, lim: CacheLimits)
    requires WellFormed(others, lim) && !HasKey(others, k) && PutOutcome(k, v, lim).None?
    ensures WellFormed([Entry(k, v)] + MakeRoom(others, EntryCost(k, v), lim), lim)
  {
    EvictionIsMinimal(others, EntryCost(k, v), lim);
    var kept := MakeRoom(others, EntryCost(k, v), lim);
    assert forall j :: 0 <= j < |kept| ==> kept[j] == others[j];
    ConsFacts(Entry(k, v), kept);
  }

  lemma ConsFacts(e: Entry, es: seq<Entry>)
    requires DistinctKeys(es) && !HasKey(es, e.key)
    ensures DistinctKeys([e] + es)
    ensures TotalCost([e] + es) == Cost(e) + TotalCost(es)
  {
    CostSplit([e], es);
    CostOfOne(e);
  }
}
