/** The recency list explained by the history of operations and their outcomes, for every trace. */
module LruHistory {
  import opened Protocol
  import opened LruSpec

  datatype Event = Event(op: Op, outcome: Outcome)

  datatype Run = Run(entries: seq<Entry>, history: seq<Event>)

  /** Run a trace of operations from an empty cache. */
  function Exec(ops: seq<Op>, lim: CacheLimits): Run {
    if ops == [] then Run([], [])
    else
      var before := Exec(ops[..|ops| - 1], lim);
      var op := ops[|ops| - 1];
      var next := Apply(before.entries, op, lim);
      Run(next.entries, before.history + [Event(op, next.outcome)])
  }

  /** A get hit or a stored put of `k`. */
  predicate Touches(e: Event, k: Key) {
    || (e.op.OpGet? && e.outcome.Hit? && e.op.key == k)
    || (e.op.OpPut? && e.outcome.Stored? && e.op.key == k)
  }

  predicate StoresKey(e: Event, k: Key) { e.op.OpPut? && e.outcome.Stored? && e.op.key == k }

  predicate RemovesKey(e: Event, k: Key) {
    || (e.op.OpErase? && e.outcome.Erased? && e.op.key == k)
    || e.op.OpClear?
  }

  predicate EvictsKey(e: Event, k: Key) { e.op.OpPut? && e.outcome.Stored? && HasKey(e.outcome.evicted, k) }

  /** When `k` was last touched; -1 if never. */
  function LastTouch(h: seq<Event>, k: Key): (t: int)
    ensures -1 <= t < |h|
  {
    if h == [] then -1
    else if Touches(h[|h| - 1], k) then |h| - 1
    else LastTouch(h[..|h| - 1], k)
  }

  /** The value of the latest stored put of `k` with no erase of `k` and no clear since. */
  function LatestPut(h: seq<Event>, k: Key): Option<Value> {
    if h == [] then None
    else
      var e := h[|h| - 1];
      if StoresKey(e, k) then Some(e.op.value)
      else if RemovesKey(e, k) then None
      else LatestPut(h[..|h| - 1], k)
  }

  /** Stored, and neither erased, cleared nor evicted since. */
  predicate Live(h: seq<Event>, k: Key) {
    h != [] &&
    var e := h[|h| - 1];
    StoresKey(e, k) || (!RemovesKey(e, k) && !EvictsKey(e, k) && Live(h[..|h| - 1], k))
  }

  ghost predicate InTouchOrder(es: seq<Entry>, h: seq<Event>) {
    forall i, j :: 0 <= i < j < |es| ==> LastTouch(h, es[i].key) > LastTouch(h, es[j].key)
  }

  ghost predicate HoldsLatest(es: seq<Entry>, h: seq<Event>) {
    forall e :: e in es ==> LastTouch(h, e.key) >= 0 && LatestPut(h, e.key) == Some(e.value)
  }

  ghost predicate HoldsLive(es: seq<Entry>, h: seq<Event>) {
    forall k :: Live(h, k) <==> HasKey(es, k)
  }

  ghost predicate Refines(es: seq<Entry>, h: seq<Event>) {
    DistinctKeys(es) && InTouchOrder(es, h) && HoldsLatest(es, h) && HoldsLive(es, h)
  }

  lemma Extend(h: seq<Event>, e: Event, k: Key)
    ensures LastTouch(h + [e], k) == if Touches(e, k) then |h| else LastTouch(h, k)
    ensures LatestPut(h + [e], k)
         == if StoresKey(e, k) then Some(e.op.value) else if RemovesKey(e, k) then None else LatestPut(h, k)
    ensures Live(h + [e], k) == (StoresKey(e, k) || (!RemovesKey(e, k) && !EvictsKey(e, k) && Live(h, k)))
  {
    assert (h + [e])[..|h|] == h;
  }

  lemma OrderUntouched(es: seq<Entry>, h: seq<Event>, e: Event)
    requires InTouchOrder(es, h)
    requires forall i :: 0 <= i < |es| ==> !Touches(e, es[i].key)
    ensures InTouchOrder(es, h + [e])
  {
    forall i, j | 0 <= i < j < |es| ensures LastTouch(h + [e], es[i].key) > LastTouch(h + [e], es[j].key) {
      Extend(h, e, es[i].key);
      Extend(h, e, es[j].key);
    }
  }

  lemma OrderOfDrop(es: seq<Entry>, k: Key, h: seq<Event>)
    requires DistinctKeys(es) && InTouchOrder(es, h)
    ensures InTouchOrder(Drop(es, k), h)
  {
    if HasKey(es, k) {
      var i := DropIndex(es, k);
      var r := Drop(es, k);
      forall j | 0 <= j < |r| ensures r[j] == es[if j < i then j else j + 1] { }
    } else {
      DropMissing(es, k);
    }
  }

  /** Putting a just-touched entry in front keeps the list in touch order. */
  lemma TouchedInFront(part: seq<Entry>, front: Entry, h: seq<Event>, e: Event)
    requires InTouchOrder(part, h) && !HasKey(part, front.key)
    requires forall k :: Touches(e, k) <==> k == front.key
    ensures InTouchOrder([front] + part, h + [e])
  {
    OrderUntouched(part, h, e);
    Extend(h, e, front.key);
    forall j | 0 <= j < |part| ensures LastTouch(h + [e], part[j].key) < |h| {
      Extend(h, e, part[j].key);
    }
  }

  lemma StepKeepsOrder(es: seq<Entry>, h: seq<Event>, op: Op, lim: CacheLimits)
    requires Refines(es, h)
    ensures var n := Apply(es, op, lim); InTouchOrder(n.entries, h + [Event(op, n.outcome)])
  {
    var n := Apply(es, op, lim);
    var e := Event(op, n.outcome);
    if !op.OpClear? {
      var others := Drop(es, op.key);
      DropFacts(es, op.key);
      OrderOfDrop(es, op.key, h);
      if n.outcome.Hit? {
        TouchedInFront(others, Entry(op.key, n.outcome.value), h, e);
      } else if n.outcome.Stored? {
        MakeRoomPrefix(others, EntryCost(op.key, op.value), lim);
        var kept := MakeRoom(others, EntryCost(op.key, op.value), lim);
        assert forall j :: 0 <= j < |kept| ==> kept[j] == others[j];
        TouchedInFront(kept, Entry(op.key, op.value), h, e);
      } else {
        OrderUntouched(n.entries, h, e);
      }
    }
  }

  /** A just-touched entry in front of entries the event does not concern. */
  lemma LatestInFront(part: seq<Entry>, front: Entry, h: seq<Event>, e: Event)
    requires HoldsLatest(part, h) && !HasKey(part, front.key)
    requires forall k :: Touches(e, k) <==> k == front.key
    requires forall k :: k != front.key ==> !StoresKey(e, k) && !RemovesKey(e, k)
    requires LatestPut(h + [e], front.key) == Some(front.value)
    ensures HoldsLatest([front] + part, h + [e])
  {
    Extend(h, e, front.key);
    forall x | x in [front] + part
      ensures LastTouch(h + [e], x.key) >= 0 && LatestPut(h + [e], x.key) == Some(x.value)
    {
      if x != front {
        var i :| 0 <= i < |part| && part[i] == x;
        assert x.key != front.key;
        Extend(h, e, x.key);
      }
    }
  }

  lemma StepKeepsLatest(es: seq<Entry>, h: seq<Event>, op: Op, lim: CacheLimits)
    requires Refines(es, h)
    ensures var n := Apply(es, op, lim); HoldsLatest(n.entries, h + [Event(op, n.outcome)])
  {
    var n := Apply(es, op, lim);
    var e := Event(op, n.outcome);
    if !op.OpClear? {
      var others := Drop(es, op.key);
      DropFacts(es, op.key);
      Extend(h, e, op.key);
      hide MakeRoom, LastTouch, LatestPut, HoldsLive, InTouchOrder;
      if n.outcome.Hit? {
        LatestInFront(others, Entry(op.key, n.outcome.value), h, e);
      } else if n.outcome.Stored? {
        var kept := MakeRoom(others, EntryCost(op.key, op.value), lim);
        MakeRoomPrefix(others, EntryCost(op.key, op.value), lim);
        assert forall i :: 0 <= i < |kept| ==> kept[i] == others[i];
        LatestInFront(kept, Entry(op.key, op.value), h, e);
      } else {
        LatestUntouched(n.entries, h, e);
      }
    }
  }

  lemma LatestUntouched(es: seq<Entry>, h: seq<Event>, e: Event)
    requires HoldsLatest(es, h)
    requires forall x :: x in es ==> !Touches(e, x.key) && !StoresKey(e, x.key) && !RemovesKey(e, x.key)
    ensures HoldsLatest(es, h + [e])
  {
    forall x | x in es ensures LastTouch(h + [e], x.key) >= 0 && LatestPut(h + [e], x.key) == Some(x.value) {
      Extend(h, e, x.key);
    }
  }

  lemma StepKeepsLive(es: seq<Entry>, h: seq<Event>, op: Op, lim: CacheLimits)
    requires Refines(es, h)
    ensures var n := Apply(es, op, lim); HoldsLive(n.entries, h + [Event(op, n.outcome)])
  {
    var n := Apply(es, op, lim);
    var e := Event(op, n.outcome);
    if !op.OpClear? { DropFacts(es, op.key); }
    hide MakeRoom, LastTouch, LatestPut, Live, HoldsLatest, InTouchOrder;
    forall k ensures Live(h + [e], k) <==> HasKey(n.entries, k) {
      Extend(h, e, k);
      if n.outcome.Hit? {
        KeysOfCons(n.entries[0], Drop(es, op.key), k);
      } else if n.outcome.Stored? {
        var others := Drop(es, op.key);
        var kept := MakeRoom(others, EntryCost(op.key, op.value), lim);
        MakeRoomPrefix(others, EntryCost(op.key, op.value), lim);
        KeysOfCons(n.entries[0], kept, k);
        KeysOfSplit(others, |kept|, k);
        assert others[..|kept|] == kept;
      }
    }
  }

  lemma KeysOfCons(e: Entry, es: seq<Entry>, k: Key)
    ensures HasKey([e] + es, k) <==> e.key == k || HasKey(es, k)
  {
    if e.key == k { assert ([e] + es)[0].key == k; }
    if HasKey(es, k) { var i :| 0 <= i < |es| && es[i].key == k; assert ([e] + es)[i + 1].key == k; }
  }

  lemma KeysOfSplit(es: seq<Entry>, n: nat, k: Key)
    requires DistinctKeys(es) && n <= |es|
    ensures HasKey(es[..n], k) <==> HasKey(es, k) && !HasKey(es[n..], k)
  {
    if HasKey(es[n..], k) { var i :| 0 <= i < |es| - n && es[n..][i].key == k; assert es[n + i].key == k; }
    if HasKey(es, k) {
      var i :| 0 <= i < |es| && es[i].key == k;
      if i < n { assert es[..n][i].key == k; } else { assert es[n..][i - n].key == k; }
    }
  }

  /** For every trace: the list is exactly the live keys, most recently touched first, each holding the
      value of its latest stored put; and both limits hold. */
  lemma {:induction false} RecencyRefinesHistory(ops: seq<Op>, lim: CacheLimits)
    ensures Refines(Exec(ops, lim).entries, Exec(ops, lim).history)
    ensures WellFormed(Exec(ops, lim).entries, lim)
  {
    if ops != [] {
      var before := Exec(ops[..|ops| - 1], lim);
      var op := ops[|ops| - 1];
      RecencyRefinesHistory(ops[..|ops| - 1], lim);
      ApplyKeepsBounds(before.entries, op, lim);
      StepKeepsOrder(before.entries, before.history, op, lim);
      StepKeepsLatest(before.entries, before.history, op, lim);
      StepKeepsLive(before.entries, before.history, op, lim);
    }
  }

  /** A get after any trace hits exactly the live keys, and returns the latest put. */
  lemma GetReturnsLatestPut(ops: seq<Op>, k: Key, lim: CacheLimits)
    ensures var run := Exec(ops, lim);
      match Apply(run.entries, OpGet(k), lim).outcome
      case Hit(v) => Live(run.history, k) && LatestPut(run.history, k) == Some(v)
      case Miss => !Live(run.history, k)
      case _ => false
  {
    RecencyRefinesHistory(ops, lim);
    var run := Exec(ops, lim);
    if HasKey(run.entries, k) { assert Entry(k, Lookup(run.entries, k).value) in run.entries; }
  }

  /** What became of every stored put. */
  datatype Tally = Tally(stored: nat, replaced: nat, erased: nat, evicted: nat, cleared: nat)

  function Count(h: seq<Event>): Tally {
    if h == [] then Tally(0, 0, 0, 0, 0)
    else
      var t := Count(h[..|h| - 1]);
      match h[|h| - 1].outcome
      case Stored(r, ev) =>
        t.(stored := t.stored + 1, replaced := t.replaced + (if r then 1 else 0), evicted := t.evicted + |ev|)
      case Erased => t.(erased := t.erased + 1)
      case Cleared(n) => t.(cleared := t.cleared + n)
      case _ => t
  }

  /** Nothing stored is ever lost without being counted, so evictions never exceed stored puts. */
  lemma {:induction false} PutsAreConserved(ops: seq<Op>, lim: CacheLimits)
    ensures var run := Exec(ops, lim); var t := Count(run.history);
      t.stored == |run.entries| + t.replaced + t.erased + t.evicted + t.cleared
  {
    if ops != [] {
      var before := Exec(ops[..|ops| - 1], lim);
      var op := ops[|ops| - 1];
      PutsAreConserved(ops[..|ops| - 1], lim);
      RecencyRefinesHistory(ops[..|ops| - 1], lim);
      StepConserves(before.entries, op, lim);
      var e := Event(op, Apply(before.entries, op, lim).outcome);
      assert (before.history + [e])[..|before.history|] == before.history;
    }
  }

  lemma StepConserves(es: seq<Entry>, op: Op, lim: CacheLimits)
    requires DistinctKeys(es)
    ensures var n := Apply(es, op, lim);
      match n.outcome
      case Stored(replaced, evicted) => |es| + 1 == |n.entries| + (if replaced then 1 else 0) + |evicted|
      case Erased => |es| == |n.entries| + 1
      case Cleared(k) => |es| == k && n.entries == []
      case _ => |n.entries| == |es|
  {
    if !op.OpClear? {
      DropFacts(es, op.key);
      if op.OpPut? { MakeRoomPrefix(Drop(es, op.key), EntryCost(op.key, op.value), lim); }
    }
  }
}
