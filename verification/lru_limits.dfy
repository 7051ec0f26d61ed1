/** For which limits is a cache with fewer entries always included in one with more? The exact answer. */
module LruLimits {
  import opened Protocol
  import opened LruSpec
  import opened LruHistory
  import opened LruInclusion
  import opened LruLeast

  /** After `ops`, a get that hits in the smaller cache is the same hit in the larger. */
  predicate HitIncluded(ops: seq<Op>, k: Key, small: CacheLimits, large: CacheLimits) {
    var a := Apply(Exec(ops, small).entries, OpGet(k), small).outcome;
    a.Hit? ==> Apply(Exec(ops, large).entries, OpGet(k), large).outcome == a
  }

  ghost predicate AlwaysIncluded(small: CacheLimits, large: CacheLimits) {
    forall ops, k :: HitIncluded(ops, k, small, large)
  }

  /** Inclusion holds for every trace exactly when the smaller cache holds at most one entry, or both hold equally
      many, or the byte limit is below the least cost of one entry more than the smaller cache may hold. */
  lemma InclusionExactly(c: size, c': size, bytes: size, maxValue: size)
    requires c <= c'
    ensures AlwaysIncluded(CacheLimits(c, bytes, maxValue), CacheLimits(c', bytes, maxValue))
       <==> c <= 1 || c == c' || bytes < LeastCost(c + 1)
  {
    hide LeastCost;
    RoomForExactly(c + 1, bytes);
    var small, large := CacheLimits(c, bytes, maxValue), CacheLimits(c', bytes, maxValue);
    if c <= 1 {
      forall ops, k ensures HitIncluded(ops, k, small, large) { OneEntryIncluded(ops, k, small, large); }
    } else if c == c' {
      assert small == large;
    } else if RoomFor(c + 1, bytes) {
      var es :| Holds(es, c + 1, bytes);
      var es' := DearestFirst(es, bytes);
      InclusionFails(es', small, large);
    } else {
      forall ops, k ensures HitIncluded(ops, k, small, large) { EntryLimitsIdle(ops, small, large); }
    }
  }

  // ----- At most one entry -----

  lemma {:induction false} OneEntryIn(ops: seq<Op>, small: CacheLimits, large: CacheLimits)
    requires small.maxEntries <= 1 && small.maxEntries <= large.maxEntries
    requires small.maxBytes == large.maxBytes && small.maxValue == large.maxValue
    ensures forall e :: e in Exec(ops, small).entries ==> e in Exec(ops, large).entries
  {
    if ops != [] {
      var before, op := ops[..|ops| - 1], ops[|ops| - 1];
      OneEntryIn(before, small, large);
      RecencyRefinesHistory(before, small);
      RecencyRefinesHistory(before, large);
      OneEntryStep(Exec(before, small).entries, Exec(before, large).entries, op, small, large);
    }
  }

  lemma OneEntryStep(a: seq<Entry>, b: seq<Entry>, op: Op, small: CacheLimits, large: CacheLimits)
    requires small.maxEntries <= 1 && small.maxEntries <= large.maxEntries
    requires small.maxBytes == large.maxBytes && small.maxValue == large.maxValue
    requires DistinctKeys(b) && |a| <= small.maxEntries && forall e :: e in a ==> e in b
    ensures forall e :: e in Apply(a, op, small).entries ==> e in Apply(b, op, large).entries
  {
    if a == [] {
      if op.OpPut? { assert MakeRoom([], EntryCost(op.key, op.value), small) == []; }
    } else {
      assert a == [a[0]] && a[0] in b;
      var j :| 0 <= j < |b| && b[j] == a[0];
      if !op.OpClear? { OneEntryOp(a, b, j, op, small, large); }
    }
  }

  lemma OneEntryOp(a: seq<Entry>, b: seq<Entry>, j: nat, op: Op, small: CacheLimits, large: CacheLimits)
    requires small.maxEntries == 1 <= large.maxEntries && !op.OpClear?
    requires small.maxBytes == large.maxBytes && small.maxValue == large.maxValue
    requires DistinctKeys(b) && |a| == 1 && j < |b| && b[j] == a[0]
    ensures forall e :: e in Apply(a, op, small).entries ==> e in Apply(b, op, large).entries
  {
    var k := op.key;
    LookupAt(b, j);
    DropKeeps(b, j, k);
    assert a[1..] == [];
    assert Drop(a, k) == if a[0].key == k then [] else a;
    assert HasKey(a, k) <==> a[0].key == k;
    if op.OpPut? && PutOutcome(k, op.value, small).None? {
      assert Drop(a, k)[..|Drop(a, k)| - (if Drop(a, k) == [] then 0 else 1)] == [];
      assert MakeRoom([], EntryCost(k, op.value), small) == [];
      assert MakeRoom(Drop(a, k), EntryCost(k, op.value), small) == [];
    }
  }

  /** Dropping another key keeps an entry. */
  lemma DropKeeps(b: seq<Entry>, j: nat, k: Key)
    requires DistinctKeys(b) && j < |b|
    ensures b[j].key != k ==> b[j] in Drop(b, k)
  {
    if HasKey(b, k) {
      var i := DropIndex(b, k);
      if j < i { assert Drop(b, k)[j] == b[j]; }
      if j > i { assert Drop(b, k)[j - 1] == b[j]; }
    } else {
      DropMissing(b, k);
    }
  }

  lemma OneEntryIncluded(ops: seq<Op>, k: Key, small: CacheLimits, large: CacheLimits)
    requires small.maxEntries <= 1 && small.maxEntries <= large.maxEntries
    requires small.maxBytes == large.maxBytes && small.maxValue == large.maxValue
    ensures HitIncluded(ops, k, small, large)
  {
    OneEntryIn(ops, small, large);
    RecencyRefinesHistory(ops, large);
    hide Exec;
    var a, b := Exec(ops, small).entries, Exec(ops, large).entries;
    if HasKey(a, k) {
      assert Entry(k, Lookup(a, k).value) in b;
      var j :| 0 <= j < |b| && b[j] == Entry(k, Lookup(a, k).value);
      LookupAt(b, j);
    }
  }

  // ----- No room for one entry more -----

  /** The entries with their values taken away. */
  function Stripped(es: seq<Entry>): seq<Entry> { seq(|es|, i requires 0 <= i < |es| => Entry(es[i].key, [])) }

  lemma {:induction false} StrippedCost(es: seq<Entry>)
    ensures TotalCost(Stripped(es)) <= TotalCost(es)
  {
    if es != [] {
      StrippedCost(es[..|es| - 1]);
      assert Stripped(es)[..|es| - 1] == Stripped(es[..|es| - 1]);
    }
  }

  lemma StrippedBare(es: seq<Entry>)
    requires DistinctKeys(es)
    ensures |Stripped(es)| == |es| && Bare(Stripped(es))
  {
  }

  /** What fits in the bytes is never more than they have room for. */
  lemma FittingIsFew(es: seq<Entry>, n: nat, bytes: nat)
    requires DistinctKeys(es) && TotalCost(es) <= bytes && !RoomFor(n, bytes)
    ensures |es| < n
  {
    hide TotalCost, RoomFor;
    if |es| >= n { FittingIsRoom(es, n, bytes); }
  }

  lemma FittingIsRoom(es: seq<Entry>, n: nat, bytes: nat)
    requires DistinctKeys(es) && TotalCost(es) <= bytes && |es| >= n
    ensures RoomFor(n, bytes)
  {
    CostOfPrefix(es, n);
    StrippedCost(es[..n]);
    StrippedBare(es[..n]);
    hide TotalCost, Stripped, Bare, DistinctKeys;
    assert Holds(Stripped(es[..n]), n, bytes);
  }

  lemma {:induction false} SameRoom(es: seq<Entry>, e: Entry, small: CacheLimits, large: CacheLimits)
    requires DistinctKeys(es) && !HasKey(es, e.key) && small.maxEntries <= large.maxEntries
    requires small.maxBytes == large.maxBytes && !RoomFor(small.maxEntries + 1, small.maxBytes)
    ensures MakeRoom(es, Cost(e), small) == MakeRoom(es, Cost(e), large)
    decreases |es|
  {
    if TotalCost(es) + Cost(e) <= small.maxBytes {
      ConsFacts(e, es);
      FittingIsFew([e] + es, small.maxEntries + 1, small.maxBytes);
    }
    if es != [] && !Fits(es, Cost(e), small) { SameRoom(es[..|es| - 1], e, small, large); }
  }

  lemma {:induction false} EntryLimitsIdle(ops: seq<Op>, small: CacheLimits, large: CacheLimits)
    requires 0 < small.maxEntries <= large.maxEntries && small.maxValue == large.maxValue
    requires small.maxBytes == large.maxBytes && !RoomFor(small.maxEntries + 1, small.maxBytes)
    ensures Exec(ops, small).entries == Exec(ops, large).entries
  {
    if ops != [] {
      var before, op := ops[..|ops| - 1], ops[|ops| - 1];
      EntryLimitsIdle(before, small, large);
      RecencyRefinesHistory(before, small);
      var es := Exec(before, small).entries;
      if op.OpPut? {
        DropFacts(es, op.key);
        SameRoom(Drop(es, op.key), Entry(op.key, op.value), small, large);
      }
    }
  }

  // ----- Room for one entry more -----

  ghost predicate Dearest(es: seq<Entry>) { es != [] && forall i :: 0 <= i < |es| ==> Cost(es[i]) <= Cost(es[0]) }

  lemma {:induction false} DearestIndex(es: seq<Entry>) returns (j: nat)
    requires es != []
    ensures j < |es| && forall i :: 0 <= i < |es| ==> Cost(es[i]) <= Cost(es[j])
  {
    j := 0;
    if |es| > 1 {
      var front := es[..|es| - 1];
      j := DearestIndex(front);
      assert forall i :: 0 <= i < |front| ==> front[i] == es[i];
      if Cost(es[j]) < Cost(es[|es| - 1]) { j := |es| - 1; }
    }
  }

  lemma DearestFirst(es: seq<Entry>, bytes: nat) returns (r: seq<Entry>)
    requires es != [] && Holds(es, |es|, bytes)
    ensures Holds(r, |es|, bytes) && Dearest(r)
  {
    var j := DearestIndex(es);
    var others := es[..j] + es[j + 1..];
    r := [es[j]] + others;
    forall i | 0 <= i < |r| ensures r[i] == es[if i == 0 then j else if i <= j then i - 1 else i] { }
    CostWithout(es, j);
    CostSplit([es[j]], others);
    CostOfOne(es[j]);
  }

  /** The entries `lo` to `n`, latest first. */
  function Recent(es: seq<Entry>, lo: nat, n: nat): (r: seq<Entry>)
    requires lo <= n <= |es|
    ensures |r| == n - lo && forall i :: 0 <= i < n - lo ==> r[i] == es[n - 1 - i]
  {
    seq(n - lo, i requires 0 <= i < n - lo => es[n - 1 - i])
  }

  lemma PartCost(es: seq<Entry>, lo: nat, n: nat)
    requires lo <= n <= |es|
    ensures TotalCost(es[lo..n]) <= TotalCost(es)
  {
    hide TotalCost, TotalPayload;
    CostOfPrefix(es, n);
    assert es[..n] == es[..n][..lo] + es[lo..n];
    CostSplit(es[..n][..lo], es[lo..n]);
  }

  lemma {:induction false} RecentCost(es: seq<Entry>, lo: nat, n: nat)
    requires lo <= n <= |es|
    ensures TotalCost(Recent(es, lo, n)) == TotalCost(es[lo..n])
    decreases n - lo
  {
    hide TotalCost, TotalPayload;
    if lo < n {
      RecentCost(es, lo + 1, n);
      assert Recent(es, lo, n) == Recent(es, lo + 1, n) + [es[lo]];
      CostSplit(Recent(es, lo + 1, n), [es[lo]]);
      assert es[lo..n] == [es[lo]] + es[lo + 1..n];
      CostSplit([es[lo]], es[lo + 1..n]);
    } else {
      assert Recent(es, lo, n) == es[lo..n];
    }
  }

  function Puts(es: seq<Entry>): seq<Op> { seq(|es|, i requires 0 <= i < |es| => OpPut(es[i].key, es[i].value)) }

  /** Putting one more entry of the family: it goes in front, and the oldest goes only if the entry limit says so. */
  lemma PutNext(es: seq<Entry>, lo: nat, n: nat, lim: CacheLimits)
    requires Bare(es) && lo <= n < |es| && TotalCost(es) <= lim.maxBytes
    requires 0 < lim.maxEntries && n - lo <= lim.maxEntries
    ensures var lo' := if n - lo < lim.maxEntries then lo else lo + 1;
      Apply(Recent(es, lo, n), OpPut(es[n].key, es[n].value), lim).entries == Recent(es, lo', n + 1)
  {
    var r, e := Recent(es, lo, n), es[n];
    NextFits(es, lo, n, lim);
    forall i | 0 <= i < |r| ensures r[i].key != e.key { assert r[i] == es[n - 1 - i]; }
    PutFresh(r, e, lim);
    hide Bare, DistinctKeys, TotalCost, Recent, PutOutcome, Apply;
    if n - lo == lim.maxEntries {
      NextFits(es, lo + 1, n, lim);
      assert r[..|r| - 1] == Recent(es, lo + 1, n);
    }
  }

  lemma NextFits(es: seq<Entry>, lo: nat, n: nat, lim: CacheLimits)
    requires lo <= n < |es| && TotalCost(es) <= lim.maxBytes
    ensures TotalCost(Recent(es, lo, n)) + Cost(es[n]) <= lim.maxBytes
    ensures [es[n]] + Recent(es, lo, n) == Recent(es, lo, n + 1)
  {
    hide TotalCost, TotalPayload;
    RecentCost(es, lo, n + 1);
    PartCost(es, lo, n + 1);
    assert Recent(es, lo, n + 1) == [es[n]] + Recent(es, lo, n);
    CostSplit([es[n]], Recent(es, lo, n));
    CostOfOne(es[n]);
  }

  lemma {:induction false} AfterPuts(es: seq<Entry>, n: nat, lim: CacheLimits)
    requires Bare(es) && n <= |es| && TotalCost(es) <= lim.maxBytes && 0 < lim.maxEntries && |es| <= lim.maxEntries + 1
    ensures Exec(Puts(es)[..n], lim).entries == Recent(es, if n <= lim.maxEntries then 0 else 1, n)
  {
    if n > 0 {
      AfterPuts(es, n - 1, lim);
      ExecStep(Puts(es), n - 1, lim);
      PutNext(es, 0, n - 1, lim);
    }
  }

  /** The entry that takes exactly the bytes left beside all of the family but its first two. */
  function Filler(es: seq<Entry>, bytes: nat): Entry
    requires |es| >= 2 && TotalCost(es[2..]) + ENTRY_OVERHEAD <= bytes
  {
    Entry(seq(bytes - TotalCost(es[2..]) - ENTRY_OVERHEAD, _ => 0), [])
  }

  lemma FillerFacts(es: seq<Entry>, bytes: nat)
    requires |es| >= 3 && Dearest(es) && Holds(es, |es|, bytes)
    ensures TotalCost(es[2..]) + ENTRY_OVERHEAD <= bytes
    ensures var d := Filler(es, bytes);
      Cost(d) + TotalCost(es[2..]) == bytes && forall i :: 0 <= i < |es| ==> es[i].key != d.key
  {
    assert es == [es[0], es[1]] + es[2..];
    CostSplit([es[0], es[1]], es[2..]);
    CostOfTwo(es[0], es[1]);
    var d := Filler(es, bytes);
    forall i | 0 <= i < |es| ensures es[i].key != d.key { assert |es[i].key| < |d.key|; }
  }

  /** Put the whole family, get the first again, then put the filler. */
  function Trace(es: seq<Entry>, d: Entry): seq<Op>
    requires es != []
  {
    Puts(es) + [OpGet(es[0].key), OpPut(d.key, d.value)]
  }

  lemma TraceParts(es: seq<Entry>, d: Entry, lim: CacheLimits)
    requires es != []
    ensures var n := |es|; var t := Trace(es, d); var s := Exec(Puts(es), lim).entries;
      && Exec(t, lim).entries == Apply(Apply(s, t[n], lim).entries, t[n + 1], lim).entries
      && t[n] == OpGet(es[0].key) && t[n + 1] == OpPut(d.key, d.value)
  {
    var n, t := |es|, Trace(es, d);
    assert t[..n] == Puts(es) && t[..n + 2] == t;
    ExecStep(t, n, lim);
    ExecStep(t, n + 1, lim);
  }

  lemma AfterTrace(es: seq<Entry>, d: Entry, lim: CacheLimits)
    requires es != [] && Bare(es) && TotalCost(es) <= lim.maxBytes && 0 < lim.maxEntries && |es| <= lim.maxEntries + 1
    ensures var held := Recent(es, if |es| <= lim.maxEntries then 0 else 1, |es|);
      Exec(Trace(es, d), lim).entries
        == Apply(Apply(held, OpGet(es[0].key), lim).entries, OpPut(d.key, d.value), lim).entries
  {
    AfterPuts(es, |es|, lim);
    assert Puts(es)[..|es|] == Puts(es);
    TraceParts(es, d, lim);
    hide Exec, Apply, TotalCost, Recent;
  }

  /** In the smaller cache the family's third entry survives. */
  lemma SmallKeepsThird(es: seq<Entry>, d: Entry, lim: CacheLimits)
    requires |es| >= 3 && |es| == lim.maxEntries + 1 && Bare(es) && TotalCost(es) <= lim.maxBytes
    requires d.value == [] && Cost(d) + TotalCost(es[2..]) == lim.maxBytes
    requires forall i :: 0 <= i < |es| ==> es[i].key != d.key
    ensures es[2] in Exec(Trace(es, d), lim).entries
  {
    var n := |es|;
    AfterTrace(es, d, lim);
    FirstNotRecent(es);
    hide Exec, Bare, DistinctKeys, TotalCost, MakeRoom;
    var r := Recent(es, 1, n);
    assert !HasKey(r, d.key);
    PutFresh(r, d, lim);
    ThirdFits(es, Cost(d), lim);
    var kept := MakeRoom(r, Cost(d), lim);
    assert ([d] + kept)[n - 2] == kept[n - 3] == es[2];
  }

  lemma ThirdFits(es: seq<Entry>, cost: nat, lim: CacheLimits)
    requires |es| >= 3 && |es| == lim.maxEntries + 1 && cost + TotalCost(es[2..]) == lim.maxBytes
    ensures var kept := MakeRoom(Recent(es, 1, |es|), cost, lim); |kept| > |es| - 3 && kept[|es| - 3] == es[2]
  {
    var n := |es|;
    var r := Recent(es, 1, n);
    EvictionIsMinimal(r, cost, lim);
    RecentCost(es, 2, n);
    assert r[..n - 2] == Recent(es, 2, n) && es[2..n] == es[2..];
    hide MakeRoom, TotalCost;
    assert Fits(r[..n - 2], cost, lim);
    assert r[n - 3] == es[2];
  }

  lemma FirstNotRecent(es: seq<Entry>)
    requires es != [] && DistinctKeys(es)
    ensures !HasKey(Recent(es, 1, |es|), es[0].key)
  {
    var r := Recent(es, 1, |es|);
    forall i | 0 <= i < |r| ensures r[i].key != es[0].key { assert r[i] == es[|es| - 1 - i]; }
  }

  /** The larger cache before and after the filler. */
  lemma LargeAfter(es: seq<Entry>, d: Entry, lim: CacheLimits)
    requires |es| >= 3 && |es| <= lim.maxEntries && Bare(es) && TotalCost(es) <= lim.maxBytes
    requires d.value == [] && Cost(d) <= lim.maxBytes && forall i :: 0 <= i < |es| ==> es[i].key != d.key
    ensures Exec(Trace(es, d), lim).entries == [d] + MakeRoom([es[0]] + Recent(es, 1, |es|), Cost(d), lim)
  {
    AfterTrace(es, d, lim);
    MovedToFront(es, lim);
    hide Exec, MakeRoom, TotalCost, Trace, Bare, Apply;
    var m := [es[0]] + Recent(es, 1, |es|);
    forall i | 0 <= i < |m| ensures m[i].key != d.key { assert m[i] == if i == 0 then es[0] else es[|es| - i]; }
    PutFresh(m, d, lim);
  }

  /** In the larger cache the get has moved the first entry in front, and its bytes cost the third its place. */
  lemma LargeEvictsThird(es: seq<Entry>, d: Entry, lim: CacheLimits)
    requires |es| >= 3 && |es| <= lim.maxEntries && Bare(es) && TotalCost(es) <= lim.maxBytes
    requires d.value == [] && Cost(d) + TotalCost(es[2..]) == lim.maxBytes
    requires forall i :: 0 <= i < |es| ==> es[i].key != d.key
    ensures !HasKey(Exec(Trace(es, d), lim).entries, es[2].key)
  {
    LargeAfter(es, d, lim);
    hide Exec, Trace, TotalCost, MakeRoom, Fits;
    var m := [es[0]] + Recent(es, 1, |es|);
    EvictionIsMinimal(m, Cost(d), lim);
    var kept := MakeRoom(m, Cost(d), lim);
    ThirdIsTooMuch(es, m, kept, Cost(d), lim);
    hide Recent, DistinctKeys;
    ThirdNotKept(es, m, kept, d);
  }

  lemma ThirdNotKept(es: seq<Entry>, m: seq<Entry>, kept: seq<Entry>, d: Entry)
    requires |m| == |es| >= 3 && DistinctKeys(es) && d.key != es[2].key && kept <= m && |kept| < |es| - 1
    requires m == [es[0]] + Recent(es, 1, |es|)
    ensures !HasKey([d] + kept, es[2].key)
  {
    var r := [d] + kept;
    forall i | 0 <= i < |r| ensures r[i].key != es[2].key {
      if i > 0 { assert r[i] == m[i - 1] == if i == 1 then es[0] else es[|es| - i + 1]; }
    }
  }

  lemma MovedToFront(es: seq<Entry>, lim: CacheLimits)
    requires es != [] && Bare(es)
    ensures Apply(Recent(es, 0, |es|), OpGet(es[0].key), lim).entries == [es[0]] + Recent(es, 1, |es|)
  {
    var n := |es|;
    var r := Recent(es, 0, n);
    forall i, j | 0 <= i < j < n ensures r[i].key != r[j].key { assert r[i] == es[n - 1 - i] && r[j] == es[n - 1 - j]; }
    assert r[n - 1] == es[0];
    LookupAt(r, n - 1);
    DropAt(r, n - 1);
    assert r[..n - 1] + r[n..] == Recent(es, 1, n);
  }

  lemma ThirdIsTooMuch(es: seq<Entry>, m: seq<Entry>, kept: seq<Entry>, cost: nat, lim: CacheLimits)
    requires |es| >= 3 && m == [es[0]] + Recent(es, 1, |es|) && kept <= m && Fits(kept, cost, lim)
    requires cost + TotalCost(es[2..]) == lim.maxBytes
    ensures |kept| < |es| - 1
  {
    var n := |es|;
    CostSplit([es[0]], Recent(es, 2, n));
    CostOfOne(es[0]);
    RecentCost(es, 2, n);
    assert es[2..n] == es[2..];
    assert m[..n - 1] == [es[0]] + Recent(es, 2, n);
    if |kept| >= n - 1 {
      assert kept[..n - 1] == m[..n - 1];
      CostOfPrefix(kept, n - 1);
    }
  }

  lemma InclusionFails(es: seq<Entry>, small: CacheLimits, large: CacheLimits)
    requires 2 <= small.maxEntries < large.maxEntries
    requires small.maxBytes == large.maxBytes && small.maxValue == large.maxValue
    requires Holds(es, small.maxEntries + 1, small.maxBytes) && Dearest(es)
    ensures !AlwaysIncluded(small, large)
  {
    FillerFacts(es, small.maxBytes);
    var d := Filler(es, small.maxBytes);
    SmallKeepsThird(es, d, small);
    LargeEvictsThird(es, d, large);
    hide Exec, Trace, Filler, Dearest;
    var t := Trace(es, d);
    var a := Exec(t, small).entries;
    var i :| 0 <= i < |a| && a[i] == es[2];
    assert HasKey(a, es[2].key);
    assert !HitIncluded(t, es[2].key, small, large);
  }
}
