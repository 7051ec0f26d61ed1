/** Two caches of different capacity run on the same trace: the stack inclusion property of exact LRU. */
module LruInclusion {
  import opened Protocol
  import opened LruSpec
  import opened LruHistory

  /** `a` is a subsequence of `b`. */
  predicate Subsequence(a: seq<Entry>, b: seq<Entry>) {
    if a == [] then true
    else if b == [] then false
    else if a[0] == b[0] then Subsequence(a[1..], b[1..])
    else Subsequence(a, b[1..])
  }

  /** The byte limit plays no part in this operation: only the entry limit decides. */
  predicate ByteLimitIdle(es: seq<Entry>, op: Op, lim: CacheLimits) {
    op.OpPut? && |op.value| <= lim.maxValue ==>
      TotalCost(Trim(Drop(es, op.key), lim.maxEntries)) + EntryCost(op.key, op.value) <= lim.maxBytes
  }

  /** ... nor in any operation of the trace. */
  predicate NeverBinds(ops: seq<Op>, lim: CacheLimits) {
    ops == [] || (NeverBinds(ops[..|ops| - 1], lim)
                  && ByteLimitIdle(Exec(ops[..|ops| - 1], lim).entries, ops[|ops| - 1], lim))
  }

  /** The invariant that makes inclusion inductive: the size gap never exceeds the capacity gap. */
  ghost predicate Included(small: seq<Entry>, large: seq<Entry>, c: nat, c': nat) {
    && Subsequence(small, large)
    && DistinctKeys(small) && DistinctKeys(large)
    && |small| <= c && |large| <= c'
    && |large| - |small| <= c' - c
  }

  lemma {:induction false} SubsequenceFacts(a: seq<Entry>, b: seq<Entry>)
    requires Subsequence(a, b)
    ensures |a| <= |b|
    ensures forall e :: e in a ==> e in b
    decreases |b|
  {
    if a != [] {
      if a[0] == b[0] {
        SubsequenceFacts(a[1..], b[1..]);
        assert a == [a[0]] + a[1..];
      } else {
        SubsequenceFacts(a, b[1..]);
      }
    }
  }

  lemma {:induction false} DropLastOfSmall(a: seq<Entry>, b: seq<Entry>)
    requires Subsequence(a, b) && a != []
    ensures Subsequence(a[..|a| - 1], b)
    decreases |b|
  {
    var a' := a[..|a| - 1];
    if a[0] != b[0] {
      DropLastOfSmall(a, b[1..]);
    } else if |a| > 1 {
      DropLastOfSmall(a[1..], b[1..]);
      assert a'[1..] == a[1..][..|a| - 2];
    }
  }

  /** The large list may lose its last entry as long as the small one loses it too, if it has it. */
  lemma {:induction false} DropLastOfLarge(a: seq<Entry>, b: seq<Entry>)
    requires Subsequence(a, b) && b != []
    ensures b[|b| - 1] !in a ==> Subsequence(a, b[..|b| - 1])
    ensures a != [] ==> Subsequence(a[..|a| - 1], b[..|b| - 1])
    decreases |b|
  {
    var b' := b[..|b| - 1];
    if a != [] {
      if |b| > 1 {
        assert b'[1..] == b[1..][..|b| - 2];
        if a[0] == b[0] {
          DropLastOfLarge(a[1..], b[1..]);
          if |a| > 1 { assert a[..|a| - 1][1..] == a[1..][..|a| - 2]; }
        } else {
          DropLastOfLarge(a, b[1..]);
        }
      }
    }
  }

  lemma {:induction false} DropKeyOfBoth(a: seq<Entry>, b: seq<Entry>, k: Key)
    requires Subsequence(a, b) && DistinctKeys(b)
    ensures Subsequence(Drop(a, k), Drop(b, k))
    decreases |b|
  {
    if a != [] {
      SubsequenceFacts(a, b);
      if b[0].key == k {
        if a[0] != b[0] {
          SubsequenceFacts(a, b[1..]);
          forall i | 0 <= i < |a| ensures a[i].key != k { assert a[i] in b[1..]; }
          DropMissing(a, k);
        }
      } else if a[0] == b[0] {
        DropKeyOfBoth(a[1..], b[1..], k);
      } else {
        DropKeyOfBoth(a, b[1..], k);
        assert Drop(b, k)[1..] == Drop(b[1..], k);
        SubsequenceSkip(Drop(a, k), b[0], Drop(b[1..], k));
      }
    }
  }

  lemma {:induction false} SubsequenceSkip(a: seq<Entry>, e: Entry, b: seq<Entry>)
    requires Subsequence(a, b)
    ensures Subsequence(a, [e] + b)
    decreases |b|, 1
  {
    assert ([e] + b)[1..] == b;
    if a != [] && a[0] == e {
      TailOfSubsequence(a, b);
    }
  }

  lemma {:induction false} TailOfSubsequence(a: seq<Entry>, b: seq<Entry>)
    requires Subsequence(a, b) && a != []
    ensures Subsequence(a[1..], b)
    decreases |b|, 0
  {
    if a[0] == b[0] {
      if |a| > 1 { SubsequenceSkip(a[1..], b[0], b[1..]); assert [b[0]] + b[1..] == b; }
    } else {
      TailOfSubsequence(a, b[1..]);
      SubsequenceSkip(a[1..], b[0], b[1..]);
      assert [b[0]] + b[1..] == b;
    }
  }

  /** When the byte limit is idle, making room drops at most the last entry. */
  lemma IdleMakesTrim(es: seq<Entry>, cost: nat, lim: CacheLimits)
    requires |es| <= lim.maxEntries && TotalCost(Trim(es, lim.maxEntries)) + cost <= lim.maxBytes
    ensures MakeRoom(es, cost, lim) == Trim(es, lim.maxEntries)
  {
    if es != [] && !Fits(es, cost, lim) {
      var front := es[..|es| - 1];
      assert MakeRoom(es, cost, lim) == MakeRoom(front, cost, lim);
    }
  }

  /** Trimming both lists for one more entry keeps inclusion and the gap. */
  lemma TrimBoth(a: seq<Entry>, b: seq<Entry>, c: nat, c': nat)
    requires 0 < c <= c' && Included(a, b, c, c')
    ensures Subsequence(Trim(a, c), Trim(b, c'))
    ensures |Trim(b, c')| - |Trim(a, c)| <= c' - c
  {
    if |b| + 1 > c' {
      assert |a| + 1 > c;
      DropLastOfLarge(a, b);
    } else if |a| + 1 > c {
      DropLastOfSmall(a, b);
    }
  }

  lemma StepKeepsInclusion(a: seq<Entry>, b: seq<Entry>, op: Op, small: CacheLimits, large: CacheLimits)
    requires small.maxEntries <= large.maxEntries && small.maxValue == large.maxValue
    requires Included(a, b, small.maxEntries, large.maxEntries)
    requires WellFormed(a, small) && WellFormed(b, large)
    requires ByteLimitIdle(a, op, small) && ByteLimitIdle(b, op, large)
    ensures Included(Apply(a, op, small).entries, Apply(b, op, large).entries, small.maxEntries, large.maxEntries)
  {
    ApplyKeepsBounds(a, op, small);
    ApplyKeepsBounds(b, op, large);
    if !op.OpClear? {
      var k := op.key;
      DropFacts(a, k);
      DropFacts(b, k);
      DropKeyOfBoth(a, b, k);
      KeyIncluded(a, b, k);
      if op.OpPut? {
        PutKeepsInclusion(a, b, k, op.value, small, large);
      } else if op.OpGet? {
        if HasKey(a, k) {
          ConsBoth(Entry(k, Lookup(a, k).value), Drop(a, k), Drop(b, k));
        } else if HasKey(b, k) {
          DropMissing(a, k);
          SubsequenceSkip(a, Entry(k, Lookup(b, k).value), Drop(b, k));
        }
      } else if !HasKey(a, k) {
        DropMissing(a, k);
        if !HasKey(b, k) { DropMissing(b, k); }
      }
    }
  }

  lemma ConsBoth(e: Entry, a: seq<Entry>, b: seq<Entry>)
    requires Subsequence(a, b)
    ensures Subsequence([e] + a, [e] + b)
  {
    assert ([e] + a)[1..] == a && ([e] + b)[1..] == b;
  }

  lemma PutKeepsInclusion(a: seq<Entry>, b: seq<Entry>, k: Key, v: Value, small: CacheLimits, large: CacheLimits)
    requires small.maxEntries <= large.maxEntries && small.maxValue == large.maxValue
    requires Included(a, b, small.maxEntries, large.maxEntries)
    requires WellFormed(Apply(a, OpPut(k, v), small).entries, small)
    requires WellFormed(Apply(b, OpPut(k, v), large).entries, large)
    requires ByteLimitIdle(a, OpPut(k, v), small) && ByteLimitIdle(b, OpPut(k, v), large)
    ensures Included(Apply(a, OpPut(k, v), small).entries, Apply(b, OpPut(k, v), large).entries,
                     small.maxEntries, large.maxEntries)
  {
    var c, c' := small.maxEntries, large.maxEntries;
    if |v| <= small.maxValue && 0 < c {
      var a', b', cost := Drop(a, k), Drop(b, k), EntryCost(k, v);
      DropFacts(a, k);
      DropFacts(b, k);
      DropKeyOfBoth(a, b, k);
      KeyIncluded(a, b, k);
      IdleMakesTrim(a', cost, small);
      IdleMakesTrim(b', cost, large);
      if !HasKey(a, k) && HasKey(b, k) { TrimSmallOnly(a', b', c, c'); } else { TrimBoth(a', b', c, c'); }
      ConsBoth(Entry(k, v), Trim(a', c), Trim(b', c'));
    }
  }

  /** The put key was only in the large cache: the large cache has room, the small one may not. */
  lemma TrimSmallOnly(a: seq<Entry>, b: seq<Entry>, c: nat, c': nat)
    requires 0 < c <= c' && Subsequence(a, b) && |a| <= c && |b| < c' && |b| + 1 - |a| <= c' - c
    ensures Subsequence(Trim(a, c), Trim(b, c'))
    ensures |Trim(b, c')| - |Trim(a, c)| <= c' - c
  {
    if |a| + 1 > c { DropLastOfSmall(a, b); }
  }

  lemma KeyIncluded(a: seq<Entry>, b: seq<Entry>, k: Key)
    requires Subsequence(a, b) && DistinctKeys(b)
    ensures HasKey(a, k) ==> Lookup(b, k) == Lookup(a, k)
  {
    if HasKey(a, k) {
      SubsequenceFacts(a, b);
      var i :| 0 <= i < |b| && b[i] == Entry(k, Lookup(a, k).value);
      LookupAt(b, i);
    }
  }

  /** Stack inclusion, over every trace on which the byte limit never decides: the smaller cache is a
      subsequence of the larger, so every hit in the smaller is the same hit in the larger. */
  lemma {:induction false} StackInclusion(ops: seq<Op>, small: CacheLimits, large: CacheLimits)
    requires small.maxEntries <= large.maxEntries && small.maxValue == large.maxValue
    requires NeverBinds(ops, small) && NeverBinds(ops, large)
    ensures var a, b := Exec(ops, small).entries, Exec(ops, large).entries;
      && Subsequence(a, b)
      && |b| - |a| <= large.maxEntries - small.maxEntries
      && (forall k :: Apply(a, OpGet(k), small).outcome.Hit? ==>
                      Apply(b, OpGet(k), large).outcome == Apply(a, OpGet(k), small).outcome)
  {
    InclusionHolds(ops, small, large);
    var a, b := Exec(ops, small).entries, Exec(ops, large).entries;
    forall k | HasKey(a, k) ensures Lookup(b, k) == Lookup(a, k) { KeyIncluded(a, b, k); }
  }

  lemma {:induction false} InclusionHolds(ops: seq<Op>, small: CacheLimits, large: CacheLimits)
    requires small.maxEntries <= large.maxEntries && small.maxValue == large.maxValue
    requires NeverBinds(ops, small) && NeverBinds(ops, large)
    ensures Included(Exec(ops, small).entries, Exec(ops, large).entries, small.maxEntries, large.maxEntries)
  {
    if ops != [] {
      var before := ops[..|ops| - 1];
      InclusionHolds(before, small, large);
      RecencyRefinesHistory(before, small);
      RecencyRefinesHistory(before, large);
      StepKeepsInclusion(Exec(before, small).entries, Exec(before, large).entries, ops[|ops| - 1], small, large);
    }
  }

  // ----- When does the byte limit never decide? -----

  predicate PutsCostAtMost(ops: seq<Op>, bound: nat) {
    forall i :: 0 <= i < |ops| && ops[i].OpPut? ==> EntryCost(ops[i].key, ops[i].value) <= bound
  }

  lemma {:induction false} CostAtMost(es: seq<Entry>, bound: nat)
    requires forall e :: e in es ==> Cost(e) <= bound
    ensures TotalCost(es) <= |es| * bound
  {
    if es != [] { CostAtMost(es[..|es| - 1], bound); }
  }

  lemma {:induction false} EntriesCostAtMost(ops: seq<Op>, lim: CacheLimits, bound: nat)
    requires PutsCostAtMost(ops, bound)
    ensures forall e :: e in Exec(ops, lim).entries ==> Cost(e) <= bound
  {
    if ops != [] {
      var op := ops[|ops| - 1];
      EntriesCostAtMost(ops[..|ops| - 1], lim, bound);
      var es := Exec(ops[..|ops| - 1], lim).entries;
      if op.OpPut? { MakeRoomPrefix(Drop(es, op.key), EntryCost(op.key, op.value), lim); }
      assert forall e :: e in Apply(es, op, lim).entries ==> e in es || (op.OpPut? && e == Entry(op.key, op.value));
    }
  }

  /** A check made before any run: room for `maxEntries` entries of the largest cost is enough. */
  lemma {:induction false} AmpleBytesNeverBind(ops: seq<Op>, lim: CacheLimits, bound: nat)
    requires PutsCostAtMost(ops, bound) && lim.maxEntries > 0 && lim.maxEntries * bound <= lim.maxBytes
    ensures NeverBinds(ops, lim)
  {
    if ops != [] {
      var before, op := ops[..|ops| - 1], ops[|ops| - 1];
      AmpleBytesNeverBind(before, lim, bound);
      EntriesCostAtMost(before, lim, bound);
      RecencyRefinesHistory(before, lim);
      if op.OpPut? {
        assert EntryCost(op.key, op.value) <= bound;
        RoomForOneMore(Drop(Exec(before, lim).entries, op.key), lim, bound);
      }
    }
  }

  lemma RoomForOneMore(es: seq<Entry>, lim: CacheLimits, bound: nat)
    requires |es| <= lim.maxEntries && lim.maxEntries > 0 && lim.maxEntries * bound <= lim.maxBytes
    requires forall e :: e in es ==> Cost(e) <= bound
    ensures TotalCost(Trim(es, lim.maxEntries)) + bound <= lim.maxBytes
  {
    var kept := Trim(es, lim.maxEntries);
    CostAtMost(kept, bound);
    OneMoreSlot(|kept|, lim.maxEntries, bound);
    hide TotalCost;
  }

  lemma OneMoreSlot(used: nat, slots: nat, each: nat)
    requires used < slots
    ensures used * each + each <= slots * each
  {
    assert slots * each == used * each + (slots - used) * each;
    assert (slots - used) * each == each + (slots - used - 1) * each;
  }

  // ----- Where the byte limit decides, inclusion fails -----

  const A := Entry([1], [0])
  const B := Entry([2], [0])
  const C := Entry([3], [0])
  const D := Entry([4], seq(21, _ => 0))

  const TWO := CacheLimits(2, 400, 64)
  const THREE := CacheLimits(3, 400, 64)

  const ANOMALY: seq<Op> :=
    [OpPut(A.key, A.value), OpPut(B.key, B.value), OpPut(C.key, C.value), OpGet(A.key), OpPut(D.key, D.value)]

  lemma ExecStep(ops: seq<Op>, n: nat, lim: CacheLimits)
    requires n < |ops|
    ensures Exec(ops[..n + 1], lim).entries == Apply(Exec(ops[..n], lim).entries, ops[n], lim).entries
  {
    assert ops[..n + 1][..n] == ops[..n];
  }

  lemma PutFresh(es: seq<Entry>, e: Entry, lim: CacheLimits)
    requires !HasKey(es, e.key) && PutOutcome(e.key, e.value, lim).None?
    ensures Apply(es, OpPut(e.key, e.value), lim).entries == [e] + MakeRoom(es, Cost(e), lim)
  {
    DropMissing(es, e.key);
  }

  lemma CostOfTwo(e: Entry, f: Entry)
    ensures TotalCost([e, f]) == Cost(e) + Cost(f)
  {
    CostOfOne(e);
    assert [e, f][..1] == [e];
  }

  /** Costs 130, 130, 130 and 150 in 400 bytes: after the last put the cache of two entries still holds C,
      while the cache of three entries spent those bytes on A and evicted C. */
  lemma InclusionFailsWhenBytesBind()
    ensures Exec(ANOMALY, TWO).entries == [D, C]
    ensures Exec(ANOMALY, THREE).entries == [D, A]
    ensures Apply([D, C], OpGet(C.key), TWO).outcome == Hit(C.value)
    ensures Apply([D, A], OpGet(C.key), THREE).outcome == Miss
  {
    hide Exec, MakeRoom, TotalCost, PutOutcome;
    FirstTwo(TWO);
    FirstTwo(THREE);
    ThirdPut();
    ExecStep(ANOMALY, 2, TWO);
    ExecStep(ANOMALY, 2, THREE);
    LastTwoOfTwo();
    LastTwoOfThree();
    ExecStep(ANOMALY, 3, TWO);
    ExecStep(ANOMALY, 3, THREE);
    ExecStep(ANOMALY, 4, TWO);
    ExecStep(ANOMALY, 4, THREE);
    assert ANOMALY[..5] == ANOMALY;
    assert Lookup([C], C.key) == Some(C.value);
  }

  lemma FirstTwo(lim: CacheLimits)
    requires lim == TWO || lim == THREE
    ensures Exec(ANOMALY[..2], lim).entries == [B, A]
  {
    ExecStep(ANOMALY, 0, lim);
    PutFresh([], A, lim);
    assert [A] + [] == [A];
    ExecStep(ANOMALY, 1, lim);
    PutFresh([A], B, lim);
    CostOfOne(A);
  }

  lemma ThirdPut()
    ensures Apply([B, A], OpPut(C.key, C.value), TWO).entries == [C, B]
    ensures Apply([B, A], OpPut(C.key, C.value), THREE).entries == [C, B, A]
  {
    PutFresh([B, A], C, TWO);
    PutFresh([B, A], C, THREE);
    CostOfTwo(B, A);
    CostOfOne(B);
    assert [B, A][..1] == [B];
    assert [C] + [B, A] == [C, B, A];
  }

  lemma LastTwoOfTwo()
    ensures Apply([C, B], OpGet(A.key), TWO).entries == [C, B]
    ensures Apply([C, B], OpPut(D.key, D.value), TWO).entries == [D, C]
  {
    PutFresh([C, B], D, TWO);
    CostOfOne(C);
    assert [C, B][..1] == [C];
  }

  lemma LastTwoOfThree()
    ensures Apply([C, B, A], OpGet(A.key), THREE).entries == [A, C, B]
    ensures Apply([A, C, B], OpPut(D.key, D.value), THREE).entries == [D, A]
  {
    LookupAt([C, B, A], 2);
    DropAt([C, B, A], 2);
    PutFresh([A, C, B], D, THREE);
    assert [A, C, B][..2] == [A, C];
    CostOfTwo(A, C);
    CostOfOne(A);
    assert [A, C][..1] == [A];
    assert MakeRoom([A, C], Cost(D), THREE) == MakeRoom([A], Cost(D), THREE) == [A];
    assert MakeRoom([A, C, B], Cost(D), THREE) == MakeRoom([A, C], Cost(D), THREE);
  }
}
