/** The least bytes that a number of entries can cost, as a number that can be computed. */
module LruLeast {
  import opened LruSpec

  /** Entries of distinct keys that cost as little as their keys allow. */
  ghost predicate Bare(es: seq<Entry>) { DistinctKeys(es) && forall i :: 0 <= i < |es| ==> es[i].value == [] }

  /** All keys, shorter ones first. */
  function KeyAt(i: nat): Key {
    if i == 0 then [] else KeyAt((i - 1) / 256) + [(i - 1) % 256]
  }

  /** A key's place among all keys. */
  function KeyIndex(k: Key): nat {
    if k == [] then 0 else 256 * KeyIndex(k[..|k| - 1]) + k[|k| - 1] + 1
  }

  lemma {:induction false} IndexOfKeyAt(i: nat)
    ensures KeyIndex(KeyAt(i)) == i
  {
    if i > 0 {
      IndexOfKeyAt((i - 1) / 256);
      assert KeyAt(i)[..|KeyAt(i)| - 1] == KeyAt((i - 1) / 256);
    }
  }

  lemma {:induction false} KeyAtIndex(k: Key)
    ensures KeyAt(KeyIndex(k)) == k
  {
    if k != [] {
      var front, last := k[..|k| - 1], k[|k| - 1];
      KeyAtIndex(front);
      assert (KeyIndex(k) - 1) / 256 == KeyIndex(front) && (KeyIndex(k) - 1) % 256 == last;
      assert k == front + [last];
    }
  }

  lemma {:induction false} LaterIsNoShorter(i: nat, j: nat)
    requires i <= j
    ensures |KeyAt(i)| <= |KeyAt(j)|
  {
    if i > 0 { LaterIsNoShorter((i - 1) / 256, (j - 1) / 256); }
  }

  /** The cost of the first `n` keys with nothing stored under them. */
  function LeastCost(n: nat): nat {
    if n == 0 then 0 else LeastCost(n - 1) + EntryCost(KeyAt(n - 1), [])
  }

  function FirstKeys(n: nat): seq<Entry> {
    if n == 0 then [] else FirstKeys(n - 1) + [Entry(KeyAt(n - 1), [])]
  }

  lemma {:induction false} FirstKeysAre(n: nat)
    ensures |FirstKeys(n)| == n && forall i :: 0 <= i < n ==> FirstKeys(n)[i] == Entry(KeyAt(i), [])
  {
    hide KeyAt;
    if n > 0 { FirstKeysAre(n - 1); }
  }

  lemma FirstKeysBare(n: nat)
    ensures Bare(FirstKeys(n))
  {
    hide KeyAt, KeyIndex, FirstKeys;
    FirstKeysAre(n);
    forall i, j | 0 <= i < j < n ensures KeyAt(i) != KeyAt(j) {
      IndexOfKeyAt(i);
      IndexOfKeyAt(j);
    }
  }

  lemma {:induction false} FirstKeysCost(n: nat)
    ensures TotalCost(FirstKeys(n)) == LeastCost(n)
  {
    hide KeyAt, TotalCost, TotalPayload;
    if n == 0 {
      CostSplit([], []);
      assert [] + [] == FirstKeys(n);
    } else {
      FirstKeysCost(n - 1);
      CostSplit(FirstKeys(n - 1), [Entry(KeyAt(n - 1), [])]);
      CostOfOne(Entry(KeyAt(n - 1), []));
    }
  }

  ghost predicate AllBelow(es: seq<Entry>, m: nat) { forall i :: 0 <= i < |es| ==> KeyIndex(es[i].key) < m }

  lemma PlacesDiffer(a: Key, b: Key)
    requires a != b
    ensures KeyIndex(a) != KeyIndex(b)
  {
    hide KeyAt, KeyIndex;
    KeyAtIndex(a);
    KeyAtIndex(b);
  }

  lemma DistinctWithout(es: seq<Entry>, j: nat)
    requires DistinctKeys(es) && j < |es|
    ensures DistinctKeys(es[..j] + es[j + 1..])
  {
    var others := es[..j] + es[j + 1..];
    forall a, b | 0 <= a < b < |others| ensures others[a].key != others[b].key {
      assert others[a] == es[if a < j then a else a + 1] && others[b] == es[if b < j then b else b + 1];
    }
  }

  lemma BelowWithout(es: seq<Entry>, j: nat, m: nat)
    requires DistinctKeys(es) && AllBelow(es, m) && j < |es| && KeyIndex(es[j].key) == m - 1
    ensures AllBelow(es[..j] + es[j + 1..], m - 1)
  {
    hide KeyIndex;
    var others := es[..j] + es[j + 1..];
    forall i | 0 <= i < |others| ensures KeyIndex(others[i].key) < m - 1 {
      var e := es[if i < j then i else i + 1];
      assert others[i] == e;
      PlacesDiffer(e.key, es[j].key);
    }
  }

  /** Distinct keys have distinct places, so there are no more of them than places. */
  lemma {:induction false} NoMoreThanPlaces(es: seq<Entry>, m: nat)
    requires DistinctKeys(es) && AllBelow(es, m)
    ensures |es| <= m
    decreases m
  {
    hide KeyIndex;
    if es != [] {
      assert KeyIndex(es[0].key) < m;
      if j :| 0 <= j < |es| && KeyIndex(es[j].key) == m - 1 {
        DistinctWithout(es, j);
        BelowWithout(es, j, m);
        NoMoreThanPlaces(es[..j] + es[j + 1..], m - 1);
      } else {
        NoMoreThanPlaces(es, m - 1);
      }
    }
  }

  lemma {:induction false} LastPlace(es: seq<Entry>) returns (j: nat)
    requires es != []
    ensures j < |es| && forall i :: 0 <= i < |es| ==> KeyIndex(es[i].key) <= KeyIndex(es[j].key)
  {
    j := 0;
    if |es| > 1 {
      var front := es[..|es| - 1];
      j := LastPlace(front);
      assert forall i :: 0 <= i < |front| ==> front[i] == es[i];
      if KeyIndex(es[j].key) < KeyIndex(es[|es| - 1].key) { j := |es| - 1; }
    }
  }

  /** The key in the last place is as long as the number of keys demands. */
  lemma LastIsLong(es: seq<Entry>) returns (j: nat)
    requires es != [] && DistinctKeys(es)
    ensures j < |es| && |KeyAt(|es| - 1)| <= |es[j].key|
  {
    hide KeyAt, KeyIndex;
    j := LastPlace(es);
    NoMoreThanPlaces(es, KeyIndex(es[j].key) + 1);
    LaterIsNoShorter(|es| - 1, KeyIndex(es[j].key));
    KeyAtIndex(es[j].key);
  }

  /** No entries of distinct keys cost less than the first keys do. */
  lemma {:induction false} LeastIsLeast(es: seq<Entry>)
    requires DistinctKeys(es)
    ensures LeastCost(|es|) <= TotalCost(es)
    decreases |es|
  {
    hide TotalCost, TotalPayload, KeyAt, DistinctKeys;
    if es != [] {
      var j := LastIsLong(es);
      CostWithout(es, j);
      DistinctWithout(es, j);
      LeastIsLeast(es[..j] + es[j + 1..]);
    }
  }

  ghost predicate Holds(es: seq<Entry>, n: nat, bytes: nat) { |es| == n && Bare(es) && TotalCost(es) <= bytes }

  /** The byte limit leaves room for `n` entries. */
  ghost predicate RoomFor(n: nat, bytes: nat) { exists es :: Holds(es, n, bytes) }

  /** ... exactly when it is at least their least cost. */
  lemma RoomForExactly(n: nat, bytes: nat)
    ensures RoomFor(n, bytes) <==> LeastCost(n) <= bytes
  {
    hide TotalCost, FirstKeys, LeastCost;
    if RoomFor(n, bytes) {
      var es :| Holds(es, n, bytes);
      LeastIsLeast(es);
    }
    FirstKeysAre(n);
    FirstKeysBare(n);
    FirstKeysCost(n);
    assert LeastCost(n) <= bytes ==> Holds(FirstKeys(n), n, bytes);
  }
}
