/** The cache as it is built: a list of nodes, an index from key to node, and running counters. */
module LruImpl {
  import opened Protocol
  import opened LruSpec

  /** A list node; `id` stands for its address, which splicing never changes. */
  datatype Node = Node(id: nat, entry: Entry)

  datatype PutStatus = PutStored | PutValueTooLarge | PutEntryTooLarge

  /** The entries of a list of nodes. */
  function Entries(ns: seq<Node>): (es: seq<Entry>)
    ensures |es| == |ns|
    ensures forall i :: 0 <= i < |ns| ==> es[i] == ns[i].entry
  {
    seq(|ns|, i requires 0 <= i < |ns| => ns[i].entry)
  }

  function KeySet(es: seq<Entry>): set<Key> { set i | 0 <= i < |es| :: es[i].key }

  lemma KeySetHas(es: seq<Entry>, k: Key)
    ensures k in KeySet(es) <==> exists i :: 0 <= i < |es| && es[i].key == k
  {
  }

  lemma KeySetSnoc(front: seq<Entry>, last: Entry)
    ensures KeySet(front + [last]) == KeySet(front) + {last.key}
  {
    var es := front + [last];
    forall k ensures k in KeySet(es) <==> k in KeySet(front) + {last.key} {
      KeySetHas(es, k);
      KeySetHas(front, k);
      hide KeySet;
      if i :| 0 <= i < |front| && front[i].key == k {
        assert es[i].key == k;
      }
      assert es[|front|].key == last.key;
    }
  }

  lemma {:induction false} KeySetSize(es: seq<Entry>)
    requires DistinctKeys(es)
    ensures |KeySet(es)| == |es|
  {
    if es != [] {
      var front, last := es[..|es| - 1], es[|es| - 1];
      KeySetSize(front);
      assert es == front + [last];
      KeySetSnoc(front, last);
      KeySetHas(front, last.key);
      hide KeySet;
      assert last.key !in KeySet(front);
    } else {
      assert KeySet(es) == {};
    }
  }

  /** Position of the node with a given address. */
  function At(ns: seq<Node>, id: nat): (i: nat)
    requires exists j :: 0 <= j < |ns| && ns[j].id == id
    ensures i < |ns| && ns[i].id == id
  {
    if ns[0].id == id then 0
    else
      assert exists j :: 0 <= j < |ns[1..]| && ns[1..][j].id == id by {
        var j :| 0 <= j < |ns| && ns[j].id == id;
        assert ns[1..][j - 1].id == id;
      }
      1 + At(ns[1..], id)
  }

  /** Every node has its own address and the index leads from each key to its own node, and nowhere else. */
  ghost predicate Indexed(ns: seq<Node>, index: map<Key, nat>) {
    && (forall i, j :: 0 <= i < j < |ns| ==> ns[i].id != ns[j].id)
    && (forall i :: 0 <= i < |ns| ==> ns[i].entry.key in index && index[ns[i].entry.key] == ns[i].id)
    && (forall k :: k in index ==> exists i :: 0 <= i < |ns| && ns[i].id == index[k] && ns[i].entry.key == k)
  }

  lemma IndexedFacts(ns: seq<Node>, index: map<Key, nat>)
    requires Indexed(ns, index)
    ensures DistinctKeys(Entries(ns))
    ensures forall k :: k in index <==> HasKey(Entries(ns), k)
    ensures |index| == |ns|
  {
    var es := Entries(ns);
    forall k | k in index ensures HasKey(es, k) {
      var i :| 0 <= i < |ns| && ns[i].id == index[k] && ns[i].entry.key == k;
      assert es[i].key == k;
    }
    KeySetSize(es);
    assert index.Keys == KeySet(es) by {
      forall k | k in index ensures k in KeySet(es) {
        var i :| 0 <= i < |ns| && ns[i].id == index[k] && ns[i].entry.key == k;
        assert es[i].key == k;
      }
    }
  }

  /** The list with the node at `i` unlinked. */
  function Unlinked(ns: seq<Node>, i: nat): (r: seq<Node>)
    requires i < |ns|
    ensures |r| == |ns| - 1
    ensures forall j :: 0 <= j < |r| ==> r[j] == ns[if j < i then j else j + 1]
  {
    ns[..i] + ns[i + 1..]
  }

  lemma IndexedWithout(ns: seq<Node>, index: map<Key, nat>, i: nat)
    requires Indexed(ns, index) && i < |ns|
    ensures Indexed(Unlinked(ns, i), index - {ns[i].entry.key})
  {
    hide Unlinked;
    var r, key := Unlinked(ns, i), ns[i].entry.key;
    var index' := index - {key};
    forall j | 0 <= j < |r| ensures r[j].entry.key in index' && index'[r[j].entry.key] == r[j].id { }
    forall k | k in index' ensures exists j :: 0 <= j < |r| && r[j].id == index'[k] && r[j].entry.key == k {
      var j :| 0 <= j < |ns| && ns[j].id == index[k] && ns[j].entry.key == k;
      assert r[if j < i then j else j - 1] == ns[j];
    }
  }

  /** Linking a node with a new address and key in front. */
  lemma IndexedWith(n: Node, ns: seq<Node>, index: map<Key, nat>)
    requires Indexed(ns, index) && n.entry.key !in index && forall i :: 0 <= i < |ns| ==> ns[i].id != n.id
    ensures Indexed([n] + ns, index[n.entry.key := n.id])
  {
    var r, index' := [n] + ns, index[n.entry.key := n.id];
    forall k | k in index' ensures exists i :: 0 <= i < |r| && r[i].id == index'[k] && r[i].entry.key == k {
      if k == n.entry.key {
        assert r[0] == n;
      } else {
        var j :| 0 <= j < |ns| && ns[j].id == index[k] && ns[j].entry.key == k;
        assert r[j + 1] == ns[j];
      }
    }
  }

  /** List, index and counters agree; the counters are the sums they stand for. */
  ghost predicate Agree(ns: seq<Node>, index: map<Key, nat>, bytes: nat, payload: nat, nextAddress: nat) {
    && Indexed(ns, index)
    && (forall i :: 0 <= i < |ns| ==> ns[i].id < nextAddress)
    && bytes == TotalCost(Entries(ns))
    && payload == TotalPayload(Entries(ns))
  }

  lemma EntriesUnlinked(ns: seq<Node>, i: nat)
    requires i < |ns|
    ensures Entries(Unlinked(ns, i)) == Entries(ns)[..i] + Entries(ns)[i + 1..]
  {
  }

  lemma EntriesCons(n: Node, ns: seq<Node>)
    ensures Entries([n] + ns) == [n.entry] + Entries(ns)
  {
  }

  lemma AgreeIndexed(ns: seq<Node>, index: map<Key, nat>, bytes: nat, payload: nat, nextAddress: nat)
    requires Agree(ns, index, bytes, payload, nextAddress)
    ensures Indexed(ns, index) && forall i :: 0 <= i < |ns| ==> ns[i].id < nextAddress
  {
  }

  /** Unlinking the node the index leads to removes exactly that key, without underflow. */
  lemma UnlinkAgrees(ns: seq<Node>, index: map<Key, nat>, bytes: nat, payload: nat, nextAddress: nat, i: nat)
    requires Agree(ns, index, bytes, payload, nextAddress) && i < |ns|
    ensures var e := ns[i].entry;
      && bytes >= Cost(e) && payload >= |e.key| + |e.value|
      && Agree(Unlinked(ns, i), index - {e.key}, bytes - Cost(e), payload - (|e.key| + |e.value|), nextAddress)
    ensures Entries(Unlinked(ns, i)) == Drop(Entries(ns), ns[i].entry.key)
    ensures Lookup(Entries(ns), ns[i].entry.key) == Some(ns[i].entry.value)
  {
    hide Indexed, Entries, Unlinked, TotalCost, TotalPayload, Drop, Lookup, DistinctKeys, HasKey;
    var es := Entries(ns);
    IndexedFacts(ns, index);
    IndexedWithout(ns, index, i);
    EntriesUnlinked(ns, i);
    DropAt(es, i);
    CostWithout(es, i);
    LookupAt(es, i);
  }

  lemma IndexLeads(ns: seq<Node>, index: map<Key, nat>, key: Key)
    requires Indexed(ns, index) && key in index
    ensures exists j :: 0 <= j < |ns| && ns[j].id == index[key]
    ensures ns[At(ns, index[key])].entry.key == key
  {
    var j :| 0 <= j < |ns| && ns[j].id == index[key] && ns[j].entry.key == key;
  }

  lemma LinkAgrees(ns: seq<Node>, index: map<Key, nat>, bytes: nat, payload: nat, nextAddress: nat, n: Node, next': nat)
    requires Agree(ns, index, bytes, payload, nextAddress) && !HasKey(Entries(ns), n.entry.key)
    requires n.id < next' && nextAddress <= next' && forall i :: 0 <= i < |ns| ==> ns[i].id != n.id
    ensures Agree([n] + ns, index[n.entry.key := n.id], bytes + Cost(n.entry),
                  payload + (|n.entry.key| + |n.entry.value|), next')
    ensures Entries([n] + ns) == [n.entry] + Entries(ns)
  {
    hide Indexed;
    IndexedFacts(ns, index);
    IndexedWith(n, ns, index);
    EntriesCons(n, ns);
    CostSplit([n.entry], Entries(ns));
    CostOfOne(n.entry);
  }

  /** Moving the node at `i` to the front changes neither the index nor the counters. */
  lemma SpliceAgrees(ns: seq<Node>, index: map<Key, nat>, bytes: nat, payload: nat, nextAddress: nat, i: nat)
    requires Agree(ns, index, bytes, payload, nextAddress) && i < |ns|
    ensures Agree([ns[i]] + Unlinked(ns, i), index, bytes, payload, nextAddress)
    ensures Entries([ns[i]] + Unlinked(ns, i)) == [ns[i].entry] + Drop(Entries(ns), ns[i].entry.key)
  {
    var e := ns[i].entry;
    UnlinkAgrees(ns, index, bytes, payload, nextAddress, i);
    IndexedFacts(ns, index);
    DropFacts(Entries(ns), e.key);
    Relinked(ns, index, i);
    hide Indexed, Entries, Unlinked, TotalCost, TotalPayload, Drop, Lookup, DistinctKeys, HasKey;
    LinkAgrees(Unlinked(ns, i), index - {e.key}, bytes - Cost(e), payload - (|e.key| + |e.value|), nextAddress, ns[i],
               nextAddress);
  }

  /** The same nodes, addresses and all, in some order. */
  ghost predicate SameNodes(a: seq<Node>, b: seq<Node>) { multiset(a) == multiset(b) }

  lemma AllSame(ns: seq<Node>)
    ensures SameNodes(ns, ns)
  {
  }

  /** ... and loses, gains or moves no node in memory. */
  lemma SplicePermutes(ns: seq<Node>, i: nat)
    requires i < |ns|
    ensures SameNodes([ns[i]] + Unlinked(ns, i), ns)
  {
    assert ns == ns[..i] + [ns[i]] + ns[i + 1..];
  }

  lemma KeptLacksKey(es: seq<Entry>, key: Key, cost: nat, limits: CacheLimits)
    requires DistinctKeys(es)
    ensures var others := Drop(es, key); var kept := MakeRoom(others, cost, limits);
      kept <= others && !HasKey(kept, key)
  {
    DropFacts(es, key);
    MakeRoomPrefix(Drop(es, key), cost, limits);
    var kept := MakeRoom(Drop(es, key), cost, limits);
    assert forall i :: 0 <= i < |kept| ==> kept[i] == Drop(es, key)[i];
  }

  lemma Relinked(ns: seq<Node>, index: map<Key, nat>, i: nat)
    requires Indexed(ns, index) && i < |ns|
    ensures (index - {ns[i].entry.key})[ns[i].entry.key := ns[i].id] == index
    ensures forall j :: 0 <= j < |Unlinked(ns, i)| ==> Unlinked(ns, i)[j].id != ns[i].id
  {
  }

  // ----- Machine arithmetic -----

  /** Strings have sizes that `size_t` holds. */
  type Text = s: Bytes | |s| <= SIZE_MAX

  /** `entry_cost`, as the machine adds. */
  function MachineCost(key: Text, value: Text): size { AddSize(AddSize(|key|, |value|), ENTRY_OVERHEAD) }

  lemma MachineCostExact(key: Text, value: Text)
    requires EntryCost(key, value) <= SIZE_MAX
    ensures MachineCost(key, value) == EntryCost(key, value)
  {
  }

  /** The test of `make_room_locked`, as the machine adds. */
  predicate MachineFits(es: seq<Entry>, cost: size, lim: CacheLimits)
    requires |es| <= SIZE_MAX && TotalCost(es) <= SIZE_MAX
  {
    AddSize(|es|, 1) <= lim.maxEntries && AddSize(TotalCost(es), cost) <= lim.maxBytes
  }

  function MachineRoom(es: seq<Entry>, cost: size, lim: CacheLimits): seq<Entry>
    requires TotalCost(es) <= SIZE_MAX
  {
    PayloadAndOverhead(es);
    if es == [] || MachineFits(es, cost, lim) then es
    else
      CostOfPrefix(es, |es| - 1);
      MachineRoom(es[..|es| - 1], cost, lim)
  }

  /** No sum wraps for these: then machine and unbounded arithmetic evict the same. */
  lemma {:induction false} NoWrapSameRoom(es: seq<Entry>, cost: size, lim: CacheLimits)
    requires TotalCost(es) + cost <= SIZE_MAX
    ensures MachineRoom(es, cost, lim) == MakeRoom(es, cost, lim)
    decreases |es|
  {
    PayloadAndOverhead(es);
    AddExact(|es|, 1);
    AddExact(TotalCost(es), cost);
    hide AddSize, TotalCost;
    if es != [] {
      CostOfPrefix(es, |es| - 1);
      NoWrapSameRoom(es[..|es| - 1], cost, lim);
    }
  }

  /** The entry limit is met by the same eviction in both. */
  lemma BothTrim(es: seq<Entry>, cost: size, lim: CacheLimits)
    requires |es| <= lim.maxEntries && 0 < lim.maxEntries && TotalCost(es) <= SIZE_MAX
    ensures TotalCost(Trim(es, lim.maxEntries)) <= TotalCost(es)
    ensures MakeRoom(es, cost, lim) == MakeRoom(Trim(es, lim.maxEntries), cost, lim)
    ensures MachineRoom(es, cost, lim) == MachineRoom(Trim(es, lim.maxEntries), cost, lim)
  {
    PayloadAndOverhead(es);
    AddExact(|es|, 1);
    hide AddSize, TotalCost;
    if es != [] { CostOfPrefix(es, |es| - 1); }
  }

  lemma WrapKeepsAll(es: seq<Entry>, cost: size, lim: CacheLimits)
    requires |es| + 1 <= lim.maxEntries || es == []
    requires TotalCost(es) <= lim.maxBytes && cost <= lim.maxBytes && TotalCost(es) + cost > SIZE_MAX
    ensures MachineRoom(es, cost, lim) == es
  {
    AddExact(|es|, 1);
    AddExact(TotalCost(es), cost);
    hide AddSize, TotalCost;
  }

  /** When `make_room_locked` evicts what it should: exactly when the bytes that meet the entry limit, and the
      incoming ones, have a sum that `size_t` holds. Beyond that the sum wraps to something small and nothing
      more is evicted. */
  lemma EvictionWrapsExactly(es: seq<Entry>, cost: size, lim: CacheLimits)
    requires |es| <= lim.maxEntries && TotalCost(es) <= lim.maxBytes && cost <= lim.maxBytes && 0 < lim.maxEntries
    ensures MachineRoom(es, cost, lim) == MakeRoom(es, cost, lim)
       <==> TotalCost(Trim(es, lim.maxEntries)) + cost <= SIZE_MAX
  {
    BothTrim(es, cost, lim);
    var t := Trim(es, lim.maxEntries);
    PayloadAndOverhead(t);
    if TotalCost(t) + cost <= SIZE_MAX {
      NoWrapSameRoom(t, cost, lim);
    } else {
      WrapKeepsAll(t, cost, lim);
      EvictionIsMinimal(t, cost, lim);
      hide MakeRoom, MachineRoom, TotalCost;
      assert !Fits(t, cost, lim);
    }
  }

  /** A put in which no sum wraps. */
  predicate NoWrap(es: seq<Entry>, key: Key, value: Value, lim: CacheLimits) {
    |value| <= lim.maxValue ==>
      && EntryCost(key, value) <= SIZE_MAX
      && (PutOutcome(key, value, lim).None? ==>
            TotalCost(Trim(Drop(es, key), lim.maxEntries)) + EntryCost(key, value) <= SIZE_MAX)
  }

  /** A check made before any run: under a byte limit of at most half the range no put wraps. */
  lemma HalfRangeNeverWraps(es: seq<Entry>, key: Key, value: Value, lim: CacheLimits)
    requires WellFormed(es, lim) && lim.maxBytes <= SIZE_MAX / 2 && EntryCost(key, value) <= SIZE_MAX
    ensures NoWrap(es, key, value, lim)
  {
    DropCost(es, key);
    var others := Drop(es, key);
    if others != [] { CostOfPrefix(others, |others| - 1); }
  }

  /** Without wrap-around, room made by the machine is the room the specification makes. */
  lemma SameRoomForPut(before: seq<Entry>, key: Text, value: Text, lim: CacheLimits)
    requires WellFormed(before, lim) && NoWrap(before, key, value, lim) && |value| <= lim.maxValue
    requires MachineCost(key, value) <= lim.maxBytes && 0 < lim.maxEntries
    ensures MachineCost(key, value) == EntryCost(key, value) && PutOutcome(key, value, lim).None?
    ensures TotalCost(Drop(before, key)) <= SIZE_MAX
    ensures var others, cost := Drop(before, key), EntryCost(key, value); var kept := MakeRoom(others, cost, lim);
      && MachineRoom(others, cost, lim) == kept
      && TotalCost(kept) + cost <= lim.maxBytes && kept <= others && !HasKey(kept, key)
  {
    var others, cost := Drop(before, key), EntryCost(key, value);
    MachineCostExact(key, value);
    DropFacts(before, key);
    DropCost(before, key);
    EvictionWrapsExactly(others, cost, lim);
    EvictionIsMinimal(others, cost, lim);
    KeptLacksKey(before, key, cost, lim);
    hide MachineCost, MachineRoom, MakeRoom, TotalCost, Drop, HasKey, Lookup, DistinctKeys, Trim;
  }

  /** The specification's put, in terms of the room the machine makes. */
  lemma PutInMachineRoom(before: seq<Entry>, key: Text, value: Text, lim: CacheLimits)
    requires WellFormed(before, lim) && NoWrap(before, key, value, lim) && |value| <= lim.maxValue
    requires MachineCost(key, value) <= lim.maxBytes && 0 < lim.maxEntries && TotalCost(Drop(before, key)) <= SIZE_MAX
    ensures var n := Apply(before, OpPut(key, value), lim);
      var kept := MachineRoom(Drop(before, key), MachineCost(key, value), lim);
      && n.outcome.Stored? && WellFormed(n.entries, lim)
      && n.entries == [Entry(key, value)] + kept
      && |n.outcome.evicted| == |Drop(before, key)| - |kept|
      && !HasKey(kept, key) && TotalCost(kept) + EntryCost(key, value) <= SIZE_MAX
  {
    SameRoomForPut(before, key, value, lim);
    ApplyKeepsBounds(before, OpPut(key, value), lim);
    hide WellFormed, TotalCost, Drop, MakeRoom, MachineRoom, HasKey, NoWrap, MachineCost;
  }

  /** A put that the size checks turn away. */
  lemma PutRefused(es: seq<Entry>, key: Text, value: Text, lim: CacheLimits)
    ensures |value| > lim.maxValue ==> Apply(es, OpPut(key, value), lim) == Next(es, ValueTooBig)
    ensures NoWrap(es, key, value, lim) && |value| <= lim.maxValue ==>
      (MachineCost(key, value) > lim.maxBytes || lim.maxEntries == 0 ==>
         Apply(es, OpPut(key, value), lim) == Next(es, EntryTooBig))
  {
    if EntryCost(key, value) <= SIZE_MAX { MachineCostExact(key, value); }
    hide MachineCost, Trim, Drop, MakeRoom;
  }

  /** Whatever wraps, list and index agree on the nodes after the new one is linked. */
  lemma InsertIndexed(before: seq<Entry>, ns: seq<Node>, index: map<Key, nat>, bytes: nat, payload: nat, next: nat,
                      key: Text, value: Text, lim: CacheLimits)
    requires DistinctKeys(before) && Agree(ns, index, bytes, payload, next) && TotalCost(Drop(before, key)) <= SIZE_MAX
    requires Entries(ns) == MachineRoom(Drop(before, key), MachineCost(key, value), lim)
    ensures Indexed([Node(next, Entry(key, value))] + ns, index[key := next])
    ensures Entries([Node(next, Entry(key, value))] + ns) == [Entry(key, value)] + Entries(ns)
    ensures bytes == TotalCost(Entries(ns))
  {
    assert bytes == TotalCost(Entries(ns));
    AgreeIndexed(ns, index, bytes, payload, next);
    hide MachineRoom, MachineCost, Drop, TotalCost, TotalPayload, DistinctKeys, HasKey, Agree, Indexed, Entries;
    EntriesCons(Node(next, Entry(key, value)), ns);
    MachineKeptLacksKey(before, key, MachineCost(key, value), lim);
    IndexedFacts(ns, index);
    IndexedWith(Node(next, Entry(key, value)), ns, index);
  }

  lemma MachineKeptLacksKey(before: seq<Entry>, key: Key, cost: size, lim: CacheLimits)
    requires DistinctKeys(before) && TotalCost(Drop(before, key)) <= SIZE_MAX
    ensures !HasKey(MachineRoom(Drop(before, key), cost, lim), key)
  {
    hide MachineRoom, Drop, TotalCost;
    var others := Drop(before, key);
    DropFacts(before, key);
    MachineRoomPrefix(others, cost, lim);
    var kept := MachineRoom(others, cost, lim);
    forall i | 0 <= i < |kept| ensures kept[i].key != key { assert kept[i] == others[i]; }
  }

  lemma {:induction false} MachineRoomPrefix(es: seq<Entry>, cost: size, lim: CacheLimits)
    requires TotalCost(es) <= SIZE_MAX
    ensures MachineRoom(es, cost, lim) <= es
    decreases |es|
  {
    PayloadAndOverhead(es);
    if es != [] && !MachineFits(es, cost, lim) {
      CostOfPrefix(es, |es| - 1);
      MachineRoomPrefix(es[..|es| - 1], cost, lim);
    }
  }

  lemma MachineSums(bytes: size, payload: size, key: Text, value: Text)
    requires payload <= bytes && bytes + EntryCost(key, value) <= SIZE_MAX
    ensures AddSize(bytes, MachineCost(key, value)) == bytes + EntryCost(key, value)
    ensures AddSize(payload, AddSize(|key|, |value|)) == payload + (|key| + |value|)
  {
    MachineCostExact(key, value);
    AddExact(bytes, EntryCost(key, value));
    AddExact(|key|, |value|);
    AddExact(payload, |key| + |value|);
    hide AddSize, MachineCost;
  }

  /** Linking the new node keeps list, index and counters in agreement, with no sum wrapping. */
  lemma InsertAgrees(ns: seq<Node>, index: map<Key, nat>, bytes: size, payload: size, next: nat, key: Text, value: Text)
    requires Agree(ns, index, bytes, payload, next) && !HasKey(Entries(ns), key)
    requires EntryCost(key, value) <= SIZE_MAX && TotalCost(Entries(ns)) + EntryCost(key, value) <= SIZE_MAX
    ensures Agree([Node(next, Entry(key, value))] + ns, index[key := next], AddSize(bytes, MachineCost(key, value)),
                  AddSize(payload, AddSize(|key|, |value|)), next + 1)
    ensures Entries([Node(next, Entry(key, value))] + ns) == [Entry(key, value)] + Entries(ns)
  {
    PayloadAndOverhead(Entries(ns));
    assert bytes == TotalCost(Entries(ns)) && payload == TotalPayload(Entries(ns));
    AgreeIndexed(ns, index, bytes, payload, next);
    MachineSums(bytes, payload, key, value);
    hide Agree, Indexed, TotalCost, TotalPayload, HasKey, Entries, AddSize, MachineCost, DistinctKeys;
    LinkAgrees(ns, index, bytes, payload, next, Node(next, Entry(key, value)), next + 1);
  }

  class LruCache {
    const limits: CacheLimits
    var entries: seq<Node>      // front = most recently used
    var index: map<Key, nat>
    var bytes: size
    var payloadBytes: size
    var evictions: nat
    var nextAddress: nat        // addresses at and above this one are free

    ghost function View(): seq<Entry> reads this { Entries(entries) }

    ghost predicate Consistent() reads this { Agree(entries, index, bytes, payloadBytes, nextAddress) }

    ghost predicate Valid() reads this { Consistent() && WellFormed(View(), limits) }

    constructor (limits: CacheLimits)
      ensures Valid() && View() == [] && this.limits == limits && evictions == 0
    {
      this.limits := limits;
      entries, index, bytes, payloadBytes, evictions, nextAddress := [], map[], 0, 0, 0, 0;
    }

    method Get(key: Key) returns (out: Option<Value>)
      requires Valid()
      modifies this
      ensures Valid() && evictions == old(evictions)
      ensures var n := Apply(old(View()), OpGet(key), limits);
        View() == n.entries && n.outcome == (if out.None? then Miss else Hit(out.value))
      ensures bytes == old(bytes) && payloadBytes == old(payloadBytes)
      ensures index == old(index) && SameNodes(entries, old(entries))
    {
      hide Indexed, Agree, Entries, Unlinked, WellFormed, Drop, Lookup, HasKey, SameNodes;
      AllSame(entries);
      IndexedFacts(entries, index) by { AgreeIndexed(entries, index, bytes, payloadBytes, nextAddress); }
      if key !in index { return None; }
      ApplyKeepsBounds(View(), OpGet(key), limits);
      IndexLeads(entries, index, key) by { AgreeIndexed(entries, index, bytes, payloadBytes, nextAddress); }
      var i := At(entries, index[key]);
      var node := entries[i];
      UnlinkAgrees(entries, index, bytes, payloadBytes, nextAddress, i);
      SpliceAgrees(entries, index, bytes, payloadBytes, nextAddress, i);
      SplicePermutes(entries, i);
      entries := [node] + Unlinked(entries, i);
      out := Some(node.entry.value);
    }

    method EraseLocked(key: Key)
      requires Consistent() && key in index
      modifies this
      ensures Consistent() && View() == Drop(old(View()), key) && evictions == old(evictions)
      ensures nextAddress == old(nextAddress)
    {
      hide Indexed, Agree, Entries, Unlinked, Drop;
      IndexLeads(entries, index, key) by { AgreeIndexed(entries, index, bytes, payloadBytes, nextAddress); }
      var i := At(entries, index[key]);
      var node := entries[i];
      UnlinkAgrees(entries, index, bytes, payloadBytes, nextAddress, i);
      bytes := bytes - Cost(node.entry);
      payloadBytes := payloadBytes - (|node.entry.key| + |node.entry.value|);
      index := index - {key};
      entries := Unlinked(entries, i);
    }

    method EvictLruLocked()
      requires Consistent() && entries != []
      modifies this
      ensures Consistent() && View() == old(View())[..|old(View())| - 1]
      ensures evictions == old(evictions) + 1 && nextAddress == old(nextAddress)
    {
      hide Indexed, TotalCost, TotalPayload, Drop;
      var last := |entries| - 1;
      IndexedFacts(entries, index);
      DropAt(View(), last);
      assert HasKey(View(), entries[last].entry.key) by { assert View()[last].key == entries[last].entry.key; }
      EraseLocked(entries[last].entry.key);
      evictions := evictions + 1;
    }

    method MakeRoomLocked(incomingCost: size)
      requires Consistent()
      modifies this
      ensures Consistent() && TotalCost(old(View())) <= SIZE_MAX
      ensures View() == MachineRoom(old(View()), incomingCost, limits)
      ensures evictions == old(evictions) + |old(View())| - |View()|
      ensures nextAddress == old(nextAddress)
    {
      hide Indexed, AddSize, TotalPayload;
      IndexedFacts(entries, index);
      PayloadAndOverhead(View());
      while entries != [] && (AddSize(|index|, 1) > limits.maxEntries || AddSize(bytes, incomingCost) > limits.maxBytes)
        invariant Consistent() && |index| == |entries| <= SIZE_MAX
        invariant MachineRoom(View(), incomingCost, limits) == MachineRoom(old(View()), incomingCost, limits)
        invariant evictions == old(evictions) + |old(View())| - |View()|
        invariant nextAddress == old(nextAddress)
        decreases |entries|
      {
        EvictLruLocked();
        IndexedFacts(entries, index);
        PayloadAndOverhead(View());
      }
    }

    /** What a put does in 64-bit arithmetic, whole; and unless a sum wraps (see `NoWrap`), that is the
        specification's put. */
    method Put(key: Text, value: Text) returns (status: PutStatus)
      requires Valid()
      modifies this
      ensures status == PutValueTooLarge <==> |value| > limits.maxValue
      ensures status == PutEntryTooLarge <==>
        |value| <= limits.maxValue && (MachineCost(key, value) > limits.maxBytes || limits.maxEntries == 0)
      ensures status != PutStored ==> Valid() && unchanged(this)
      ensures status == PutStored ==>
        && TotalCost(Drop(old(View()), key)) <= SIZE_MAX
        && var others := Drop(old(View()), key);
           var kept := MachineRoom(others, MachineCost(key, value), limits);
           && View() == [Entry(key, value)] + kept && Indexed(entries, index)
           && TotalCost(kept) <= SIZE_MAX && bytes == AddSize(TotalCost(kept), MachineCost(key, value))
           && evictions == old(evictions) + |others| - |kept|
      ensures NoWrap(old(View()), key, value, limits) ==> Valid()
      ensures NoWrap(old(View()), key, value, limits) ==>
        var n := Apply(old(View()), OpPut(key, value), limits);
        && View() == n.entries
        && (match status
            case PutStored => n.outcome.Stored? && evictions == old(evictions) + |n.outcome.evicted|
            case PutValueTooLarge => n.outcome == ValueTooBig && evictions == old(evictions)
            case PutEntryTooLarge => n.outcome == EntryTooBig && evictions == old(evictions))
    {
      PutRefused(View(), key, value, limits);
      hide Indexed, Agree, Entries, WellFormed, TotalCost, Drop, MachineRoom, HasKey, DistinctKeys, AddSize,
           MachineCost, NoWrap, Apply;
      if |value| > limits.maxValue { return PutValueTooLarge; }
      var cost := MachineCost(key, value);
      if cost > limits.maxBytes || limits.maxEntries == 0 { return PutEntryTooLarge; }
      IndexedFacts(entries, index) by { AgreeIndexed(entries, index, bytes, payloadBytes, nextAddress); }
      ghost var before := View();
      if key in index { EraseLocked(key); } else { DropMissing(View(), key); }
      ghost var others := View();
      MakeRoomLocked(cost);
      var node := Node(nextAddress, Entry(key, value));
      InsertIndexed(before, entries, index, bytes, payloadBytes, nextAddress, key, value, limits);
      if NoWrap(before, key, value, limits) {
        PutInMachineRoom(before, key, value, limits);
        InsertAgrees(entries, index, bytes, payloadBytes, nextAddress, key, value);
      }
      entries := [node] + entries;
      index := index[key := node.id];
      nextAddress := nextAddress + 1;
      bytes := AddSize(bytes, cost);
      payloadBytes := AddSize(payloadBytes, AddSize(|key|, |value|));
      status := PutStored;
    }

    method Erase(key: Key) returns (found: bool)
      requires Valid()
      modifies this
      ensures Valid() && evictions == old(evictions)
      ensures var n := Apply(old(View()), OpErase(key), limits);
        View() == n.entries && n.outcome == (if found then Erased else Absent)
    {
      hide Indexed, Agree, Entries, WellFormed, Drop, HasKey;
      IndexedFacts(entries, index) by { AgreeIndexed(entries, index, bytes, payloadBytes, nextAddress); }
      ApplyKeepsBounds(View(), OpErase(key), limits);
      found := key in index;
      if found { EraseLocked(key); }
    }

    method Clear()
      requires Valid()
      modifies this
      ensures Valid() && View() == [] && bytes == 0 && payloadBytes == 0 && evictions == old(evictions)
    {
      index, entries, bytes, payloadBytes := map[], [], 0, 0;
    }

    /** Membership without promotion. */
    method Contains(key: Key) returns (r: bool)
      requires Valid()
      ensures r == HasKey(View(), key)
    {
      IndexedFacts(entries, index);
      r := key in index;
    }

    /** The counters reported are the list's own size and sums, and both limits hold. */
    method Snapshot() returns (count: nat, total: nat, payload: nat, evicted: nat)
      requires Valid()
      ensures count == |View()| <= limits.maxEntries
      ensures total == TotalCost(View()) == payload + ENTRY_OVERHEAD * count <= limits.maxBytes
      ensures payload == TotalPayload(View()) && evicted == evictions
    {
      IndexedFacts(entries, index);
      PayloadAndOverhead(View());
      count, total, payload, evicted := |index|, bytes, payloadBytes, evictions;
    }

    method KeysMruToLru() returns (keys: seq<Key>)
      requires Valid()
      ensures |keys| == |View()| && forall i :: 0 <= i < |keys| ==> keys[i] == View()[i].key
    {
      keys := [];
      for i := 0 to |entries|
        invariant |keys| == i && forall j :: 0 <= j < i ==> keys[j] == View()[j].key
      {
        keys := keys + [entries[i].entry.key];
      }
    }
  }
}
