/** The bounded recency cache of common/cache.rs (`LRUCache`).

    The store is the recency list of the underlying LRU map, most recently used item first.
    Serialised entries are represented by the entry itself. */
module Lru {
  import opened Wrappers

  datatype Entry<V> = Entry(value: V, expiresAt: nat) {
    predicate IsExpired(now: nat) {
      expiresAt <= now
    }
  }

  datatype Item<V> = Item(key: string, entry: Entry<V>)

  // ---------- The recency list ----------

  function Find<V>(s: seq<Item<V>>, k: string): (r: Option<Entry<V>>) {
    if s == [] then None
    else if s[0].key == k then Some(s[0].entry)
    else Find(s[1..], k)
  }

  predicate Has<V>(s: seq<Item<V>>, k: string) {
    Find(s, k).Some?
  }

  ghost predicate NoDup<V>(s: seq<Item<V>>) {
    s != [] ==> !Has(s[1..], s[0].key) && NoDup(s[1..])
  }

  /** The keys that stand before `k`. */
  ghost function Ahead<V>(s: seq<Item<V>>, k: string): set<string> {
    if s == [] || s[0].key == k then {} else {s[0].key} + Ahead(s[1..], k)
  }

  /** The three ways in which the cache drops items. */
  datatype Sieve = OtherThan(key: string) | LiveAt(now: nat) | NotAmong(keys: seq<string>)

  predicate Passes<V>(v: Sieve, x: Item<V>) {
    match v
    case OtherThan(k) => x.key != k
    case LiveAt(now) => !x.entry.IsExpired(now)
    case NotAmong(keys) => x.key !in keys
  }

  /** The items that pass, in their order. */
  function Sift<V>(s: seq<Item<V>>, v: Sieve): (r: seq<Item<V>>) {
    if s == [] then []
    else if Passes(v, s[0]) then [s[0]] + Sift(s[1..], v)
    else Sift(s[1..], v)
  }

  /** `put`: the item goes to the front, and a list grown past `capacity` loses its last item. */
  function Put<V>(s: seq<Item<V>>, capacity: nat, x: Item<V>): (r: seq<Item<V>>) {
    var grown := [x] + Sift(s, OtherThan(x.key));
    if |grown| > capacity then grown[..capacity] else grown
  }

  lemma FindCons<V>(x: Item<V>, s: seq<Item<V>>, k: string)
    ensures Find([x] + s, k) == if x.key == k then Some(x.entry) else Find(s, k)
    ensures Ahead([x] + s, k) == if x.key == k then {} else {x.key} + Ahead(s, k)
    ensures NoDup([x] + s) <==> !Has(s, x.key) && NoDup(s)
  {
    assert ([x] + s)[1..] == s;
  }

  lemma {:induction false} SiftConcat<V>(s: seq<Item<V>>, t: seq<Item<V>>, v: Sieve)
    ensures Sift(s + t, v) == Sift(s, v) + Sift(t, v)
  {
    if s == [] {
      assert s + t == t;
    } else {
      assert (s + t)[1..] == s[1..] + t;
      SiftConcat(s[1..], t, v);
    }
  }

  lemma {:induction false} SiftFind<V>(s: seq<Item<V>>, v: Sieve, k: string)
    requires NoDup(s)
    ensures Find(Sift(s, v), k) ==
            if Has(s, k) && Passes(v, Item(k, Find(s, k).value)) then Find(s, k) else None
    ensures Has(Sift(s, v), k) ==> Ahead(Sift(s, v), k) <= Ahead(s, k)
  {
    if s != [] {
      SiftFind(s[1..], v, k);
      if Passes(v, s[0]) { FindCons(s[0], Sift(s[1..], v), k); }
    }
  }

  lemma {:induction false} SiftKeeps<V>(s: seq<Item<V>>, v: Sieve)
    requires NoDup(s)
    ensures NoDup(Sift(s, v)) && |Sift(s, v)| <= |s|
  {
    if s != [] {
      SiftKeeps(s[1..], v);
      SiftFind(s[1..], v, s[0].key);
      FindCons(s[0], Sift(s[1..], v), s[0].key);
    }
  }

  lemma {:induction false} SiftAll<V>(s: seq<Item<V>>, v: Sieve)
    requires forall x | x in s :: Passes(v, x)
    ensures Sift(s, v) == s
  {
    if s != [] { SiftAll(s[1..], v); }
  }

  /** Popping the key of a present item removes exactly one item. */
  lemma {:induction false} PopLength<V>(s: seq<Item<V>>, k: string)
    requires NoDup(s)
    ensures |Sift(s, OtherThan(k))| == if Has(s, k) then |s| - 1 else |s|
  {
    if s != [] { PopLength(s[1..], k); }
  }

  lemma {:induction false} HasMember<V>(s: seq<Item<V>>, x: Item<V>)
    requires NoDup(s)
    ensures x in s <==> Find(s, x.key) == Some(x.entry)
  {
    if s != [] {
      assert x in s <==> x == s[0] || x in s[1..];
      HasMember(s[1..], x);
    }
  }

  lemma {:induction false} TakeKeeps<V>(s: seq<Item<V>>, n: nat)
    requires NoDup(s) && n <= |s|
    ensures NoDup(s[..n])
  {
    if n > 0 {
      assert s[..n] == [s[0]] + s[1..][..n - 1];
      TakeKeeps(s[1..], n - 1);
      TakeFind(s[1..], n - 1, s[0].key);
      FindCons(s[0], s[1..][..n - 1], s[0].key);
    }
  }

  /** Cutting a list to `n` items spares every key with fewer than `n` keys ahead of it. */
  lemma {:induction false} TakeFind<V>(s: seq<Item<V>>, n: nat, k: string)
    requires NoDup(s) && n <= |s|
    ensures Has(s[..n], k) ==> Find(s[..n], k) == Find(s, k)
    ensures Has(s, k) && |Ahead(s, k)| < n ==>
              Find(s[..n], k) == Find(s, k) && Ahead(s[..n], k) == Ahead(s, k)
  {
    if n > 0 {
      var rest := s[1..][..n - 1];
      assert s[..n] == [s[0]] + rest;
      FindCons(s[0], rest, k);
      TakeFind(s[1..], n - 1, k);
      if s[0].key != k {
        AheadPresent(s[1..], k, s[0].key);
        assert |Ahead(s, k)| == 1 + |Ahead(s[1..], k)|;
      }
    }
  }

  lemma {:induction false} AheadPresent<V>(s: seq<Item<V>>, k: string, other: string)
    ensures other in Ahead(s, k) ==> Has(s, other)
  {
    if s != [] { AheadPresent(s[1..], k, other); }
  }

  // ---------- Operations as steps ----------

  datatype Op<V> =
    | Get(key: string, now: nat)
    | Store(key: string, value: V, ttl: nat, now: nat)
    | Remove(key: string)
    | Clear
    | Cleanup(now: nat)

  /** The answer of `get_from_cache`. */
  function Answer<V>(s: seq<Item<V>>, k: string, now: nat): (r: Option<V>) {
    var found := Find(s, k);
    if found.None? || found.value.IsExpired(now) then None else Some(found.value.value)
  }

  /** A hit moves its item to the front, and an expired item is popped. */
  function AfterGet<V>(s: seq<Item<V>>, k: string, now: nat): (r: seq<Item<V>>) {
    var found := Find(s, k);
    if found.None? then s
    else if found.value.IsExpired(now) then Sift(s, OtherThan(k))
    else [Item(k, found.value)] + Sift(s, OtherThan(k))
  }

  function Stored<V>(op: Op<V>): (r: Entry<V>)
    requires op.Store?
  {
    Entry(op.value, op.now + op.ttl)
  }

  function Step<V>(s: seq<Item<V>>, capacity: nat, op: Op<V>): (r: seq<Item<V>>) {
    match op
    case Get(k, now) => AfterGet(s, k, now)
    case Store(k, _, _, _) => Put(s, capacity, Item(k, Stored(op)))
    case Remove(k) => Sift(s, OtherThan(k))
    case Clear => []
    case Cleanup(now) => Sift(s, LiveAt(now))
  }

  function Run<V>(s: seq<Item<V>>, capacity: nat, ops: seq<Op<V>>): (r: seq<Item<V>>)
    decreases |ops|
  {
    if ops == [] then s
    else Step(Run(s, capacity, ops[..|ops| - 1]), capacity, ops[|ops| - 1])
  }

  // ---------- The effect of each operation on the list ----------

  /** The list without its i-th item. */
  function Without<V>(s: seq<Item<V>>, i: nat): (r: seq<Item<V>>)
    requires i < |s|
  {
    s[..i] + s[i + 1..]
  }

  lemma {:induction false} SiftAt<V>(s: seq<Item<V>>, i: nat)
    requires NoDup(s) && i < |s|
    ensures Find(s, s[i].key) == Some(s[i].entry)
    ensures Sift(s, OtherThan(s[i].key)) == Without(s, i)
  {
    if i == 0 {
      SiftAbsent(s[1..], s[0].key);
    } else {
      SiftAt(s[1..], i - 1);
      assert Has(s[1..], s[i].key);
      assert Without(s, i) == [s[0]] + Without(s[1..], i - 1);
    }
  }

  lemma {:induction false} SiftAbsent<V>(s: seq<Item<V>>, k: string)
    requires !Has(s, k)
    ensures Sift(s, OtherThan(k)) == s
  {
    if s != [] { SiftAbsent(s[1..], k); }
  }

  lemma {:induction false} AbsentKey<V>(s: seq<Item<V>>, k: string)
    requires forall i | 0 <= i < |s| :: s[i].key != k
    ensures !Has(s, k)
  {
    if s != [] {
      assert forall i | 0 <= i < |s[1..]| :: s[1..][i] == s[i + 1];
      AbsentKey(s[1..], k);
    }
  }

  /** A `get` of the i-th item moves it to the front, if it has not expired, and takes it out otherwise. */
  lemma GetEffect<V>(s: seq<Item<V>>, capacity: nat, i: nat, now: nat)
    requires NoDup(s) && i < |s|
    ensures Step(s, capacity, Get(s[i].key, now)) ==
            if now < s[i].entry.expiresAt then [s[i]] + Without(s, i) else Without(s, i)
    ensures Answer(s, s[i].key, now) == if now < s[i].entry.expiresAt then Some(s[i].entry.value) else None
  {
    SiftAt(s, i);
  }

  /** A store of the key of the i-th item replaces the item by a fresh one in front. */
  lemma StoreEffect<V>(s: seq<Item<V>>, capacity: nat, i: nat, v: V, ttl: nat, now: nat)
    requires WellFormed(s, capacity) && i < |s|
    ensures Step(s, capacity, Store(s[i].key, v, ttl, now)) ==
            [Item(s[i].key, Entry(v, now + ttl))] + Without(s, i)
  {
    SiftAt(s, i);
  }

  /** A removal takes the i-th item out. */
  lemma RemoveEffect<V>(s: seq<Item<V>>, capacity: nat, i: nat)
    requires NoDup(s) && i < |s|
    ensures Step(s, capacity, Op.Remove(s[i].key)) == Without(s, i)
  {
    SiftAt(s, i);
  }

  /** A key that is not there: a `get` and a removal change nothing, and a store puts a new item in front,
      at the cost of the last item of a full list. */
  lemma AbsentEffect<V>(s: seq<Item<V>>, capacity: nat, k: string, v: V, ttl: nat, now: nat)
    requires |s| <= capacity && capacity > 0 && forall i | 0 <= i < |s| :: s[i].key != k
    ensures Step(s, capacity, Get(k, now)) == s && Answer(s, k, now) == None
    ensures Step(s, capacity, Op.Remove(k)) == s
    ensures Step(s, capacity, Store(k, v, ttl, now)) ==
            [Item(k, Entry(v, now + ttl))] + if |s| < capacity then s else s[..capacity - 1]
  {
    AbsentKey(s, k);
    SiftAbsent(s, k);
  }

  /** A cleanup goes through the list from the end and keeps the items that have not expired. */
  lemma CleanupEffect<V>(s: seq<Item<V>>, capacity: nat, x: Item<V>, now: nat)
    ensures Step<V>([], capacity, Cleanup(now)) == []
    ensures Step(s + [x], capacity, Cleanup(now)) ==
            Step(s, capacity, Cleanup(now)) + if now < x.entry.expiresAt then [x] else []
    ensures Step(s, capacity, Op.Clear) == []
  {
    SiftConcat(s, [x], LiveAt(now));
    assert [x][1..] == [];
  }

  // ---------- Each operation keeps the list well formed ----------

  ghost predicate WellFormed<V>(s: seq<Item<V>>, capacity: nat) {
    NoDup(s) && |s| <= capacity
  }

  lemma GrownKeeps<V>(s: seq<Item<V>>, x: Item<V>)
    requires NoDup(s)
    ensures NoDup([x] + Sift(s, OtherThan(x.key)))
    ensures forall k | k != x.key :: Find([x] + Sift(s, OtherThan(x.key)), k) == Find(s, k)
  {
    var w := Sift(s, OtherThan(x.key));
    SiftKeeps(s, OtherThan(x.key));
    SiftFind(s, OtherThan(x.key), x.key);
    FindCons(x, w, x.key);
    forall k | k != x.key ensures Find([x] + w, k) == Find(s, k) {
      SiftFind(s, OtherThan(x.key), k);
      FindCons(x, w, k);
    }
  }

  lemma PutKeeps<V>(s: seq<Item<V>>, capacity: nat, x: Item<V>)
    requires NoDup(s) && capacity > 0
    ensures WellFormed(Put(s, capacity, x), capacity)
    ensures Find(Put(s, capacity, x), x.key) == Some(x.entry) && Ahead(Put(s, capacity, x), x.key) == {}
    ensures forall k | k != x.key && Has(Put(s, capacity, x), k) :: Find(Put(s, capacity, x), k) == Find(s, k)
  {
    var grown := [x] + Sift(s, OtherThan(x.key));
    GrownKeeps(s, x);
    if |grown| > capacity {
      TakeKeeps(grown, capacity);
      forall k ensures Has(grown[..capacity], k) ==> Find(grown[..capacity], k) == Find(grown, k) {
        TakeFind(grown, capacity, k);
      }
    }
  }

  lemma AfterGetKeeps<V>(s: seq<Item<V>>, k: string, now: nat)
    requires NoDup(s)
    ensures NoDup(AfterGet(s, k, now)) && |AfterGet(s, k, now)| <= |s|
  {
    SiftKeeps(s, OtherThan(k));
    PopLength(s, k);
    if Has(s, k) { GrownKeeps(s, Item(k, Find(s, k).value)); }
  }

  lemma StepKeeps<V>(s: seq<Item<V>>, capacity: nat, op: Op<V>)
    requires WellFormed(s, capacity) && capacity > 0
    ensures WellFormed(Step(s, capacity, op), capacity)
  {
    match op
    case Get(k, now) => AfterGetKeeps(s, k, now);
    case Store(k, _, _, _) => PutKeeps(s, capacity, Item(k, Stored(op)));
    case Remove(k) => SiftKeeps(s, OtherThan(k));
    case Clear =>
    case Cleanup(now) => SiftKeeps(s, LiveAt(now));
  }

  /** Every run keeps at most one item per key and at most `capacity` items. */
  lemma {:induction false} RunKeeps<V>(s: seq<Item<V>>, capacity: nat, ops: seq<Op<V>>)
    requires WellFormed(s, capacity) && capacity > 0
    ensures WellFormed(Run(s, capacity, ops), capacity)
    decreases |ops|
  {
    if ops != [] {
      RunKeeps(s, capacity, ops[..|ops| - 1]);
      StepKeeps(Run(s, capacity, ops[..|ops| - 1]), capacity, ops[|ops| - 1]);
    }
  }

  // ---------- The never-evicting reference list ----------

  /** A recency list that never evicts. `present` says whether the bounded cache found the key of a
      `Get`: the reference is given the same hits and expiry removals. */
  ghost function ReferenceStep<V>(t: seq<Item<V>>, op: Op<V>, present: bool): seq<Item<V>> {
    match op
    case Get(k, now) => if present then AfterGet(t, k, now) else t
    case Store(k, _, _, _) => [Item(k, Stored(op))] + Sift(t, OtherThan(k))
    case Remove(k) => Sift(t, OtherThan(k))
    case Clear => []
    case Cleanup(now) => Sift(t, LiveAt(now))
  }

  /** The reference list after the operations, when cache and reference start from `s`. */
  ghost function ReferenceRun<V>(s: seq<Item<V>>, capacity: nat, ops: seq<Op<V>>): seq<Item<V>>
    decreases |ops|
  {
    if ops == [] then s
    else
      var before, op := ops[..|ops| - 1], ops[|ops| - 1];
      ReferenceStep(ReferenceRun(s, capacity, before), op, op.Get? && Has(Run(s, capacity, before), op.key))
  }

  lemma SiftPrefix<V>(s: seq<Item<V>>, t: seq<Item<V>>, v: Sieve)
    requires s <= t
    ensures Sift(s, v) <= Sift(t, v)
  {
    assert t == s + t[|s|..];
    SiftConcat(s, t[|s|..], v);
  }

  lemma {:induction false} FindPrefix<V>(s: seq<Item<V>>, t: seq<Item<V>>, k: string)
    requires s <= t && Has(s, k)
    ensures Find(t, k) == Find(s, k)
  {
    assert s[0] == t[0];
    if s[0].key != k { FindPrefix(s[1..], t[1..], k); }
  }

  lemma StepKeepsPrefix<V>(s: seq<Item<V>>, t: seq<Item<V>>, capacity: nat, op: Op<V>)
    requires s <= t
    ensures Step(s, capacity, op) <= ReferenceStep(t, op, op.Get? && Has(s, op.key))
  {
    match op
    case Get(k, now) =>
      SiftPrefix(s, t, OtherThan(k));
      if Has(s, k) { FindPrefix(s, t, k); }
    case Store(k, _, _, _) => SiftPrefix(s, t, OtherThan(k));
    case Remove(k) => SiftPrefix(s, t, OtherThan(k));
    case Clear =>
    case Cleanup(now) => SiftPrefix(s, t, LiveAt(now));
  }

  /** Eviction only ever cuts the tail: after every run, from whatever list a resize has left, the cache
      is a prefix of the recency list that the same hits, stores and removals leave when nothing is
      evicted. */
  lemma {:induction false} RunIsPrefixOfReference<V>(s: seq<Item<V>>, capacity: nat, ops: seq<Op<V>>)
    ensures Run(s, capacity, ops) <= ReferenceRun(s, capacity, ops)
    decreases |ops|
  {
    if ops != [] {
      var before := ops[..|ops| - 1];
      RunIsPrefixOfReference(s, capacity, before);
      StepKeepsPrefix(Run(s, capacity, before), ReferenceRun(s, capacity, before), capacity, ops[|ops| - 1]);
    }
  }

  // ---------- Retention: fewer than `capacity` other keys used since ----------

  /** The keys that the operations may bring to the front. */
  ghost function Used<V>(ops: seq<Op<V>>): set<string>
    decreases |ops|
  {
    if ops == [] then {}
    else
      var op := ops[|ops| - 1];
      Used(ops[..|ops| - 1]) + if op.Get? || op.Store? then {op.key} else {}
  }

  /** An operation that leaves the store of `k` in force, at a time before `deadline`. */
  ghost predicate Leaves<V>(op: Op<V>, k: string, deadline: nat) {
    match op
    case Get(_, now) => now < deadline
    case Store(k', _, _, _) => k' != k
    case Remove(k') => k' != k
    case Clear => false
    case Cleanup(now) => now < deadline
  }

  /** `x` is in the list and only keys of `used` stand before it. */
  ghost predicate Behind<V>(s: seq<Item<V>>, x: Item<V>, used: set<string>) {
    Find(s, x.key) == Some(x.entry) && Ahead(s, x.key) <= used
  }

  lemma GrownBehind<V>(s: seq<Item<V>>, x: Item<V>, used: set<string>, y: Item<V>)
    requires NoDup(s) && Behind(s, x, used) && y.key != x.key
    ensures Behind([y] + Sift(s, OtherThan(y.key)), x, used + {y.key})
  {
    SiftFind(s, OtherThan(y.key), x.key);
    FindCons(y, Sift(s, OtherThan(y.key)), x.key);
  }

  lemma PutBehind<V>(s: seq<Item<V>>, x: Item<V>, used: set<string>, y: Item<V>, capacity: nat)
    requires NoDup(s) && Behind(s, x, used) && y.key != x.key
    requires |used + {y.key}| < capacity
    ensures Behind(Put(s, capacity, y), x, used + {y.key})
  {
    var grown := [y] + Sift(s, OtherThan(y.key));
    GrownBehind(s, x, used, y);
    GrownKeeps(s, y);
    SubsetSize(Ahead(grown, x.key), used + {y.key});
    if |grown| > capacity { TakeFind(grown, capacity, x.key); }
  }

  lemma GetBehind<V>(s: seq<Item<V>>, x: Item<V>, used: set<string>, k: string, now: nat)
    requires NoDup(s) && Behind(s, x, used) && !x.entry.IsExpired(now)
    ensures Behind(AfterGet(s, k, now), x, used + ({k} - {x.key}))
  {
    SiftFind(s, OtherThan(k), x.key);
    if k == x.key {
      FindCons(x, Sift(s, OtherThan(k)), k);
    } else if Has(s, k) {
      GrownBehind(s, x, used, Item(k, Find(s, k).value));
    }
  }

  lemma StepRetains<V>(s: seq<Item<V>>, x: Item<V>, used: set<string>, capacity: nat, op: Op<V>)
    requires NoDup(s) && Behind(s, x, used)
    requires Leaves(op, x.key, x.entry.expiresAt)
    requires op.Store? ==> |used + {op.key}| < capacity
    ensures Behind(Step(s, capacity, op), x, used + if op.Get? || op.Store? then {op.key} - {x.key} else {})
  {
    match op
    case Get(k, now) => GetBehind(s, x, used, k, now);
    case Store(k, _, _, _) => PutBehind(s, x, used, Item(k, Stored(op)), capacity);
    case Remove(k) => SiftFind(s, OtherThan(k), x.key);
    case Clear =>
    case Cleanup(now) => SiftFind(s, LiveAt(now), x.key);
  }

  lemma {:induction false} RunRetains<V>(s: seq<Item<V>>, x: Item<V>, capacity: nat, ops: seq<Op<V>>)
    requires WellFormed(s, capacity) && Behind(s, x, {})
    requires forall i | 0 <= i < |ops| :: Leaves(ops[i], x.key, x.entry.expiresAt)
    requires |Used(ops) - {x.key}| < capacity
    ensures Behind(Run(s, capacity, ops), x, Used(ops) - {x.key})
    decreases |ops|
  {
    if ops != [] {
      var before, op := ops[..|ops| - 1], ops[|ops| - 1];
      var used := Used(before) - {x.key};
      var now := if op.Get? || op.Store? then {op.key} - {x.key} else {};
      assert Used(ops) - {x.key} == used + now;
      SubsetSize(used, used + now);
      RunRetains(s, x, capacity, before);
      RunKeeps(s, capacity, before);
      StepRetains(Run(s, capacity, before), x, used, capacity, op);
    }
  }

  lemma FrontIsServed<V>(s: seq<Item<V>>, x: Item<V>, capacity: nat, ops: seq<Op<V>>, now: nat)
    requires WellFormed(s, capacity) && Behind(s, x, {}) && now < x.entry.expiresAt
    requires forall i | 0 <= i < |ops| :: Leaves(ops[i], x.key, x.entry.expiresAt)
    requires |Used(ops) - {x.key}| < capacity
    ensures Answer(Run(s, capacity, ops), x.key, now) == Some(x.entry.value)
  {
    RunRetains(s, x, capacity, ops);
  }

  lemma StoreFront<V>(s: seq<Item<V>>, capacity: nat, k: string, v: V, ttl: nat, at: nat)
    requires WellFormed(s, capacity) && capacity > 0
    ensures WellFormed(Step(s, capacity, Store(k, v, ttl, at)), capacity)
    ensures Behind(Step(s, capacity, Store(k, v, ttl, at)), Item(k, Entry(v, at + ttl)), {})
  {
    PutKeeps(s, capacity, Item(k, Entry(v, at + ttl)));
  }

  /** The LRU guarantee: a value stored at time `at` is still served before `at + ttl`, whatever happened
      before the store, as long as fewer than `capacity` other keys were read or stored since, and nothing
      removed or overwrote it. */
  lemma StoredValueIsRetained<V>(s: seq<Item<V>>, capacity: nat, k: string, v: V, ttl: nat, at: nat,
                                 ops: seq<Op<V>>, now: nat)
    requires WellFormed(s, capacity) && now < at + ttl
    requires forall i | 0 <= i < |ops| :: Leaves(ops[i], k, at + ttl)
    requires |Used(ops) - {k}| < capacity
    ensures Answer(Run(Step(s, capacity, Store(k, v, ttl, at)), capacity, ops), k, now) == Some(v)
  {
    StoreFront(s, capacity, k, v, ttl, at);
    FrontIsServed(Step(s, capacity, Store(k, v, ttl, at)), Item(k, Entry(v, at + ttl)), capacity, ops, now);
  }

  /** A hit counts like a store: the value that it gives is still served, until it expires, as long as fewer
      than `capacity` other keys were read or stored since the hit. */
  lemma HitIsRetained<V>(s: seq<Item<V>>, capacity: nat, i: nat, at: nat, ops: seq<Op<V>>, now: nat)
    requires WellFormed(s, capacity) && i < |s| && at < s[i].entry.expiresAt && now < s[i].entry.expiresAt
    requires forall j | 0 <= j < |ops| :: Leaves(ops[j], s[i].key, s[i].entry.expiresAt)
    requires |Used(ops) - {s[i].key}| < capacity
    ensures Answer(Run(Step(s, capacity, Get(s[i].key, at)), capacity, ops), s[i].key, now) == Some(s[i].entry.value)
  {
    GetEffect(s, capacity, i, at);
    StepKeeps<V>(s, capacity, Get(s[i].key, at));
    FindCons(s[i], Without(s, i), s[i].key);
    FrontIsServed(Step(s, capacity, Get(s[i].key, at)), s[i], capacity, ops, now);
  }

  // ---------- Resizing ----------

  function Reversed<V>(s: seq<Item<V>>): (r: seq<Item<V>>)
    ensures |r| == |s|
  {
    if s == [] then [] else Reversed(s[1..]) + [s[0]]
  }

  lemma {:induction false} ReversedAt<V>(s: seq<Item<V>>, i: nat)
    requires i < |s|
    ensures Reversed(s)[|s| - 1 - i] == s[i]
  {
    if i > 0 { ReversedAt(s[1..], i - 1); }
  }

  /** Re-inserting `items` one by one, as a resize does, on top of `into`. */
  function Refill<V>(into: seq<Item<V>>, capacity: nat, items: seq<Item<V>>): (r: seq<Item<V>>)
    decreases |items|
  {
    if items == [] then into else Refill(Put(into, capacity, items[0]), capacity, items[1..])
  }

  ghost function Cut<V>(s: seq<Item<V>>, n: nat): (r: seq<Item<V>>) {
    if |s| > n then s[..n] else s
  }

  /** No key stands in both lists. */
  ghost predicate Apart<V>(s: seq<Item<V>>, t: seq<Item<V>>) {
    forall k :: !(Has(s, k) && Has(t, k))
  }

  lemma PutNew<V>(into: seq<Item<V>>, capacity: nat, items: seq<Item<V>>)
    requires NoDup(items) && NoDup(into) && Apart(items, into) && capacity > 0 && items != []
    ensures Put(into, capacity, items[0]) == Cut([items[0]] + into, capacity)
    ensures WellFormed(Put(into, capacity, items[0]), capacity)
    ensures Apart(items[1..], Put(into, capacity, items[0]))
  {
    var x := items[0];
    assert Has(items, x.key);
    SiftAbsent(into, x.key);
    PutKeeps(into, capacity, x);
    assert forall k | Has(items[1..], k) :: k != x.key && Has(items, k);
  }

  /** A resize reverses the recency order and keeps the front of the reversed list. */
  lemma {:induction false} RefillReverses<V>(into: seq<Item<V>>, capacity: nat, items: seq<Item<V>>)
    requires NoDup(items) && WellFormed(into, capacity) && Apart(items, into) && capacity > 0
    ensures Refill(into, capacity, items) == Cut(Reversed(items) + into, capacity)
    decreases |items|
  {
    if items == [] {
      assert Reversed(items) + into == into;
    } else {
      PutNew(into, capacity, items);
      RefillReverses(Put(into, capacity, items[0]), capacity, items[1..]);
      assert Reversed(items[1..]) + ([items[0]] + into) == Reversed(items) + into;
    }
  }

  /** The list after a resize to `capacity`. */
  ghost function Resized<V>(s: seq<Item<V>>, capacity: nat): seq<Item<V>> {
    Cut(Reversed(s), capacity)
  }

  lemma {:induction false} NoDupAt<V>(s: seq<Item<V>>, i: nat, j: nat)
    requires NoDup(s) && i < j < |s|
    ensures s[i].key != s[j].key
  {
    if i == 0 {
      HasMember(s[1..], s[1..][j - 1]);
    } else {
      NoDupAt(s[1..], i - 1, j - 1);
    }
  }

  /** Exactly the `capacity` least recently used items survive a resize, with their values. A shrink
      therefore drops the most recently used items first. */
  lemma ResizeSurvivors<V>(s: seq<Item<V>>, capacity: nat, i: nat)
    requires NoDup(s) && i < |s|
    ensures |Resized(s, capacity)| == Min(|s|, capacity)
    ensures s[i] in Resized(s, capacity) <==> i + capacity >= |s|
  {
    ReversedAt(s, i);
    if i + capacity >= |s| {
      assert Resized(s, capacity)[|s| - 1 - i] == s[i];
    } else if s[i] in Resized(s, capacity) {
      var j :| 0 <= j < capacity && Resized(s, capacity)[j] == s[i];
      ReversedAt(s, |s| - 1 - j);
      NoDupAt(s, i, |s| - 1 - j);
    }
  }

  /** When both capacities suffice, a resize keeps every item and a second one restores the order. */
  lemma ResizeTwiceRestores<V>(s: seq<Item<V>>, first: nat, second: nat)
    requires |s| <= first && |s| <= second
    ensures Resized(Resized(s, first), second) == s
    ensures multiset(Resized(s, first)) == multiset(s)
  {
    ReversedTwice(s);
    ReversedMembers(s);
  }

  lemma ReversedTwice<V>(s: seq<Item<V>>)
    ensures Reversed(Reversed(s)) == s
  {
    forall i | 0 <= i < |s| ensures Reversed(Reversed(s))[i] == s[i] {
      ReversedAt(Reversed(s), |s| - 1 - i);
      ReversedAt(s, i);
    }
  }

  lemma {:induction false} ReversedMembers<V>(s: seq<Item<V>>)
    ensures multiset(Reversed(s)) == multiset(s)
  {
    if s != [] {
      ReversedMembers(s[1..]);
      assert s == [s[0]] + s[1..];
    }
  }

  // ---------- The whole life of a cache, with changes of its configuration ----------

  /** The cache: the capacity in its configuration, which may be absent, that of its store, and the list. */
  datatype State<V> = State(configured: Option<nat>, capacity: nat, items: seq<Item<V>>)

  datatype Event<V> = Use(op: Op<V>) | Update(config: Option<nat>)

  ghost predicate Sound<V>(c: State<V>) {
    c.capacity > 0 && WellFormed(c.items, c.capacity)
  }

  /** A capacity of zero is refused, unless the configured one is absent or zero as well. */
  predicate AcceptsConfig<V>(c: State<V>, config: Option<nat>) {
    config != Some(0) || c.configured == None || c.configured == Some(0)
  }

  /** The store is rebuilt when a new, positive capacity is configured. */
  ghost function Reconfigured<V>(c: State<V>, config: Option<nat>): State<V> {
    if !AcceptsConfig(c, config) then c
    else if config == None || config == c.configured || config == Some(0) then c.(configured := config)
    else State(config, config.value, Resized(c.items, config.value))
  }

  ghost function Next<V>(c: State<V>, e: Event<V>): State<V> {
    match e
    case Use(op) => c.(items := Step(c.items, c.capacity, op))
    case Update(config) => Reconfigured(c, config)
  }

  ghost function Lifetime<V>(c: State<V>, events: seq<Event<V>>): State<V>
    decreases |events|
  {
    if events == [] then c else Next(Lifetime(c, events[..|events| - 1]), events[|events| - 1])
  }

  /** A new positive capacity takes force: the store has it, and holds the last items of the old list, as
      many as fit, in reversed order. */
  lemma UpdateResizes<V>(c: State<V>, n: nat)
    requires Sound(c) && n > 0 && c.configured != Some(n)
    ensures var d := Next(c, Update(Some(n)));
            && d.configured == Some(n) && d.capacity == n && |d.items| == Min(|c.items|, n)
            && forall i | 0 <= i < |d.items| :: d.items[i] == c.items[|c.items| - 1 - i]
  {
    var d := Next(c, Update(Some(n)));
    forall i | 0 <= i < |d.items| ensures d.items[i] == c.items[|c.items| - 1 - i] {
      ReversedAt(c.items, |c.items| - 1 - i);
    }
  }

  /** Every other change of the configuration leaves the items and the capacity of the store alone. A zero
      is turned down when a positive capacity is configured. */
  lemma UpdateElsewise<V>(c: State<V>, config: Option<nat>)
    requires config == None || config == Some(0) || config == c.configured
    ensures var d := Next(c, Update(config));
            && d.items == c.items && d.capacity == c.capacity
            && (d.configured == if config == Some(0) && c.configured.Some? && c.configured.value > 0
                                then c.configured else config)
  {
  }

  /** The configured capacity and that of the store, as the history tells. */
  ghost function InForce<V>(configured: Option<nat>, capacity: nat, events: seq<Event<V>>): (Option<nat>, nat)
    decreases |events|
  {
    if events == [] then (configured, capacity)
    else
      var (was, size) := InForce(configured, capacity, events[..|events| - 1]);
      match events[|events| - 1]
      case Use(_) => (was, size)
      case Update(None) => (None, size)
      case Update(Some(n)) =>
        if n > 0 then (Some(n), if was == Some(n) then size else n)
        else (if was.Some? && was.value > 0 then was else Some(0), size)
  }

  /** Over the whole life of a cache, the capacity in force is the last positive one that was newly
      configured. */
  lemma {:induction false} CapacityInForce<V>(c: State<V>, events: seq<Event<V>>)
    ensures (Lifetime(c, events).configured, Lifetime(c, events).capacity)
            == InForce(c.configured, c.capacity, events)
    decreases |events|
  {
    if events != [] { CapacityInForce(c, events[..|events| - 1]); }
  }

  lemma {:induction false} RefillOrigin<V>(into: seq<Item<V>>, capacity: nat, items: seq<Item<V>>, k: string)
    requires NoDup(items) && WellFormed(into, capacity) && capacity > 0
    ensures WellFormed(Refill(into, capacity, items), capacity)
    ensures Has(Refill(into, capacity, items), k) ==>
              Find(Refill(into, capacity, items), k) == if Has(items, k) then Find(items, k) else Find(into, k)
    decreases |items|
  {
    if items != [] {
      PutKeeps(into, capacity, items[0]);
      RefillOrigin(Put(into, capacity, items[0]), capacity, items[1..], k);
    }
  }

  /** A resize invents nothing: what it keeps of a key is what was there. */
  lemma ResizedOrigin<V>(s: seq<Item<V>>, capacity: nat, k: string)
    requires NoDup(s) && capacity > 0
    ensures WellFormed(Resized(s, capacity), capacity)
    ensures Has(Resized(s, capacity), k) ==> Find(Resized(s, capacity), k) == Find(s, k)
  {
    RefillReverses([], capacity, s);
    assert Reversed(s) + [] == Reversed(s);
    RefillOrigin([], capacity, s, k);
  }

  lemma NextKeeps<V>(c: State<V>, e: Event<V>)
    requires Sound(c)
    ensures Sound(Next(c, e))
  {
    match e
    case Use(op) => StepKeeps(c.items, c.capacity, op);
    case Update(config) => if config.Some? && config != Some(0) { ResizedOrigin(c.items, config.value, ""); }
  }

  /** Over its whole life, with any number of resizes, a cache has at most one item per key and at most as
      many items as its current capacity. */
  lemma {:induction false} LifetimeKeeps<V>(c: State<V>, events: seq<Event<V>>)
    requires Sound(c)
    ensures Sound(Lifetime(c, events))
    decreases |events|
  {
    if events != [] {
      LifetimeKeeps(c, events[..|events| - 1]);
      NextKeeps(Lifetime(c, events[..|events| - 1]), events[|events| - 1]);
    }
  }

  /** The operations of a history, without the changes of configuration. */
  function Uses<V>(events: seq<Event<V>>): (r: seq<Op<V>>)
    decreases |events|
  {
    if events == [] then []
    else
      var before, e := Uses(events[..|events| - 1]), events[|events| - 1];
      if e.Use? then before + [e.op] else before
  }

  /** What the history says about `k`: the value of its last store and the time until which that is to be
      served, unless the key was removed since. */
  function LastStored<V>(ops: seq<Op<V>>, k: string): (r: Option<(V, nat)>)
    decreases |ops|
  {
    if ops == [] then None
    else
      match ops[|ops| - 1]
      case Store(k', v, ttl, now) => if k' == k then Some((v, now + ttl)) else LastStored(ops[..|ops| - 1], k)
      case Clear => None
      case Remove(k') => if k' == k then None else LastStored(ops[..|ops| - 1], k)
      case _ => LastStored(ops[..|ops| - 1], k)
  }

  lemma StepOrigin<V>(s: seq<Item<V>>, capacity: nat, op: Op<V>, k: string)
    requires NoDup(s) && capacity > 0 && Has(Step(s, capacity, op), k)
    ensures !op.Clear? && !(op.Remove? && op.key == k)
    ensures Find(Step(s, capacity, op), k) == if op.Store? && op.key == k then Some(Stored(op)) else Find(s, k)
  {
    match op
    case Get(k', now) =>
      SiftFind(s, OtherThan(k'), k);
      if Has(s, k') { FindCons(Item(k', Find(s, k').value), Sift(s, OtherThan(k')), k); }
    case Store(k', _, _, _) => PutKeeps(s, capacity, Item(k', Stored(op)));
    case Remove(k') => SiftFind(s, OtherThan(k'), k);
    case Clear =>
    case Cleanup(now) => SiftFind(s, LiveAt(now), k);
  }

  lemma LastStoredSnoc<V>(ops: seq<Op<V>>, op: Op<V>, k: string)
    ensures LastStored(ops + [op], k) ==
            if op.Store? && op.key == k then Some((op.value, op.now + op.ttl))
            else if op.Clear? || (op.Remove? && op.key == k) then None
            else LastStored(ops, k)
  {
    assert (ops + [op])[..|ops|] == ops;
  }

  lemma {:induction false} ItemsAreLastStores<V>(c: State<V>, events: seq<Event<V>>, k: string)
    requires Sound(c) && c.items == [] && Has(Lifetime(c, events).items, k)
    ensures var e := Find(Lifetime(c, events).items, k).value;
            LastStored(Uses(events), k) == Some((e.value, e.expiresAt))
    decreases |events|
  {
    if events != [] {
      var before, e := events[..|events| - 1], events[|events| - 1];
      var d := Lifetime(c, before);
      LifetimeKeeps(c, before);
      match e
      case Use(op) =>
        StepOrigin(d.items, d.capacity, op, k);
        LastStoredSnoc(Uses(before), op, k);
        if !(op.Store? && op.key == k) { ItemsAreLastStores(c, before, k); }
      case Update(config) =>
        if Reconfigured(d, config).items != d.items { ResizedOrigin(d.items, config.value, k); }
        ItemsAreLastStores(c, before, k);
    }
  }

  /** Over the whole life of a cache, with any number of resizes, every hit returns the value last stored
      under the key, and that store has not expired. */
  lemma HitIsLastStore<V>(c: State<V>, events: seq<Event<V>>, k: string, now: nat)
    requires c.capacity > 0 && c.items == []
    requires Answer(Lifetime(c, events).items, k, now).Some?
    ensures var last := LastStored(Uses(events), k);
            last.Some? && now < last.value.1 && Answer(Lifetime(c, events).items, k, now) == Some(last.value.0)
  {
    ItemsAreLastStores(c, events, k);
  }

  /** Operations between two changes of configuration. */
  ghost function AsEvents<V>(ops: seq<Op<V>>): (r: seq<Event<V>>)
    ensures |r| == |ops|
    decreases |ops|
  {
    if ops == [] then [] else AsEvents(ops[..|ops| - 1]) + [Use(ops[|ops| - 1])]
  }

  lemma {:induction false} LifetimeOfUses<V>(c: State<V>, events: seq<Event<V>>, ops: seq<Op<V>>)
    ensures var d := Lifetime(c, events);
            Lifetime(c, events + AsEvents(ops)) == d.(items := Run(d.items, d.capacity, ops))
    decreases |ops|
  {
    if ops == [] {
      assert events + AsEvents(ops) == events;
    } else {
      var before := ops[..|ops| - 1];
      LifetimeOfUses(c, events, before);
      assert events + AsEvents(ops) == events + AsEvents(before) + [Use(ops[|ops| - 1])];
    }
  }

  /** At any point of the life of a cache: the operations that follow leave a prefix of what the
      never-evicting list makes of them, until the next resize. */
  lemma PrefixBetweenResizes<V>(c: State<V>, events: seq<Event<V>>, ops: seq<Op<V>>)
    ensures var d := Lifetime(c, events);
            Lifetime(c, events + AsEvents(ops)).items <= ReferenceRun(d.items, d.capacity, ops)
  {
    var d := Lifetime(c, events);
    LifetimeOfUses(c, events, ops);
    RunIsPrefixOfReference(d.items, d.capacity, ops);
  }

  // ---------- The cache object ----------

  ghost function ExpiredKeys<V>(s: seq<Item<V>>, now: nat): (r: seq<string>) {
    if s == [] then []
    else if s[0].entry.IsExpired(now) then [s[0].key] + ExpiredKeys(s[1..], now)
    else ExpiredKeys(s[1..], now)
  }

  lemma {:induction false} SiftTwice<V>(s: seq<Item<V>>, keys: seq<string>, k: string)
    ensures Sift(Sift(s, NotAmong(keys)), OtherThan(k)) == Sift(s, NotAmong(keys + [k]))
  {
    if s != [] {
      SiftTwice(s[1..], keys, k);
      if Passes(NotAmong(keys), s[0]) {
      }
    }
  }

  lemma {:induction false} ExpiredKeysAre<V>(s: seq<Item<V>>, now: nat, k: string)
    requires NoDup(s)
    ensures k in ExpiredKeys(s, now) <==> Has(s, k) && Find(s, k).value.IsExpired(now)
  {
    if s != [] { ExpiredKeysAre(s[1..], now, k); }
  }

  lemma {:induction false} SiftAgrees<V>(s: seq<Item<V>>, v: Sieve, w: Sieve)
    requires forall x | x in s :: Passes(v, x) <==> Passes(w, x)
    ensures Sift(s, v) == Sift(s, w)
  {
    if s != [] { SiftAgrees(s[1..], v, w); }
  }

  /** Popping every expired key leaves exactly the live items. */
  lemma PoppingExpired<V>(s: seq<Item<V>>, now: nat)
    requires NoDup(s)
    ensures Sift(s, NotAmong(ExpiredKeys(s, now))) == Sift(s, LiveAt(now))
  {
    forall x | x in s ensures x.key in ExpiredKeys(s, now) <==> x.entry.IsExpired(now) {
      HasMember(s, x);
      ExpiredKeysAre(s, now, x.key);
    }
    SiftAgrees(s, NotAmong(ExpiredKeys(s, now)), LiveAt(now));
  }

  lemma PopFront<V>(s: seq<Item<V>>, x: Item<V>)
    ensures Sift([x] + Sift(s, OtherThan(x.key)), OtherThan(x.key)) == Sift(s, OtherThan(x.key))
  {
    SiftIdempotent(s, OtherThan(x.key));
  }

  lemma {:induction false} SiftIdempotent<V>(s: seq<Item<V>>, v: Sieve)
    ensures Sift(Sift(s, v), v) == Sift(s, v)
  {
    if s != [] {
      SiftIdempotent(s[1..], v);
    }
  }

  class LRUCache<V> {
    /** The capacity in the configuration, which may be absent and may differ from the store's. */
    var configured: Option<nat>
    var capacity: nat
    var entries: seq<Item<V>>

    ghost function Contents(): State<V>
      reads this
    {
      State(configured, capacity, entries)
    }

    ghost predicate Valid()
      reads this
    {
      Sound(Contents())
    }

    constructor (configured: Option<nat>, capacity: nat)
      requires capacity > 0
      ensures Valid() && entries == [] && this.configured == configured && this.capacity == capacity
    {
      this.configured, this.capacity, this.entries := configured, capacity, [];
    }

    /** `new`: an absent capacity means 1000 and a zero capacity is refused. */
    static method New(configured: Option<nat>) returns (cache: Option<LRUCache<V>>)
      ensures cache.None? <==> configured == Some(0)
      ensures cache.Some? ==> fresh(cache.value) && cache.value.Valid() && cache.value.entries == []
      ensures cache.Some? ==> cache.value.configured == configured
      ensures cache.Some? ==> cache.value.capacity == if configured.Some? then configured.value else 1000
    {
      var size := if configured.Some? then configured.value else 1000;
      if size == 0 { return None; }
      var c := new LRUCache(configured, size);
      cache := Some(c);
    }

    method GetFromCache(k: string, now: nat) returns (value: Option<V>)
      requires Valid()
      modifies this`entries
      ensures Valid()
      ensures value == Answer(old(entries), k, now)
      ensures Contents() == Next(old(Contents()), Use(Get(k, now)))
    {
      StepKeeps<V>(entries, capacity, Get(k, now));
      var found := Find(entries, k);
      if found.None? { return None; }
      // The lookup itself already moves the item to the front.
      entries := [Item(k, found.value)] + Sift(entries, OtherThan(k));
      if found.value.IsExpired(now) {
        PopFront(old(entries), Item(k, found.value));
        entries := Sift(entries, OtherThan(k));
        return None;
      }
      value := Some(found.value.value);
    }

    method StoreInCache(k: string, v: V, ttl: nat, now: nat)
      requires Valid()
      modifies this`entries
      ensures Valid()
      ensures Contents() == Next(old(Contents()), Use(Store(k, v, ttl, now)))
    {
      StepKeeps(entries, capacity, Store(k, v, ttl, now));
      entries := Put(entries, capacity, Item(k, Entry(v, now + ttl)));
    }

    method Remove(k: string)
      requires Valid()
      modifies this`entries
      ensures Valid()
      ensures Contents() == Next(old(Contents()), Use(Op.Remove(k)))
    {
      StepKeeps<V>(entries, capacity, Op.Remove(k));
      entries := Sift(entries, OtherThan(k));
    }

    method Clear()
      requires Valid()
      modifies this`entries
      ensures Valid()
      ensures Contents() == Next(old(Contents()), Use(Op.Clear))
    {
      entries := [];
    }

    /** Collects the expired keys, then pops them one at a time. */
    method CleanupCache(now: nat)
      requires Valid()
      modifies this`entries
      ensures Valid()
      ensures Contents() == Next(old(Contents()), Use(Cleanup(now)))
    {
      var expired: seq<string> := [];
      for i := 0 to |entries|
        invariant entries == old(entries)
        invariant expired + ExpiredKeys(entries[i..], now) == ExpiredKeys(entries, now)
      {
        if entries[i].entry.IsExpired(now) {
          expired := expired + [entries[i].key];
        }
      }
      assert expired == ExpiredKeys(entries, now);
      PoppingExpired(entries, now);
      SiftKeeps(entries, LiveAt(now));
      PopAll(expired);
    }

    /** The removal loop of the cleanup. */
    method PopAll(keys: seq<string>)
      modifies this`entries
      ensures entries == Sift(old(entries), NotAmong(keys))
    {
      SiftAll(entries, NotAmong([]));
      for i := 0 to |keys|
        invariant entries == Sift(old(entries), NotAmong(keys[..i]))
      {
        SiftTwice(old(entries), keys[..i], keys[i]);
        assert keys[..i + 1] == keys[..i] + [keys[i]];
        entries := Sift(entries, OtherThan(keys[i]));
      }
      assert keys[..|keys|] == keys;
    }

    /** Rebuilds the store when the configured capacity changes. An absent configured capacity counts
        as 0 in the comparison, so a zero capacity is accepted, without effect, in that case. */
    method UpdateConfig(config: Option<nat>) returns (ok: bool)
      requires Valid()
      modifies this
      ensures Valid()
      ensures ok <==> !(config == Some(0) && old(configured).Some? && old(configured).value > 0)
      ensures Contents() == Next(old(Contents()), Update(config))
    {
      if config.Some? {
        var current := if configured.Some? then configured.value else 0;
        if config.value != current {
          if config.value == 0 { return false; }
          var items := entries;
          entries, capacity := [], config.value;
          for i := 0 to |items|
            invariant configured == old(configured) && capacity == config.value
            invariant WellFormed(entries, capacity)
            invariant Refill(entries, capacity, items[i..]) == Refill([], capacity, items)
          {
            PutKeeps(entries, capacity, items[i]);
            entries := Put(entries, capacity, items[i]);
          }
          RefillReverses([], capacity, items);
          assert Reversed(items) + [] == Reversed(items);
        }
      }
      configured := config;
      ok := true;
    }
  }
}
