/** The in-memory cache of common/src/cache.rs (`BasicCache`), used sequentially.

    Values and expiry times live in two maps. Serialised values are the strings stored. */
module BasicCaches {
  import opened Wrappers

  /** The two maps of the cache. */
  datatype Tables = Tables(entries: map<string, string>, expirations: map<string, nat>)

  // ---------- Operations as functions on the two maps ----------

  /** The key has an expiry time that is not yet in the past. */
  predicate Unexpired(c: Tables, k: string, now: nat) {
    k in c.expirations && now <= c.expirations[k]
  }

  function Drop(c: Tables, keys: set<string>): (r: Tables) {
    Tables(c.entries - keys, c.expirations - keys)
  }

  function ExpiredKeys(c: Tables, now: nat): (r: set<string>) {
    set k | k in c.expirations && c.expirations[k] < now
  }

  function Swept(c: Tables, now: nat): (r: Tables) {
    Drop(c, ExpiredKeys(c, now))
  }

  function Answer(c: Tables, k: string, now: nat): (r: Option<string>) {
    if Unexpired(c, k, now) && k in c.entries then Some(c.entries[k]) else None
  }

  function AfterGet(c: Tables, k: string, now: nat): (r: Tables) {
    if Unexpired(c, k, now) then c else Drop(c, {k})
  }

  /** The tables a `set` decides on: a full cache is swept first. */
  function Cleared(c: Tables, maxSize: nat, sweptAt: nat): (r: Tables) {
    if |c.entries| >= maxSize then Swept(c, sweptAt) else c
  }

  predicate Accepts(c: Tables, maxSize: nat, sweptAt: nat) {
    |Cleared(c, maxSize, sweptAt).entries| < maxSize
  }

  /** `set` reads the clock twice: once for the sweep and once for the expiry time. */
  function AfterSet(c: Tables, maxSize: nat, k: string, v: string, ttl: nat, sweptAt: nat, now: nat): (r: Tables) {
    var c' := Cleared(c, maxSize, sweptAt);
    if Accepts(c, maxSize, sweptAt) then
      Tables(c'.entries[k := v], c'.expirations[k := now + ttl])
    else c'
  }

  datatype Op =
    | Get(key: string, now: nat)
    | Set(key: string, value: string, ttl: nat, sweptAt: nat, now: nat)
    | Remove(key: string)
    | Clear
    | Cleanup(now: nat)

  function Step(c: Tables, maxSize: nat, op: Op): (r: Tables) {
    match op
    case Get(k, now) => AfterGet(c, k, now)
    case Set(k, v, ttl, sweptAt, now) => AfterSet(c, maxSize, k, v, ttl, sweptAt, now)
    case Remove(k) => Drop(c, {k})
    case Clear => Tables(map[], map[])
    case Cleanup(now) => Swept(c, now)
  }

  function Run(maxSize: nat, ops: seq<Op>): (r: Tables)
    decreases |ops|
  {
    if ops == [] then Tables(map[], map[])
    else Step(Run(maxSize, ops[..|ops| - 1]), maxSize, ops[|ops| - 1])
  }

  // ---------- The reference: an unbounded map from keys to timed values ----------

  datatype Timed = Timed(value: string, expiresAt: nat)

  ghost predicate Live(m: map<string, Timed>, k: string, now: nat) {
    k in m && now <= m[k].expiresAt
  }

  ghost function LiveKeys(m: map<string, Timed>, now: nat): set<string> {
    set k | k in m && now <= m[k].expiresAt
  }

  /** The reference never forgets a value by itself; a `set` counts as refused when `maxSize` keys are
      live at the time of the sweep. */
  ghost function ReferenceStep(m: map<string, Timed>, maxSize: nat, op: Op): map<string, Timed> {
    match op
    case Get(_, _) => m
    case Set(k, v, ttl, sweptAt, now) =>
      if |LiveKeys(m, sweptAt)| < maxSize then m[k := Timed(v, now + ttl)] else m
    case Remove(k) => m - {k}
    case Clear => map[]
    case Cleanup(_) => m
  }

  ghost function Reference(maxSize: nat, ops: seq<Op>): map<string, Timed>
    decreases |ops|
  {
    if ops == [] then map[]
    else ReferenceStep(Reference(maxSize, ops[..|ops| - 1]), maxSize, ops[|ops| - 1])
  }

  /** The latest clock reading of a run. */
  ghost function Clock(ops: seq<Op>): nat
    decreases |ops|
  {
    if ops == [] then 0
    else
      var op := ops[|ops| - 1];
      if op.Get? || op.Set? || op.Cleanup? then op.now else Clock(ops[..|ops| - 1])
  }

  /** The clock never goes back. */
  ghost predicate Ordered(ops: seq<Op>)
    decreases |ops|
  {
    ops == [] ||
    var before, op := ops[..|ops| - 1], ops[|ops| - 1];
    && Ordered(before)
    && (op.Get? || op.Cleanup? ==> Clock(before) <= op.now)
    && (op.Set? ==> Clock(before) <= op.sweptAt <= op.now)
  }

  // ---------- The simulation ----------

  /** The tables hold the reference's values, except some that had expired by `now`. */
  ghost predicate Agrees(c: Tables, m: map<string, Timed>, maxSize: nat, now: nat) {
    && c.entries.Keys == c.expirations.Keys
    && |c.entries| <= maxSize
    && (forall k | k in c.entries :: k in m && m[k] == Timed(c.entries[k], c.expirations[k]))
    && (forall k | k in m && k !in c.entries :: m[k].expiresAt < now)
  }

  /** A swept table holds exactly the live keys of the reference. */
  lemma SweptKeys(c: Tables, m: map<string, Timed>, maxSize: nat, before: nat, now: nat)
    requires Agrees(c, m, maxSize, before) && before <= now
    ensures Agrees(Swept(c, now), m, maxSize, now)
    ensures Swept(c, now).entries.Keys == LiveKeys(m, now)
  {
  }

  /** A `set` is accepted exactly when fewer than `maxSize` keys are live, even for an overwrite. */
  lemma AcceptsIffRoom(c: Tables, m: map<string, Timed>, maxSize: nat, before: nat, sweptAt: nat)
    requires Agrees(c, m, maxSize, before) && before <= sweptAt
    ensures Accepts(c, maxSize, sweptAt) <==> |LiveKeys(m, sweptAt)| < maxSize
    ensures Agrees(Cleared(c, maxSize, sweptAt), m, maxSize, sweptAt)
  {
    SweptKeys(c, m, maxSize, before, sweptAt);
    assert |Swept(c, sweptAt).entries| == |LiveKeys(m, sweptAt)|;
    if |c.entries| < maxSize {
      SubsetSize(LiveKeys(m, sweptAt), c.entries.Keys);
      assert |c.entries.Keys| == |c.entries|;
    }
  }

  lemma SetAgrees(c: Tables, m: map<string, Timed>, maxSize: nat, before: nat,
                  k: string, v: string, ttl: nat, sweptAt: nat, now: nat)
    requires Agrees(c, m, maxSize, before) && before <= sweptAt <= now
    ensures Agrees(AfterSet(c, maxSize, k, v, ttl, sweptAt, now),
                   ReferenceStep(m, maxSize, Set(k, v, ttl, sweptAt, now)), maxSize, now)
  {
    AcceptsIffRoom(c, m, maxSize, before, sweptAt);
  }

  lemma StepAgrees(c: Tables, m: map<string, Timed>, maxSize: nat, before: nat, op: Op, now: nat)
    requires Agrees(c, m, maxSize, before) && before <= now
    requires op.Get? || op.Set? || op.Cleanup? ==> op.now == now
    requires op.Set? ==> before <= op.sweptAt <= now
    ensures Agrees(Step(c, maxSize, op), ReferenceStep(m, maxSize, op), maxSize, now)
  {
    match op
    case Get(_, _) =>
    case Set(k, v, ttl, sweptAt, _) => SetAgrees(c, m, maxSize, before, k, v, ttl, sweptAt, now);
    case Remove(k) => SubsetSize(Drop(c, {k}).entries.Keys, c.entries.Keys);
    case Clear =>
    case Cleanup(_) => SweptKeys(c, m, maxSize, before, now);
  }

  lemma {:induction false} RunAgrees(maxSize: nat, ops: seq<Op>)
    requires Ordered(ops)
    ensures Agrees(Run(maxSize, ops), Reference(maxSize, ops), maxSize, Clock(ops))
    decreases |ops|
  {
    if ops != [] {
      var before, op := ops[..|ops| - 1], ops[|ops| - 1];
      RunAgrees(maxSize, before);
      StepAgrees(Run(maxSize, before), Reference(maxSize, before), maxSize, Clock(before), op, Clock(ops));
    }
  }

  /** Under sequential use the two maps have the same keys, at most `maxSize` of them. */
  lemma {:induction false} SameKeys(maxSize: nat, ops: seq<Op>)
    requires Ordered(ops)
    ensures Run(maxSize, ops).entries.Keys == Run(maxSize, ops).expirations.Keys
    ensures |Run(maxSize, ops).entries| <= maxSize
  {
    RunAgrees(maxSize, ops);
  }

  /** After every run, `get` answers as the unbounded timed map does. */
  lemma GetAgrees(maxSize: nat, ops: seq<Op>, k: string, now: nat)
    requires Ordered(ops) && Clock(ops) <= now
    ensures var m := Reference(maxSize, ops);
            Answer(Run(maxSize, ops), k, now) == if Live(m, k, now) then Some(m[k].value) else None
  {
    RunAgrees(maxSize, ops);
  }

  /** After every run, `set` is refused exactly when `maxSize` keys are live, also when it would only
      overwrite one of them. */
  lemma SetRefusedIffFull(maxSize: nat, ops: seq<Op>, sweptAt: nat)
    requires Ordered(ops) && Clock(ops) <= sweptAt
    ensures Accepts(Run(maxSize, ops), maxSize, sweptAt) <==> |LiveKeys(Reference(maxSize, ops), sweptAt)| < maxSize
  {
    RunAgrees(maxSize, ops);
    AcceptsIffRoom(Run(maxSize, ops), Reference(maxSize, ops), maxSize, Clock(ops), sweptAt);
  }

  // ---------- The two maps are one map of timed values ----------

  /** The unexpired part of a map of timed values. */
  ghost function LivePart(m: map<string, Timed>, now: nat): map<string, Timed> {
    map k | k in m && now <= m[k].expiresAt :: m[k]
  }

  /** The cache on a single map, exactly: an expired key goes when a `get` meets it and when a sweep
      comes, and a `set` sweeps only a full map. */
  ghost function OneMapStep(m: map<string, Timed>, maxSize: nat, op: Op): map<string, Timed> {
    match op
    case Get(k, now) => if k in m && m[k].expiresAt < now then m - {k} else m
    case Set(k, v, ttl, sweptAt, now) =>
      var room := if |m| < maxSize then m else LivePart(m, sweptAt);
      if |room| < maxSize then room[k := Timed(v, now + ttl)] else room
    case Remove(k) => m - {k}
    case Clear => map[]
    case Cleanup(now) => LivePart(m, now)
  }

  ghost function OneMap(maxSize: nat, ops: seq<Op>): map<string, Timed>
    decreases |ops|
  {
    if ops == [] then map[] else OneMapStep(OneMap(maxSize, ops[..|ops| - 1]), maxSize, ops[|ops| - 1])
  }

  ghost predicate Joined(c: Tables, m: map<string, Timed>) {
    && c.entries.Keys == m.Keys && c.expirations.Keys == m.Keys
    && forall k | k in m :: c.entries[k] == m[k].value && c.expirations[k] == m[k].expiresAt
  }

  lemma SweptJoined(c: Tables, m: map<string, Timed>, now: nat)
    requires Joined(c, m)
    ensures Joined(Swept(c, now), LivePart(m, now)) && |Swept(c, now).entries| == |LivePart(m, now)|
  {
  }

  lemma SetJoined(c: Tables, m: map<string, Timed>, maxSize: nat,
                  k: string, v: string, ttl: nat, sweptAt: nat, now: nat)
    requires Joined(c, m)
    ensures Joined(Step(c, maxSize, Set(k, v, ttl, sweptAt, now)),
                   OneMapStep(m, maxSize, Set(k, v, ttl, sweptAt, now)))
  {
    SweptJoined(c, m, sweptAt);
    var room := if |m| < maxSize then m else LivePart(m, sweptAt);
  }

  lemma StepJoined(c: Tables, m: map<string, Timed>, maxSize: nat, op: Op)
    requires Joined(c, m)
    ensures Joined(Step(c, maxSize, op), OneMapStep(m, maxSize, op))
  {
    match op
    case Get(_, _) =>
    case Set(k, v, ttl, sweptAt, now) => SetJoined(c, m, maxSize, k, v, ttl, sweptAt, now);
    case Remove(_) =>
    case Clear =>
    case Cleanup(now) => SweptJoined(c, m, now);
  }

  /** After every run, whatever the clock readings, the two maps hold exactly the keys, values and expiry
      times of the single map, and `get` and `set` answer by it. */
  lemma {:induction false} RunIsOneMap(maxSize: nat, ops: seq<Op>, k: string, now: nat)
    ensures Joined(Run(maxSize, ops), OneMap(maxSize, ops))
    ensures var c, m := Run(maxSize, ops), OneMap(maxSize, ops);
            && Answer(c, k, now) == (if k in m && now <= m[k].expiresAt then Some(m[k].value) else None)
            && (Accepts(c, maxSize, now) <==> |m| < maxSize || |LivePart(m, now)| < maxSize)
    decreases |ops|
  {
    if ops != [] {
      RunIsOneMap(maxSize, ops[..|ops| - 1], k, now);
      StepJoined(Run(maxSize, ops[..|ops| - 1]), OneMap(maxSize, ops[..|ops| - 1]), maxSize, ops[|ops| - 1]);
    }
    SweptJoined(Run(maxSize, ops), OneMap(maxSize, ops), now);
  }

  // ---------- The cache object ----------

  /** What a sweep drops from arbitrary tables: the keys with an expiry time in the past, and only them. */
  lemma SweptEffect(c: Tables, now: nat, k: string)
    ensures k in Swept(c, now).entries <==> k in c.entries && !(k in c.expirations && c.expirations[k] < now)
    ensures k in Swept(c, now).expirations <==> k in c.expirations && now <= c.expirations[k]
    ensures k in Swept(c, now).entries ==> Swept(c, now).entries[k] == c.entries[k]
    ensures k in Swept(c, now).expirations ==> Swept(c, now).expirations[k] == c.expirations[k]
  {
  }

  class BasicCache {
    var entries: map<string, string>
    var expirations: map<string, nat>
    const maxSize: nat

    constructor (maxSize: nat := 10000)
      ensures Contents() == Tables(map[], map[]) && this.maxSize == maxSize
    {
      this.entries, this.expirations, this.maxSize := map[], map[], maxSize;
    }

    function Contents(): Tables
      reads this
    {
      Tables(entries, expirations)
    }

    method IsFull() returns (full: bool)
      ensures full <==> |entries| >= maxSize
    {
      full := |entries| >= maxSize;
    }

    method Get(k: string, now: nat) returns (value: Option<string>)
      modifies this
      ensures value == Answer(old(Contents()), k, now)
      ensures Contents() == Step(old(Contents()), maxSize, Op.Get(k, now))
    {
      var isExpired := if k in expirations then expirations[k] < now else true;
      if isExpired {
        Remove(k);
        return None;
      }
      value := if k in entries then Some(entries[k]) else None;
    }

    method Set(k: string, v: string, ttl: nat, sweptAt: nat, now: nat) returns (ok: bool)
      modifies this
      ensures ok <==> Accepts(old(Contents()), maxSize, sweptAt)
      ensures Contents() == Step(old(Contents()), maxSize, Op.Set(k, v, ttl, sweptAt, now))
    {
      var full := IsFull();
      if full {
        Cleanup(sweptAt);
        full := IsFull();
        if full { return false; }
      }
      entries := entries[k := v];
      expirations := expirations[k := now + ttl];
      ok := true;
    }

    method Remove(k: string)
      modifies this
      ensures Contents() == Step(old(Contents()), maxSize, Op.Remove(k))
    {
      entries := entries - {k};
      expirations := expirations - {k};
    }

    method Clear()
      modifies this
      ensures Contents() == Step(old(Contents()), maxSize, Op.Clear)
    {
      entries := map[];
      expirations := map[];
    }

    method Cleanup(now: nat)
      modifies this
      ensures Contents() == Step(old(Contents()), maxSize, Op.Cleanup(now))
    {
      var expired := ExpiredKeys(Contents(), now);
      RemoveAll(expired);
    }

    /** The removal loop of the cleanup. */
    method RemoveAll(keys: set<string>)
      modifies this
      ensures Contents() == Drop(old(Contents()), keys)
    {
      var pending := keys;
      while pending != {}
        invariant Drop(Contents(), pending) == Drop(old(Contents()), keys)
        decreases |pending|
      {
        var k :| k in pending;
        Remove(k);
        pending := pending - {k};
      }
    }

    method Len() returns (n: nat)
      ensures n == |Contents().entries|
    {
      n := |entries|;
    }
  }
}
