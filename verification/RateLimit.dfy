/** The fixed-window request limiters: snipebot/src/rate_limit.rs, with its hourly sweep, and the
    per-client message limit of network/src/websocket_server.rs. */
module RateLimits {
  import opened Wrappers

  /** The count of admitted requests and the start of the window they fall in. */
  datatype Window = Window(count: nat, start: nat)

  type Store = map<string, Window>

  // ---------- One request ----------

  /** A window is over once `length` has passed since its start. */
  predicate Over(w: Window, length: nat, now: nat) {
    now - w.start >= length
  }

  predicate Admits(s: Store, key: string, limit: nat, length: nat, now: nat) {
    key !in s || Over(s[key], length, now) || s[key].count < limit
  }

  function AfterRequest(s: Store, key: string, limit: nat, length: nat, now: nat): (r: Store) {
    if key !in s || Over(s[key], length, now) then s[key := Window(1, now)]
    else if s[key].count < limit then s[key := Window(s[key].count + 1, s[key].start)]
    else s
  }

  const SWEEP_AGE: nat := 3600

  /** The sweep keeps the windows younger than an hour. */
  function Swept(s: Store, now: nat): (r: Store) {
    map k | k in s && !Over(s[k], SWEEP_AGE, now) :: s[k]
  }

  // ---------- Runs ----------

  datatype Op =
    | Request(key: string, limit: nat, length: nat, now: nat)
    | Sweep(now: nat)

  function Step(s: Store, op: Op): (r: Store) {
    match op
    case Request(key, limit, length, now) => AfterRequest(s, key, limit, length, now)
    case Sweep(now) => Swept(s, now)
  }

  /** The clock of the operations never goes back and starts at `from` or later. */
  ghost predicate Ordered(ops: seq<Op>, from: nat) {
    ops != [] ==> from <= ops[0].now && Ordered(ops[1..], ops[0].now)
  }

  /** The decisions on the requests of a run, in order. */
  function Decisions(s: Store, ops: seq<Op>): (r: seq<bool>)
    decreases |ops|
  {
    if ops == [] then []
    else
      var rest := Decisions(Step(s, ops[0]), ops[1..]);
      if ops[0].Request? then [Admits(s, ops[0].key, ops[0].limit, ops[0].length, ops[0].now)] + rest
      else rest
  }

  /** How many requests for `key` a run admits at times in [a, b). */
  function AdmittedIn(s: Store, ops: seq<Op>, key: string, a: nat, b: nat): (r: nat)
    decreases |ops|
  {
    if ops == [] then 0
    else
      var op := ops[0];
      (if op.Request? && op.key == key && a <= op.now < b && Admits(s, key, op.limit, op.length, op.now) then 1 else 0)
      + AdmittedIn(Step(s, op), ops[1..], key, a, b)
  }

  // ---------- The admission bound ----------

  /** Requests for `key` all use this limit and window length. */
  ghost predicate Uniform(ops: seq<Op>, key: string, limit: nat, length: nat) {
    forall i | 0 <= i < |ops| && ops[i].Request? && ops[i].key == key ::
      ops[i].limit == limit && ops[i].length == length
  }

  /** The time for which a window stands at least: its length, unless a sweep may cut it short. */
  ghost function Standing(ops: seq<Op>, length: nat): nat {
    if exists i :: 0 <= i < |ops| && ops[i].Sweep? then Min(length, SWEEP_AGE) else length
  }

  /** The windows that a limit allows to hold: at least one admission, because opening a window
      admits without looking at the limit. */
  ghost predicate Fits(s: Store, key: string, limit: nat, now: nat) {
    key in s ==> 1 <= s[key].count <= Max(limit, 1) && s[key].start <= now
  }

  /** How many more requests may be admitted in [a, a + span), seen at time `now`. */
  ghost function Budget(s: Store, key: string, limit: nat, span: nat, now: nat, a: nat): int {
    var most := Max(limit, 1);
    if now >= a + span then 0
    else if now < a then 2 * most - 1
    else if key !in s then most
    else if s[key].start >= a then most - s[key].count
    else 2 * most - s[key].count
  }

  lemma StepSpendsBudget(s: Store, key: string, limit: nat, length: nat, span: nat, op: Op, now: nat, a: nat)
    requires 0 < span <= length && now <= op.now && Fits(s, key, limit, now)
    requires op.Request? && op.key == key ==> op.limit == limit && op.length == length
    requires op.Sweep? ==> span <= SWEEP_AGE
    ensures Fits(Step(s, op), key, limit, op.now)
    ensures (if op.Request? && op.key == key && a <= op.now < a + span && Admits(s, key, limit, length, op.now)
             then 1 else 0)
            + Budget(Step(s, op), key, limit, span, op.now, a) <= Budget(s, key, limit, span, now, a)
  {
  }

  lemma {:induction false} AdmissionsWithinBudget(
      s: Store, ops: seq<Op>, key: string, limit: nat, length: nat, span: nat, now: nat, a: nat)
    requires 0 < span <= length && Ordered(ops, now) && Uniform(ops, key, limit, length)
    requires forall i | 0 <= i < |ops| && ops[i].Sweep? :: span <= SWEEP_AGE
    requires Fits(s, key, limit, now)
    ensures AdmittedIn(s, ops, key, a, a + span) <= Budget(s, key, limit, span, now, a)
    decreases |ops|
  {
    if ops != [] {
      var op := ops[0];
      assert forall i | 0 <= i < |ops[1..]| :: ops[1..][i] == ops[i + 1];
      StepSpendsBudget(s, key, limit, length, span, op, now, a);
      AdmissionsWithinBudget(Step(s, op), ops[1..], key, limit, length, span, op.now, a);
    }
  }

  /** Over every run, with requests for other keys and sweeps in between, no interval as long as a window
      stands admits more than 2 * max(limit, 1) - 1 requests for a key. Without sweeps, and for windows
      of at most an hour with any number of them, that is the window length. */
  lemma AdmissionBound(ops: seq<Op>, key: string, limit: nat, length: nat, a: nat)
    requires length > 0 && Ordered(ops, 0) && Uniform(ops, key, limit, length)
    ensures AdmittedIn(map[], ops, key, a, a + Standing(ops, length)) <= 2 * Max(limit, 1) - 1
    ensures length <= SWEEP_AGE ==> Standing(ops, length) == length
  {
    AdmissionsWithinBudget(map[], ops, key, limit, length, Standing(ops, length), 0, a);
  }

  // ---------- The bound is attained ----------

  /** `n` requests at time `now`. */
  ghost function Burst(key: string, limit: nat, length: nat, now: nat, n: nat): seq<Op> {
    if n == 0 then [] else [Request(key, limit, length, now)] + Burst(key, limit, length, now, n - 1)
  }

  lemma {:induction false} BurstAdmits(
      s: Store, key: string, limit: nat, length: nat, now: nat, n: nat, rest: seq<Op>, a: nat, b: nat)
    requires key in s && !Over(s[key], length, now) && s[key].count + n <= limit && a <= now < b
    ensures AdmittedIn(s, Burst(key, limit, length, now, n) + rest, key, a, b) ==
            n + AdmittedIn(s[key := Window(s[key].count + n, s[key].start)], rest, key, a, b)
    decreases n
  {
    var ops := Burst(key, limit, length, now, n) + rest;
    if n == 0 {
      assert ops == rest && s[key := Window(s[key].count, s[key].start)] == s;
    } else {
      var s' := Step(s, ops[0]);
      assert ops[1..] == Burst(key, limit, length, now, n - 1) + rest;
      BurstAdmits(s', key, limit, length, now, n - 1, rest, a, b);
      assert s'[key := Window(s'[key].count + (n - 1), s'[key].start)]
             == s[key := Window(s[key].count + n, s[key].start)];
    }
  }

  lemma {:induction false} BurstShape(key: string, limit: nat, length: nat, now: nat, n: nat, rest: seq<Op>, from: nat)
    requires from <= now && Ordered(rest, now)
    requires Uniform(rest, key, limit, length)
    ensures Ordered(Burst(key, limit, length, now, n) + rest, from)
    ensures Uniform(Burst(key, limit, length, now, n) + rest, key, limit, length)
    decreases n
  {
    var ops := Burst(key, limit, length, now, n) + rest;
    if n == 0 {
      assert ops == rest;
    } else {
      var tail := Burst(key, limit, length, now, n - 1) + rest;
      assert ops == [Request(key, limit, length, now)] + tail;
      BurstShape(key, limit, length, now, n - 1, rest, now);
      assert ops[1..] == tail;
      assert forall i | 1 <= i < |ops| :: ops[i] == tail[i - 1];
    }
  }

  /** A request that opens a window, followed by a burst in it. */
  ghost function Opening(key: string, limit: nat, length: nat, since: nat, now: nat, n: nat, rest: seq<Op>): seq<Op> {
    [Request(key, limit, length, since)] + (Burst(key, limit, length, now, n) + rest)
  }

  lemma OpeningShape(key: string, limit: nat, length: nat, since: nat, now: nat, n: nat, rest: seq<Op>, from: nat)
    requires from <= since <= now && Ordered(rest, now)
    requires Uniform(rest, key, limit, length)
    ensures Ordered(Opening(key, limit, length, since, now, n, rest), from)
    ensures Uniform(Opening(key, limit, length, since, now, n, rest), key, limit, length)
  {
    var ops := Opening(key, limit, length, since, now, n, rest);
    BurstShape(key, limit, length, now, n, rest, since);
    assert ops[1..] == Burst(key, limit, length, now, n) + rest;
    assert forall i | 1 <= i < |ops| :: ops[i] == ops[1..][i - 1];
  }

  lemma OpeningAdmits(s: Store, key: string, limit: nat, length: nat, since: nat, now: nat, rest: seq<Op>,
                      a: nat, b: nat)
    requires limit > 0 && (key in s ==> Over(s[key], length, since))
    requires since <= now < since + length && a <= now < b
    ensures AdmittedIn(s, Opening(key, limit, length, since, now, limit - 1, rest), key, a, b) ==
            (if a <= since then 1 else 0) + (limit - 1)
            + AdmittedIn(s[key := Window(limit, since)], rest, key, a, b)
  {
    var ops := Opening(key, limit, length, since, now, limit - 1, rest);
    var s' := s[key := Window(1, since)];
    assert ops[1..] == Burst(key, limit, length, now, limit - 1) + rest;
    assert Step(s, ops[0]) == s';
    BurstAdmits(s', key, limit, length, now, limit - 1, rest, a, b);
    assert s'[key := Window(limit, since)] == s[key := Window(limit, since)];
  }

  /** The bound is exact for windows longer than one tick: a window opened early and filled at its very
      end, followed by a full new window, puts 2 * limit - 1 admissions into one window length. */
  lemma AdmissionBoundIsAttained(key: string, limit: nat, length: nat) returns (ops: seq<Op>, a: nat)
    requires limit > 0 && length > 1
    ensures Ordered(ops, 0) && Uniform(ops, key, limit, length)
    ensures AdmittedIn(map[], ops, key, a, a + length) == 2 * limit - 1
  {
    a := length - 1;
    var second := Opening(key, limit, length, length, length, limit - 1, []);
    ops := Opening(key, limit, length, 0, a, limit - 1, second);
    OpeningShape(key, limit, length, length, length, limit - 1, [], a);
    OpeningShape(key, limit, length, 0, a, limit - 1, second, 0);
    OpeningAdmits(map[], key, limit, length, 0, a, second, a, a + length);
    OpeningAdmits(map[key := Window(limit, 0)], key, limit, length, length, length, [], a, a + length);
  }

  // ---------- Refusals are earned ----------

  function After(s: Store, ops: seq<Op>): (r: Store)
    decreases |ops|
  {
    if ops == [] then s else After(Step(s, ops[0]), ops[1..])
  }

  /** The part of a count that was there before, if the window is still the same. */
  ghost function Carried(s: Store, key: string, start: nat): nat {
    if key in s && s[key].start == start then s[key].count else 0
  }

  /** A stored count never exceeds the admissions since the start of its window. */
  lemma {:induction false} CountIsAdmitted(s: Store, ops: seq<Op>, key: string, from: nat, now: nat)
    requires Ordered(ops, from) && forall i | 0 <= i < |ops| :: ops[i].now <= now
    requires key in s ==> s[key].start <= from
    requires key in After(s, ops) && from <= now
    ensures var w := After(s, ops)[key];
            w.start <= now && w.count <= AdmittedIn(s, ops, key, w.start, now + 1) + Carried(s, key, w.start)
    decreases |ops|
  {
    if ops != [] {
      assert forall i | 0 <= i < |ops[1..]| :: ops[1..][i] == ops[i + 1];
      CountIsAdmitted(Step(s, ops[0]), ops[1..], key, ops[0].now, now);
    }
  }

  /** Nobody is refused without cause: after every run, a request that is refused comes after `limit`
      admissions within less than the length of its window. */
  lemma RefusalIsEarned(ops: seq<Op>, key: string, limit: nat, length: nat, now: nat) returns (since: nat)
    requires Ordered(ops, 0) && forall i | 0 <= i < |ops| :: ops[i].now <= now
    requires !Admits(After(map[], ops), key, limit, length, now)
    ensures since <= now < since + length && AdmittedIn(map[], ops, key, since, now + 1) >= limit
  {
    CountIsAdmitted(map[], ops, key, 0, now);
    since := After(map[], ops)[key].start;
  }

  /** A sweep drops the windows that started an hour ago or longer, and touches no other. */
  lemma SweepEffect(s: Store, now: nat, key: string)
    ensures var swept := Step(s, Sweep(now));
            && (key in swept <==> key in s && now - s[key].start < 3600)
            && (key in swept ==> swept[key] == s[key])
  {
  }

  /** A request touches the window of its own key only: a refusal leaves it, an admission counts it up or, when
      it is over, opens a new one. */
  lemma RequestEffect(s: Store, key: string, limit: nat, length: nat, now: nat)
    ensures var after := Step(s, Request(key, limit, length, now));
            && after.Keys == s.Keys + {key}
            && (forall k | k in s && k != key :: after[k] == s[k])
            && (key in s && now - s[key].start < length ==>
                  after[key].start == s[key].start
                  && after[key].count == s[key].count + if s[key].count < limit then 1 else 0)
            && (key !in s || now - s[key].start >= length ==> after[key] == Window(1, now))
  {
  }

  // ---------- The sweep is invisible ----------

  function WithoutSweeps(ops: seq<Op>): (r: seq<Op>) {
    if ops == [] then []
    else if ops[0].Sweep? then WithoutSweeps(ops[1..])
    else [ops[0]] + WithoutSweeps(ops[1..])
  }

  /** The swept store lacks only windows that were an hour old. */
  ghost predicate Simulates(swept: Store, full: Store, now: nat) {
    && (forall k | k in swept :: k in full && full[k] == swept[k])
    && (forall k | k in full && k !in swept :: Over(full[k], SWEEP_AGE, now))
    && (forall k | k in full :: full[k].start <= now)
  }

  /** For windows of at most an hour, the sweeps of a run change no decision, wherever they stand. */
  lemma {:induction false} SweepIsInvisible(swept: Store, full: Store, ops: seq<Op>, now: nat)
    requires Simulates(swept, full, now) && Ordered(ops, now)
    requires forall i | 0 <= i < |ops| && ops[i].Request? :: ops[i].length <= SWEEP_AGE
    ensures Decisions(swept, ops) == Decisions(full, WithoutSweeps(ops))
    decreases |ops|
  {
    if ops != [] {
      var op, rest := ops[0], ops[1..];
      assert forall i | 0 <= i < |rest| :: rest[i] == ops[i + 1];
      if op.Sweep? {
        SweepIsInvisible(Swept(swept, op.now), full, rest, op.now);
      } else {
        SweepIsInvisible(Step(swept, op), Step(full, op), rest, op.now);
        assert WithoutSweeps(ops)[0] == op && WithoutSweeps(ops)[1..] == WithoutSweeps(rest);
      }
    }
  }

  lemma SweepIsInvisibleFromStart(ops: seq<Op>)
    requires Ordered(ops, 0)
    requires forall i | 0 <= i < |ops| && ops[i].Request? :: ops[i].length <= SWEEP_AGE
    ensures Decisions(map[], ops) == Decisions(map[], WithoutSweeps(ops))
  {
    SweepIsInvisible(map[], map[], ops, 0);
  }

  /** Every window length above an hour has a run in which a sweep turns a refusal into an admission,
      so the condition of `SweepIsInvisible` cannot be weakened for any length. */
  lemma SweepIsVisibleForLongWindows(key: string, length: nat) returns (ops: seq<Op>)
    requires length > SWEEP_AGE
    ensures Ordered(ops, 0) && forall i | 0 <= i < |ops| && ops[i].Request? :: ops[i].length == length
    ensures Decisions(map[], ops) == [true, true]
    ensures Decisions(map[], WithoutSweeps(ops)) == [true, false]
  {
    var first, sweep, second := Request(key, 1, length, 0), Sweep(SWEEP_AGE), Request(key, 1, length, SWEEP_AGE);
    ops := [first, sweep, second];
    assert ops[1..] == [sweep, second] && ops[1..][1..] == [second] && ops[1..][1..][1..] == [];
    var s: Store := map[key := Window(1, 0)];
    assert Step(map[], first) == s;
    assert Step(s, sweep) == map[];
    assert Decisions(map[], [second]) == [true];
    assert Decisions(s, [second]) == [false];
    assert WithoutSweeps([second]) == [second];
    assert WithoutSweeps(ops[1..]) == [second];
    assert WithoutSweeps(ops) == [first, second];
    assert [first, second][1..] == [second];
    assert Ordered([second], SWEEP_AGE) && Ordered([sweep, second], 0);
  }

  // ---------- The limiter of rate_limit.rs ----------

  /** The unsigned subtraction of the original: it has a value only when the clock has not gone back. */
  function Elapsed(start: nat, now: nat): (r: nat)
    requires start <= now
  {
    now - start
  }

  class RateLimitStore {
    var limits: Store

    constructor ()
      ensures limits == map[]
    {
      limits := map[];
    }

    /** No window starts in the future. The subtractions need that, and it holds as long as the clock
        does not go back. */
    ghost predicate Valid(now: nat)
      reads this
    {
      forall k | k in limits :: limits[k].start <= now
    }

    method CheckRateLimit(key: string, limit: nat, windowSeconds: nat, now: nat) returns (admitted: bool)
      requires Valid(now)
      modifies this
      ensures Valid(now)
      ensures admitted == Admits(old(limits), key, limit, windowSeconds, now)
      ensures limits == Step(old(limits), Request(key, limit, windowSeconds, now))
    {
      if key in limits {
        var data := limits[key];
        if Elapsed(data.start, now) >= windowSeconds {
          limits := limits[key := Window(1, now)];
          admitted := true;
        } else if data.count < limit {
          limits := limits[key := Window(data.count + 1, data.start)];
          admitted := true;
        } else {
          admitted := false;
        }
      } else {
        limits := limits[key := Window(1, now)];
        admitted := true;
      }
    }

    method CleanupOldRateLimits(now: nat)
      requires Valid(now)
      modifies this
      ensures Valid(now)
      ensures limits == Step(old(limits), Sweep(now))
    {
      limits := map k | k in limits && Elapsed(limits[k].start, now) < SWEEP_AGE :: limits[k];
    }
  }

  // ---------- The message limiter of websocket_server.rs ----------

  /** Sixty seconds, in nanoseconds. */
  const RATE_LIMIT_WINDOW: nat := 60_000_000_000
  const MAX_MESSAGES_PER_WINDOW: nat := 100

  /** This limiter opens a new window only when strictly more than the window has passed, so its
      windows are one clock tick longer. */
  function Message(client: string, now: nat): (r: Op) {
    Request(client, MAX_MESSAGES_PER_WINDOW, RATE_LIMIT_WINDOW + 1, now)
  }

  class MessageLimiter {
    var limits: Store

    constructor ()
      ensures limits == map[]
    {
      limits := map[];
    }

    /** The subtraction of instants saturates at zero, so a start in the future counts as now. */
    method CheckRateLimit(client: string, now: nat) returns (ok: bool)
      modifies this
      ensures ok == Admits(old(limits), client, MAX_MESSAGES_PER_WINDOW, RATE_LIMIT_WINDOW + 1, now)
      ensures limits == Step(old(limits), Message(client, now))
    {
      if client in limits {
        var Window(count, start) := limits[client];
        if Max(now - start, 0) > RATE_LIMIT_WINDOW {
          limits := limits[client := Window(1, now)];
        } else if count >= MAX_MESSAGES_PER_WINDOW {
          return false;
        } else {
          limits := limits[client := Window(count + 1, start)];
        }
      } else {
        limits := limits[client := Window(1, now)];
      }
      ok := true;
    }
  }

  /** Any closed interval of sixty seconds admits at most 199 messages of a client. */
  lemma MessageBound(ops: seq<Op>, client: string, a: nat)
    requires Ordered(ops, 0)
    requires forall i | 0 <= i < |ops| :: ops[i].Request? && ops[i] == Message(ops[i].key, ops[i].now)
    ensures AdmittedIn(map[], ops, client, a, a + 60_000_000_000 + 1) <= 199
  {
    AdmissionBound(ops, client, MAX_MESSAGES_PER_WINDOW, RATE_LIMIT_WINDOW + 1, a);
  }

  /** Some run of messages puts 199 admissions of a client into a closed interval of sixty seconds. */
  lemma MessageBoundIsAttained(client: string) returns (ops: seq<Op>, a: nat)
    ensures Ordered(ops, 0)
    ensures forall i | 0 <= i < |ops| && ops[i].Request? && ops[i].key == client ::
              ops[i] == Message(client, ops[i].now)
    ensures AdmittedIn(map[], ops, client, a, a + 60_000_000_000 + 1) == 199
  {
    ops, a := AdmissionBoundIsAttained(client, MAX_MESSAGES_PER_WINDOW, RATE_LIMIT_WINDOW + 1);
  }

  /** A client whose message is refused has had 100 messages admitted within the last sixty seconds. */
  lemma MessageRefusalIsEarned(ops: seq<Op>, client: string, now: nat) returns (since: nat)
    requires Ordered(ops, 0) && forall i | 0 <= i < |ops| :: ops[i].now <= now
    requires var m := Message(client, now); !Admits(After(map[], ops), client, m.limit, m.length, now)
    ensures since <= now <= since + 60_000_000_000 && AdmittedIn(map[], ops, client, since, now + 1) >= 100
  {
    since := RefusalIsEarned(ops, client, MAX_MESSAGES_PER_WINDOW, RATE_LIMIT_WINDOW + 1, now);
  }
}
