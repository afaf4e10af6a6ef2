/** The cache of common/src/cache.rs that async tasks share (`AsyncCache`).

    Each map has its own lock, and every operation takes one lock at a time. A task is a program
    counter, an action runs one task up to the release of its next lock, and a run is any
    interleaving of such actions. */
module AsyncCaches {
  import opened Wrappers
  import Basic = BasicCaches

  /** What a task does when its sweep is over. */
  datatype Then = Finish | Recheck(key: string, value: string, ttl: nat)

  datatype Task =
    | Idle
    // set
    | CheckFull(key: string, value: string, ttl: nat)
    | RecheckFull(key: string, value: string, ttl: nat)
    | Stamp(key: string, value: string, ttl: nat)
    | WriteEntry(key: string, value: string, expiresAt: nat)
    | WriteExpiry(key: string, expiresAt: nat)
    // cleanup, on its own or inside set
    | ReadClock(after: Then)
    | Scan(now: nat, after: Then)
    | PickExpired(pending: set<string>, after: Then)
    // remove, on its own or inside get and cleanup
    | DropEntry(key: string, pending: set<string>, after: Then)
    | DropExpiry(key: string, pending: set<string>, after: Then)
    // get
    | CheckExpiry(key: string)
    | ReadEntry(key: string)
    // clear
    | ClearEntries
    | ClearExpiries

  datatype Call =
    | Get(key: string)
    | Set(key: string, value: string, ttl: nat)
    | Remove(key: string)
    | Clear
    | Cleanup

  datatype World = World(tables: Basic.Tables, tasks: seq<Task>)

  /** `choice` is the key a sweep removes next: the scan order of the map is not fixed. */
  datatype Event =
    | Start(task: nat, call: Call)
    | Act(task: nat, now: nat, choice: string)

  function Entry(call: Call): (r: Task) {
    match call
    case Get(k) => CheckExpiry(k)
    case Set(k, v, ttl) => CheckFull(k, v, ttl)
    case Remove(k) => DropEntry(k, {}, Finish)
    case Clear => ClearEntries
    case Cleanup => ReadClock(Finish)
  }

  function Continue(after: Then): (r: Task) {
    match after
    case Finish => Idle
    case Recheck(k, v, ttl) => RecheckFull(k, v, ttl)
  }

  /** The two tables and the task after one action of the task. */
  function Action(c: Basic.Tables, p: Task, maxSize: nat, now: nat, choice: string): (r: (Basic.Tables, Task)) {
    match p
    case Idle => (c, Idle)
    case CheckFull(k, v, ttl) =>
      (c, if |c.entries| >= maxSize then ReadClock(Recheck(k, v, ttl)) else Stamp(k, v, ttl))
    case RecheckFull(k, v, ttl) =>
      (c, if |c.entries| >= maxSize then Idle else Stamp(k, v, ttl))
    case Stamp(k, v, ttl) => (c, WriteEntry(k, v, now + ttl))
    case WriteEntry(k, v, expiresAt) => (c.(entries := c.entries[k := v]), WriteExpiry(k, expiresAt))
    case WriteExpiry(k, expiresAt) => (c.(expirations := c.expirations[k := expiresAt]), Idle)
    case ReadClock(after) => (c, Scan(now, after))
    case Scan(at, after) => (c, PickExpired(Basic.ExpiredKeys(c, at), after))
    case PickExpired(pending, after) =>
      if pending == {} then (c, Continue(after))
      else if choice in pending then (c, DropEntry(choice, pending - {choice}, after))
      else (c, p)
    case DropEntry(k, pending, after) => (c.(entries := c.entries - {k}), DropExpiry(k, pending, after))
    case DropExpiry(k, pending, after) => (c.(expirations := c.expirations - {k}), PickExpired(pending, after))
    case CheckExpiry(k) =>
      (c, if Basic.Unexpired(c, k, now) then ReadEntry(k) else DropEntry(k, {}, Finish))
    case ReadEntry(k) => (c, Idle)
    case ClearEntries => (c.(entries := map[]), ClearExpiries)
    case ClearExpiries => (c.(expirations := map[]), Idle)
  }

  /** An event of a task that cannot take it leaves the world as it is. */
  function Step(w: World, maxSize: nat, e: Event): (r: World) {
    if e.task >= |w.tasks| then w
    else
      match e
      case Start(t, call) => if w.tasks[t].Idle? then w.(tasks := w.tasks[t := Entry(call)]) else w
      case Act(t, now, choice) =>
        var (c, p) := Action(w.tables, w.tasks[t], maxSize, now, choice);
        World(c, w.tasks[t := p])
  }

  function Run(w: World, maxSize: nat, events: seq<Event>): (r: World)
    decreases |events|
  {
    if events == [] then w
    else Step(Run(w, maxSize, events[..|events| - 1]), maxSize, events[|events| - 1])
  }

  /** Both tables empty and every task idle. */
  ghost predicate Initial(w: World) {
    w.tables == Basic.Tables(map[], map[]) && forall t | 0 <= t < |w.tasks| :: w.tasks[t].Idle?
  }

  // ---------- One lock at a time ----------

  datatype Lock = NoLock | EntriesLock | ExpirationsLock

  /** The lock that the next action of the task takes. */
  function LockOf(p: Task): (r: Lock) {
    match p
    case CheckFull(_, _, _) => EntriesLock
    case RecheckFull(_, _, _) => EntriesLock
    case WriteEntry(_, _, _) => EntriesLock
    case DropEntry(_, _, _) => EntriesLock
    case ReadEntry(_) => EntriesLock
    case ClearEntries => EntriesLock
    case WriteExpiry(_, _) => ExpirationsLock
    case Scan(_, _) => ExpirationsLock
    case DropExpiry(_, _, _) => ExpirationsLock
    case CheckExpiry(_) => ExpirationsLock
    case ClearExpiries => ExpirationsLock
    case _ => NoLock
  }

  /** One lock suffices for an action: it neither writes the map behind the other lock, nor does
      anything depend on what that map holds. */
  lemma OneLockSuffices(c: Basic.Tables, d: Basic.Tables, p: Task, maxSize: nat, now: nat, choice: string)
    requires LockOf(p).EntriesLock? ==> c.entries == d.entries
    requires LockOf(p).ExpirationsLock? ==> c.expirations == d.expirations
    ensures var (c', p'), (d', q') := Action(c, p, maxSize, now, choice), Action(d, p, maxSize, now, choice);
            && p' == q'
            && (if LockOf(p).EntriesLock? then c'.entries == d'.entries else c'.entries == c.entries)
            && (if LockOf(p).ExpirationsLock? then c'.expirations == d'.expirations
                else c'.expirations == c.expirations)
  {
  }

  // ---------- The size bound ----------

  /** The task runs a `set`. */
  predicate InSet(p: Task) {
    || p.CheckFull? || p.RecheckFull? || p.Stamp? || p.WriteEntry? || p.WriteExpiry?
    || ((p.ReadClock? || p.Scan? || p.PickExpired? || p.DropEntry? || p.DropExpiry?) && p.after.Recheck?)
  }

  /** The task has found room and has not yet inserted its entry. */
  predicate Committed(p: Task) {
    p.Stamp? || p.WriteEntry?
  }

  function SetsIn(tasks: seq<Task>): (r: nat) {
    if tasks == [] then 0 else (if InSet(tasks[0]) then 1 else 0) + SetsIn(tasks[1..])
  }

  function CommittedIn(tasks: seq<Task>): (r: nat)
    ensures r <= SetsIn(tasks)
  {
    if tasks == [] then 0 else (if Committed(tasks[0]) then 1 else 0) + CommittedIn(tasks[1..])
  }

  lemma {:induction false} CountsAfterUpdate(tasks: seq<Task>, t: nat, p: Task)
    requires t < |tasks|
    ensures SetsIn(tasks[t := p]) == SetsIn(tasks) - (if InSet(tasks[t]) then 1 else 0) + if InSet(p) then 1 else 0
    ensures CommittedIn(tasks[t := p]) ==
            CommittedIn(tasks) - (if Committed(tasks[t]) then 1 else 0) + if Committed(p) then 1 else 0
  {
    if t == 0 {
      assert tasks[t := p][1..] == tasks[1..];
    } else {
      assert tasks[t := p][1..] == tasks[1..][t - 1 := p];
      CountsAfterUpdate(tasks[1..], t - 1, p);
    }
  }

  lemma {:induction false} CountsWhenIdle(tasks: seq<Task>)
    requires forall t | 0 <= t < |tasks| :: tasks[t].Idle?
    ensures SetsIn(tasks) == 0 && CommittedIn(tasks) == 0
  {
    if tasks != [] { CountsWhenIdle(tasks[1..]); }
  }

  /** A task that is in a `set` without having found room leaves a place among the others. */
  lemma {:induction false} OneNotCommitted(tasks: seq<Task>, t: nat)
    requires t < |tasks| && InSet(tasks[t]) && !Committed(tasks[t])
    ensures CommittedIn(tasks) < SetsIn(tasks)
  {
    if t > 0 { OneNotCommitted(tasks[1..], t - 1); }
  }

  /** Entries, plus the sets that are about to add one, stay under the limit plus the other sets. */
  ghost predicate Bounded(w: World, maxSize: nat, n: nat) {
    |w.tables.entries| + CommittedIn(w.tasks) <= maxSize + n - 1
  }

  lemma InsertSize(m: map<string, string>, k: string, v: string)
    ensures |m[k := v]| <= |m| + 1
  {
    assert m[k := v].Keys == m.Keys + {k};
    assert |m[k := v]| == |m[k := v].Keys| <= |m.Keys| + 1;
  }

  lemma DeleteSize(m: map<string, string>, k: string)
    ensures |m - {k}| <= |m|
  {
    assert (m - {k}).Keys == m.Keys - {k};
    assert |m - {k}| == |(m - {k}).Keys| <= |m.Keys|;
  }

  /** What an action does to the entries. */
  ghost predicate Changes(before: map<string, string>, p: Task, after: map<string, string>) {
    if p.WriteEntry? then after == before[p.key := p.value]
    else if p.DropEntry? then after == before - {p.key}
    else if p.ClearEntries? then after == map[]
    else after == before
  }

  lemma ActionChanges(c: Basic.Tables, p: Task, maxSize: nat, now: nat, choice: string, c': Basic.Tables, p': Task)
    requires (c', p') == Action(c, p, maxSize, now, choice)
    ensures Changes(c.entries, p, c'.entries)
  {
  }

  lemma ActionCommits(c: Basic.Tables, p: Task, maxSize: nat, now: nat, choice: string, c': Basic.Tables, p': Task)
    requires (c', p') == Action(c, p, maxSize, now, choice)
    ensures Committed(p') <==> p.Stamp? || ((p.CheckFull? || p.RecheckFull?) && |c.entries| < maxSize)
  {
  }

  lemma ChangesSize(before: map<string, string>, p: Task, after: map<string, string>)
    requires Changes(before, p, after)
    ensures |after| <= |before| + if p.WriteEntry? then 1 else 0
  {
    if p.WriteEntry? {
      InsertSize(before, p.key, p.value);
    } else if p.DropEntry? {
      DeleteSize(before, p.key);
    }
  }

  /** An action either finds room, or adds no more entries than the commitments it gives up. */
  lemma ActionEffect(c: Basic.Tables, p: Task, maxSize: nat, now: nat, choice: string, c': Basic.Tables, p': Task)
    requires (c', p') == Action(c, p, maxSize, now, choice)
    ensures if !Committed(p) && Committed(p') then InSet(p) && |c'.entries| == |c.entries| < maxSize
            else |c'.entries| + (if Committed(p') then 1 else 0) <= |c.entries| + if Committed(p) then 1 else 0
  {
    ActionChanges(c, p, maxSize, now, choice, c', p');
    ActionCommits(c, p, maxSize, now, choice, c', p');
    ChangesSize(c.entries, p, c'.entries);
  }

  lemma ActionKeepsBound(w: World, maxSize: nat, n: nat, t: nat, now: nat, choice: string)
    requires t < |w.tasks| && Bounded(w, maxSize, n) && SetsIn(w.tasks) <= n && n > 0
    ensures var (c, p) := Action(w.tables, w.tasks[t], maxSize, now, choice);
            |c.entries| + CommittedIn(w.tasks[t := p]) <= maxSize + n - 1
  {
    var r := Action(w.tables, w.tasks[t], maxSize, now, choice);
    ActionEffect(w.tables, w.tasks[t], maxSize, now, choice, r.0, r.1);
    CountsAfterUpdate(w.tasks, t, r.1);
    if !Committed(w.tasks[t]) && Committed(r.1) { OneNotCommitted(w.tasks, t); }
  }

  lemma StepKeepsBound(w: World, maxSize: nat, n: nat, e: Event)
    requires Bounded(w, maxSize, n) && SetsIn(w.tasks) <= n && n > 0
    ensures Bounded(Step(w, maxSize, e), maxSize, n)
  {
    if e.task < |w.tasks| {
      match e
      case Start(t, call) => CountsAfterUpdate(w.tasks, t, Entry(call));
      case Act(t, now, choice) => ActionKeepsBound(w, maxSize, n, t, now, choice);
    }
  }

  /** At most `n` calls of `set` are in flight at any point of the run. */
  ghost predicate AtMostSets(w: World, maxSize: nat, n: nat, events: seq<Event>)
    decreases |events|
  {
    SetsIn(Run(w, maxSize, events).tasks) <= n &&
    (events != [] ==> AtMostSets(w, maxSize, n, events[..|events| - 1]))
  }

  lemma {:induction false} RunKeepsBound(w: World, maxSize: nat, n: nat, events: seq<Event>)
    requires Initial(w) && AtMostSets(w, maxSize, n, events) && n > 0
    ensures Bounded(Run(w, maxSize, events), maxSize, n)
    decreases |events|
  {
    if events == [] {
      CountsWhenIdle(w.tasks);
    } else {
      var before := events[..|events| - 1];
      RunKeepsBound(w, maxSize, n, before);
      StepKeepsBound(Run(w, maxSize, before), maxSize, n, events[|events| - 1]);
    }
  }

  /** With at most `n` calls of `set` in flight, every interleaving keeps the number of entries within
      maxSize + n - 1: the size limit can be overrun, but only by the sets racing past the check. */
  lemma OverrunIsBounded(w: World, maxSize: nat, n: nat, events: seq<Event>)
    requires Initial(w) && AtMostSets(w, maxSize, n, events) && n > 0
    ensures |Run(w, maxSize, events).tables.entries| <= maxSize + n - 1
  {
    RunKeepsBound(w, maxSize, n, events);
  }

  // ---------- Values come from sets ----------

  /** The pairs that some `set` call of the run was given. */
  ghost function Requested(events: seq<Event>): set<(string, string)>
    decreases |events|
  {
    if events == [] then {}
    else
      var e := events[|events| - 1];
      Requested(events[..|events| - 1])
      + if e.Start? && e.call.Set? then {(e.call.key, e.call.value)} else {}
  }

  /** The pair that the task may still write. */
  ghost function Carried(p: Task): set<(string, string)> {
    if p.CheckFull? || p.RecheckFull? || p.Stamp? || p.WriteEntry? then {(p.key, p.value)}
    else if (p.ReadClock? || p.Scan? || p.PickExpired? || p.DropEntry? || p.DropExpiry?) && p.after.Recheck? then
      {(p.after.key, p.after.value)}
    else {}
  }

  ghost predicate Justified(w: World, pairs: set<(string, string)>) {
    && (forall k | k in w.tables.entries :: (k, w.tables.entries[k]) in pairs)
    && (forall t | 0 <= t < |w.tasks| :: Carried(w.tasks[t]) <= pairs)
  }

  lemma StepJustified(w: World, maxSize: nat, e: Event, pairs: set<(string, string)>)
    requires Justified(w, pairs)
    ensures Justified(Step(w, maxSize, e),
                      pairs + if e.Start? && e.call.Set? then {(e.call.key, e.call.value)} else {})
  {
    if e.task < |w.tasks| && e.Act? {
      var p := w.tasks[e.task];
      var (c, p') := Action(w.tables, p, maxSize, e.now, e.choice);
      assert Carried(p) <= pairs;
      assert Carried(p') <= Carried(p);
      forall k | k in c.entries ensures (k, c.entries[k]) in pairs {
        if p.WriteEntry? && k == p.key { assert (p.key, p.value) in Carried(p); }
      }
    }
  }

  lemma {:induction false} RunJustified(w: World, maxSize: nat, events: seq<Event>)
    requires Initial(w)
    ensures Justified(Run(w, maxSize, events), Requested(events))
    decreases |events|
  {
    if events != [] {
      var before := events[..|events| - 1];
      RunJustified(w, maxSize, before);
      StepJustified(Run(w, maxSize, before), maxSize, events[|events| - 1], Requested(before));
    }
  }

  /** The value a task's `get` is about to return. */
  function Seen(w: World, t: nat): (r: Option<string>)
    requires t < |w.tasks|
  {
    var p := w.tasks[t];
    if p.ReadEntry? && p.key in w.tables.entries then Some(w.tables.entries[p.key]) else None
  }

  /** Whatever the interleaving, a value that a `get` returns was given to a `set` on the same key. */
  lemma GetReturnsASetValue(w: World, maxSize: nat, events: seq<Event>, t: nat)
    requires Initial(w) && t < |Run(w, maxSize, events).tasks|
    requires Seen(Run(w, maxSize, events), t).Some?
    ensures (Run(w, maxSize, events).tasks[t].key, Seen(Run(w, maxSize, events), t).value) in Requested(events)
  {
    RunJustified(w, maxSize, events);
  }

  // ---------- Replies ----------

  /** What a call answers: the value or its absence, or whether a `set` was accepted. */
  datatype Reply = Found(value: Option<string>) | Stored | Refused

  /** An action may decide the answer of its call. A `get` that goes on to remove its key, instead of
      reading it, answers that there is no value. */
  function ReplyOf(c: Basic.Tables, p: Task, next: Task): (r: seq<Reply>) {
    match p
    case CheckExpiry(_) => if next.ReadEntry? then [] else [Found(None)]
    case ReadEntry(k) => [Found(if k in c.entries then Some(c.entries[k]) else None)]
    case RecheckFull(_, _, _) => if next.Stamp? then [] else [Refused]
    case WriteExpiry(_, _) => [Stored]
    case _ => []
  }

  function Tagged(t: nat, replies: seq<Reply>): (r: seq<(nat, Reply)>)
    ensures |r| == |replies|
    ensures forall i | 0 <= i < |r| :: r[i] == (t, replies[i])
  {
    if replies == [] then [] else [(t, replies[0])] + Tagged(t, replies[1..])
  }

  function RepliesTo(w: World, maxSize: nat, e: Event): (r: seq<(nat, Reply)>) {
    if e.Act? && e.task < |w.tasks| then
      var p := w.tasks[e.task];
      Tagged(e.task, ReplyOf(w.tables, p, Action(w.tables, p, maxSize, e.now, e.choice).1))
    else
      []
  }

  /** All answers of a run, each with the task that gets it. */
  function Replies(w: World, maxSize: nat, events: seq<Event>): (r: seq<(nat, Reply)>)
    decreases |events|
  {
    if events == [] then []
    else
      var before := events[..|events| - 1];
      Replies(w, maxSize, before) + RepliesTo(Run(w, maxSize, before), maxSize, events[|events| - 1])
  }

  lemma {:induction false} RunConcat(w: World, maxSize: nat, a: seq<Event>, b: seq<Event>)
    ensures Run(w, maxSize, a + b) == Run(Run(w, maxSize, a), maxSize, b)
    decreases |b|
  {
    if b == [] {
      assert a + b == a;
    } else {
      assert (a + b)[..|a + b| - 1] == a + b[..|b| - 1];
      RunConcat(w, maxSize, a, b[..|b| - 1]);
    }
  }

  lemma {:induction false} RepliesConcat(w: World, maxSize: nat, a: seq<Event>, b: seq<Event>)
    ensures Replies(w, maxSize, a + b) == Replies(w, maxSize, a) + Replies(Run(w, maxSize, a), maxSize, b)
    decreases |b|
  {
    if b == [] {
      assert a + b == a;
    } else {
      var before := b[..|b| - 1];
      assert (a + b)[..|a + b| - 1] == a + before;
      RepliesConcat(w, maxSize, a, before);
      RunConcat(w, maxSize, a, before);
      Associative(Replies(w, maxSize, a), Replies(Run(w, maxSize, a), maxSize, before),
                  RepliesTo(Run(w, maxSize, a + before), maxSize, b[|b| - 1]));
    }
  }

  lemma RunOne(w: World, maxSize: nat, e: Event)
    ensures Run(w, maxSize, [e]) == Step(w, maxSize, e)
    ensures Replies(w, maxSize, [e]) == RepliesTo(w, maxSize, e)
  {
    assert [e][..0] == [];
  }

  // ---------- A call that nothing comes in between ----------

  /** The clock reading and the choice of an action. */
  type Tick = (nat, string)

  datatype Outcome = Outcome(tables: Basic.Tables, task: Task, replies: seq<Reply>)

  /** One task acts alone. */
  function Alone(c: Basic.Tables, p: Task, maxSize: nat, ticks: seq<Tick>): (r: Outcome)
    decreases |ticks|
  {
    if ticks == [] then Outcome(c, p, [])
    else
      var (c', p') := Action(c, p, maxSize, ticks[0].0, ticks[0].1);
      var rest := Alone(c', p', maxSize, ticks[1..]);
      Outcome(rest.tables, rest.task, ReplyOf(c, p, p') + rest.replies)
  }

  function Acting(t: nat, ticks: seq<Tick>): (r: seq<Event>)
    ensures |r| == |ticks|
    ensures forall i | 0 <= i < |r| :: r[i] == Act(t, ticks[i].0, ticks[i].1)
  {
    if ticks == [] then [] else [Act(t, ticks[0].0, ticks[0].1)] + Acting(t, ticks[1..])
  }

  /** The events of a call that task `t` makes undisturbed. */
  function Calling(t: nat, call: Call, ticks: seq<Tick>): (r: seq<Event>) {
    [Start(t, call)] + Acting(t, ticks)
  }

  lemma AloneCons(c: Basic.Tables, p: Task, maxSize: nat, tick: Tick, ticks: seq<Tick>,
                  c': Basic.Tables, p': Task, o: Outcome)
    requires Action(c, p, maxSize, tick.0, tick.1) == (c', p') && Alone(c', p', maxSize, ticks) == o
    ensures Alone(c, p, maxSize, [tick] + ticks) == Outcome(o.tables, o.task, ReplyOf(c, p, p') + o.replies)
  {
    assert ([tick] + ticks)[1..] == ticks;
  }

  lemma AloneJoin(c: Basic.Tables, p: Task, maxSize: nat, a: seq<Tick>, b: seq<Tick>,
                  c': Basic.Tables, p': Task, later: seq<Reply>, rest: Outcome)
    requires a != [] && Action(c, p, maxSize, a[0].0, a[0].1) == (c', p')
    requires Alone(c', p', maxSize, a[1..] + b) == Outcome(rest.tables, rest.task, later + rest.replies)
    ensures Alone(c, p, maxSize, a + b)
            == Outcome(rest.tables, rest.task, ReplyOf(c, p, p') + later + rest.replies)
  {
    AloneCons(c, p, maxSize, a[0], a[1..] + b, c', p', Outcome(rest.tables, rest.task, later + rest.replies));
    assert a + b == [a[0]] + (a[1..] + b);
    Associative(ReplyOf(c, p, p'), later, rest.replies);
  }

  /** What one stretch of actions leaves, the next one takes up. */
  lemma {:induction false} AloneThen(c: Basic.Tables, p: Task, maxSize: nat, a: seq<Tick>, b: seq<Tick>,
                                     first: Outcome, rest: Outcome)
    requires Alone(c, p, maxSize, a) == first && Alone(first.tables, first.task, maxSize, b) == rest
    ensures Alone(c, p, maxSize, a + b) == Outcome(rest.tables, rest.task, first.replies + rest.replies)
    decreases |a|
  {
    if a == [] {
      assert a + b == b && [] + rest.replies == rest.replies;
    } else {
      var act := Action(c, p, maxSize, a[0].0, a[0].1);
      var later := Alone(act.0, act.1, maxSize, a[1..]);
      AloneThen(act.0, act.1, maxSize, a[1..], b, later, rest);
      AloneJoin(c, p, maxSize, a, b, act.0, act.1, later.replies, rest);
    }
  }

  lemma Associative<T>(a: seq<T>, b: seq<T>, c: seq<T>)
    ensures a + (b + c) == (a + b) + c
  {
  }

  lemma TaggedConcat(t: nat, a: seq<Reply>, b: seq<Reply>)
    ensures Tagged(t, a + b) == Tagged(t, a) + Tagged(t, b)
  {
  }

  lemma UpdateTwice(tasks: seq<Task>, t: nat, p: Task, q: Task)
    requires t < |tasks|
    ensures tasks[t := p][t := q] == tasks[t := q]
  {
  }

  lemma {:induction false} AloneRuns(w: World, maxSize: nat, t: nat, ticks: seq<Tick>)
    requires t < |w.tasks|
    ensures var o := Alone(w.tables, w.tasks[t], maxSize, ticks);
            && Run(w, maxSize, Acting(t, ticks)) == World(o.tables, w.tasks[t := o.task])
            && Replies(w, maxSize, Acting(t, ticks)) == Tagged(t, o.replies)
    decreases |ticks|
  {
    if ticks == [] {
      assert w.tasks[t := w.tasks[t]] == w.tasks;
    } else {
      var e := Act(t, ticks[0].0, ticks[0].1);
      var w' := Step(w, maxSize, e);
      AloneRuns(w', maxSize, t, ticks[1..]);
      RunOne(w, maxSize, e);
      RunConcat(w, maxSize, [e], Acting(t, ticks[1..]));
      RepliesConcat(w, maxSize, [e], Acting(t, ticks[1..]));
      UpdateTwice(w.tasks, t, w'.tasks[t], Alone(w'.tables, w'.tasks[t], maxSize, ticks[1..]).task);
      TaggedConcat(t, ReplyOf(w.tables, w.tasks[t], w'.tasks[t]),
                   Alone(w'.tables, w'.tasks[t], maxSize, ticks[1..]).replies);
    }
  }

  lemma CallRuns(w: World, maxSize: nat, t: nat, call: Call, ticks: seq<Tick>)
    requires t < |w.tasks| && w.tasks[t].Idle?
    ensures var o := Alone(w.tables, Entry(call), maxSize, ticks);
            && Run(w, maxSize, Calling(t, call, ticks)) == World(o.tables, w.tasks[t := o.task])
            && Replies(w, maxSize, Calling(t, call, ticks)) == Tagged(t, o.replies)
  {
    var e := Start(t, call);
    var w' := Step(w, maxSize, e);
    AloneRuns(w', maxSize, t, ticks);
    RunOne(w, maxSize, e);
    RunConcat(w, maxSize, [e], Acting(t, ticks));
    RepliesConcat(w, maxSize, [e], Acting(t, ticks));
    UpdateTwice(w.tasks, t, w'.tasks[t], Alone(w'.tables, w'.tasks[t], maxSize, ticks).task);
  }

  lemma CallEnds(w: World, maxSize: nat, t: nat, call: Call, ticks: seq<Tick>, c: Basic.Tables, replies: seq<Reply>)
    requires t < |w.tasks| && w.tasks[t].Idle?
    requires Alone(w.tables, Entry(call), maxSize, ticks) == Outcome(c, Idle, replies)
    ensures Run(w, maxSize, Calling(t, call, ticks)) == World(c, w.tasks)
    ensures Replies(w, maxSize, Calling(t, call, ticks)) == Tagged(t, replies)
  {
    CallRuns(w, maxSize, t, call, ticks);
    assert w.tasks[t := Idle] == w.tasks;
  }

  /** `n` actions at time `now`. */
  function At(now: nat, n: nat): (r: seq<Tick>)
    ensures |r| == n
  {
    if n == 0 then [] else [(now, "")] + At(now, n - 1)
  }

  lemma AloneStep(c: Basic.Tables, p: Task, maxSize: nat, now: nat, n: nat, c': Basic.Tables, p': Task, o: Outcome)
    requires n > 0 && Action(c, p, maxSize, now, "") == (c', p') && Alone(c', p', maxSize, At(now, n - 1)) == o
    ensures Alone(c, p, maxSize, At(now, n)) == Outcome(o.tables, o.task, ReplyOf(c, p, p') + o.replies)
  {
    assert At(now, n)[1..] == At(now, n - 1);
  }

  lemma AloneReads(c: Basic.Tables, maxSize: nat, k: string, now: nat, found: Option<string>)
    requires k in c.expirations && now <= c.expirations[k]
    requires found == if k in c.entries then Some(c.entries[k]) else None
    ensures Alone(c, CheckExpiry(k), maxSize, At(now, 2)) == Outcome(c, Idle, [Found(found)])
  {
    AloneStep(c, ReadEntry(k), maxSize, now, 1, c, Idle, Outcome(c, Idle, []));
    AloneStep(c, CheckExpiry(k), maxSize, now, 2, c, ReadEntry(k), Outcome(c, Idle, [Found(found)]));
  }

  /** A `get` of an unexpired key answers its value and changes nothing. */
  lemma SoloGetLive(w: World, maxSize: nat, t: nat, k: string, now: nat)
    requires t < |w.tasks| && w.tasks[t].Idle?
    requires k in w.tables.expirations && now <= w.tables.expirations[k]
    ensures var events := Calling(t, Get(k), At(now, 2));
            && Run(w, maxSize, events) == w
            && Replies(w, maxSize, events)
               == [(t, Found(if k in w.tables.entries then Some(w.tables.entries[k]) else None))]
  {
    var found := if k in w.tables.entries then Some(w.tables.entries[k]) else None;
    AloneReads(w.tables, maxSize, k, now, found);
    CallEnds(w, maxSize, t, Get(k), At(now, 2), w.tables, [Found(found)]);
  }

  lemma AloneDrops(c: Basic.Tables, maxSize: nat, k: string, now: nat, c1: Basic.Tables, c2: Basic.Tables)
    requires c1 == Basic.Tables(c.entries - {k}, c.expirations)
    requires c2 == Basic.Tables(c.entries - {k}, c.expirations - {k})
    ensures Alone(c, DropEntry(k, {}, Finish), maxSize, At(now, 3)) == Outcome(c2, Idle, [])
  {
    var done := Outcome(c2, Idle, []);
    AloneStep(c2, PickExpired({}, Finish), maxSize, now, 1, c2, Idle, done);
    AloneStep(c1, DropExpiry(k, {}, Finish), maxSize, now, 2, c2, PickExpired({}, Finish), done);
    AloneStep(c, DropEntry(k, {}, Finish), maxSize, now, 3, c1, DropExpiry(k, {}, Finish), done);
  }

  lemma AloneExpires(c: Basic.Tables, maxSize: nat, k: string, now: nat, c2: Basic.Tables)
    requires k in c.expirations ==> c.expirations[k] < now
    requires c2 == Basic.Tables(c.entries - {k}, c.expirations - {k})
    ensures Alone(c, CheckExpiry(k), maxSize, At(now, 4)) == Outcome(c2, Idle, [Found(None)])
  {
    AloneDrops(c, maxSize, k, now, Basic.Tables(c.entries - {k}, c.expirations), c2);
    AloneStep(c, CheckExpiry(k), maxSize, now, 4, c, DropEntry(k, {}, Finish), Outcome(c2, Idle, []));
  }

  /** A `get` of a key that has expired, or has no expiry time, answers None and removes the key. */
  lemma SoloGetExpired(w: World, maxSize: nat, t: nat, k: string, now: nat)
    requires t < |w.tasks| && w.tasks[t].Idle?
    requires k in w.tables.expirations ==> w.tables.expirations[k] < now
    ensures var events, c := Calling(t, Get(k), At(now, 4)), w.tables;
            && Run(w, maxSize, events) == World(Basic.Tables(c.entries - {k}, c.expirations - {k}), w.tasks)
            && Replies(w, maxSize, events) == [(t, Found(None))]
  {
    var c := Basic.Tables(w.tables.entries - {k}, w.tables.expirations - {k});
    AloneExpires(w.tables, maxSize, k, now, c);
    CallEnds(w, maxSize, t, Get(k), At(now, 4), c, [Found(None)]);
  }

  lemma SoloRemove(w: World, maxSize: nat, t: nat, k: string, now: nat)
    requires t < |w.tasks| && w.tasks[t].Idle?
    ensures var events, c := Calling(t, Remove(k), At(now, 3)), w.tables;
            && Run(w, maxSize, events) == World(Basic.Tables(c.entries - {k}, c.expirations - {k}), w.tasks)
            && Replies(w, maxSize, events) == []
  {
    var c := Basic.Tables(w.tables.entries - {k}, w.tables.expirations - {k});
    AloneDrops(w.tables, maxSize, k, now, Basic.Tables(w.tables.entries - {k}, w.tables.expirations), c);
    CallEnds(w, maxSize, t, Remove(k), At(now, 3), c, []);
  }

  lemma AloneClears(c: Basic.Tables, maxSize: nat, now: nat, c1: Basic.Tables, c2: Basic.Tables)
    requires c1 == Basic.Tables(map[], c.expirations) && c2 == Basic.Tables(map[], map[])
    ensures Alone(c, ClearEntries, maxSize, At(now, 2)) == Outcome(c2, Idle, [])
  {
    AloneStep(c1, ClearExpiries, maxSize, now, 1, c2, Idle, Outcome(c2, Idle, []));
    AloneStep(c, ClearEntries, maxSize, now, 2, c1, ClearExpiries, Outcome(c2, Idle, []));
  }

  lemma SoloClear(w: World, maxSize: nat, t: nat, now: nat)
    requires t < |w.tasks| && w.tasks[t].Idle?
    ensures var events := Calling(t, Clear, At(now, 2));
            && Run(w, maxSize, events) == World(Basic.Tables(map[], map[]), w.tasks)
            && Replies(w, maxSize, events) == []
  {
    var c := Basic.Tables(map[], map[]);
    AloneClears(w.tables, maxSize, now, Basic.Tables(map[], w.tables.expirations), c);
    CallEnds(w, maxSize, t, Clear, At(now, 2), c, []);
  }

  /** The sequence lists the set, each key once. */
  ghost predicate Lists(order: seq<string>, keys: set<string>) {
    if order == [] then keys == {} else order[0] in keys && Lists(order[1..], keys - {order[0]})
  }

  /** The actions that remove the keys one by one in this order. */
  function Sweeping(order: seq<string>, now: nat): (r: seq<Tick>) {
    if order == [] then [(now, "")]
    else [(now, order[0])] + ([(now, "")] + ([(now, "")] + Sweeping(order[1..], now)))
  }

  lemma AlonePicks(c: Basic.Tables, maxSize: nat, k: string, pending: set<string>, after: Then, now: nat,
                   ticks: seq<Tick>, c1: Basic.Tables, c2: Basic.Tables, o: Outcome)
    requires k in pending && c1 == Basic.Tables(c.entries - {k}, c.expirations) && c2 == Basic.Drop(c, {k})
    requires Alone(c2, PickExpired(pending - {k}, after), maxSize, ticks) == o
    ensures Alone(c, PickExpired(pending, after), maxSize, [(now, k)] + ([(now, "")] + ([(now, "")] + ticks))) == o
  {
    var rest := pending - {k};
    AloneCons(c1, DropExpiry(k, rest, after), maxSize, (now, ""), ticks, c2, PickExpired(rest, after), o);
    AloneCons(c, DropEntry(k, rest, after), maxSize, (now, ""), [(now, "")] + ticks, c1, DropExpiry(k, rest, after), o);
    AloneCons(c, PickExpired(pending, after), maxSize, (now, k), [(now, "")] + ([(now, "")] + ticks),
              c, DropEntry(k, rest, after), o);
  }

  lemma {:induction false} AloneSweeps(c: Basic.Tables, maxSize: nat, order: seq<string>, pending: set<string>,
                                       after: Then, now: nat)
    requires Lists(order, pending)
    ensures Alone(c, PickExpired(pending, after), maxSize, Sweeping(order, now))
            == Outcome(Basic.Drop(c, pending), Continue(after), [])
    decreases |order|
  {
    var o := Outcome(Basic.Drop(c, pending), Continue(after), []);
    if order == [] {
      AloneCons(c, PickExpired({}, after), maxSize, (now, ""), [], c, Continue(after), o);
      assert [(now, "")] + [] == Sweeping(order, now);
    } else {
      var k := order[0];
      AloneSweeps(Basic.Drop(c, {k}), maxSize, order[1..], pending - {k}, after, now);
      AlonePicks(c, maxSize, k, pending, after, now, Sweeping(order[1..], now),
                 Basic.Tables(c.entries - {k}, c.expirations), Basic.Drop(c, {k}), o);
    }
  }

  /** The actions of a sweep: it reads the clock, scans, and removes. */
  function Cleaning(order: seq<string>, now: nat): (r: seq<Tick>) {
    [(now, "")] + ([(now, "")] + Sweeping(order, now))
  }

  lemma AloneCleans(c: Basic.Tables, maxSize: nat, order: seq<string>, after: Then, now: nat)
    requires Lists(order, Basic.ExpiredKeys(c, now))
    ensures Alone(c, ReadClock(after), maxSize, Cleaning(order, now))
            == Outcome(Basic.Swept(c, now), Continue(after), [])
  {
    var pending, o := Basic.ExpiredKeys(c, now), Outcome(Basic.Swept(c, now), Continue(after), []);
    AloneSweeps(c, maxSize, order, pending, after, now);
    AloneCons(c, Scan(now, after), maxSize, (now, ""), Sweeping(order, now), c, PickExpired(pending, after), o);
    AloneCons(c, ReadClock(after), maxSize, (now, ""), [(now, "")] + Sweeping(order, now), c, Scan(now, after), o);
  }

  /** A cleanup drops the keys that have expired by the time at which it reads the clock, in whatever order
      it meets them. */
  lemma SoloCleanup(w: World, maxSize: nat, t: nat, order: seq<string>, now: nat)
    requires t < |w.tasks| && w.tasks[t].Idle? && Lists(order, Basic.ExpiredKeys(w.tables, now))
    ensures var events := Calling(t, Cleanup, Cleaning(order, now));
            && Run(w, maxSize, events) == World(Basic.Swept(w.tables, now), w.tasks)
            && Replies(w, maxSize, events) == []
  {
    AloneCleans(w.tables, maxSize, order, Finish, now);
    CallEnds(w, maxSize, t, Cleanup, Cleaning(order, now), Basic.Swept(w.tables, now), []);
  }

  lemma AloneWrites(c: Basic.Tables, maxSize: nat, k: string, v: string, ttl: nat, now: nat,
                    c1: Basic.Tables, c2: Basic.Tables)
    requires c1 == Basic.Tables(c.entries[k := v], c.expirations)
    requires c2 == Basic.Tables(c.entries[k := v], c.expirations[k := now + ttl])
    ensures Alone(c, Stamp(k, v, ttl), maxSize, At(now, 3)) == Outcome(c2, Idle, [Stored])
  {
    var done := Outcome(c2, Idle, [Stored]);
    AloneStep(c1, WriteExpiry(k, now + ttl), maxSize, now, 1, c2, Idle, Outcome(c2, Idle, []));
    AloneStep(c, WriteEntry(k, v, now + ttl), maxSize, now, 2, c1, WriteExpiry(k, now + ttl), done);
    AloneStep(c, Stamp(k, v, ttl), maxSize, now, 3, c, WriteEntry(k, v, now + ttl), done);
  }

  lemma AloneFindsRoom(c: Basic.Tables, maxSize: nat, k: string, v: string, ttl: nat, now: nat, c2: Basic.Tables)
    requires |c.entries| < maxSize && c2 == Basic.Tables(c.entries[k := v], c.expirations[k := now + ttl])
    ensures Alone(c, CheckFull(k, v, ttl), maxSize, At(now, 4)) == Outcome(c2, Idle, [Stored])
  {
    AloneWrites(c, maxSize, k, v, ttl, now, Basic.Tables(c.entries[k := v], c.expirations), c2);
    AloneStep(c, CheckFull(k, v, ttl), maxSize, now, 4, c, Stamp(k, v, ttl), Outcome(c2, Idle, [Stored]));
  }

  /** A `set` that finds room writes both maps and sweeps nothing. */
  lemma SoloSetRoom(w: World, maxSize: nat, t: nat, k: string, v: string, ttl: nat, now: nat)
    requires t < |w.tasks| && w.tasks[t].Idle? && |w.tables.entries| < maxSize
    ensures var events, c := Calling(t, Set(k, v, ttl), At(now, 4)), w.tables;
            && Run(w, maxSize, events)
               == World(Basic.Tables(c.entries[k := v], c.expirations[k := now + ttl]), w.tasks)
            && Replies(w, maxSize, events) == [(t, Stored)]
  {
    var c := Basic.Tables(w.tables.entries[k := v], w.tables.expirations[k := now + ttl]);
    AloneFindsRoom(w.tables, maxSize, k, v, ttl, now, c);
    CallEnds(w, maxSize, t, Set(k, v, ttl), At(now, 4), c, [Stored]);
  }

  /** The actions of a `set` that finds the cache full, before its second look. */
  function Making(order: seq<string>, sweptAt: nat): (r: seq<Tick>) {
    [(sweptAt, "")] + Cleaning(order, sweptAt)
  }

  lemma AloneMakesRoom(c: Basic.Tables, maxSize: nat, k: string, v: string, ttl: nat, order: seq<string>, sweptAt: nat)
    requires |c.entries| >= maxSize && Lists(order, Basic.ExpiredKeys(c, sweptAt))
    ensures Alone(c, CheckFull(k, v, ttl), maxSize, Making(order, sweptAt))
            == Outcome(Basic.Swept(c, sweptAt), RecheckFull(k, v, ttl), [])
  {
    AloneCleans(c, maxSize, order, Recheck(k, v, ttl), sweptAt);
    AloneCons(c, CheckFull(k, v, ttl), maxSize, (sweptAt, ""), Cleaning(order, sweptAt),
              c, ReadClock(Recheck(k, v, ttl)), Outcome(Basic.Swept(c, sweptAt), RecheckFull(k, v, ttl), []));
  }

  lemma AloneFindsSwept(c: Basic.Tables, maxSize: nat, k: string, v: string, ttl: nat, now: nat, c2: Basic.Tables)
    requires |c.entries| < maxSize && c2 == Basic.Tables(c.entries[k := v], c.expirations[k := now + ttl])
    ensures Alone(c, RecheckFull(k, v, ttl), maxSize, At(now, 4)) == Outcome(c2, Idle, [Stored])
  {
    AloneWrites(c, maxSize, k, v, ttl, now, Basic.Tables(c.entries[k := v], c.expirations), c2);
    AloneStep(c, RecheckFull(k, v, ttl), maxSize, now, 4, c, Stamp(k, v, ttl), Outcome(c2, Idle, [Stored]));
  }

  lemma AloneIdles(c: Basic.Tables, maxSize: nat, now: nat)
    ensures Alone(c, Idle, maxSize, At(now, 3)) == Outcome(c, Idle, [])
  {
    AloneStep(c, Idle, maxSize, now, 1, c, Idle, Outcome(c, Idle, []));
    AloneStep(c, Idle, maxSize, now, 2, c, Idle, Outcome(c, Idle, []));
    AloneStep(c, Idle, maxSize, now, 3, c, Idle, Outcome(c, Idle, []));
  }

  lemma AloneLooksAgain(c: Basic.Tables, maxSize: nat, k: string, v: string, ttl: nat, now: nat,
                        room: bool, c': Basic.Tables)
    requires room <==> |c.entries| < maxSize
    requires c' == if room then Basic.Tables(c.entries[k := v], c.expirations[k := now + ttl]) else c
    ensures Alone(c, RecheckFull(k, v, ttl), maxSize, At(now, 4))
            == Outcome(c', Idle, [if room then Stored else Refused])
  {
    if room {
      AloneFindsSwept(c, maxSize, k, v, ttl, now, c');
    } else {
      AloneIdles(c, maxSize, now);
      AloneStep(c, RecheckFull(k, v, ttl), maxSize, now, 4, c, Idle, Outcome(c, Idle, []));
    }
  }

  lemma AloneSetsFull(c: Basic.Tables, maxSize: nat, k: string, v: string, ttl: nat, order: seq<string>,
                      sweptAt: nat, now: nat, swept: Basic.Tables, room: bool, c': Basic.Tables)
    requires |c.entries| >= maxSize && Lists(order, Basic.ExpiredKeys(c, sweptAt)) && swept == Basic.Swept(c, sweptAt)
    requires room <==> |swept.entries| < maxSize
    requires c' == if room then Basic.Tables(swept.entries[k := v], swept.expirations[k := now + ttl]) else swept
    ensures Alone(c, CheckFull(k, v, ttl), maxSize, Making(order, sweptAt) + At(now, 4))
            == Outcome(c', Idle, [if room then Stored else Refused])
  {
    AloneMakesRoom(c, maxSize, k, v, ttl, order, sweptAt);
    AloneLooksAgain(swept, maxSize, k, v, ttl, now, room, c');
    AloneThen(c, CheckFull(k, v, ttl), maxSize, Making(order, sweptAt), At(now, 4),
              Outcome(swept, RecheckFull(k, v, ttl), []), Outcome(c', Idle, [if room then Stored else Refused]));
  }

  /** A `set` on a full cache sweeps it. If that makes room, it writes both maps and is accepted; otherwise it
      is refused, and the swept maps stay. */
  lemma SoloSetFull(w: World, maxSize: nat, t: nat, k: string, v: string, ttl: nat,
                    order: seq<string>, sweptAt: nat, now: nat)
    requires t < |w.tasks| && w.tasks[t].Idle? && Lists(order, Basic.ExpiredKeys(w.tables, sweptAt))
    requires |w.tables.entries| >= maxSize
    ensures var events, c := Calling(t, Set(k, v, ttl), Making(order, sweptAt) + At(now, 4)),
                             Basic.Swept(w.tables, sweptAt);
            && Run(w, maxSize, events)
               == World(if |c.entries| < maxSize
                        then Basic.Tables(c.entries[k := v], c.expirations[k := now + ttl]) else c, w.tasks)
            && Replies(w, maxSize, events) == [(t, if |c.entries| < maxSize then Stored else Refused)]
  {
    var c := Basic.Swept(w.tables, sweptAt);
    var room := |c.entries| < maxSize;
    var c' := if room then Basic.Tables(c.entries[k := v], c.expirations[k := now + ttl]) else c;
    var ticks := Making(order, sweptAt) + At(now, 4);
    AloneSetsFull(w.tables, maxSize, k, v, ttl, order, sweptAt, now, c, room, c');
    CallEnds(w, maxSize, t, Set(k, v, ttl), ticks, c', [if room then Stored else Refused]);
  }

  // ---------- Sequential histories ----------

  function CallOf(op: Basic.Op): (r: Call) {
    match op
    case Get(k, _) => Get(k)
    case Set(k, v, ttl, _, _) => Set(k, v, ttl)
    case Remove(k) => Remove(k)
    case Clear => Clear
    case Cleanup(_) => Cleanup
  }

  /** What the sequential cache answers. */
  function BasicReply(c: Basic.Tables, maxSize: nat, op: Basic.Op): (r: seq<Reply>) {
    match op
    case Get(k, now) => [Found(Basic.Answer(c, k, now))]
    case Set(_, _, _, sweptAt, _) => [if Basic.Accepts(c, maxSize, sweptAt) then Stored else Refused]
    case _ => []
  }

  function BasicReplies(maxSize: nat, ops: seq<Basic.Op>): (r: seq<Reply>)
    decreases |ops|
  {
    if ops == [] then []
    else
      var before := ops[..|ops| - 1];
      BasicReplies(maxSize, before) + BasicReply(Basic.Run(maxSize, before), maxSize, ops[|ops| - 1])
  }

  lemma {:induction false} Listing(keys: set<string>) returns (order: seq<string>)
    ensures Lists(order, keys)
    decreases |keys|
  {
    if keys == {} {
      order := [];
    } else {
      var k :| k in keys;
      var rest := Listing(keys - {k});
      order := [k] + rest;
      assert order[1..] == rest;
    }
  }

  lemma AloneSets(c: Basic.Tables, maxSize: nat, k: string, v: string, ttl: nat, sweptAt: nat, now: nat)
      returns (ticks: seq<Tick>)
    ensures Alone(c, CheckFull(k, v, ttl), maxSize, ticks)
            == Outcome(Basic.AfterSet(c, maxSize, k, v, ttl, sweptAt, now), Idle,
                       [if Basic.Accepts(c, maxSize, sweptAt) then Stored else Refused])
  {
    var d := Basic.Cleared(c, maxSize, sweptAt);
    var d' := Basic.Tables(d.entries[k := v], d.expirations[k := now + ttl]);
    if |c.entries| < maxSize {
      ticks := At(now, 4);
      AloneFindsRoom(c, maxSize, k, v, ttl, now, d');
    } else {
      var order := Listing(Basic.ExpiredKeys(c, sweptAt));
      ticks := Making(order, sweptAt) + At(now, 4);
      var room := |d.entries| < maxSize;
      AloneSetsFull(c, maxSize, k, v, ttl, order, sweptAt, now, d, room, if room then d' else d);
    }
  }

  /** A single call, undisturbed, makes the step and gives the answer of the sequential cache. */
  lemma AloneCall(c: Basic.Tables, maxSize: nat, op: Basic.Op) returns (ticks: seq<Tick>)
    ensures Alone(c, Entry(CallOf(op)), maxSize, ticks)
            == Outcome(Basic.Step(c, maxSize, op), Idle, BasicReply(c, maxSize, op))
  {
    match op
    case Get(k, now) =>
      if Basic.Unexpired(c, k, now) {
        ticks := At(now, 2);
        AloneReads(c, maxSize, k, now, Basic.Answer(c, k, now));
      } else {
        ticks := At(now, 4);
        AloneExpires(c, maxSize, k, now, Basic.Drop(c, {k}));
      }
    case Set(k, v, ttl, sweptAt, now) => ticks := AloneSets(c, maxSize, k, v, ttl, sweptAt, now);
    case Remove(k) =>
      ticks := At(0, 3);
      AloneDrops(c, maxSize, k, 0, Basic.Tables(c.entries - {k}, c.expirations), Basic.Drop(c, {k}));
    case Clear =>
      ticks := At(0, 2);
      AloneClears(c, maxSize, 0, Basic.Tables(map[], c.expirations), Basic.Tables(map[], map[]));
    case Cleanup(now) =>
      var order := Listing(Basic.ExpiredKeys(c, now));
      ticks := Cleaning(order, now);
      AloneCleans(c, maxSize, order, Finish, now);
  }

  /** The calls that a run starts. */
  function CallsIn(events: seq<Event>): (r: seq<Call>)
    decreases |events|
  {
    if events == [] then []
    else
      var e := events[|events| - 1];
      CallsIn(events[..|events| - 1]) + if e.Start? then [e.call] else []
  }

  lemma {:induction false} CallsInActs(events: seq<Event>, acts: seq<Event>)
    requires Acts(acts)
    ensures CallsIn(events + acts) == CallsIn(events)
    decreases |acts|
  {
    if acts == [] {
      assert events + acts == events;
    } else {
      assert (events + acts)[..|events + acts| - 1] == events + acts[..|acts| - 1];
      CallsInActs(events, acts[..|acts| - 1]);
    }
  }

  lemma CallsInCalling(events: seq<Event>, t: nat, call: Call, ticks: seq<Tick>)
    ensures CallsIn(events + Calling(t, call, ticks)) == CallsIn(events) + [call]
  {
    assert events + Calling(t, call, ticks) == (events + [Start(t, call)]) + Acting(t, ticks);
    CallsInActs(events + [Start(t, call)], Acting(t, ticks));
    assert (events + [Start(t, call)])[..|events|] == events;
  }

  function CallsOf(ops: seq<Basic.Op>): (r: seq<Call>)
    decreases |ops|
  {
    if ops == [] then [] else CallsOf(ops[..|ops| - 1]) + [CallOf(ops[|ops| - 1])]
  }

  /** Every sequential history of the basic cache is a run of the shared cache: a task that makes exactly
      these calls, one after the other, gets the same answers and leaves the same two maps. */
  lemma {:induction false} SequentialHistoriesAreRuns(w: World, maxSize: nat, ops: seq<Basic.Op>)
      returns (events: seq<Event>)
    requires Initial(w) && w.tasks != []
    ensures CallsIn(events) == CallsOf(ops)
    ensures Run(w, maxSize, events) == World(Basic.Run(maxSize, ops), w.tasks)
    ensures Replies(w, maxSize, events) == Tagged(0, BasicReplies(maxSize, ops))
    decreases |ops|
  {
    if ops == [] {
      events := [];
    } else {
      var before, op := ops[..|ops| - 1], ops[|ops| - 1];
      var es := SequentialHistoriesAreRuns(w, maxSize, before);
      var m := Run(w, maxSize, es);
      var ticks := AloneCall(m.tables, maxSize, op);
      var call := Calling(0, CallOf(op), ticks);
      CallEnds(m, maxSize, 0, CallOf(op), ticks, Basic.Step(m.tables, maxSize, op),
               BasicReply(m.tables, maxSize, op));
      events := es + call;
      RunConcat(w, maxSize, es, call);
      RepliesConcat(w, maxSize, es, call);
      CallsInCalling(es, 0, CallOf(op), ticks);
      TaggedConcat(0, BasicReplies(maxSize, before), BasicReply(m.tables, maxSize, op));
    }
  }

  // ---------- Reachable worlds ----------

  /** Some run leads from `w` to `w'`. */
  ghost predicate Reaches(w: World, maxSize: nat, w': World) {
    exists events :: Run(w, maxSize, events) == w'
  }

  lemma ReachesRun(w: World, maxSize: nat, w': World, more: seq<Event>)
    requires Reaches(w, maxSize, w')
    ensures Reaches(w, maxSize, Run(w', maxSize, more))
  {
    var events :| Run(w, maxSize, events) == w';
    RunConcat(w, maxSize, events, more);
  }

  /** Task `t` goes on alone. */
  lemma ReachesAlone(w: World, maxSize: nat, w': World, t: nat, ticks: seq<Tick>, o: Outcome, tasks: seq<Task>)
    requires t < |w'.tasks| && Reaches(w, maxSize, w')
    requires Alone(w'.tables, w'.tasks[t], maxSize, ticks) == o && tasks == w'.tasks[t := o.task]
    ensures Reaches(w, maxSize, World(o.tables, tasks))
  {
    AloneRuns(w', maxSize, t, ticks);
    ReachesRun(w, maxSize, w', Acting(t, ticks));
  }

  lemma ReachesCall(w: World, maxSize: nat, w': World, t: nat, call: Call, ticks: seq<Tick>, o: Outcome,
                    tasks: seq<Task>)
    requires t < |w'.tasks| && w'.tasks[t].Idle? && Reaches(w, maxSize, w')
    requires Alone(w'.tables, Entry(call), maxSize, ticks) == o && tasks == w'.tasks[t := o.task]
    ensures Reaches(w, maxSize, World(o.tables, tasks))
  {
    CallRuns(w', maxSize, t, call, ticks);
    ReachesRun(w, maxSize, w', Calling(t, call, ticks));
  }

  // ---------- When the two maps agree ----------

  /** The task has written the entry of `k` and not yet its expiry time. */
  predicate Writing(p: Task, k: string) {
    p.WriteExpiry? && p.key == k
  }

  /** The task has dropped the entry of `k` and not yet its expiry time. */
  predicate Dropping(p: Task, k: string) {
    (p.DropExpiry? && p.key == k) || p.ClearExpiries?
  }

  ghost predicate SomeWriting(w: World, k: string) {
    exists t | 0 <= t < |w.tasks| :: Writing(w.tasks[t], k)
  }

  ghost predicate SomeDropping(w: World, k: string) {
    exists t | 0 <= t < |w.tasks| :: Dropping(w.tasks[t], k)
  }

  /** One task is half through writing `k` and another half through dropping it. */
  ghost predicate Overlap(w: World, k: string) {
    SomeWriting(w, k) && SomeDropping(w, k)
  }

  ghost predicate AtRest(w: World, k: string) {
    !SomeWriting(w, k) && !SomeDropping(w, k)
  }

  ghost predicate Agree(w: World, k: string) {
    k in w.tables.entries <==> k in w.tables.expirations
  }

  /** What the tasks that are half through say about the entry of `k`. */
  ghost predicate Paired(w: World, k: string) {
    && (SomeWriting(w, k) ==> k in w.tables.entries)
    && (SomeDropping(w, k) ==> k !in w.tables.entries)
    && (AtRest(w, k) ==> Agree(w, k))
  }

  lemma ActPaired(w: World, maxSize: nat, k: string, t: nat, now: nat, choice: string)
    requires t < |w.tasks| && Paired(w, k) && !Overlap(w, k)
    requires !Overlap(Step(w, maxSize, Act(t, now, choice)), k)
    ensures Paired(Step(w, maxSize, Act(t, now, choice)), k)
  {
    var d, p := Step(w, maxSize, Act(t, now, choice)), w.tasks[t];
    assert forall i | 0 <= i < |w.tasks| && i != t :: d.tasks[i] == w.tasks[i];
    assert d.tasks[t] == Action(w.tables, p, maxSize, now, choice).1;
    if Writing(p, k) { assert SomeWriting(w, k); }
    if Dropping(p, k) { assert SomeDropping(w, k); }
    if Writing(d.tasks[t], k) { assert SomeWriting(d, k); }
    if Dropping(d.tasks[t], k) { assert SomeDropping(d, k); }
  }

  lemma StepPaired(w: World, maxSize: nat, k: string, e: Event)
    requires Paired(w, k) && !Overlap(w, k) && !Overlap(Step(w, maxSize, e), k)
    ensures Paired(Step(w, maxSize, e), k)
  {
    if e.task < |w.tasks| {
      match e
      case Start(t, call) =>
        var d := Step(w, maxSize, e);
        assert forall i | 0 <= i < |w.tasks| && i != t :: d.tasks[i] == w.tasks[i];
        assert SomeWriting(d, k) ==> SomeWriting(w, k);
        assert SomeDropping(d, k) ==> SomeDropping(w, k);
        assert w.tasks[t].Idle? ==> !Writing(w.tasks[t], k) && !Dropping(w.tasks[t], k);
      case Act(t, now, choice) => ActPaired(w, maxSize, k, t, now, choice);
    }
  }

  /** At no point of the run a set of `k` overlaps a removal of `k`, both half through. */
  ghost predicate NeverOverlaps(w: World, maxSize: nat, k: string, events: seq<Event>)
    decreases |events|
  {
    !Overlap(Run(w, maxSize, events), k) &&
    (events != [] ==> NeverOverlaps(w, maxSize, k, events[..|events| - 1]))
  }

  lemma {:induction false} RunPaired(w: World, maxSize: nat, k: string, events: seq<Event>)
    requires Paired(w, k) && NeverOverlaps(w, maxSize, k, events)
    ensures Paired(Run(w, maxSize, events), k)
    decreases |events|
  {
    if events != [] {
      RunPaired(w, maxSize, k, events[..|events| - 1]);
      StepPaired(Run(w, maxSize, events[..|events| - 1]), maxSize, k, events[|events| - 1]);
    }
  }

  /** Over every run in which no set of `k` and removal of `k` are half through at the same time, the
      maps agree about `k` whenever neither is. */
  lemma MapsAgreeAtRest(w: World, maxSize: nat, k: string, events: seq<Event>)
    requires Initial(w) && NeverOverlaps(w, maxSize, k, events) && AtRest(Run(w, maxSize, events), k)
    ensures Agree(Run(w, maxSize, events), k)
  {
    RunPaired(w, maxSize, k, events);
  }

  /** No new calls, only progress of the calls in flight. */
  ghost predicate Acts(events: seq<Event>) {
    forall i | 0 <= i < |events| :: events[i].Act?
  }

  predicate HalfThrough(p: Task, k: string, dropping: bool) {
    if dropping then Dropping(p, k) else Writing(p, k)
  }

  lemma FinishHalf(w: World, maxSize: nat, k: string, dropping: bool, t: nat)
    requires t < |w.tasks| && HalfThrough(w.tasks[t], k, dropping)
    ensures var d := Step(w, maxSize, Act(t, 0, ""));
            && |d.tasks| == |w.tasks| && d.tables.entries == w.tables.entries
            && (forall i | 0 <= i < |w.tasks| && i != t :: d.tasks[i] == w.tasks[i])
            && !Writing(d.tasks[t], k) && !Dropping(d.tasks[t], k)
            && (k in d.tables.expirations <==> !dropping)
  {
  }

  /** `d` is `w` after the first `n` tasks that were half through have finished. */
  ghost predicate Halved(w: World, d: World, k: string, dropping: bool, n: nat)
    requires n <= |w.tasks|
  {
    && |d.tasks| == |w.tasks| && d.tables.entries == w.tables.entries
    && (forall t | n <= t < |w.tasks| :: d.tasks[t] == w.tasks[t])
    && (forall t | 0 <= t < n :: !HalfThrough(d.tasks[t], k, dropping))
    && (forall t | 0 <= t < n :: HalfThrough(d.tasks[t], k, !dropping) <==> HalfThrough(w.tasks[t], k, !dropping))
    && ((exists t | 0 <= t < n :: HalfThrough(w.tasks[t], k, dropping)) ==>
         (k in d.tables.expirations <==> !dropping))
  }

  lemma HalvedNext(w: World, d: World, maxSize: nat, k: string, dropping: bool, n: nat, d': World)
    requires n < |w.tasks| && Halved(w, d, k, dropping, n)
    requires d' == if HalfThrough(w.tasks[n], k, dropping) then Step(d, maxSize, Act(n, 0, "")) else d
    ensures Halved(w, d', k, dropping, n + 1)
  {
    if HalfThrough(w.tasks[n], k, dropping) { FinishHalf(d, maxSize, k, dropping, n); }
  }

  /** Let the first `n` tasks that are half through writing, or dropping, finish. */
  lemma {:induction false} FinishHalves(w: World, maxSize: nat, k: string, dropping: bool, n: nat)
      returns (later: seq<Event>)
    requires n <= |w.tasks|
    ensures Acts(later) && Halved(w, Run(w, maxSize, later), k, dropping, n)
  {
    if n == 0 {
      later := [];
    } else {
      later := FinishHalves(w, maxSize, k, dropping, n - 1);
      var d := Run(w, maxSize, later);
      if HalfThrough(w.tasks[n - 1], k, dropping) {
        var e := Act(n - 1, 0, "");
        assert (later + [e])[..|later|] == later;
        HalvedNext(w, d, maxSize, k, dropping, n - 1, Step(d, maxSize, e));
        later := later + [e];
      } else {
        HalvedNext(w, d, maxSize, k, dropping, n - 1, d);
      }
    }
  }

  /** Once a set and a removal of `k` are both half through, the calls in flight can finish their work on
      `k` in an order that leaves it in one map only. */
  lemma OverlapCanSeparate(w: World, maxSize: nat, k: string) returns (later: seq<Event>)
    requires Overlap(w, k)
    ensures Acts(later) && AtRest(Run(w, maxSize, later), k) && !Agree(Run(w, maxSize, later), k)
  {
    var droppingLast := k in w.tables.entries;
    var first := FinishHalves(w, maxSize, k, !droppingLast, |w.tasks|);
    var d := Run(w, maxSize, first);
    var second := FinishHalves(d, maxSize, k, droppingLast, |w.tasks|);
    RunConcat(w, maxSize, first, second);
    later := first + second;
    if droppingLast {
      var t :| 0 <= t < |w.tasks| && Dropping(w.tasks[t], k);
      assert HalfThrough(d.tasks[t], k, droppingLast);
    } else {
      var t :| 0 <= t < |w.tasks| && Writing(w.tasks[t], k);
      assert HalfThrough(d.tasks[t], k, droppingLast);
    }
  }

  /** The exact condition: every schedule of the calls in flight leaves the maps in agreement about `k`
      at rest, if and only if no schedule of them has a set and a removal of `k` half through together. */
  lemma SafeIffNoOverlap(w: World, maxSize: nat, k: string)
    requires Paired(w, k)
    ensures (forall later | Acts(later) :: AtRest(Run(w, maxSize, later), k) ==> Agree(Run(w, maxSize, later), k))
            <==> (forall later | Acts(later) :: !Overlap(Run(w, maxSize, later), k))
  {
    if forall later | Acts(later) :: !Overlap(Run(w, maxSize, later), k) {
      forall later | Acts(later) && AtRest(Run(w, maxSize, later), k) ensures Agree(Run(w, maxSize, later), k) {
        NoScheduleOverlaps(w, maxSize, k, later);
        RunPaired(w, maxSize, k, later);
      }
    } else {
      var early :| Acts(early) && Overlap(Run(w, maxSize, early), k);
      var late := OverlapCanSeparate(Run(w, maxSize, early), maxSize, k);
      RunConcat(w, maxSize, early, late);
    }
  }

  lemma {:induction false} NoScheduleOverlaps(w: World, maxSize: nat, k: string, later: seq<Event>)
    requires forall es | Acts(es) :: !Overlap(Run(w, maxSize, es), k)
    requires Acts(later)
    ensures NeverOverlaps(w, maxSize, k, later)
    decreases |later|
  {
    if later != [] { NoScheduleOverlaps(w, maxSize, k, later[..|later| - 1]); }
  }

  /** What a disagreement looks like: a removal that overlaps a `set` of its key leaves an entry without
      an expiry time. No cleanup finds it; a `get` of the key answers None and removes it. */
  lemma OrphanEntry(w: World, maxSize: nat, k: string, v: string)
    requires Initial(w) && |w.tasks| >= 2 && maxSize > 0
    ensures var orphan := Basic.Tables(map[k := v], map[]);
            && Reaches(w, maxSize, World(orphan, w.tasks))
            && (forall now: nat :: Basic.Swept(orphan, now) == orphan)
            && (forall now: nat :: Basic.Answer(orphan, k, now) == None)
            && (forall now: nat :: Basic.AfterGet(orphan, k, now) == Basic.Tables(map[], map[]))
  {
    var none, orphan := Basic.Tables(map[], map[]), Basic.Tables(map[k := v], map[]);
    ReachOrphan(w, maxSize, k, v, none, orphan);
    forall now: nat ensures Basic.Swept(orphan, now) == orphan {
      assert Basic.ExpiredKeys(orphan, now) == {};
    }
    forall now: nat ensures Basic.AfterGet(orphan, k, now) == none {
      assert orphan.entries - {k} == none.entries;
    }
  }

  /** In any tables a `get` of a key without expiry time removes its entry, and nothing else. */
  lemma GetRemovesOrphan(c: Basic.Tables, k: string, now: nat)
    requires k in c.entries && k !in c.expirations
    ensures Basic.Answer(c, k, now) == None
    ensures Basic.AfterGet(c, k, now) == c.(entries := c.entries - {k})
  {
    assert c.expirations - {k} == c.expirations;
  }

  lemma ReachOrphan(w: World, maxSize: nat, k: string, v: string, none: Basic.Tables, orphan: Basic.Tables)
    requires Initial(w) && |w.tasks| >= 2 && maxSize > 0
    requires none == Basic.Tables(map[], map[]) && orphan == Basic.Tables(map[k := v], map[])
    ensures Reaches(w, maxSize, World(orphan, w.tasks))
  {
    var both := Basic.Tables(map[k := v], map[k := 0]);
    var removing := w.tasks[1 := DropExpiry(k, {}, Finish)];
    assert Run(w, maxSize, []) == w;
    ReachHalfRemoved(w, maxSize, k, none, removing);
    AloneFindsRoom(none, maxSize, k, v, 0, 0, both);
    ReachesCall(w, maxSize, World(none, removing), 0, Set(k, v, 0), At(0, 4), Outcome(both, Idle, [Stored]), removing);
    AloneUnmarks(both, maxSize, k, orphan);
    ReachesAlone(w, maxSize, World(both, removing), 1, At(0, 2), Outcome(orphan, Idle, []), w.tasks);
  }

  lemma ReachHalfRemoved(w: World, maxSize: nat, k: string, none: Basic.Tables, removing: seq<Task>)
    requires Initial(w) && |w.tasks| >= 2 && none == Basic.Tables(map[], map[])
    requires removing == w.tasks[1 := DropExpiry(k, {}, Finish)] && Reaches(w, maxSize, w)
    ensures Reaches(w, maxSize, World(none, removing))
  {
    var half := Outcome(none, DropExpiry(k, {}, Finish), []);
    assert none.entries - {k} == none.entries;
    AloneStep(none, DropEntry(k, {}, Finish), maxSize, 0, 1, none, half.task, half);
    ReachesCall(w, maxSize, w, 1, Remove(k), At(0, 1), half, removing);
  }

  lemma AloneUnmarks(c: Basic.Tables, maxSize: nat, k: string, c': Basic.Tables)
    requires c' == Basic.Tables(c.entries, c.expirations - {k})
    ensures Alone(c, DropExpiry(k, {}, Finish), maxSize, At(0, 2)) == Outcome(c', Idle, [])
  {
    var done := Outcome(c', Idle, []);
    AloneStep(c', PickExpired({}, Finish), maxSize, 0, 1, c', Idle, done);
    AloneStep(c, DropExpiry(k, {}, Finish), maxSize, 0, 2, c', PickExpired({}, Finish), done);
  }

  // ---------- The size bound is attained ----------

  /** Pairwise different keys. */
  function Key(i: nat): (r: string)
    ensures |r| == i
  {
    if i == 0 then "" else Key(i - 1) + "k"
  }

  /** The table with the first `n` keys. */
  ghost function Filled(n: nat): map<string, string> {
    if n == 0 then map[] else Filled(n - 1)[Key(n - 1) := ""]
  }

  lemma {:induction false} FilledSize(n: nat)
    ensures |Filled(n)| == n
    ensures forall k | k in Filled(n) :: |k| < n
  {
    if n > 0 {
      FilledSize(n - 1);
      var before := Filled(n - 1);
      assert Key(n - 1) !in before;
      assert Filled(n).Keys == before.Keys + {Key(n - 1)};
      assert |Filled(n).Keys| == |before.Keys| + 1;
    }
  }

  lemma ReachOneMore(w: World, maxSize: nat, c: Basic.Tables, k: string, c': Basic.Tables)
    requires Initial(w) && w.tasks != [] && |c.entries| < maxSize && Reaches(w, maxSize, World(c, w.tasks))
    requires c' == Basic.Tables(c.entries[k := ""], c.expirations[k := 0])
    ensures Reaches(w, maxSize, World(c', w.tasks))
  {
    AloneFindsRoom(c, maxSize, k, "", 0, 0, c');
    ReachesCall(w, maxSize, World(c, w.tasks), 0, Set(k, "", 0), At(0, 4), Outcome(c', Idle, [Stored]), w.tasks);
  }

  lemma {:induction false} ReachFilled(w: World, maxSize: nat, n: nat) returns (expirations: map<string, nat>)
    requires Initial(w) && w.tasks != [] && n <= maxSize
    ensures Reaches(w, maxSize, World(Basic.Tables(Filled(n), expirations), w.tasks))
  {
    if n == 0 {
      expirations := map[];
      assert Run(w, maxSize, []) == w;
    } else {
      var before := ReachFilled(w, maxSize, n - 1);
      var c := Basic.Tables(Filled(n - 1), before);
      FilledSize(n - 1);
      expirations := before[Key(n - 1) := 0];
      ReachOneMore(w, maxSize, c, Key(n - 1), Basic.Tables(Filled(n), expirations));
    }
  }

  /** The first `n` tasks have found room for the keys from `base` on. */
  ghost function Racing(tasks: seq<Task>, base: nat, n: nat): (r: seq<Task>)
    requires n <= |tasks|
    ensures |r| == |tasks|
  {
    if n == 0 then tasks else Racing(tasks, base, n - 1)[n - 1 := Stamp(Key(base + n - 1), "", 0)]
  }

  lemma {:induction false} RacingShape(tasks: seq<Task>, base: nat, n: nat)
    requires n <= |tasks|
    ensures forall t | 0 <= t < |tasks| ::
              Racing(tasks, base, n)[t] == if t < n then Stamp(Key(base + t), "", 0) else tasks[t]
  {
    if n > 0 { RacingShape(tasks, base, n - 1); }
  }

  lemma {:induction false} ReachRacing(w: World, maxSize: nat, c: Basic.Tables, n: nat)
    requires Initial(w) && n <= |w.tasks| && |c.entries| < maxSize
    requires Reaches(w, maxSize, World(c, w.tasks))
    ensures Reaches(w, maxSize, World(c, Racing(w.tasks, |c.entries|, n)))
  {
    if n > 0 {
      var base, t := |c.entries|, n - 1;
      ReachRacing(w, maxSize, c, t);
      RacingShape(w.tasks, base, t);
      var tasks := Racing(w.tasks, base, t);
      var o := Outcome(c, Stamp(Key(base + t), "", 0), []);
      AloneStep(c, CheckFull(Key(base + t), "", 0), maxSize, 0, 1, c, o.task, o);
      ReachesCall(w, maxSize, World(c, tasks), t, Set(Key(base + t), "", 0), At(0, 1), o, tasks[t := o.task]);
    }
  }

  lemma {:induction false} ReachOverrun(w: World, maxSize: nat, base: nat, expirations: map<string, nat>,
                                        tasks: seq<Task>, n: nat) returns (late: map<string, nat>, rest: seq<Task>)
    requires n <= |tasks|
    requires forall t | 0 <= t < |tasks| :: tasks[t] == Stamp(Key(base + t), "", 0)
    requires Reaches(w, maxSize, World(Basic.Tables(Filled(base), expirations), tasks))
    ensures Reaches(w, maxSize, World(Basic.Tables(Filled(base + n), late), rest))
    ensures |rest| == |tasks| && forall t | n <= t < |tasks| :: rest[t] == tasks[t]
  {
    if n == 0 {
      late, rest := expirations, tasks;
    } else {
      var e, r := ReachOverrun(w, maxSize, base, expirations, tasks, n - 1);
      var t, k := n - 1, Key(base + n - 1);
      late, rest := e[k := 0], r[t := Idle];
      var c, c' := Basic.Tables(Filled(base + t), e), Basic.Tables(Filled(base + n), late);
      AloneWrites(c, maxSize, k, "", 0, 0, Basic.Tables(Filled(base + n), e), c');
      ReachesAlone(w, maxSize, World(c, r), t, At(0, 3), Outcome(c', Idle, [Stored]), rest);
    }
  }

  lemma {:induction false} SetsWithinTasks(tasks: seq<Task>)
    ensures SetsIn(tasks) <= |tasks|
  {
    if tasks != [] { SetsWithinTasks(tasks[1..]); }
  }

  /** With `n` tasks there are never more than `n` sets in flight. */
  lemma {:induction false} AtMostTasks(w: World, maxSize: nat, events: seq<Event>)
    ensures |Run(w, maxSize, events).tasks| == |w.tasks|
    ensures AtMostSets(w, maxSize, |w.tasks|, events)
    decreases |events|
  {
    if events != [] { AtMostTasks(w, maxSize, events[..|events| - 1]); }
    SetsWithinTasks(Run(w, maxSize, events).tasks);
  }

  lemma ReachFullest(w: World, maxSize: nat) returns (end: World)
    requires Initial(w) && w.tasks != [] && maxSize > 0
    ensures Reaches(w, maxSize, end)
    ensures end.tables.entries == Filled(maxSize - 1 + |w.tasks|)
  {
    var n, base := |w.tasks|, maxSize - 1;
    var expirations := ReachFilled(w, maxSize, base);
    var c := Basic.Tables(Filled(base), expirations);
    FilledSize(base);
    ReachRacing(w, maxSize, c, n);
    RacingShape(w.tasks, base, n);
    var late, rest := ReachOverrun(w, maxSize, base, expirations, Racing(w.tasks, base, n), n);
    end := World(Basic.Tables(Filled(base + n), late), rest);
  }

  /** The bound is exact: with `n` tasks, hence at most `n` sets in flight, some interleaving fills the
      cache with maxSize + n - 1 entries. */
  lemma OverrunIsAttained(w: World, maxSize: nat) returns (events: seq<Event>)
    requires Initial(w) && w.tasks != [] && maxSize > 0
    ensures AtMostSets(w, maxSize, |w.tasks|, events)
    ensures |Run(w, maxSize, events).tables.entries| == maxSize + |w.tasks| - 1
  {
    var end := ReachFullest(w, maxSize);
    events :| Run(w, maxSize, events) == end;
    AtMostTasks(w, maxSize, events);
    FilledSize(maxSize - 1 + |w.tasks|);
  }
}
