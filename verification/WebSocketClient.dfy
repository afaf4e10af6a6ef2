/** The send queue of network/src/websocket.rs during one call of `connect`.

    Every session spawns its own send task. Aborting a task only asks for its cancellation, so the send
    task of an ended session may go on for a while beside that of the next one; the steps of all of them
    interleave freely. A send task keeps the lock of the queue while its message is being sent. */
module WebSockets {
  import opened Wrappers

  const RECONNECT_DELAY: nat := 1
  const MAX_RECONNECT_ATTEMPTS: nat := 5
  const MESSAGE_QUEUE_SIZE: nat := 1000

  /** Connecting includes the delay before the attempt; in Closing one task of the session has finished
      and the others are being aborted. */
  datatype Phase = Connecting | Running | Closing | Stopped

  /** A send task is about to look at `connected`, waits for the lock of the queue, holds it and sends,
      or is over. */
  datatype Task = Checking | Waiting | Sending(message: string) | Done

  datatype Loss = Loss(session: nat, message: string)

  /** `senders` has the send task of every session so far, and `lock` the session that holds the queue.
      The history: all messages `accepted` into the queue, those that went out on the `wire`, and those
      that were `lost`. */
  datatype Client = Client(
    queue: seq<string>,
    lock: Option<nat>,
    connected: bool,
    attempts: nat,
    phase: Phase,
    senders: seq<Task>,
    accepted: seq<string>,
    wire: seq<string>,
    lost: seq<Loss>)

  /** A step of the session loop, of a send task, of the receiving side or of a caller. */
  datatype Event =
    | Subscribe(request: string)
    | Connect(ok: bool)
    | Check(session: nat)
    | Take(session: nat)
    | Sent(session: nat, ok: bool)
    | Cancel(session: nat)
    | PeerClosed
    | Finish
    | Retry

  function Fresh(): (r: Client) {
    Client([], None, false, 0, Connecting, [], [], [], [])
  }

  /** Whether the session has ended, so that its send task has been told to abort. */
  predicate Ended(c: Client, session: nat) {
    session + 1 < |c.senders| || !c.phase.Running?
  }

  predicate Enabled(c: Client, e: Event) {
    match e
    case Subscribe(_) => c.lock.None?
    case Connect(_) => c.phase.Connecting?
    case Check(i) => i < |c.senders| && c.senders[i].Checking?
    case Take(i) => i < |c.senders| && c.senders[i].Waiting? && c.lock.None?
    case Sent(i, _) => i < |c.senders| && c.senders[i].Sending?
    case Cancel(i) => i < |c.senders| && !c.senders[i].Done? && Ended(c, i)
    case PeerClosed => true
    case Finish => c.phase.Running?
    case Retry => c.phase.Closing?
  }

  function Enqueued(c: Client, message: string): (r: Client) {
    if |c.queue| >= MESSAGE_QUEUE_SIZE then c
    else c.(queue := c.queue + [message], accepted := c.accepted + [message])
  }

  function Connected(c: Client, ok: bool): (r: Client) {
    if ok then c.(connected := true, attempts := 0, phase := Running, senders := c.senders + [Checking])
    else c.(phase := Stopped)
  }

  function Taken(c: Client, i: nat): (r: Client)
    requires i < |c.senders|
  {
    if c.queue == [] then c.(senders := c.senders[i := Checking])
    else c.(queue := c.queue[1..], lock := Some(i), senders := c.senders[i := Sending(c.queue[0])])
  }

  function Lost(c: Client, i: nat): (r: Client)
    requires i < |c.senders| && c.senders[i].Sending?
  {
    c.(lock := None, lost := c.lost + [Loss(i, c.senders[i].message)], senders := c.senders[i := Done])
  }

  function Delivered(c: Client, i: nat): (r: Client)
    requires i < |c.senders| && c.senders[i].Sending?
  {
    c.(lock := None, wire := c.wire + [c.senders[i].message], senders := c.senders[i := Checking])
  }

  function Retried(c: Client): (r: Client) {
    c.(connected := false, attempts := c.attempts + 1,
       phase := if c.attempts + 1 < MAX_RECONNECT_ATTEMPTS then Connecting else Stopped)
  }

  /** An event that cannot happen in a state leaves it alone. */
  function Step(c: Client, e: Event): (r: Client) {
    if !Enabled(c, e) then c
    else
      match e
      case Subscribe(m) => Enqueued(c, m)
      case Connect(ok) => Connected(c, ok)
      case Check(i) => c.(senders := c.senders[i := if c.connected then Waiting else Done])
      case Take(i) => Taken(c, i)
      case Sent(i, ok) => if ok then Delivered(c, i) else Lost(c, i)
      case Cancel(i) => if c.senders[i].Sending? then Lost(c, i) else c.(senders := c.senders[i := Done])
      case PeerClosed => c.(connected := false)
      case Finish => c.(phase := Closing)
      case Retry => Retried(c)
  }

  function RunFrom(c: Client, events: seq<Event>): (r: Client)
    decreases |events|
  {
    if events == [] then c else Step(RunFrom(c, events[..|events| - 1]), events[|events| - 1])
  }

  function Run(events: seq<Event>): (r: Client) {
    RunFrom(Fresh(), events)
  }

  // ---------- The session loop, told from the history ----------

  /** Where the loop stands, whether it counts as connected, how many sessions it has started, and how many
      retries it has made since the last one. */
  datatype Life = Life(phase: Phase, up: bool, sessions: nat, retries: nat)

  /** A connection attempt counts while the loop is connecting, the end of a task while a session runs, and a
      retry after that; a close clears the flag at any time. */
  ghost function LifeOf(events: seq<Event>): Life
    decreases |events|
  {
    if events == [] then Life(Connecting, false, 0, 0)
    else
      var l := LifeOf(events[..|events| - 1]);
      match events[|events| - 1]
      case Connect(ok) =>
        if !l.phase.Connecting? then l
        else if ok then Life(Running, true, l.sessions + 1, 0)
        else l.(phase := Stopped)
      case PeerClosed => l.(up := false)
      case Finish => if l.phase.Running? then l.(phase := Closing) else l
      case Retry =>
        if l.phase.Closing? then
          Life(if l.retries + 1 < 5 then Connecting else Stopped, false, l.sessions, l.retries + 1)
        else l
      case _ => l
  }

  /** After every run: the client is connected exactly when a successful attempt has been followed by no
      close and no retry, every success has started one send task, and the counter holds the retries since
      the last success. */
  lemma {:induction false} LoopFollowsHistory(events: seq<Event>)
    ensures var c, l := Run(events), LifeOf(events);
            c.phase == l.phase && c.connected == l.up && |c.senders| == l.sessions && c.attempts == l.retries
    decreases |events|
  {
    if events != [] { LoopFollowsHistory(events[..|events| - 1]); }
  }

  // ---------- Order and conservation ----------

  /** `all` is a merge of `left` and `right` that keeps the order of both. */
  predicate Interleaves<T(==)>(all: seq<T>, left: seq<T>, right: seq<T>)
    decreases |all|
  {
    if all == [] then left == [] && right == []
    else
      var n := |all| - 1;
      || (left != [] && left[|left| - 1] == all[n] && Interleaves(all[..n], left[..|left| - 1], right))
      || (right != [] && right[|right| - 1] == all[n] && Interleaves(all[..n], left, right[..|right| - 1]))
  }

  lemma {:induction false} InterleavesConserves<T>(all: seq<T>, left: seq<T>, right: seq<T>)
    requires Interleaves(all, left, right)
    ensures |all| == |left| + |right|
    ensures multiset(all) == multiset(left) + multiset(right)
    decreases |all|
  {
    if all != [] {
      var n := |all| - 1;
      assert all == all[..n] + [all[n]];
      if left != [] && left[|left| - 1] == all[n] && Interleaves(all[..n], left[..|left| - 1], right) {
        assert left == left[..|left| - 1] + [all[n]];
        InterleavesConserves(all[..n], left[..|left| - 1], right);
      } else {
        assert right == right[..|right| - 1] + [all[n]];
        InterleavesConserves(all[..n], left, right[..|right| - 1]);
      }
    }
  }

  ghost predicate Increasing(positions: seq<nat>, bound: nat)
    decreases |positions|
  {
    positions != [] ==>
      var n := |positions| - 1;
      positions[n] < bound && Increasing(positions[..n], positions[n])
  }

  lemma {:induction false} IncreasingWiden(positions: seq<nat>, bound: nat, wider: nat)
    requires Increasing(positions, bound) && bound <= wider
    ensures Increasing(positions, wider)
  {
  }

  /** `part` is what stands at the given positions of `all`, from left to right. */
  ghost predicate At<T>(all: seq<T>, positions: seq<nat>, part: seq<T>) {
    && Increasing(positions, |all|)
    && |positions| == |part|
    && forall k | 0 <= k < |part| :: positions[k] < |all| && all[positions[k]] == part[k]
  }

  lemma AtWiden<T>(all: seq<T>, positions: seq<nat>, part: seq<T>, rest: seq<T>)
    requires At(all, positions, part)
    ensures At(all + rest, positions, part)
  {
    IncreasingWiden(positions, |all|, |all| + |rest|);
  }

  lemma {:induction false} LeftPositions<T>(all: seq<T>, left: seq<T>, right: seq<T>) returns (positions: seq<nat>)
    requires Interleaves(all, left, right)
    ensures At(all, positions, left)
    decreases |all|
  {
    if all == [] {
      positions := [];
    } else {
      var n := |all| - 1;
      assert all == all[..n] + [all[n]];
      if left != [] && left[|left| - 1] == all[n] && Interleaves(all[..n], left[..|left| - 1], right) {
        positions := LeftPositions(all[..n], left[..|left| - 1], right);
        assert left == left[..|left| - 1] + [all[n]];
        positions := positions + [n];
      } else {
        positions := LeftPositions(all[..n], left, right[..|right| - 1]);
        AtWiden(all[..n], positions, left, [all[n]]);
      }
    }
  }

  function Messages(lost: seq<Loss>): (r: seq<string>)
    ensures |r| == |lost|
    decreases |lost|
  {
    if lost == [] then [] else Messages(lost[..|lost| - 1]) + [lost[|lost| - 1].message]
  }

  function InFlight(c: Client): (r: seq<string>)
    ensures |r| <= 1
  {
    if c.lock.Some? && c.lock.value < |c.senders| && c.senders[c.lock.value].Sending? then
      [c.senders[c.lock.value].message]
    else
      []
  }

  /** The accepted messages are the handled ones, then the one being sent, then the queue. */
  ghost predicate Accounted(c: Client, handled: seq<string>) {
    && c.accepted == handled + InFlight(c) + c.queue
    && Interleaves(handled, c.wire, Messages(c.lost))
  }

  // ---------- What every step keeps ----------

  ghost predicate LockMatches(c: Client) {
    && (c.lock.Some? ==> c.lock.value < |c.senders|)
    && forall i | 0 <= i < |c.senders| :: c.senders[i].Sending? <==> c.lock == Some(i)
  }

  ghost predicate LostOnce(lost: seq<Loss>, senders: seq<Task>) {
    && (forall k | 0 <= k < |lost| :: lost[k].session < |senders| && senders[lost[k].session].Done?)
    && forall j, k | 0 <= j < k < |lost| :: lost[j].session != lost[k].session
  }

  ghost predicate Bounded(c: Client) {
    && |c.queue| <= MESSAGE_QUEUE_SIZE
    && c.attempts <= (if c.phase.Connecting? || c.phase.Stopped? then 1 else 0)
  }

  lemma LockStep(c: Client, e: Event)
    requires LockMatches(c)
    ensures LockMatches(Step(c, e))
  {
  }

  lemma LostStep(c: Client, e: Event)
    requires LostOnce(c.lost, c.senders)
    ensures LostOnce(Step(c, e).lost, Step(c, e).senders)
  {
  }

  lemma DeliverAccounted(c: Client, handled: seq<string>, i: nat, d: Client, m: string)
    requires Accounted(c, handled) && c.lock == Some(i) && i < |c.senders| && c.senders[i] == Sending(m)
    requires d.lock == None && d.wire == c.wire + [m]
    requires d.accepted == c.accepted && d.queue == c.queue && d.lost == c.lost
    ensures Accounted(d, handled + [m])
  {
    assert InFlight(c) == [m] && InFlight(d) == [];
  }

  lemma LoseAccounted(c: Client, handled: seq<string>, i: nat)
    requires LockMatches(c) && Accounted(c, handled) && i < |c.senders| && c.senders[i].Sending?
    ensures Accounted(Lost(c, i), handled + [c.senders[i].message])
  {
    var all, lost, m := handled + [c.senders[i].message], Messages(Lost(c, i).lost), c.senders[i].message;
    assert all[..|handled|] == handled && lost == Messages(c.lost) + [m] && lost[..|lost| - 1] == Messages(c.lost);
    assert InFlight(c) == [c.senders[i].message] && InFlight(Lost(c, i)) == [];
  }

  /** The handled messages after a step: those that are sent or lost by it join them. */
  ghost function HandledAfter(c: Client, handled: seq<string>, e: Event): seq<string> {
    if Enabled(c, e) && (e.Sent? || e.Cancel?) && c.senders[e.session].Sending? then
      handled + [c.senders[e.session].message]
    else
      handled
  }

  lemma AccountedStep(c: Client, handled: seq<string>, e: Event)
    requires LockMatches(c) && Accounted(c, handled)
    ensures Accounted(Step(c, e), HandledAfter(c, handled, e))
  {
    if Enabled(c, e) {
      match e
      case Subscribe(m) =>
        assert handled + InFlight(c) + (c.queue + [m]) == handled + InFlight(c) + c.queue + [m];
      case Take(_) =>
      case Sent(i, ok) =>
        if ok {
          DeliverAccounted(c, handled, i, Delivered(c, i), c.senders[i].message);
        } else {
          LoseAccounted(c, handled, i);
        }
      case Cancel(i) => if c.senders[i].Sending? { LoseAccounted(c, handled, i); }
      case _ =>
    }
  }

  ghost predicate Valid(c: Client) {
    LockMatches(c) && LostOnce(c.lost, c.senders) && Bounded(c)
  }

  lemma ValidStep(c: Client, e: Event)
    requires Valid(c)
    ensures Valid(Step(c, e))
  {
    LockStep(c, e);
    LostStep(c, e);
  }

  /** After every run the client is valid, and the messages that were handled account for the rest. */
  lemma {:induction false} RunKeeps(events: seq<Event>) returns (handled: seq<string>)
    ensures Valid(Run(events)) && Accounted(Run(events), handled)
    decreases |events|
  {
    if events == [] {
      handled := [];
    } else {
      handled := RunKeeps(events[..|events| - 1]);
      ValidStep(Run(events[..|events| - 1]), events[|events| - 1]);
      AccountedStep(Run(events[..|events| - 1]), handled, events[|events| - 1]);
      handled := HandledAfter(Run(events[..|events| - 1]), handled, events[|events| - 1]);
    }
  }

  // ---------- Main results ----------

  /** Whatever the interleaving, what went out is a subsequence of what was accepted, in the same order. */
  lemma DeliveryIsFifo(events: seq<Event>) returns (positions: seq<nat>)
    ensures At(Run(events).accepted, positions, Run(events).wire)
  {
    var handled := RunKeeps(events);
    var c := Run(events);
    positions := LeftPositions(handled, c.wire, Messages(c.lost));
    AtWiden(handled, positions, c.wire, InFlight(c) + c.queue);
    assert c.accepted == handled + (InFlight(c) + c.queue);
  }

  /** Every accepted message is delivered, lost, being sent or queued, and counted once. */
  lemma MessagesAreConserved(events: seq<Event>)
    ensures var c := Run(events);
            multiset(c.accepted)
            == multiset(c.wire) + multiset(Messages(c.lost)) + multiset(InFlight(c)) + multiset(c.queue)
  {
    var handled := RunKeeps(events);
    var c := Run(events);
    InterleavesConserves(handled, c.wire, Messages(c.lost));
  }

  lemma {:induction false} DistinctCount(lost: seq<Loss>)
    requires forall j, k | 0 <= j < k < |lost| :: lost[j].session != lost[k].session
    ensures |set k | 0 <= k < |lost| :: lost[k].session| == |lost|
    decreases |lost|
  {
    if lost != [] {
      var n := |lost| - 1;
      DistinctCount(lost[..n]);
      var before := set k | 0 <= k < n :: lost[..n][k].session;
      assert (set k | 0 <= k < |lost| :: lost[k].session) == before + {lost[n].session};
    }
  }

  lemma {:induction false} SetBelow(s: set<nat>, n: nat)
    requires forall x | x in s :: x < n
    ensures |s| <= n
  {
    if n == 0 {
      assert s == {};
    } else {
      SetBelow(s - {n - 1}, n - 1);
    }
  }

  /** No session loses more than one message, and only a session whose send task is over has lost one. */
  lemma AtMostOneLossPerSession(events: seq<Event>)
    ensures LostOnce(Run(events).lost, Run(events).senders)
    ensures |Run(events).lost| <= |Run(events).senders|
  {
    var handled := RunKeeps(events);
    var c := Run(events);
    DistinctCount(c.lost);
    SetBelow(set k | 0 <= k < |c.lost| :: c.lost[k].session, |c.senders|);
  }

  /** The queue never holds more than 1000 messages. A request joins it at its end, or is turned away silently
      when it is full; while a message is being sent, requests and other send tasks have to wait. */
  lemma QueueIsBounded(events: seq<Event>, m: string, i: nat)
    ensures var c := Run(events);
            && |c.queue| <= 1000
            && Step(c, Subscribe(m)) == (if c.lock.None? && |c.queue| < 1000
                                         then c.(queue := c.queue + [m], accepted := c.accepted + [m]) else c)
            && (c.lock.Some? ==> Step(c, Take(i)) == c)
  {
    var handled := RunKeeps(events);
  }

  /** Since every successful connection resets the counter, giving up after repeated attempts never
      happens and the delay never grows: after every session the client waits one unit and connects. */
  lemma NeverGivesUp(events: seq<Event>)
    requires Run(events).phase.Closing?
    ensures var c := Step(Run(events), Retry);
            c.phase.Connecting? && c.attempts == 1 && RECONNECT_DELAY * c.attempts == 1
  {
    var handled := RunKeeps(events);
  }

  /** A message is lost when its send fails, or when its task is cancelled after the end of its session. A task
      that sees the flag cleared, or is cancelled between two messages, ends without a loss. */
  lemma TaskEnds(c: Client, i: nat)
    requires i < |c.senders|
    ensures c.senders[i].Sending? ==> Step(c, Sent(i, false)) == Lost(c, i)
    ensures c.senders[i].Sending? ==>
              Lost(c, i) == c.(lock := None, senders := c.senders[i := Done],
                               lost := c.lost + [Loss(i, c.senders[i].message)])
    ensures c.senders[i].Checking? && !c.connected ==> Step(c, Check(i)) == c.(senders := c.senders[i := Done])
    ensures !c.senders[i].Done? && (i + 1 < |c.senders| || !c.phase.Running?) ==>
              Step(c, Cancel(i)) ==
              if c.senders[i].Sending? then Lost(c, i) else c.(senders := c.senders[i := Done])
    ensures c.senders[i].Done? || (i + 1 == |c.senders| && c.phase.Running?) ==> Step(c, Cancel(i)) == c
  {
  }

  lemma StopStep(c: Client, e: Event)
    requires Bounded(c) && !c.phase.Stopped?
    ensures Step(c, e).phase.Stopped? <==> e == Connect(false) && c.phase.Connecting?
  {
  }

  /** The client stops exactly with a failed connection attempt, be it the first one. */
  lemma StopsIffConnectFails(events: seq<Event>, e: Event)
    requires !Run(events).phase.Stopped?
    ensures Step(Run(events), e).phase.Stopped? <==> e == Connect(false) && Run(events).phase.Connecting?
  {
    var handled := RunKeeps(events);
    StopStep(Run(events), e);
  }

  /** It stops for good: no later event starts a session again. */
  lemma {:induction false} StoppedForGood(c: Client, later: seq<Event>)
    requires c.phase.Stopped?
    ensures RunFrom(c, later).phase.Stopped? && |RunFrom(c, later).senders| == |c.senders|
    decreases |later|
  {
    if later != [] { StoppedForGood(c, later[..|later| - 1]); }
  }

  ghost predicate Silent(c: Client) {
    c.phase.Stopped? && forall i | 0 <= i < |c.senders| :: c.senders[i].Done?
  }

  /** Once the client has stopped and its tasks are over, nothing goes out any more, although messages
      are still accepted. */
  lemma {:induction false} StoppedIsFinal(c: Client, later: seq<Event>)
    requires Silent(c)
    ensures Silent(RunFrom(c, later)) && RunFrom(c, later).wire == c.wire && RunFrom(c, later).lost == c.lost
    decreases |later|
  {
    if later != [] { StoppedIsFinal(c, later[..|later| - 1]); }
  }

  /** How many messages the send task of a session delivers in a run. */
  function DeliveredBy(c: Client, events: seq<Event>, session: nat): (r: nat)
    decreases |events|
  {
    if events == [] then 0
    else
      var before, e := events[..|events| - 1], events[|events| - 1];
      DeliveredBy(c, before, session)
      + if e == Sent(session, true) && Enabled(RunFrom(c, before), e) then 1 else 0
  }

  /** The task will send a message before it looks at `connected` again. */
  function Pending(c: Client, session: nat): (r: nat) {
    if session < |c.senders| && (c.senders[session].Waiting? || c.senders[session].Sending?) then 1 else 0
  }

  lemma PendingStep(c: Client, e: Event, session: nat)
    requires !c.connected && e != Connect(true)
    ensures !Step(c, e).connected
    ensures Pending(Step(c, e), session) + (if e == Sent(session, true) && Enabled(c, e) then 1 else 0)
            <= Pending(c, session)
  {
  }

  /** Once `connected` is cleared, each send task delivers at most the one message that it is about to
      send, until a connection attempt succeeds again. */
  lemma {:induction false} DisconnectStopsSender(c: Client, later: seq<Event>, session: nat)
    requires !c.connected && forall k | 0 <= k < |later| :: later[k] != Connect(true)
    ensures !RunFrom(c, later).connected
    ensures DeliveredBy(c, later, session) + Pending(RunFrom(c, later), session) <= Pending(c, session) <= 1
    decreases |later|
  {
    if later != [] {
      var before := later[..|later| - 1];
      DisconnectStopsSender(c, before, session);
      PendingStep(RunFrom(c, before), later[|later| - 1], session);
    }
  }

  /** What has been sent, is being sent and is to be sent. */
  function Stream(c: Client): (r: seq<string>) {
    c.wire + InFlight(c) + c.queue
  }

  lemma StreamStep(c: Client, e: Event)
    requires LockMatches(c) && |Step(c, e).lost| == |c.lost|
    ensures c.accepted <= Step(c, e).accepted
    ensures Stream(Step(c, e)) == Stream(c) + Step(c, e).accepted[|c.accepted|..]
  {
    var d := Step(c, e);
    if Enabled(c, e) {
      match e
      case Take(i) =>
        if c.queue != [] { assert InFlight(c) == [] && c.queue == [c.queue[0]] + c.queue[1..]; }
      case Sent(i, ok) => assert InFlight(c) == [c.senders[i].message] && InFlight(d) == [];
      case Subscribe(m) => assert InFlight(d) == InFlight(c);
      case _ => assert InFlight(d) == InFlight(c);
    }
  }

  /** Every schedule in which nothing is lost delivers in order and without gaps: what was sent, is being
      sent or is queued stays in one stream, and new messages join it at its end. */
  lemma {:induction false} LosslessStream(c: Client, later: seq<Event>)
    requires LockMatches(c) && |RunFrom(c, later).lost| <= |c.lost|
    ensures var d := RunFrom(c, later);
            && LockMatches(d) && |d.lost| == |c.lost| && c.accepted <= d.accepted
            && Stream(d) == Stream(c) + d.accepted[|c.accepted|..]
    decreases |later|
  {
    if later != [] {
      var before, e := later[..|later| - 1], later[|later| - 1];
      var m := RunFrom(c, before);
      LosslessStream(c, before);
      LockStep(m, e);
      StreamStep(m, e);
    }
  }

  /** The steps of a send task that sends one message after another. */
  function Deliveries(session: nat, n: nat): (r: seq<Event>) {
    if n == 0 then [] else Deliveries(session, n - 1) + [Take(session), Sent(session, true), Check(session)]
  }

  lemma {:induction false} RunFromConcat(c: Client, a: seq<Event>, b: seq<Event>)
    ensures RunFrom(c, a + b) == RunFrom(RunFrom(c, a), b)
    decreases |b|
  {
    if b == [] {
      assert a + b == a;
    } else {
      assert (a + b)[..|a + b| - 1] == a + b[..|b| - 1];
      RunFromConcat(c, a, b[..|b| - 1]);
    }
  }

  /** One round of a send task: it delivers the first message or, on an empty queue, gives the lock back and
      keeps looking. */
  lemma SendRound(c: Client, i: nat)
    requires i < |c.senders| && c.senders[i].Waiting? && c.lock.None? && c.connected
    ensures c.queue != [] ==>
              RunFrom(c, [Take(i), Sent(i, true), Check(i)])
              == c.(queue := c.queue[1..], wire := c.wire + [c.queue[0]])
    ensures c.queue == [] ==> Step(Step(c, Take(i)), Check(i)) == c
  {
    if c.queue != [] {
      var events := [Take(i), Sent(i, true), Check(i)];
      assert events[..2] == [Take(i), Sent(i, true)] && events[..2][..1] == [Take(i)] && events[..2][..1][..0] == [];
      assert Step(Step(Step(c, Take(i)), Sent(i, true)), Check(i)).senders == c.senders;
      assert RunFrom(c, [Take(i)]) == Step(c, Take(i));
    } else {
      assert Step(Step(c, Take(i)), Check(i)).senders == c.senders;
    }
  }

  /** A send task that is left to itself on a standing connection empties the queue in order. */
  lemma {:induction false} Drains(c: Client, i: nat, n: nat)
    requires i < |c.senders| && c.senders[i].Waiting? && c.lock.None? && c.connected && n <= |c.queue|
    ensures RunFrom(c, Deliveries(i, n)) == c.(queue := c.queue[n..], wire := c.wire + c.queue[..n])
  {
    if n == 0 {
      assert c.queue[0..] == c.queue && c.wire + c.queue[..0] == c.wire;
    } else {
      Drains(c, i, n - 1);
      SendRound(RunFrom(c, Deliveries(i, n - 1)), i);
      RunFromConcat(c, Deliveries(i, n - 1), [Take(i), Sent(i, true), Check(i)]);
      assert c.wire + c.queue[..n - 1] + [c.queue[n - 1]] == c.wire + c.queue[..n];
      assert c.queue[n - 1..][1..] == c.queue[n..];
    }
  }

  /** From a connection attempt on: when it succeeds, the send task of the new session finds the flag set and
      delivers the queue in order. */
  lemma DeliversFromConnect(c: Client, n: nat)
    requires c.phase.Connecting? && c.lock.None? && n <= |c.queue|
    ensures var i := |c.senders|;
            var d := RunFrom(c, [Connect(true), Check(i)] + Deliveries(i, n));
            && d.wire == c.wire + c.queue[..n] && d.queue == c.queue[n..] && d.lost == c.lost
            && d.connected && d.phase.Running? && d.senders == c.senders + [Waiting]
  {
    var i := |c.senders|;
    var start, up := [Connect(true), Check(i)], Step(Step(c, Connect(true)), Check(i));
    assert start[..1] == [Connect(true)] && start[..1][..0] == [];
    assert RunFrom(c, [Connect(true)]) == Step(c, Connect(true));
    assert up.senders == c.senders + [Waiting];
    RunFromConcat(c, start, Deliveries(i, n));
    Drains(up, i, n);
  }

  // ---------- The client object ----------

  class WebSocketClient {
    var queue: seq<string>
    var lock: Option<nat>
    var connected: bool
    var attempts: nat
    var phase: Phase
    var senders: seq<Task>
    ghost var accepted: seq<string>
    ghost var wire: seq<string>
    ghost var lost: seq<Loss>

    ghost function Contents(): Client
      reads this
    {
      Client(queue, lock, connected, attempts, phase, senders, accepted, wire, lost)
    }

    /** A client whose `connect` has just been called. */
    constructor ()
      ensures Contents() == Fresh()
    {
      queue, lock, connected, attempts, phase, senders := [], None, false, 0, Connecting, [];
      accepted, wire, lost := [], [], [];
    }

    /** The body of `subscribe_to_pending_txs` once it has the lock of the queue. */
    method SubscribeToPendingTxs(message: string)
      requires lock.None?
      modifies this
      ensures Contents() == Step(old(Contents()), Subscribe(message))
    {
      if |queue| >= MESSAGE_QUEUE_SIZE { return; }
      queue := queue + [message];
      accepted := accepted + [message];
    }

    method ConnectAttempt(ok: bool)
      requires phase.Connecting?
      modifies this
      ensures Contents() == Step(old(Contents()), Connect(ok))
    {
      if ok {
        connected := true;
        attempts := 0;
        phase, senders := Running, senders + [Checking];
      } else {
        phase := Stopped;
      }
    }

    /** The loop condition of a send task. */
    method CheckConnected(session: nat)
      requires session < |senders| && senders[session].Checking?
      modifies this
      ensures Contents() == Step(old(Contents()), Check(session))
    {
      senders := senders[session := if connected then Waiting else Done];
    }

    /** A send task gets the lock and takes the first message, or gives the lock back. */
    method TakeNext(session: nat)
      requires session < |senders| && senders[session].Waiting? && lock.None?
      modifies this
      ensures Contents() == Step(old(Contents()), Take(session))
    {
      if queue != [] {
        var message := queue[0];
        queue := queue[1..];
        lock, senders := Some(session), senders[session := Sending(message)];
      } else {
        senders := senders[session := Checking];
      }
    }

    /** The send returns; an error ends the task. */
    method SendReturned(session: nat, ok: bool)
      requires session < |senders| && senders[session].Sending?
      modifies this
      ensures Contents() == Step(old(Contents()), Sent(session, ok))
    {
      if ok {
        wire := wire + [senders[session].message];
        senders := senders[session := Checking];
      } else {
        lost := lost + [Loss(session, senders[session].message)];
        senders := senders[session := Done];
      }
      lock := None;
    }

    /** The cancellation of an aborted send task takes effect. */
    method CancelSender(session: nat)
      requires session < |senders| && !senders[session].Done? && Ended(Contents(), session)
      modifies this
      ensures Contents() == Step(old(Contents()), Cancel(session))
    {
      if senders[session].Sending? {
        lost := lost + [Loss(session, senders[session].message)];
        lock := None;
      }
      senders := senders[session := Done];
    }

    method CloseReceived()
      modifies this`connected
      ensures Contents() == Step(old(Contents()), PeerClosed)
    {
      connected := false;
    }

    method TaskFinished()
      requires phase.Running?
      modifies this`phase
      ensures Contents() == Step(old(Contents()), Finish)
    {
      phase := Closing;
    }

    /** The end of the session loop's body, with the delay before the next attempt. */
    method PrepareRetry() returns (delay: Option<nat>)
      requires phase.Closing?
      modifies this
      ensures Contents() == Step(old(Contents()), Retry)
      ensures delay == if phase.Connecting? then Some(RECONNECT_DELAY * attempts) else None
    {
      connected := false;
      attempts := attempts + 1;
      if attempts < MAX_RECONNECT_ATTEMPTS {
        delay := Some(RECONNECT_DELAY * attempts);
        phase := Connecting;
      } else {
        delay := None;
        phase := Stopped;
      }
    }
  }
}
