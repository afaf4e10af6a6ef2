/** The circuit breaker of common/src/retry_policy.rs with its asynchronous reset timers. */
module Breakers {

  datatype Circuit = Closed | Open | HalfOpen

  /** `timers` holds the deadlines of the reset tasks that have been spawned and have not run yet. */
  datatype Breaker = Breaker(circuit: Circuit, timers: multiset<nat>)

  datatype Event =
    | Success
    | Failure(now: nat)
    | Fire(deadline: nat, now: nat)

  /** A reset task can run once its deadline has passed. */
  predicate CanFire(b: Breaker, deadline: nat, now: nat) {
    deadline in b.timers && deadline <= now
  }

  /** A failure opens only a closed circuit and spawns a reset task; the task overwrites whatever state
      it finds. */
  function Step(b: Breaker, timeout: nat, e: Event): (r: Breaker) {
    match e
    case Success => if b.circuit.HalfOpen? then b.(circuit := Closed) else b
    case Failure(now) =>
      if b.circuit.Closed? then Breaker(Open, b.timers + multiset{now + timeout}) else b
    case Fire(deadline, now) =>
      if CanFire(b, deadline, now) then Breaker(HalfOpen, b.timers - multiset{deadline}) else b
  }

  function Run(timeout: nat, events: seq<Event>): (r: Breaker)
    decreases |events|
  {
    if events == [] then Breaker(Closed, multiset{})
    else Step(Run(timeout, events[..|events| - 1]), timeout, events[|events| - 1])
  }

  // ---------- Timers and states ----------

  ghost predicate OneTimerWhenOpen(b: Breaker) {
    |b.timers| == if b.circuit.Open? then 1 else 0
  }

  /** In every reachable state exactly one reset task is pending when the circuit is open, and none
      otherwise. */
  lemma {:induction false} TimersMatchState(timeout: nat, events: seq<Event>)
    ensures OneTimerWhenOpen(Run(timeout, events))
    decreases |events|
  {
    if events != [] { TimersMatchState(timeout, events[..|events| - 1]); }
  }

  /** The unconditional write of a reset task never hits a closed or half-open circuit. */
  lemma ResetFindsOpen(timeout: nat, events: seq<Event>, deadline: nat, now: nat)
    requires CanFire(Run(timeout, events), deadline, now)
    ensures Run(timeout, events).circuit.Open?
    ensures Step(Run(timeout, events), timeout, Fire(deadline, now)) == Breaker(HalfOpen, multiset{})
  {
    TimersMatchState(timeout, events);
    var b := Run(timeout, events);
    assert |b.timers - multiset{deadline}| == |b.timers| - 1;
  }

  /** How often the state has changed. */
  ghost function Changes(timeout: nat, events: seq<Event>): nat
    decreases |events|
  {
    if events == [] then 0
    else
      var before := events[..|events| - 1];
      Changes(timeout, before) + if Run(timeout, events).circuit == Run(timeout, before).circuit then 0 else 1
  }

  ghost function Next(c: Circuit): Circuit {
    match c case Closed => Open case Open => HalfOpen case HalfOpen => Closed
  }

  /** The state `n` steps round the cycle that starts at Closed. */
  ghost function Cycle(n: nat): Circuit {
    if n == 0 then Closed else Next(Cycle(n - 1))
  }

  /** What moves the state of a reachable breaker: a failure when closed, a due reset when open, a success
      when half-open, and nothing else. */
  lemma ChangesHaveCause(timeout: nat, events: seq<Event>, e: Event)
    ensures var b := Run(timeout, events);
            var moved := (b.circuit.Closed? && e.Failure?)
                         || (b.circuit.HalfOpen? && e.Success?)
                         || (e.Fire? && e.deadline in b.timers && e.deadline <= e.now);
            && Run(timeout, events + [e]).circuit == (if moved then Next(b.circuit) else b.circuit)
            && Run(timeout, events + [e]).timers ==
               (if moved && e.Failure? then multiset{e.now + timeout} else if moved then multiset{} else b.timers)
  {
    var b := Run(timeout, events);
    TimersMatchState(timeout, events);
    RunSnoc(timeout, events, e);
    if CanFireNow(b, e) { ResetFindsOpen(timeout, events, e.deadline, e.now); }
    if b.circuit.Closed? || b.circuit.HalfOpen? { assert b.timers == multiset{}; }
  }

  predicate CanFireNow(b: Breaker, e: Event) {
    e.Fire? && CanFire(b, e.deadline, e.now)
  }

  lemma LastFollowsCycle(timeout: nat, events: seq<Event>, was: Circuit, end: Circuit)
    requires events != []
    requires was == Run(timeout, events[..|events| - 1]).circuit && end == Run(timeout, events).circuit
    ensures end == was || end == Next(was)
  {
    TimersMatchState(timeout, events[..|events| - 1]);
  }

  lemma LastChange(timeout: nat, events: seq<Event>, was: Circuit, end: Circuit)
    requires events != []
    requires was == Run(timeout, events[..|events| - 1]).circuit && end == Run(timeout, events).circuit
    ensures Changes(timeout, events) == Changes(timeout, events[..|events| - 1]) + if end == was then 0 else 1
  {
  }

  lemma CycleOn(n: nat, was: Circuit, end: Circuit)
    requires was == Cycle(n) && (end == was || end == Next(was))
    ensures end == Cycle(n + if end == was then 0 else 1)
  {
  }

  /** Every history cycles through Closed, Open and HalfOpen in this order: the state is determined by
      the number of changes so far. */
  lemma {:induction false} StatesCycle(timeout: nat, events: seq<Event>)
    ensures Run(timeout, events).circuit == Cycle(Changes(timeout, events))
    decreases |events|
  {
    if events != [] {
      var before := events[..|events| - 1];
      StatesCycle(timeout, before);
      var was, end := Run(timeout, before).circuit, Run(timeout, events).circuit;
      LastFollowsCycle(timeout, events, was, end);
      LastChange(timeout, events, was, end);
      CycleOn(Changes(timeout, before), was, end);
    }
  }

  // ---------- How long the circuit stays open ----------

  /** No reset task gets to run at `deadline` or later. */
  ghost predicate Before(events: seq<Event>, deadline: nat) {
    forall i | 0 <= i < |events| && events[i].Fire? :: events[i].now < deadline
  }

  lemma RunSnoc(timeout: nat, events: seq<Event>, e: Event)
    ensures Run(timeout, events + [e]) == Step(Run(timeout, events), timeout, e)
  {
    assert (events + [e])[..|events|] == events;
  }

  lemma FailureOpens(timeout: nat, events: seq<Event>, at: nat)
    requires Run(timeout, events).circuit.Closed?
    ensures Run(timeout, events + [Failure(at)]) == Breaker(Open, multiset{at + timeout})
  {
    TimersMatchState(timeout, events);
    RunSnoc(timeout, events, Failure(at));
    assert Run(timeout, events).timers == multiset{};
  }

  lemma OpenStep(timeout: nat, deadline: nat, e: Event)
    requires e.Fire? ==> e.now < deadline
    ensures Step(Breaker(Open, multiset{deadline}), timeout, e) == Breaker(Open, multiset{deadline})
  {
  }

  lemma {:induction false} StaysOpen(timeout: nat, events: seq<Event>, deadline: nat, later: seq<Event>)
    requires Run(timeout, events) == Breaker(Open, multiset{deadline})
    requires Before(later, deadline)
    ensures Run(timeout, events + later) == Breaker(Open, multiset{deadline})
    decreases |later|
  {
    if later == [] {
      assert events + later == events;
    } else {
      var before, e := later[..|later| - 1], later[|later| - 1];
      StaysOpen(timeout, events, deadline, before);
      RunSnoc(timeout, events + before, e);
      OpenStep(timeout, deadline, e);
      assert events + later == events + before + [e];
    }
  }

  predicate CanExecute(b: Breaker) {
    !b.circuit.Open?
  }

  /** One failure of a closed circuit, whatever the configured threshold, refuses every operation until
      the reset timeout has passed; the first reset after that lets operations through again, and a success
      then closes the circuit. */
  lemma RefusesUntilReset(timeout: nat, opening: seq<Event>, at: nat, later: seq<Event>, now: nat)
    requires Run(timeout, opening).circuit.Closed?
    requires Before(later, at + timeout) && at + timeout <= now
    ensures var events := opening + [Failure(at)] + later;
            && !CanExecute(Run(timeout, events))
            && Run(timeout, events + [Fire(at + timeout, now)]) == Breaker(HalfOpen, multiset{})
            && CanExecute(Run(timeout, events + [Fire(at + timeout, now)]))
            && Run(timeout, events + [Fire(at + timeout, now)] + [Success]) == Breaker(Closed, multiset{})
  {
    FailureOpens(timeout, opening, at);
    StaysOpen(timeout, opening + [Failure(at)], at + timeout, later);
    var events := opening + [Failure(at)] + later;
    RunSnoc(timeout, events, Fire(at + timeout, now));
    RunSnoc(timeout, events + [Fire(at + timeout, now)], Success);
    assert multiset{at + timeout} - multiset{at + timeout} == multiset{};
  }

  // ---------- The breaker object ----------

  class CircuitBreaker {
    /** Stored by the constructor and read nowhere. */
    const failureThreshold: nat
    const resetTimeout: nat
    var state: Circuit
    var timers: multiset<nat>

    constructor (failureThreshold: nat, resetTimeout: nat)
      ensures this.resetTimeout == resetTimeout && this.failureThreshold == failureThreshold
      ensures Contents() == Run(resetTimeout, [])
    {
      this.failureThreshold, this.resetTimeout := failureThreshold, resetTimeout;
      this.state, this.timers := Closed, multiset{};
    }

    function Contents(): Breaker
      reads this
    {
      Breaker(state, timers)
    }

    method CanRun() returns (yes: bool)
      ensures yes == CanExecute(Contents())
    {
      yes := state != Open;
    }

    method OnSuccess()
      modifies this`state
      ensures Contents() == Step(old(Contents()), resetTimeout, Success)
    {
      if state == HalfOpen { state := Closed; }
    }

    method OnFailure(now: nat)
      modifies this
      ensures Contents() == Step(old(Contents()), resetTimeout, Failure(now))
    {
      if state == Closed {
        state := Open;
        timers := timers + multiset{now + resetTimeout};
      }
    }

    /** The body of a reset task, run when its sleep is over. */
    method ResetTask(deadline: nat, now: nat)
      requires deadline in timers && deadline <= now
      modifies this
      ensures Contents() == Step(old(Contents()), resetTimeout, Fire(deadline, now))
    {
      timers := timers - multiset{deadline};
      state := HalfOpen;
    }
  }
}
