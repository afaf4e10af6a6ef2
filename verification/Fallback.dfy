/** `retry_with_fallback_providers` of snipebot/src/config.rs: nested retry loops over providers. */
module Fallbacks {
  import opened Wrappers
  import Retries

  /** The retry configuration, with the list of retryable errors as a test on error texts. */
  datatype Policy = Policy(
    maxRetries: nat, initialDelay: nat, multiplier: real, maxDelay: nat, retryable: string -> bool)

  /** The answer ends the whole operation. */
  predicate Settles<T>(c: Policy, r: Result<T, string>) {
    r.Ok? || !c.retryable(r.error)
  }

  // ---------- The flat specification ----------

  /** A call, by the number of the provider and of the attempt on it. */
  datatype Call = Call(provider: nat, attempt: nat)

  function Attempts(provider: nat, n: nat): (r: seq<Call>)
    ensures |r| == n
  {
    if n == 0 then [] else Attempts(provider, n - 1) + [Call(provider, n - 1)]
  }

  /** Every provider `tries` times, in order. */
  function Schedule(providers: nat, tries: nat): (r: seq<Call>) {
    if providers == 0 then [] else Schedule(providers - 1, tries) + Attempts(providers - 1, tries)
  }

  lemma {:induction false} ScheduleShape(providers: nat, tries: nat)
    ensures |Schedule(providers, tries)| == providers * tries
  {
    if providers > 0 {
      ScheduleShape(providers - 1, tries);
      assert providers * tries == (providers - 1) * tries + tries;
    }
  }

  const ALL_FAILED := "All providers failed"

  /** Make the calls in order until one settles; otherwise answer with the last error. */
  function FirstSettled<T>(c: Policy, op: Call -> Result<T, string>, calls: seq<Call>, last: string)
    : (r: Result<T, string>)
  {
    if calls == [] then Err(last)
    else
      var r := op(calls[0]);
      if Settles(c, r) then r else FirstSettled(c, op, calls[1..], r.error)
  }

  ghost predicate AllRetryable<T>(c: Policy, op: Call -> Result<T, string>, calls: seq<Call>) {
    forall i | 0 <= i < |calls| :: !Settles(c, op(calls[i]))
  }

  /** The error that stands after the calls. */
  ghost function LastError<T>(c: Policy, op: Call -> Result<T, string>, calls: seq<Call>, last: string): string
    requires AllRetryable(c, op, calls)
  {
    if calls == [] then last else op(calls[|calls| - 1]).error
  }

  lemma {:induction false} SkipRetryable<T>(
      c: Policy, op: Call -> Result<T, string>, a: seq<Call>, b: seq<Call>, last: string)
    requires AllRetryable(c, op, a)
    ensures FirstSettled(c, op, a + b, last) == FirstSettled(c, op, b, LastError(c, op, a, last))
    decreases |a|
  {
    if a == [] {
      assert a + b == b;
    } else {
      assert !Settles(c, op(a[0]));
      assert (a + b)[0] == a[0] && (a + b)[1..] == a[1..] + b;
      forall i | 0 <= i < |a[1..]| ensures !Settles(c, op(a[1..][i])) { assert a[1..][i] == a[i + 1]; }
      SkipRetryable(c, op, a[1..], b, op(a[0]).error);
    }
  }

  lemma {:induction false} AttemptsPrefix(provider: nat, n: nat, m: nat)
    requires n <= m
    ensures Attempts(provider, n) <= Attempts(provider, m)
    decreases m
  {
    if n < m { AttemptsPrefix(provider, n, m - 1); }
  }

  /** The calls made so far are always the first ones of the schedule. */
  lemma {:induction false} SchedulePrefix(p: nat, n: nat, providers: nat, tries: nat)
    requires p < providers && n <= tries
    ensures Schedule(p, tries) + Attempts(p, n) <= Schedule(providers, tries)
    decreases providers
  {
    if p < providers - 1 {
      SchedulePrefix(p, n, providers - 1, tries);
    } else {
      AttemptsPrefix(p, n, tries);
    }
  }

  // ---------- Calls and sleeps together ----------

  datatype Event = Called(call: Call) | Slept(millis: nat)

  /** The delay after a sleep of `delay`, cut down to the maximum. */
  function NextDelay(c: Policy, delay: nat): (r: nat) {
    var scaled := Retries.Scaled(delay, c.multiplier);
    if scaled > c.maxDelay then c.maxDelay else scaled
  }

  /** The delay of the sleep after attempt `i` on a provider. */
  function Delay(c: Policy, i: nat): (r: nat) {
    if i == 0 then c.initialDelay else NextDelay(c, Delay(c, i - 1))
  }

  /** `n` failed attempts on a provider: no sleep follows the last allowed one. */
  function AttemptLog(c: Policy, provider: nat, n: nat): (r: seq<Event>) {
    if n == 0 then []
    else
      AttemptLog(c, provider, n - 1) + [Called(Call(provider, n - 1))]
      + if n < c.maxRetries then [Slept(Delay(c, n - 1))] else []
  }

  /** Everything that happens when every call fails with a retryable error. */
  function FullLog(c: Policy, providers: nat): (r: seq<Event>) {
    if providers == 0 then [] else FullLog(c, providers - 1) + AttemptLog(c, providers - 1, c.maxRetries)
  }

  function CallsOf(log: seq<Event>): (r: seq<Call>) {
    if log == [] then []
    else CallsOf(log[..|log| - 1]) + if log[|log| - 1].Called? then [log[|log| - 1].call] else []
  }

  function SleepsOf(log: seq<Event>): (r: seq<nat>) {
    if log == [] then []
    else SleepsOf(log[..|log| - 1]) + if log[|log| - 1].Slept? then [log[|log| - 1].millis] else []
  }

  lemma {:induction false} OfConcat(a: seq<Event>, b: seq<Event>)
    ensures CallsOf(a + b) == CallsOf(a) + CallsOf(b)
    ensures SleepsOf(a + b) == SleepsOf(a) + SleepsOf(b)
    decreases |b|
  {
    if b == [] {
      assert a + b == a;
    } else {
      assert (a + b)[..|a + b| - 1] == a + b[..|b| - 1];
      OfConcat(a, b[..|b| - 1]);
    }
  }

  lemma CalledMember(log: seq<Event>, i: nat)
    requires i < |log| && log[i].Called?
    ensures log[i].call in CallsOf(log)
  {
    assert log == log[..i] + [log[i]] + log[i + 1..];
    OfConcat(log[..i] + [log[i]], log[i + 1..]);
    OfConcat(log[..i], [log[i]]);
  }

  lemma OfAttempt(c: Policy, provider: nat, n: nat)
    requires n > 0
    ensures CallsOf(AttemptLog(c, provider, n)) == CallsOf(AttemptLog(c, provider, n - 1)) + [Call(provider, n - 1)]
    ensures SleepsOf(AttemptLog(c, provider, n)) ==
            SleepsOf(AttemptLog(c, provider, n - 1)) + if n < c.maxRetries then [Delay(c, n - 1)] else []
  {
    var before, e := AttemptLog(c, provider, n - 1), Called(Call(provider, n - 1));
    OfConcat(before, [e]);
    if n < c.maxRetries {
      OfConcat(before + [e], [Slept(Delay(c, n - 1))]);
    } else {
      assert before + [e] + [] == before + [e];
    }
  }

  /** The sleeps between the attempts on one provider. */
  function Backoff(c: Policy, n: nat): (r: seq<nat>)
    ensures |r| == n
  {
    if n == 0 then [] else Backoff(c, n - 1) + [Delay(c, n - 1)]
  }

  lemma {:induction false} OfAttempts(c: Policy, provider: nat, n: nat)
    requires n <= c.maxRetries
    ensures CallsOf(AttemptLog(c, provider, n)) == Attempts(provider, n)
    ensures SleepsOf(AttemptLog(c, provider, n)) == Backoff(c, if n > 0 && n == c.maxRetries then n - 1 else n)
  {
    if n > 0 {
      OfAttempts(c, provider, n - 1);
      OfAttempt(c, provider, n);
    }
  }

  ghost function Repeat(s: seq<nat>, n: nat): seq<nat> {
    if n == 0 then [] else Repeat(s, n - 1) + s
  }

  lemma OfOneMore(c: Policy, provider: nat)
    ensures CallsOf(FullLog(c, provider + 1)) == CallsOf(FullLog(c, provider)) + Attempts(provider, c.maxRetries)
    ensures SleepsOf(FullLog(c, provider + 1)) ==
            SleepsOf(FullLog(c, provider)) + Backoff(c, Max(c.maxRetries - 1, 0))
  {
    OfAttempts(c, provider, c.maxRetries);
    OfConcat(FullLog(c, provider), AttemptLog(c, provider, c.maxRetries));
  }

  /** The calls of the full log are the schedule. */
  lemma {:induction false} CallsOfFullLog(c: Policy, providers: nat)
    ensures CallsOf(FullLog(c, providers)) == Schedule(providers, c.maxRetries)
  {
    if providers > 0 {
      CallsOfFullLog(c, providers - 1);
      OfOneMore(c, providers - 1);
    }
  }

  /** The full log has maxRetries - 1 sleeps per provider, each time starting from the initial delay. */
  lemma {:induction false} SleepsOfFullLog(c: Policy, providers: nat)
    ensures SleepsOf(FullLog(c, providers)) == Repeat(Backoff(c, Max(c.maxRetries - 1, 0)), providers)
  {
    if providers > 0 {
      SleepsOfFullLog(c, providers - 1);
      OfOneMore(c, providers - 1);
    }
  }

  lemma {:induction false} AttemptLogPrefix(c: Policy, provider: nat, n: nat, m: nat)
    requires n <= m
    ensures AttemptLog(c, provider, n) <= AttemptLog(c, provider, m)
    decreases m
  {
    if n < m { AttemptLogPrefix(c, provider, n, m - 1); }
  }

  lemma {:induction false} LogPrefix(c: Policy, p: nat, n: nat, providers: nat)
    requires p < providers && n <= c.maxRetries
    ensures FullLog(c, p) + AttemptLog(c, p, n) <= FullLog(c, providers)
    decreases providers
  {
    if p < providers - 1 {
      LogPrefix(c, p, n, providers - 1);
    } else {
      AttemptLogPrefix(c, p, n, c.maxRetries);
    }
  }

  lemma {:induction false} BackoffBound(c: Policy, n: nat, d: nat)
    requires d in Backoff(c, n)
    ensures d <= Max(c.initialDelay, c.maxDelay)
  {
    if d in Backoff(c, n - 1) { BackoffBound(c, n - 1, d); }
  }

  lemma {:induction false} RepeatMembers(s: seq<nat>, n: nat, d: nat)
    ensures |Repeat(s, n)| == n * |s|
    ensures d in Repeat(s, n) ==> d in s
  {
    if n > 0 {
      RepeatMembers(s, n - 1, d);
      assert n * |s| == (n - 1) * |s| + |s|;
    }
  }

  /** What any log of the operation can hold, stopped early or not: at most maxRetries calls and one
      sleep less per provider, in schedule order, and no sleep above the larger of the two limits. */
  lemma LogBounds(c: Policy, providers: nat, log: seq<Event>)
    requires log <= FullLog(c, providers)
    ensures CallsOf(log) <= Schedule(providers, c.maxRetries)
    ensures |CallsOf(log)| <= providers * c.maxRetries
    ensures |SleepsOf(log)| <= providers * Max(c.maxRetries - 1, 0)
    ensures forall d | d in SleepsOf(log) :: d <= Max(c.initialDelay, c.maxDelay)
  {
    var full, n := FullLog(c, providers), Max(c.maxRetries - 1, 0);
    CallsOfFullLog(c, providers);
    SleepsOfFullLog(c, providers);
    assert full == log + full[|log|..];
    OfConcat(log, full[|log|..]);
    ScheduleShape(providers, c.maxRetries);
    RepeatMembers(Backoff(c, n), providers, 0);
    forall d | d in SleepsOf(log) ensures d <= Max(c.initialDelay, c.maxDelay) {
      assert d in SleepsOf(full);
      RepeatMembers(Backoff(c, n), providers, d);
      BackoffBound(c, n, d);
    }
  }

  // ---------- The nested loops ----------

  /** The calls before attempt `n` on provider `p`. */
  ghost function Made(c: Policy, p: nat, n: nat): seq<Call> {
    Schedule(p, c.maxRetries) + Attempts(p, n)
  }

  /** What has happened before attempt `n` on provider `p`, if every call failed with a retryable error. */
  ghost function LogAt(c: Policy, p: nat, n: nat): seq<Event> {
    FullLog(c, p) + AttemptLog(c, p, n)
  }

  /** Where the loops stand: `n` attempts on provider `p`, all earlier calls retryable, `last` the last
      error. */
  ghost predicate At<T>(c: Policy, op: Call -> Result<T, string>, p: nat, n: nat, log: seq<Event>, last: string) {
    && log == LogAt(c, p, n)
    && AllRetryable(c, op, Made(c, p, n))
    && last == LastError(c, op, Made(c, p, n), ALL_FAILED)
  }

  /** The log ends with a call that settles, with this answer, and no call before it settles. */
  ghost predicate EndsWithFirstSettled<T>(c: Policy, op: Call -> Result<T, string>,
                                          result: Result<T, string>, log: seq<Event>)
  {
    && log != [] && log[|log| - 1].Called?
    && result == op(log[|log| - 1].call) && Settles(c, result)
    && AllRetryable(c, op, CallsOf(log[..|log| - 1]))
  }

  /** What the operation promises of its answer and its log. */
  ghost predicate Meets<T>(c: Policy, op: Call -> Result<T, string>, providers: nat,
                           result: Result<T, string>, log: seq<Event>)
  {
    var all := Schedule(providers, c.maxRetries);
    && result == FirstSettled(c, op, all, ALL_FAILED)
    && log <= FullLog(c, providers)
    && (AllRetryable(c, op, all) ==> log == FullLog(c, providers))
    && (!AllRetryable(c, op, all) ==> EndsWithFirstSettled(c, op, result, log))
  }

  /** The promise leaves no choice: it fixes the answer and every call and sleep that is made. */
  lemma MeetsDetermines<T>(c: Policy, op: Call -> Result<T, string>, providers: nat,
                           result: Result<T, string>, log: seq<Event>, result': Result<T, string>, log': seq<Event>)
    requires Meets(c, op, providers, result, log) && Meets(c, op, providers, result', log')
    ensures result == result' && log == log'
  {
    if !AllRetryable(c, op, Schedule(providers, c.maxRetries)) {
      NotLonger(c, op, result, log, result', log');
      NotLonger(c, op, result', log', result, log);
    }
  }

  lemma NotLonger<T>(c: Policy, op: Call -> Result<T, string>,
                     result: Result<T, string>, log: seq<Event>, result': Result<T, string>, log': seq<Event>)
    requires EndsWithFirstSettled(c, op, result, log) && EndsWithFirstSettled(c, op, result', log')
    requires |log| < |log'| ==> log <= log'
    ensures |log| >= |log'|
  {
    if |log| < |log'| {
      CalledMember(log'[..|log'| - 1], |log| - 1);
    }
  }

  lemma MadeStep(c: Policy, p: nat, n: nat)
    ensures Made(c, p, n + 1) == Made(c, p, n) + [Call(p, n)]
  {
  }

  lemma AtRetry<T>(c: Policy, op: Call -> Result<T, string>, p: nat, n: nat, log: seq<Event>, last: string,
                   delay: nat, next: seq<Event>)
    requires At(c, op, p, n, log, last) && !Settles(c, op(Call(p, n))) && delay == Delay(c, n)
    requires next == if n + 1 < c.maxRetries then log + [Called(Call(p, n))] + [Slept(delay)]
                     else log + [Called(Call(p, n))]
    ensures At(c, op, p, n + 1, next, op(Call(p, n)).error)
  {
    MadeStep(c, p, n);
  }

  lemma Settled<T>(c: Policy, op: Call -> Result<T, string>, made: seq<Call>, call: Call, all: seq<Call>)
    requires AllRetryable(c, op, made) && Settles(c, op(call)) && made + [call] <= all
    ensures FirstSettled(c, op, all, ALL_FAILED) == op(call)
    ensures !AllRetryable(c, op, all)
  {
    var rest := all[|made|..];
    assert all == made + rest && rest[0] == call && all[|made|] == call;
    SkipRetryable(c, op, made, rest, ALL_FAILED);
  }

  lemma LogSettled(c: Policy, p: nat, n: nat, log: seq<Event>, providers: nat)
    requires p < providers && n < c.maxRetries && log == LogAt(c, p, n)
    ensures log + [Called(Call(p, n))] <= FullLog(c, providers)
  {
    LogPrefix(c, p, n + 1, providers);
  }

  /** The calls before attempt `n` on provider `p` are those of the log. */
  lemma CallsOfLogAt(c: Policy, p: nat, n: nat)
    requires n <= c.maxRetries
    ensures CallsOf(LogAt(c, p, n)) == Made(c, p, n)
  {
    CallsOfFullLog(c, p);
    OfAttempts(c, p, n);
    OfConcat(FullLog(c, p), AttemptLog(c, p, n));
  }

  lemma AtSettled<T>(c: Policy, op: Call -> Result<T, string>, p: nat, n: nat, log: seq<Event>, last: string,
                     providers: nat)
    requires At(c, op, p, n, log, last) && Settles(c, op(Call(p, n)))
    requires p < providers && n < c.maxRetries
    ensures Meets(c, op, providers, op(Call(p, n)), log + [Called(Call(p, n))])
  {
    SchedulePrefix(p, n + 1, providers, c.maxRetries);
    MadeStep(c, p, n);
    Settled(c, op, Made(c, p, n), Call(p, n), Schedule(providers, c.maxRetries));
    LogSettled(c, p, n, log, providers);
    CallsOfLogAt(c, p, n);
    var ended := log + [Called(Call(p, n))];
    assert ended[..|ended| - 1] == log;
  }

  lemma AtEnd<T>(c: Policy, op: Call -> Result<T, string>, providers: nat, log: seq<Event>, last: string)
    requires At(c, op, providers, 0, log, last)
    ensures Meets(c, op, providers, Err(last), log)
  {
    var all := Schedule(providers, c.maxRetries);
    assert Made(c, providers, 0) == all && all + [] == all;
    assert LogAt(c, providers, 0) == FullLog(c, providers);
    SkipRetryable(c, op, all, [], ALL_FAILED);
  }

  /** The inner loop: attempts on one provider, until one settles or all have failed. */
  method TryProvider<T>(p: nat, ghost providers: nat, op: Call -> Result<T, string>, c: Policy,
                        before: seq<Event>, errorBefore: string)
      returns (settled: Option<Result<T, string>>, log: seq<Event>, lastError: string)
    requires p < providers && At(c, op, p, 0, before, errorBefore)
    ensures settled.Some? ==> Meets(c, op, providers, settled.value, log)
    ensures settled.None? ==> At(c, op, p, c.maxRetries, log, lastError)
  {
    log, lastError, settled := before, errorBefore, None;
    var retryCount, delay := 0, c.initialDelay;
    while retryCount < c.maxRetries
      invariant retryCount <= c.maxRetries
      invariant delay == Delay(c, if retryCount < c.maxRetries then retryCount else Max(retryCount - 1, 0))
      invariant At(c, op, p, retryCount, log, lastError)
    {
      var r, called := op(Call(p, retryCount)), log + [Called(Call(p, retryCount))];
      if r.Ok? || !c.retryable(r.error) {
        AtSettled(c, op, p, retryCount, log, lastError, providers);
        return Some(r), called, lastError;
      }
      ghost var next := if retryCount + 1 < c.maxRetries then called + [Slept(delay)] else called;
      AtRetry(c, op, p, retryCount, log, lastError, delay, next);
      retryCount, lastError, log := retryCount + 1, r.error, called;
      if retryCount < c.maxRetries {
        log := log + [Slept(delay)];
        delay := NextDelay(c, delay);
      }
    }
  }

  /** The loops answer as the flat specification does. The log is all of the full log when no call
      settles, and otherwise the prefix of it that ends with the first call that settles. */
  method RetryOnProviders<T>(providers: nat, op: Call -> Result<T, string>, c: Policy)
      returns (result: Result<T, string>, log: seq<Event>)
    ensures Meets(c, op, providers, result, log)
  {
    var lastError := ALL_FAILED;
    log := [];
    for p := 0 to providers
      invariant At(c, op, p, 0, log, lastError)
    {
      var settled;
      settled, log, lastError := TryProvider(p, providers, op, c, log, lastError);
      if settled.Some? { return settled.value, log; }
    }
    AtEnd(c, op, providers, log, lastError);
    result := Err(lastError);
  }

  // ---------- Which errors may be retried ----------

  datatype RetryConfig = RetryConfig(
    maxRetries: nat, initialDelay: nat, multiplier: real, maxDelay: nat, retryableErrors: seq<string>)

  /** Lower case of the ASCII letters. */
  function ToLower(s: string): (r: string)
    ensures |r| == |s|
  {
    if s == [] then []
    else [if 'A' <= s[0] <= 'Z' then (s[0] as int + 32) as char else s[0]] + ToLower(s[1..])
  }

  predicate Contains(s: string, part: string) {
    part <= s || (s != [] && Contains(s[1..], part))
  }

  /** The error text contains one of the listed texts, whatever the case of the letters. */
  predicate CanRetry(retryableErrors: seq<string>, error: string) {
    exists i | 0 <= i < |retryableErrors| :: Contains(ToLower(error), ToLower(retryableErrors[i]))
  }

  function PolicyOf(config: RetryConfig): (r: Policy) {
    Policy(config.maxRetries, config.initialDelay, config.multiplier, config.maxDelay,
           error => CanRetry(config.retryableErrors, error))
  }

  function LowerLetter(a: char): (r: char) {
    if 'A' <= a <= 'Z' then (a as int + 32) as char else a
  }

  /** The text stands in the error at position `j`, letter by letter, whatever the case of the letters. */
  ghost predicate StandsAt(error: string, text: string, j: nat) {
    j + |text| <= |error| && forall i | 0 <= i < |text| :: LowerLetter(error[j + i]) == LowerLetter(text[i])
  }

  ghost predicate Stands(error: string, text: string) {
    exists j: nat :: StandsAt(error, text, j)
  }

  /** Some listed text stands somewhere in the error. */
  ghost predicate Listed(texts: seq<string>, error: string) {
    exists i | 0 <= i < |texts| :: Stands(error, texts[i])
  }

  ghost predicate Lowered(s: string, l: string) {
    |l| == |s| && forall i | 0 <= i < |s| :: l[i] == LowerLetter(s[i])
  }

  lemma {:induction false} ToLowerIs(s: string)
    ensures Lowered(s, ToLower(s))
  {
    if s != [] {
      ToLowerIs(s[1..]);
      var l := ToLower(s);
      forall i | 0 <= i < |s| ensures l[i] == LowerLetter(s[i]) {
        if i > 0 { assert l[i] == ToLower(s[1..])[i - 1] && s[i] == s[1..][i - 1]; }
      }
    }
  }

  ghost predicate SliceAt(s: string, part: string, j: nat) {
    j + |part| <= |s| && s[j..j + |part|] == part
  }

  lemma SliceTail(s: string, part: string, j: nat)
    requires s != []
    ensures SliceAt(s[1..], part, j) <==> SliceAt(s, part, j + 1)
  {
    if j + |part| <= |s[1..]| { assert s[1..][j..j + |part|] == s[j + 1..j + 1 + |part|]; }
  }

  /** One text contains another exactly when that is one of its slices. */
  lemma {:induction false} ContainsSlice(s: string, part: string)
    ensures Contains(s, part) <==> exists j: nat :: SliceAt(s, part, j)
  {
    if part <= s {
      assert SliceAt(s, part, 0);
    } else if s != [] {
      ContainsSlice(s[1..], part);
      if Contains(s[1..], part) {
        var j: nat :| SliceAt(s[1..], part, j);
        SliceTail(s, part, j);
      }
      if j: nat :| SliceAt(s, part, j) {
        SliceTail(s, part, j - 1);
      }
    }
  }

  lemma LowerSlice(error: string, text: string, e: string, t: string, j: nat)
    requires Lowered(error, e) && Lowered(text, t)
    ensures SliceAt(e, t, j) <==> StandsAt(error, text, j)
  {
    if j + |t| <= |e| {
      if StandsAt(error, text, j) {
        assert forall i | 0 <= i < |t| :: e[j..j + |t|][i] == t[i];
      }
      if SliceAt(e, t, j) {
        forall i | 0 <= i < |text| ensures LowerLetter(error[j + i]) == LowerLetter(text[i]) {
          assert e[j..j + |t|][i] == e[j + i];
        }
      }
    }
  }

  lemma ContainsLower(error: string, text: string, e: string, t: string)
    requires Lowered(error, e) && Lowered(text, t)
    ensures Contains(e, t) <==> Stands(error, text)
  {
    ContainsSlice(e, t);
    if Contains(e, t) {
      var j: nat :| SliceAt(e, t, j);
      LowerSlice(error, text, e, t, j);
    }
    if Stands(error, text) {
      var j: nat :| StandsAt(error, text, j);
      LowerSlice(error, text, e, t, j);
    }
  }

  /** Which errors are retried, letter by letter. */
  lemma CanRetryIffListed(texts: seq<string>, error: string)
    ensures CanRetry(texts, error) <==> Listed(texts, error)
  {
    ToLowerIs(error);
    forall i | 0 <= i < |texts|
      ensures Contains(ToLower(error), ToLower(texts[i])) <==> Stands(error, texts[i])
    {
      ToLowerIs(texts[i]);
      ContainsLower(error, texts[i], ToLower(error), ToLower(texts[i]));
    }
  }

  /** The answer is a success, or an error that no listed text stands in. */
  ghost predicate Final<T>(config: RetryConfig, r: Result<T, string>) {
    r.Ok? || !Listed(config.retryableErrors, r.error)
  }

  lemma SettlesIffFinal<T>(config: RetryConfig, r: Result<T, string>)
    ensures Settles(PolicyOf(config), r) <==> Final(config, r)
  {
    if r.Err? { CanRetryIffListed(config.retryableErrors, r.error); }
  }

  // ---------- Where everything stands in a log ----------

  /** The place of an attempt in the log: an attempt and a sleep take turns, and no sleep follows the last
      attempt on a provider. */
  function Place(tries: nat, provider: nat, attempt: nat): (r: int) {
    provider * (2 * tries - 1) + 2 * attempt
  }

  lemma {:induction false} AttemptLogAt(c: Policy, provider: nat, n: nat, a: nat)
    requires a < n <= c.maxRetries
    ensures |AttemptLog(c, provider, n)| == if n < c.maxRetries then 2 * n else 2 * n - 1
    ensures AttemptLog(c, provider, n)[2 * a] == Called(Call(provider, a))
    ensures a + 1 < c.maxRetries ==> AttemptLog(c, provider, n)[2 * a + 1] == Slept(Delay(c, a))
    decreases n
  {
    if a < n - 1 {
      AttemptLogAt(c, provider, n - 1, a);
    } else if n > 1 {
      AttemptLogAt(c, provider, n - 1, 0);
    }
  }

  lemma {:induction false} FullLogAt(c: Policy, providers: nat, p: nat, a: nat)
    requires p < providers && a < c.maxRetries
    ensures |FullLog(c, providers)| == Place(c.maxRetries, providers, 0)
    ensures 0 <= Place(c.maxRetries, p, a) < |FullLog(c, providers)|
    ensures FullLog(c, providers)[Place(c.maxRetries, p, a)] == Called(Call(p, a))
    ensures a + 1 < c.maxRetries ==>
              Place(c.maxRetries, p, a) + 1 < |FullLog(c, providers)|
              && FullLog(c, providers)[Place(c.maxRetries, p, a) + 1] == Slept(Delay(c, a))
    decreases providers
  {
    var m := c.maxRetries;
    assert Place(m, providers, 0) == Place(m, providers - 1, 0) + (2 * m - 1) by {
      assert providers * (2 * m - 1) == (providers - 1) * (2 * m - 1) + (2 * m - 1);
    }
    AttemptLogAt(c, providers - 1, m, a);
    FullLogLength(c, providers - 1);
    assert p * (2 * m - 1) >= 0;
    if p < providers - 1 { FullLogAt(c, providers - 1, p, a); }
  }

  lemma {:induction false} FullLogLength(c: Policy, providers: nat)
    requires c.maxRetries > 0
    ensures |FullLog(c, providers)| == Place(c.maxRetries, providers, 0)
  {
    if providers > 0 {
      var m := c.maxRetries;
      FullLogLength(c, providers - 1);
      AttemptLogAt(c, providers - 1, m, 0);
      assert providers * (2 * m - 1) == (providers - 1) * (2 * m - 1) + (2 * m - 1);
    }
  }

  /** A number of milliseconds times a factor, without the fraction, and at most `most`. */
  ghost function Grown(d: nat, factor: real, most: nat): nat {
    var scaled := d as real * factor;
    if scaled < 0.0 then 0 else if scaled.Floor > most then most else scaled.Floor
  }

  /** The sleeps on one provider: from the initial delay on, each is the one before it, grown. */
  ghost function NthSleep(initial: nat, factor: real, most: nat, a: nat): nat {
    if a == 0 then initial else Grown(NthSleep(initial, factor, most, a - 1), factor, most)
  }

  lemma {:induction false} DelayIsNthSleep(c: Policy, a: nat, r: nat)
    requires r == NthSleep(c.initialDelay, c.multiplier, c.maxDelay, a)
    ensures Delay(c, a) == r
  {
    if a > 0 {
      var before := NthSleep(c.initialDelay, c.multiplier, c.maxDelay, a - 1);
      DelayIsNthSleep(c, a - 1, before);
    }
  }

  /** The log of an operation under a configuration, place by place: attempt `a` on provider `p`, for fewer
      than maxRetries attempts a, and the sleep after it. */
  lemma LogLayout<T>(config: RetryConfig, op: Call -> Result<T, string>, providers: nat,
                     result: Result<T, string>, log: seq<Event>, p: nat, a: nat)
    requires Meets(PolicyOf(config), op, providers, result, log) && p < providers && a < config.maxRetries
    ensures 0 <= Place(config.maxRetries, p, a) && |log| <= Place(config.maxRetries, providers, 0)
    ensures Place(config.maxRetries, p, a) < |log| ==>
              log[Place(config.maxRetries, p, a)] == Called(Call(p, a))
    ensures Place(config.maxRetries, p, a) + 1 < |log| && a + 1 < config.maxRetries ==>
              log[Place(config.maxRetries, p, a) + 1]
              == Slept(NthSleep(config.initialDelay, config.multiplier, config.maxDelay, a))
  {
    FullLogAt(PolicyOf(config), providers, p, a);
    DelayIsNthSleep(PolicyOf(config), a, NthSleep(config.initialDelay, config.multiplier, config.maxDelay, a));
  }

  /** What the log and the answer of an operation are under a configuration: every call but the last one has
      failed with a listed error, and either the last one is final and its answer is returned, or all calls
      have been made and the error of the last one is returned. */
  ghost predicate Answered<T>(config: RetryConfig, op: Call -> Result<T, string>, providers: nat,
                              result: Result<T, string>, log: seq<Event>)
  {
    && (forall i | 0 <= i < |log| - 1 && log[i].Called? :: !Final(config, op(log[i].call)))
    && if log != [] && log[|log| - 1].Called? && Final(config, op(log[|log| - 1].call))
       then result == op(log[|log| - 1].call)
       else
         && (forall p, a | 0 <= p < providers && 0 <= a < config.maxRetries :: Called(Call(p, a)) in log)
         && result == if providers > 0 && config.maxRetries > 0 then op(Call(providers - 1, config.maxRetries - 1))
                      else Err("All providers failed")
  }

  /** When no call settles. */
  lemma AllFailedAnswer<T>(config: RetryConfig, op: Call -> Result<T, string>, providers: nat,
                           result: Result<T, string>, log: seq<Event>)
    requires Meets(PolicyOf(config), op, providers, result, log)
    requires AllRetryable(PolicyOf(config), op, Schedule(providers, config.maxRetries))
    ensures Answered(config, op, providers, result, log)
  {
    var c, all := PolicyOf(config), Schedule(providers, config.maxRetries);
    assert all + [] == all;
    SkipRetryable(c, op, all, [], ALL_FAILED);
    forall i | 0 <= i < |log| && log[i].Called? ensures !Final(config, op(log[i].call)) {
      CalledMember(log, i);
      CallsOfFullLog(c, providers);
      SettlesIffFinal(config, op(log[i].call));
    }
    forall p, a | 0 <= p < providers && 0 <= a < config.maxRetries ensures Called(Call(p, a)) in log {
      FullLogAt(c, providers, p, a);
    }
    if providers > 0 && config.maxRetries > 0 {
    } else {
      ScheduleShape(providers, config.maxRetries);
    }
  }

  /** When some call settles. */
  lemma SettledAnswer<T>(config: RetryConfig, op: Call -> Result<T, string>, providers: nat,
                         result: Result<T, string>, log: seq<Event>)
    requires EndsWithFirstSettled(PolicyOf(config), op, result, log)
    ensures Answered(config, op, providers, result, log)
  {
    SettlesIffFinal(config, result);
    forall i | 0 <= i < |log| - 1 && log[i].Called? ensures !Final(config, op(log[i].call)) {
      CalledMember(log[..|log| - 1], i);
      SettlesIffFinal(config, op(log[i].call));
    }
  }

  method RetryWithFallbackProviders<T>(providers: nat, op: Call -> Result<T, string>, config: RetryConfig)
      returns (result: Result<T, string>, log: seq<Event>)
    ensures Answered(config, op, providers, result, log)
    ensures Meets(PolicyOf(config), op, providers, result, log)
  {
    result, log := RetryOnProviders(providers, op, PolicyOf(config));
    if AllRetryable(PolicyOf(config), op, Schedule(providers, config.maxRetries)) {
      AllFailedAnswer(config, op, providers, result, log);
    } else {
      SettledAnswer(config, op, providers, result, log);
    }
  }
}
