# Verified models of the trading backend's state machines

This project models the self-contained state machines of the repository in Dafny and proves what they
promise over whole runs: caches, rate limiters, endpoint selection, retries, fallbacks, circuit breaker,
lease lock, transaction index, game scoring and the WebSocket send queue. `dafny verify dfyconfig.toml`
verifies everything.

| file | module | what it models |
|---|---|---|
| `Wrappers.dfy` | `Wrappers` | options, results, minimum, maximum |
| `LruCache.dfy` | `Lru` | the bounded recency cache with expiry, sweep and live resizing |
| `BasicCache.dfy` | `BasicCaches` | the two-map cache with a size limit, used sequentially |
| `AsyncCache.dfy` | `AsyncCaches` | the same cache shared by tasks, as interleaved lock-sized steps |
| `RateLimit.dfy` | `RateLimits` | the fixed-window limiter with its sweep, and the per-client message limit |
| `EndpointManager.dfy` | `Endpoints` | endpoint lists under two sort orders, and the running latency average |
| `RetryPolicy.dfy` | `Retries` | the retry loop, its backoff and its counters |
| `CircuitBreaker.dfy` | `Breakers` | the breaker with its asynchronous reset timers |
| `Fallback.dfy` | `Fallbacks` | nested retry loops over providers |
| `RedisLock.dfy` | `Locks` | the lease lock as client steps against a store with expiring keys |
| `RedisStorage.dfy` | `Transactions` | expiring records under a sorted index that is never trimmed |
| `Equilibrium.dfy` | `Games` | game scoring, strategies, Pareto optimum and Nash equilibria |
| `WebSocketClient.dfy` | `WebSockets` | the send queue over reconnecting sessions |

Each component has the same structure. A step function on values gives the effect of one operation; a run
is a sequence of operations, timer firings or scheduling choices. A class holds the fields that the
original updates in place, and every method is proved to make exactly the step that the function gives.
The main results are lemmas about all runs.

## Conventions

- Time is a non-decreasing natural number that the caller passes in. Random draws, answers of remote
  calls, health checks and scheduling decisions are parameters or events.
- `f64` factors are exact reals with truncation towards zero where the original casts to an integer.
  Utilities are counted in halves, which makes them integers.
- Serialisation is the identity on the data it carries. `common/cache.rs:60` excludes the expiry time of
  an entry from serialisation, which would make a stored entry unreadable; the model keeps the field.
- Locks are taken as given: an operation under one write lock is one step. `AsyncCaches` and `WebSockets`
  split operations at lock boundaries, because there the original releases the lock in between.
- The clone of a lock at `common/src/retry_policy.rs:251` and the cloned halves of a stream at
  `network/src/websocket.rs:86-105` are read as shared state.

## Findings

Where the code does not do what its comments, names or the obvious reading suggest, the model follows the
code, and the lemmas say exactly what holds.

- Resizing the recency cache reverses the order, so a shrink keeps the least recently used items
  (`Lru.ResizeSurvivors`).
- `set` of the two-map cache is refused when the cache is full even if it would only overwrite a key
  (`BasicCaches.SetRefusedIffFull`). When tasks share the cache, the size limit can be overrun, by at most
  the number of sets in flight less one, and that is attained (`AsyncCaches.OverrunIsBounded`,
  `AsyncCaches.OverrunIsAttained`); a removal that overlaps a `set` of its key can leave the key in one
  of the two maps only, and nothing else can (`AsyncCaches.OverlapCanSeparate`,
  `AsyncCaches.MapsAgreeAtRest`). An entry left without expiry
  time escapes every cleanup (`AsyncCaches.OrphanEntry`) until a `get` of its key removes it
  (`AsyncCaches.GetRemovesOrphan`).
- A window limit of L admits up to 2L - 1 requests within one window length
  (`RateLimits.AdmissionBoundIsAttained`), and the hourly sweep changes decisions for windows above an hour
  (`RateLimits.SweepIsVisibleForLongWindows`).
- The full endpoint list need not be sorted by priority (`Endpoints.FullListMayBeUnsorted`): it is exactly
  when no health check has put a lower-ranked healthy endpoint before a higher-ranked unhealthy one since
  the last addition (`Endpoints.FullListSortedIff`). Its enabled part always is.
- The legacy statistics of the retry policy leave out the last call of every failed run
  (`Retries.StatsMissFailedRuns`), and the reported average divides by successful runs only.
- The failure threshold of the circuit breaker is never read: one failure opens it
  (`Breakers.RefusesUntilReset`), and a failure in the half-open state has no effect.
- `get_recent_transactions` is right for every limit exactly when no expired id stands before a live one in
  the index (`Transactions.NewestIffLiveFirst`). That holds if transactions are saved at their timestamps;
  otherwise a live transaction can be crowded out (`Transactions.StaleIdsCrowdOut`).
- The comment of `find_nash_equilibrium` takes all-defect for the equilibrium of the game. Under the
  scoring of `calculate_utility` it is one for no number of players (`Games.NashAnswerIsNoEquilibrium`);
  `Games.NashCharacterised` gives all of them.
- The reconnect counter of the WebSocket client is reset by every successful connection, so the limit of
  five attempts is never reached and the backoff never grows (`WebSockets.NeverGivesUp`). A single failed
  connection attempt stops the client (`WebSockets.StopsIffConnectFails`), for good
  (`WebSockets.StoppedForGood`), while messages are still accepted.
- A lock that is taken is reported as an error by `create_lock`, since the nil reply of a refused creation is
  no string; `Ok(false)` does not occur (`Locks.LockService.CreateLock`).
- A limit of 0 in `get_recent_transactions` wraps around to a range over the whole index
  (`Transactions.RecentAreNewest`).

## Model

| member | source | states |
|---|---|---|
| `Lru.LifetimeKeeps` | common/cache.rs:283-420 | over the whole life of a cache, with any number of configuration changes among gets, stores, removes, clears and cleanups, keys stay distinct and the length within the current capacity |
| `Lru.RunKeeps` | common/cache.rs:332-420 | between changes of the configuration, the same from any well-formed list |
| `Lru.RunIsPrefixOfReference` | common/cache.rs:332-420 | from any list, every run leaves a prefix of the recency list of a never-evicting cache given the same hits, stores and removals |
| `Lru.PrefixBetweenResizes` | common/cache.rs:283-420 | the same at any point of the life of a cache, from the list that the last resize has left |
| `Lru.HitIsLastStore` | common/cache.rs:283-420 | over the whole life of a cache, with any number of resizes, a hit returns the value last stored under the key, and that store has not expired |
| `Lru.StoredValueIsRetained` | common/cache.rs:332-365 | a value stored at some time is still served before that time plus its ttl, as long as fewer than `capacity` other keys were used since and nothing removed or overwrote it |
| `Lru.HitIsRetained` | common/cache.rs:332-352 | a hit counts like a store: its value is retained on the same condition from the hit on |
| `Lru.GetEffect` | common/cache.rs:332-352 | a get moves the item to the front or takes it out, position by position, and answers exactly before its expiry |
| `Lru.StoreEffect` | common/cache.rs:354-365 | a store of a present key replaces its item by one in front that expires after the ttl |
| `Lru.RemoveEffect` | common/cache.rs:367-378 | a removal takes out the item of the key and nothing else |
| `Lru.AbsentEffect` | common/cache.rs:332-378 | for an absent key a get and a removal change nothing, and a store costs a full list exactly its last item |
| `Lru.CleanupEffect` | common/cache.rs:380-420 | a cleanup keeps exactly the unexpired items in order, and a clear keeps none |
| `Lru.PutKeeps` | common/cache.rs:354-365 | one put keeps keys distinct and the length within the capacity |
| `Lru.RefillReverses` | common/cache.rs:283-320 | re-inserting items in recency order reverses them and cuts the tail of the reversed list |
| `Lru.ResizeSurvivors` | common/cache.rs:283-320 | a resize leaves min(old length, new capacity) items, and exactly the least recently used ones |
| `Lru.ResizedOrigin` | common/cache.rs:283-320 | a resize keeps the list well formed and changes no value that it keeps |
| `Lru.ResizeTwiceRestores` | common/cache.rs:283-320 | with enough capacity a resize keeps all items, and a second one restores their order |
| `Lru.UpdateResizes` | common/cache.rs:283-320 | an update to a new positive capacity puts it in force, in the configuration and in the store, which then holds the last items of the old list, as many as fit, reversed |
| `Lru.UpdateElsewise` | common/cache.rs:283-320 | every other update leaves items and capacity alone, and a zero is turned down when a positive capacity is configured |
| `Lru.CapacityInForce` | common/cache.rs:283-320 | over the whole life of a cache, the capacity in force is the last positive one of the history that was newly configured |
| `Lru.PoppingExpired` | common/cache.rs:391-420 | popping every expired key leaves exactly the live items in order |
| `Lru.LRUCache.New` | common/cache.rs:257-266 | an absent capacity means 1000, zero is refused, and the new cache is empty |
| `Lru.LRUCache.GetFromCache` | common/cache.rs:332-352 | the answer and the new list, with lazy removal of an expired item and promotion of a hit |
| `Lru.LRUCache.StoreInCache` | common/cache.rs:354-365 | the new list, with the item in front and the last one evicted when full |
| `Lru.LRUCache.Remove` | common/cache.rs:367-378 | the list without the key |
| `Lru.LRUCache.Clear` | common/cache.rs:380-389 | the empty list |
| `Lru.LRUCache.CleanupCache` | common/cache.rs:391-420 | collecting and popping the expired keys makes the list of the live items |
| `Lru.LRUCache.UpdateConfig` | common/cache.rs:283-320 | the rebuilding loop makes the update that the laws above pin down, and fails exactly for a zero while a positive capacity is configured |
| `BasicCaches.SameKeys` | common/src/cache.rs:150-306 | after every sequential run the two maps have the same keys, at most `maxSize` of them |
| `BasicCaches.RunIsOneMap` | common/src/cache.rs:150-306 | after every run, whatever the clock readings, the two maps are exactly one map of timed values, with lazy removal, sweeps of a full map and refusals, and get and set answer by it |
| `BasicCaches.GetAgrees` | common/src/cache.rs:160-204 | after every sequential run `get` answers as an unbounded timed map does |
| `BasicCaches.SetRefusedIffFull` | common/src/cache.rs:206-247 | after every sequential run `set` is refused exactly when `maxSize` keys are live, even for an overwrite |
| `BasicCaches.AcceptsIffRoom` | common/src/cache.rs:206-247 | the acceptance test of `set`, including its cleanup, compares the number of live keys with the limit |
| `BasicCaches.SweptKeys` | common/src/cache.rs:282-306 | a sweep leaves exactly the live keys |
| `BasicCaches.BasicCache.Get` | common/src/cache.rs:160-204 | the answer, and the removal of an expired key from both maps |
| `BasicCaches.BasicCache.Set` | common/src/cache.rs:206-247 | refusal after a cleanup that makes no room, otherwise both maps updated |
| `BasicCaches.BasicCache.Remove` | common/src/cache.rs:249-266 | both maps without the key |
| `BasicCaches.BasicCache.Clear` | common/src/cache.rs:268-280 | both maps empty |
| `BasicCaches.BasicCache.Cleanup` | common/src/cache.rs:282-306 | the removal loop drops exactly the expired keys from both maps |
| `AsyncCaches.OneLockSuffices` | common/src/cache.rs:334-479 | no step needs two locks: it depends on and writes the map behind one lock only |
| `AsyncCaches.ActionEffect` | common/src/cache.rs:334-479 | an action either passes the fullness check, or adds no more entries than the commitments it gives up |
| `AsyncCaches.OverrunIsBounded` | common/src/cache.rs:381-422 | with at most n sets in flight every interleaving keeps at most maxSize + n - 1 entries |
| `AsyncCaches.OverrunIsAttained` | common/src/cache.rs:381-422 | for every number of tasks some interleaving reaches that bound |
| `AsyncCaches.GetReturnsASetValue` | common/src/cache.rs:341-422 | in every interleaving a value that `get` returns was given to a `set` on the same key |
| `AsyncCaches.SequentialHistoriesAreRuns` | common/src/cache.rs:334-479 | every sequential history of the basic cache is a run of the shared one that starts exactly these calls, gets the same answers and leaves the same two maps |
| `AsyncCaches.MapsAgreeAtRest` | common/src/cache.rs:334-479 | over every interleaving in which no set and no removal of a key are half through together, the two maps agree about the key whenever neither is half through |
| `AsyncCaches.OverlapCanSeparate` | common/src/cache.rs:404-455 | from every state in which they are half through together, the calls in flight can finish so that the key stays in one map only |
| `AsyncCaches.SafeIffNoOverlap` | common/src/cache.rs:334-479 | every schedule of the calls in flight leaves the maps in agreement about a key at rest if and only if no schedule of them overlaps a set and a removal of it |
| `AsyncCaches.OrphanEntry` | common/src/cache.rs:381-441 | an interleaving of `set` and `remove` leaves an entry without expiry time, which no sweep removes |
| `AsyncCaches.GetRemovesOrphan` | common/src/cache.rs:341-366 | a `get` of such an entry answers None and removes it |
| `AsyncCaches.SoloGetLive` | common/src/cache.rs:341-379 | an undisturbed get of an unexpired key answers its value and changes nothing |
| `AsyncCaches.SoloGetExpired` | common/src/cache.rs:341-366 | an undisturbed get of a key that has expired, or has no expiry time, answers None and removes it from both maps |
| `AsyncCaches.SoloSetRoom` | common/src/cache.rs:381-422 | an undisturbed set that finds room writes both maps without a sweep, and is accepted |
| `AsyncCaches.SoloSetFull` | common/src/cache.rs:381-422 | on a full cache an undisturbed set sweeps at its first clock reading, in any order of the keys; with room after that it writes the expiry time by its second and is accepted, and otherwise it is refused and the swept maps stay |
| `AsyncCaches.SoloRemove` | common/src/cache.rs:424-441 | an undisturbed removal takes the key out of both maps |
| `AsyncCaches.SoloClear` | common/src/cache.rs:443-455 | an undisturbed clear empties both maps |
| `AsyncCaches.SoloCleanup` | common/src/cache.rs:457-479 | an undisturbed cleanup drops exactly the keys that have expired by its clock reading, in any order |
| `RateLimits.AdmissionBound` | snipebot/src/rate_limit.rs:60-113 | over every run any half-open interval as long as a window stands admits at most 2 max(limit, 1) - 1 requests for a key; a window stands for its length, cut to an hour only if the run has sweeps |
| `RateLimits.AdmissionBoundIsAttained` | snipebot/src/rate_limit.rs:60-88 | for every limit and every window of at least two ticks some run attains that bound |
| `RateLimits.SweepIsInvisible` | snipebot/src/rate_limit.rs:92-113 | for windows of at most an hour, sweeps anywhere in a run change no decision, from any two related stores |
| `RateLimits.SweepIsInvisibleFromStart` | snipebot/src/rate_limit.rs:92-113 | the same from the empty store |
| `RateLimits.SweepIsVisibleForLongWindows` | snipebot/src/rate_limit.rs:92-113 | for every window above an hour a sweep can turn a refusal into an admission |
| `RateLimits.RefusalIsEarned` | snipebot/src/rate_limit.rs:60-88 | after every run, whatever limits and windows its requests used, a refused request comes after `limit` admissions within less than the length of its window |
| `RateLimits.RequestEffect` | snipebot/src/rate_limit.rs:60-88 | a request touches the window of its key only, counts it up to the limit, and opens a new one when it is over |
| `RateLimits.SweepEffect` | snipebot/src/rate_limit.rs:92-113 | a sweep drops exactly the windows that started 3600 seconds ago or longer |
| `RateLimits.StepSpendsBudget` | snipebot/src/rate_limit.rs:60-88 | every step keeps the budget that an interval has left, less one for an admission |
| `RateLimits.RateLimitStore.CheckRateLimit` | snipebot/src/rate_limit.rs:41-89 | admits exactly when there is no window, the window is over or its count is below the limit; a new or counted-up window is all that changes |
| `RateLimits.RateLimitStore.CleanupOldRateLimits` | snipebot/src/rate_limit.rs:92-116 | the store without windows that started an hour ago or longer |
| `RateLimits.MessageBound` | network/src/websocket_server.rs:67-85 | any closed interval of sixty seconds admits at most 199 messages of a client |
| `RateLimits.MessageBoundIsAttained` | network/src/websocket_server.rs:67-85 | some run of messages reaches 199 in such an interval |
| `RateLimits.MessageRefusalIsEarned` | network/src/websocket_server.rs:67-85 | a client whose message is refused has had 100 admitted within the last sixty seconds |
| `RateLimits.MessageLimiter.CheckRateLimit` | network/src/websocket_server.rs:67-85 | the strict-boundary limiter decides and steps as the window limiter with a window one tick longer |
| `Endpoints.SelectionIsOptimal` | snipebot/src/main.rs:85-222 | in every reachable state the first enabled endpoint has the highest priority of the enabled ones, none is found exactly when none is enabled, and urls are unique |
| `Endpoints.ListHoldsRegistered` | snipebot/src/main.rs:85-222 | after every run the list of a chain holds exactly the endpoints that the history has added to it, once each, as first added, with the flag that the last addition, disable or health check has set |
| `Endpoints.SelectionFromHistory` | snipebot/src/main.rs:85-222 | after every run, if the history leaves an endpoint enabled, the selection is one that it leaves enabled, of at least that priority |
| `Endpoints.SelectionIsRegistered` | snipebot/src/main.rs:85-222 | whatever is selected is an endpoint that the history leaves enabled |
| `Endpoints.AddedIsGood` | snipebot/src/main.rs:85-100 | adding keeps urls unique and the enabled endpoints sorted |
| `Endpoints.DisabledIsGood` | snipebot/src/main.rs:172-185 | disabling keeps both |
| `Endpoints.DisabledAt` | snipebot/src/main.rs:172-185 | disabling switches off the endpoint of the url and nothing else |
| `Endpoints.CheckedIsGood` | snipebot/src/main.rs:188-222 | a health check keeps both, and is a permutation of the list with the flags set |
| `Endpoints.BestIsBest` | snipebot/src/main.rs:103-115 | the first enabled endpoint is maximal whenever the enabled ones are sorted |
| `Endpoints.SortedIsSorted` | snipebot/src/main.rs:210-216 | the sort orders by either comparison |
| `Endpoints.SortedMembers` | snipebot/src/main.rs:210-216 | the sort permutes |
| `Endpoints.SortedIsStable` | snipebot/src/main.rs:210-216 | endpoints of equal rank keep their order |
| `Endpoints.FullListSortedIff` | snipebot/src/main.rs:85-222 | over every run, the full list of a chain is sorted by priority if and only if no health check has broken the order since an endpoint was last added |
| `Endpoints.CheckedSortedIff` | snipebot/src/main.rs:188-222 | a health check leaves the list sorted by priority if and only if no endpoint that answers unhealthy outranks one that answers healthy |
| `Endpoints.DisabledSortedIff` | snipebot/src/main.rs:172-185 | disabling leaves the order alone |
| `Endpoints.FullListMayBeUnsorted` | snipebot/src/main.rs:188-222 | for any two endpoints of different priority some run leaves the list unsorted by priority |
| `Endpoints.AverageWithinRange` | snipebot/src/main.rs:144-150 | the truncated running average stays between the extreme samples |
| `Endpoints.AverageError` | snipebot/src/main.rs:144-150 | it never exceeds the true mean and falls short of it by at most (n - 1) / 2 |
| `Endpoints.AverageErrorIsAttained` | snipebot/src/main.rs:144-150 | for every n some samples attain that error |
| `Endpoints.EndpointManager.AddEndpoint` | snipebot/src/main.rs:85-100 | an endpoint with a new url joins the list of its chain, which is sorted by priority; a known url changes nothing |
| `Endpoints.EndpointManager.GetBestEndpoint` | snipebot/src/main.rs:103-115 | the first enabled endpoint, which is a best one in every reachable state |
| `Endpoints.EndpointManager.DisableEndpoint` | snipebot/src/main.rs:172-185 | the search switches off the first endpoint with the url, a step that `ListHoldsRegistered` pins down, and the answer says whether there is one |
| `Endpoints.EndpointManager.CheckEndpointsHealth` | snipebot/src/main.rs:188-222 | every chain probed and re-sorted, in whatever order the chains are visited |
| `Endpoints.EndpointManager.UpdateStats` | snipebot/src/main.rs:118-169 | the counters summarise one sample more, and only those of the url |
| `Retries.BaseDelayClosedForm` | common/src/retry_policy.rs:135-146 | with an integer factor b the i-th base delay, i ≥ 1, is min(initial · b^i, max_delay) |
| `Retries.BaseDelayGrows` | common/src/retry_policy.rs:135-146 | for every factor of at least 1 the delays after the first never shrink and stay capped |
| `Retries.BaseDelayExact` | common/src/retry_policy.rs:135-146 | for every factor each delay is the one before it times the factor, without the fraction, or the maximum if that is less |
| `Retries.JitteredExact` | common/src/retry_policy.rs:135-141 | a wait is the delay times one plus the draw's share of the jitter, without the fraction |
| `Retries.WaitAt` | common/src/retry_policy.rs:135-146 | the i-th wait of a run belongs to the i-th delay and the i-th draw |
| `Retries.WaitBounds` | common/src/retry_policy.rs:135-146 | jitter only lengthens a wait, by at most its share |
| `Retries.CallsAreConserved` | common/src/retry_policy.rs:105-149 | over every sequence of enabled runs, calls equal total_retries + successful_retries + failed_retries |
| `Retries.AverageRetriesMeaning` | common/src/retry_policy.rs:117-119 | the reported average divides the retries up to the last success by all successes, is never too high, and is exact if and only if no run since then has failed after a retry |
| `Retries.StatsMissFailedRuns` | common/src/retry_policy.rs:158-167 | the legacy attempts are the calls less one per failed run |
| `Retries.RetryPolicy.Retry` | common/src/retry_policy.rs:93-150 | the first success, or the last failure, with the number of retries, after exactly max_retries + 1 calls; the waits between the calls; the counters |
| `Retries.RetryPolicy.Reconfigure` | common/src/retry_policy.rs:180-182 | a new configuration leaves the counters alone |
| `Breakers.TimersMatchState` | common/src/retry_policy.rs:234-260 | in every reachable state one reset timer is pending when the circuit is open, and none otherwise |
| `Breakers.ResetFindsOpen` | common/src/retry_policy.rs:252-257 | the unconditional write of a reset task only ever meets an open circuit |
| `Breakers.StatesCycle` | common/src/retry_policy.rs:234-260 | every history cycles through Closed, Open, HalfOpen |
| `Breakers.ChangesHaveCause` | common/src/retry_policy.rs:234-260 | in every reachable state exactly a failure when closed, a due reset when open and a success when half-open move the state, and only the first spawns a timer, due after the timeout |
| `Breakers.RefusesUntilReset` | common/src/retry_policy.rs:228-260 | one failure refuses every operation until the timeout has passed, the first reset after that lets operations through, and a success then closes the circuit |
| `Breakers.CircuitBreaker.OnSuccess` | common/src/retry_policy.rs:234-240 | a success closes a half-open circuit and changes no other |
| `Breakers.CircuitBreaker.OnFailure` | common/src/retry_policy.rs:243-259 | a failure opens a closed circuit and spawns one reset task, and changes no other |
| `Breakers.CircuitBreaker.ResetTask` | common/src/retry_policy.rs:252-257 | a due reset task is consumed and leaves the circuit half-open, whatever it was |
| `Fallbacks.RetryWithFallbackProviders` | snipebot/src/config.rs:388-438 | every call but the last one has failed with an error that a listed text stands in, whatever the case of the letters; the last one is final and its answer returned, or all calls have been made and the last error is returned |
| `Fallbacks.MeetsDetermines` | snipebot/src/config.rs:388-438 | this promise fixes the answer and the whole log of calls and sleeps |
| `Fallbacks.LogLayout` | snipebot/src/config.rs:402-432 | the place of every attempt and of every sleep in the log: max_retries attempts on a provider, a sleep between any two, from the initial delay on, grown by the multiplier up to the maximum |
| `Fallbacks.CanRetryIffListed` | snipebot/src/config.rs:407-410 | an error is retried exactly when some listed text stands somewhere in it, letter by letter, whatever the case |
| `Fallbacks.ContainsSlice` | snipebot/src/config.rs:409-410 | one text contains another exactly when that is one of its slices |
| `Fallbacks.RetryOnProviders` | snipebot/src/config.rs:398-438 | the same for any test of which errors are retryable |
| `Fallbacks.TryProvider` | snipebot/src/config.rs:403-427 | the inner loop settles, or has made all attempts on its provider |
| `Fallbacks.LogBounds` | snipebot/src/config.rs:402-432 | every log has at most providers · max_retries calls in schedule order, one sleep less per provider, and no sleep above max(initial, max delay) |
| `Fallbacks.CallsOfFullLog` | snipebot/src/config.rs:402-432 | when no call settles, the calls are the whole schedule |
| `Fallbacks.SleepsOfFullLog` | snipebot/src/config.rs:402-432 | when no call settles, the sleeps are the backoff from the initial delay once per provider |
| `Fallbacks.BackoffBound` | snipebot/src/config.rs:416-422 | every delay of a backoff stays within the larger of the two limits |
| `Fallbacks.SkipRetryable` | snipebot/src/config.rs:402-432 | calls that do not settle only change the error to answer with |
| `Fallbacks.ScheduleShape` | snipebot/src/config.rs:402-432 | the schedule has providers · max_retries calls |
| `Locks.LeaseIsKept` | network/src/redis_service.rs:352-395 | once acquired and not released, a lock holds its token until the lease runs out, whatever other clients do |
| `Locks.LeaseExcludes` | network/src/redis_service.rs:352-395 | meanwhile nobody acquires the lock, and a release succeeds exactly with its token |
| `Locks.MutualExclusion` | network/src/redis_service.rs:352-395 | no two acquisitions entitle to a lock at the same time |
| `Locks.HolderIffEntitled` | network/src/redis_service.rs:352-395 | the store reports a token exactly when that token is entitled to the lock |
| `Locks.FreeLockIsGranted` | network/src/redis_service.rs:352-369 | a creation succeeds exactly with a positive ttl on a lock that nobody is entitled to |
| `Locks.ReleaseIffEntitled` | network/src/redis_service.rs:372-395 | a release succeeds exactly for the token that is entitled to the lock |
| `Locks.LockService.CreateLock` | network/src/redis_service.rs:352-369 | succeeds exactly with a positive ttl on a free or expired key, which then holds the token until now + ttl; a refusal changes nothing and is an error, never a plain false |
| `Locks.LockService.ReleaseLock` | network/src/redis_service.rs:372-395 | succeeds exactly when the unexpired key holds the token, and then deletes it; a refusal changes nothing |
| `Transactions.RecentAreNewest` | network/storage/redis_storage.rs:23-75 | after every run of saves at their timestamps the query returns exactly the min(limit, live) newest unexpired transactions, newest first, the greater id first among equal timestamps, and all of them for a limit of 0 |
| `Transactions.LessIdIffPart` | network/storage/redis_storage.rs:59 | the order of ids is the lexicographic one |
| `Transactions.NewestIffLiveFirst` | network/storage/redis_storage.rs:23-75 | after every run whatever the timestamps, the query is right for all limits exactly when no expired id stands before a live one |
| `Transactions.LiveIdsComeFirst` | network/storage/redis_storage.rs:23-36 | that condition holds when transactions are saved at their timestamps |
| `Transactions.AnswersNewest` | network/storage/redis_storage.rs:55-75 | a query on such a store returns the newest live transactions |
| `Transactions.RunIsMirrored` | network/storage/redis_storage.rs:23-36 | after every run the index is sorted, without duplicates, and mirrors the records |
| `Transactions.StaleIdsCrowdOut` | network/storage/redis_storage.rs:55-75 | a run after which a query for one transaction returns none although one is live |
| `Transactions.RedisStorage.SaveTransaction` | network/storage/redis_storage.rs:23-36 | the new store after both commands |
| `Transactions.FetchIsLastSave` | network/storage/redis_storage.rs:23-52 | after every run a transaction is found exactly during the thirty days after its last save, as it was saved then |
| `Transactions.RedisStorage.GetRecentTransactions` | network/storage/redis_storage.rs:55-75 | the loop fetches the live records of the top of the index |
| `Games.CooperationMaximisesTotal` | ai_modules/equilibrium.rs:231-302 | for two or more players everybody cooperating is the only profile of maximal total utility |
| `Games.CooperationIsParetoOptimal` | ai_modules/equilibrium.rs:231-267 | no profile over the three actions Pareto-dominates it |
| `Games.NashCharacterised` | ai_modules/equilibrium.rs:231-267 | for two or more players a profile is a Nash equilibrium exactly when nobody idles and the numbers of cooperators and defectors are balanced |
| `Games.UniformProfiles` | ai_modules/equilibrium.rs:231-267 | everybody cooperating is an equilibrium exactly up to three players, everybody defecting for no number of players |
| `Games.NashExists` | ai_modules/equilibrium.rs:231-267 | every number of players from two on has an equilibrium |
| `Games.UtilityMeaning` | ai_modules/equilibrium.rs:231-267 | the score of every player by his action and the numbers of cooperators and others |
| `Games.StrategiesMean` | ai_modules/equilibrium.rs:175-228 | tit for tat defects exactly when the last action of some history is a defection, the profit maximizer exactly when three in ten of all recorded actions or more are, the random player exactly for draws of at least one half, and a custom strategy never |
| `Games.TitForTatIsUnanimous` | ai_modules/equilibrium.rs:270-290 | when everybody plays tit for tat, one last defection makes everybody defect, and without one everybody cooperates |
| `Games.NashAnswerIsNoEquilibrium` | ai_modules/equilibrium.rs:325-337 | the profile that `find_nash_equilibrium` recommends is no equilibrium |
| `Games.ParetoAnswerIsOptimal` | ai_modules/equilibrium.rs:340-352 | the profile that `find_pareto_optimal` recommends is undominated and the unique maximum of the total |
| `Games.PredictAction` | ai_modules/equilibrium.rs:175-228 | the loops over the histories choose the action that the strategy defines |
| `Games.RunGame` | ai_modules/equilibrium.rs:270-322 | refused without players; otherwise the profile, the utilities, their total, success and profit |
| `Games.FindNashEquilibrium` | ai_modules/equilibrium.rs:325-337 | always-defect for every player in order |
| `Games.FindParetoOptimal` | ai_modules/equilibrium.rs:340-352 | always-cooperate for every player in order |
| `WebSockets.RunKeeps` | network/src/websocket.rs:72-196 | every interleaving keeps the lock, the bounds, the losses and the account of all messages consistent |
| `WebSockets.LoopFollowsHistory` | network/src/websocket.rs:72-196 | after every run the client is connected exactly when a successful attempt was followed by no close and no retry; the phase, the number of sessions and the counter follow the history too |
| `WebSockets.DeliversFromConnect` | network/src/websocket.rs:72-122 | from a successful connection on, the new send task finds the flag set and delivers the queue in order |
| `WebSockets.SendRound` | network/src/websocket.rs:108-120 | one round of a send task delivers the first message or, on an empty queue, gives the lock back and keeps looking |
| `WebSockets.TaskEnds` | network/src/websocket.rs:107-172 | a failed send, or the cancellation of its task after its session, loses a message; a task that sees the flag cleared, or is cancelled between two messages, ends without a loss |
| `WebSockets.DeliveryIsFifo` | network/src/websocket.rs:107-122 | what went out over all sessions is a subsequence of what was accepted, in order |
| `WebSockets.MessagesAreConserved` | network/src/websocket.rs:107-122 | every accepted message is delivered, lost, being sent or queued, exactly once |
| `WebSockets.AtMostOneLossPerSession` | network/src/websocket.rs:107-172 | a session loses at most one message, and only when its send task is over |
| `WebSockets.QueueIsBounded` | network/src/websocket.rs:109-218 | after every run at most 1000 messages wait, a request joins them at the end or is turned away when there are as many, and nobody gets at the queue while a message is being sent |
| `WebSockets.NeverGivesUp` | network/src/websocket.rs:174-188 | after every session the counter is 1 and the client connects again after the shortest delay |
| `WebSockets.StopsIffConnectFails` | network/src/websocket.rs:72-193 | in every reachable state an event ends the session loop if and only if it is a failed connection attempt |
| `WebSockets.StoppedForGood` | network/src/websocket.rs:190-193 | the ended loop never runs again and starts no further session |
| `WebSockets.DisconnectStopsSender` | network/src/websocket.rs:107-122 | once the connected flag is cleared, each send task delivers at most the one message it is about to send, until a connection attempt succeeds |
| `WebSockets.LosslessStream` | network/src/websocket.rs:107-122 | in every schedule without a loss, what was sent, is being sent and is queued stays one stream in order and without gaps, which new messages join at its end |
| `WebSockets.StoppedIsFinal` | network/src/websocket.rs:190-193 | once the loop and all send tasks are over, nothing is delivered or lost any more |
| `WebSockets.Drains` | network/src/websocket.rs:107-122 | a send task that is left to itself on a standing connection delivers the queue in order |
| `WebSockets.LeftPositions` | network/src/websocket.rs:107-122 | one side of an order-preserving merge stands at increasing positions of the whole |
| `WebSockets.InterleavesConserves` | network/src/websocket.rs:107-122 | a merge holds every message of both sides once |
| `WebSockets.WebSocketClient.SubscribeToPendingTxs` | network/src/websocket.rs:201-222 | the message is queued, or dropped when the queue is full |
| `WebSockets.WebSocketClient.ConnectAttempt` | network/src/websocket.rs:73-80 | a success starts a session and resets the counter, a failure ends the loop |
| `WebSockets.WebSocketClient.CheckConnected` | network/src/websocket.rs:108 | the send task goes on while connected |
| `WebSockets.WebSocketClient.TakeNext` | network/src/websocket.rs:109-120 | the first message is taken under the lock, which is kept for the send |
| `WebSockets.WebSocketClient.SendReturned` | network/src/websocket.rs:112-115 | a failed send loses the message and ends the task |
| `WebSockets.WebSocketClient.CancelSender` | network/src/websocket.rs:159-172 | cancelling a send task loses the message it is sending |
| `WebSockets.WebSocketClient.CloseReceived` | network/src/websocket.rs:137-153 | a close clears the connected flag |
| `WebSockets.WebSocketClient.TaskFinished` | network/src/websocket.rs:159-172 | the first finished task ends the session |
| `WebSockets.WebSocketClient.PrepareRetry` | network/src/websocket.rs:174-188 | the counter, the delay and the decision to go on |

## Left out

- All RPC, HTTP, gRPC, QUIC, MQTT and file access, wallet cryptography and key derivation: foreign calls.
- The trading strategies of `snipebot/src/snipebot.rs`: branching over adapters that are not shown.
- Plain map and vector wrappers (executor, scheduler, task manager, validator, logger, event handler,
  configuration and state stores): one-line map updates.
- The JSON and Redis cache wrappers of `common/cache.rs` from line 423 on: delegation.
- The `lru` library itself: its map is taken as a recency list.
- `RedisQueueService::dequeue` and `RedisService::incr`: replies split on commas and a write with ttl 0.
- `blockchain/src/core/contract_manager.rs`, `ai_modules/monte_carlo.rs`, `snipebot/src/metric.rs`: a cache
  keyed by address alone, and floating-point statistics.
- Poisoned locks, failed `try_write` calls (which admit a request or skip a sweep) and clock errors in
  `snipebot/src/rate_limit.rs`; a clock that goes back, where the subtraction at line 65 underflows.
- Wrap-around of `u64` and `u32` counters, times and delays.
- Floating-point rounding of the backoff factors, of the payoffs and of the scores of the transaction
  index; the running success rate of `update_stats`.
- Elapsed real time (`total_time`), creation timestamps and logging.
- Endpoints.EndpointManager.UpdateStats: without the success rate and the timestamps.
- Retries.RetryPolicy.Retry: the elapsed time is not modelled.
- Fallbacks.RetryWithFallbackProviders: lower-casing covers ASCII letters only.
- Locks.LockService.CreateLock: connection failures are not modelled; no other writes reach the lock keys.
- Transactions.RedisStorage.SaveTransaction: both commands succeed and form one step; a crash between them
  is not modelled.
- Transactions.RedisStorage.GetRecentTransactions: reads the records at one time; a limit of 0 wraps around,
  as it does without overflow checks, and does not panic.
- Games.RunGame: the payoff matrix, which no score reads, and adding and removing players are left out;
  players stand in the iteration order of their map.
- WebSockets.RunKeeps: one call of `connect`; incoming messages, heartbeats and the contents of requests
  are left out, and a message whose send fails or is cancelled counts as lost even if the peer received it.
