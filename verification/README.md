# AegisPulse: verified model of the gateway's stateful core

AegisPulse is an API gateway. Every request passes through a set of small stateful machines: a
dual-threshold rate limiter (in three implementations, with failover between two of them), a
circuit breaker, a fallback cache, a signed-header check, a webhook engine with a dead-letter
queue, and a key store with a kill-switch. This project models those machines and proves what
they keep over whole runs. `dafny verify dfyconfig.toml` checks it.

How the parts fit together:

- **Components** are classes in the form of the source (maps and counters updated in place, loops
  with invariants). Each method is proved equal to one step of a pure step function.
- **Runs** are `Trace`s of steps (`Traces.dfy`). The main theorems are about every run, every key,
  every interval and every interleaving.
- **Histories.** The limiters and the cache are compared with their full, never pruned history, the
  breaker with the history of recorded outcomes, the Redis script with the in-memory limiter, and
  the concurrent bucket with the sequential one.

| file | models |
|---|---|
| `RateLimit.dfy` | limits, the dual-threshold decision, runs, admission histories |
| `SlidingWindow.dfy` | the in-memory log and its binary search |
| `LuaScript.dfy` | the Redis script on a sorted set with key expiry |
| `Failover.dfy`, `FailoverRuns.dfy`, `FailoverExtremes.dfy` | the Redis limiter with its in-memory fallback: one check, any number of concurrent checks, and the most they can admit |
| `CreditTank.dfy`, `TokenBucket.dfy` | the token bucket, in real arithmetic |
| `BucketLocks.dfy` | the token bucket under any number of threads and its two locks |
| `CircuitBreaker.dfy`, `SmartCache.dfy` | breaker and fallback cache |
| `Gateway.dfy`, `GatewayProxy.dfy` | the request pipeline as a step machine, and `serveInternal` over the component objects |
| `GatewayRuns.dfy`, `GatewayFallbacks.dfy`, `GatewayAnswers.dfy`, `GatewayProbe.dfy` | its runs: books, limiter and breaker inside it, fallbacks, what each client is answered, the probe slot |
| `GatewayFailover.dfy` | the pipeline over the Redis limiter with its fallback |
| `Text.dfy`, `Signature.dfy` | 64-bit arithmetic, decimal and hex text, the signature header |
| `Delivery.dfy`, `DeliveryRuns.dfy`, `DeadLetter.dfy`, `DeliveryToQueue.dfy` | webhook delivery, the dead-letter queue, and both together |
| `KillSwitch.dfy` | key lookup and freezing across instances |

Modelling choices:

- Clocks are arguments or state that never runs backwards: whole seconds for the log and the
  script, reals for the bucket, nanoseconds for the breaker, the cache and the gateway. Limits are
  fixed per key during a run.
- The network, the upstream, Redis errors and context cancellation are inputs of each step, so every
  theorem covers every pattern of failures. A map is walked in an arbitrary order.
- Redis may drop an expired key at any time after its deadline, or not at all.
- A `requires` of `Monotone`, `Before`, `InTime` or `InOrder` says that the clock did not run
  backwards. The in-memory limiter reads it under its lock, so there this is all. A call to Redis reads
  the clock and the freeze flag, travels, and runs later by Redis's own clock, so calls may run in
  another order than they were stamped in; `BehindBy` and `Prompt` bound by how much. `Serial` says
  that they run one at a time with unique ids, `Injective` that request ids are unique, `Sane` that
  limits are not negative.
- A flight upstream can end in a reply, in a network error, or without any: the reverse proxy aborts
  the handler when a body cannot be copied to its end, and nothing is recorded then.

Where the code does not do what one would expect, the model follows the code and the theorem gives
the exact condition:

- No window holds more than `max(soft, hard, 0)`, and for all limits some window holds exactly that
  (`SlidingWindow.WindowSafety`, `CeilingIsReached`): the code tests `soft` first. So `hard` is the
  bound if and only if it is not negative and not below `soft` (`SlidingWindow.HardLimitExactly`).
- `RecordSuccess` and the cache's `Set` are two steps, so of two replies to one method and URI the
  older can be stored last and served (`GatewayFallbacks.OlderReplyIsServed`). The cache holds the
  reply recorded last, whenever that one is not on its way to it, if and only if no store overtakes a
  later one (`UpToDateExactly`); one store at a time per method and URI is enough
  (`OneAtATimeIsEnough`).
- Over Redis the window is not safe even for twice the ceiling: a call that runs one second late, after
  one stamped later, is enough to exceed it, for all limits with a ceiling of at least two
  (`FailoverExtremes.CrossedCallsExceed`). If no call is more than `d` seconds behind, it is safe for
  every interval of length W - d (`FailoverRuns.FailoverSafety`), and a whole window holds at most three
  ceilings if 2d <= W.
- A key that expires while a call is on its way is forgotten although the call's window still covers it
  (`LuaScript.ExpiryOvertakesCall`).
- A month's units equal the BURST results if and only if no reply was thrown away: an error after the
  script ran, or the client sending a call again, bills without a result
  (`FailoverRuns.EveryBurstIsBilledOnce`).
- Run one at a time, script and in-memory limiter differ in one field, `burstRemaining`, exactly for
  NORMAL replies when `hard < soft` (`LuaScript.SameReplies`).
- The probe slot is lost exactly when the last request in flight ends without recording success or
  failure, such as with a fast 404 or when its client leaves; over whole runs the gateway is wedged if
  and only if that has happened, and then no request is ever forwarded again
  (`GatewayProbe.WedgedExactly`, `WedgedForEver`, `ProbeIsLost`).
- A signature whose age is exactly 2^63 seconds passes both checks (`Signature.RoundTrip`).
- The total backoff is exponential exactly while its last delay fits in 64 bits
  (`Delivery.TotalBackoff`).
- The dead-letter stream is never trimmed, so a reload also brings back items that were delivered
  (`DeadLetter.ReloadRestores`).
- The kill-switch lapses after 24 hours on an instance that holds a stale copy, and freezing by record
  id can miss such an instance altogether while reporting that it is done
  (`KillSwitch.FreezeByIdCanMiss`); `KillSwitch.ReachOfAnyFreeze` says exactly which instances still
  return a record after any freeze.

## Model

| member | source | states |
|---|---|---|
| `SlidingWindow.Search` | internal/ratelimit/limiter.go:203-205 | the binary search finds the first index whose timestamp is later than now - W in a sorted log |
| `SlidingWindow.SliceIsLive` | internal/ratelimit/limiter.go:206-208 | slicing the log at that index keeps exactly the entries later than now - W, in order |
| `SlidingWindow.InMemoryLimiter.constructor` | internal/ratelimit/limiter.go:179-184 | starts with no logs, no overages and no freeze |
| `SlidingWindow.InMemoryLimiter.SetGlobalBurstFreeze` | internal/ratelimit/limiter.go:186-188 | sets the flag and changes nothing else |
| `SlidingWindow.InMemoryLimiter.PruneExpired` | internal/ratelimit/limiter.go:201-208 | prunes a log and leaves it sorted, also with the new time appended |
| `SlidingWindow.InMemoryLimiter.Check` | internal/ratelimit/limiter.go:194-253 | keeps every log sorted; reply and new state are those of the specification step, in which a refusal writes nothing back |
| `SlidingWindow.InMemoryLimiter.Store` | internal/ratelimit/limiter.go:218-232 | replaces the log of one key only |
| `SlidingWindow.InMemoryLimiter.GetOverageUnits` | internal/ratelimit/limiter.go:255-259 | the key's overage counter, zero if it has none |
| `SlidingWindow.InMemoryLimiter.GetAllOverages` | internal/ratelimit/limiter.go:261-269 | the copying loop returns the whole table |
| `SlidingWindow.KeysAreIndependent` | internal/ratelimit/limiter.go:194-253 | on every run a key's log, counter and replies depend only on its own checks and the freeze toggles; the counter is the number of BURST replies |
| `SlidingWindow.LogRefinesHistory` | internal/ratelimit/limiter.go:198-252 | on every run the pruned log agrees with the full admission history on every count a present or later window can ask for |
| `SlidingWindow.ReplyCountsHistory` | internal/ratelimit/limiter.go:210-252 | each reply is exactly the dual-threshold function of the number of past admissions in (now - W, now] |
| `SlidingWindow.ReplyIsTrue` | internal/ratelimit/limiter.go:210-252 | over every run the numbers of a reply are true: `count` is what the window then holds, exactly `remaining` more checks would be NORMAL at this moment and exactly `burstRemaining` after those BURST, unless frozen |
| `SlidingWindow.LogIsBounded` | internal/ratelimit/limiter.go:216-243 | a log never holds more entries than the ceiling |
| `SlidingWindow.WindowSafety` | internal/ratelimit/limiter.go:194-253 | over every run no interval of length W, wherever it starts, holds more admissions of a key than the ceiling |
| `SlidingWindow.CeilingIsReached` | internal/ratelimit/limiter.go:216-243 | for all limits with a positive window, as many checks as the ceiling in one second are all admitted, so some window holds exactly the ceiling |
| `SlidingWindow.HardLimitExactly` | internal/ratelimit/limiter.go:210-243 | at most `hard` in every window of every run if and only if hard >= 0 and, for a positive window, soft <= hard |
| `SlidingWindow.FrozenWindowSafety` | internal/ratelimit/limiter.go:230-252 | a window that ends at an admission made under burst freeze holds at most `soft` admissions |
| `SlidingWindow.RetryAfterWindow` | internal/proxy/proxy.go:280-291 | a refused client with no later admission that comes back after retry_after = W is NORMAL, if and only if soft >= 1, with count 1 |
| `LuaScript.RedisServer.PruneAndCount` | internal/ratelimit/lua.go:17-22 | the set keeps the members with later scores, and the count is their number |
| `LuaScript.RedisServer.Add` | internal/ratelimit/lua.go:26-27 | adds one scored member and sets the key's deadline by Redis's clock |
| `LuaScript.RedisServer.Bill` | internal/ratelimit/lua.go:34-35 | increments the month's units and appends the new value to the stream |
| `LuaScript.RedisServer.RunScript` | internal/ratelimit/lua.go:17-41 | reply and new state are those of the specification step, in which a refusal still prunes |
| `LuaScript.ExpiryIsUnobservable` | internal/ratelimit/lua.go:18-27 | whatever Redis drops by EXPIRE, a call that runs within the second it was stamped in would have pruned |
| `LuaScript.ExpiryOvertakesCall` | internal/ratelimit/lua.go:18-27 | a call that is on its way while the key expires finds nothing, although its window covers the last admission |
| `LuaScript.KeysAreIndependent` | internal/ratelimit/lua.go:17-41 | a key's set and replies depend only on its own calls, and its units count the BURST replies of the month |
| `LuaScript.TwinVisit` | internal/ratelimit/lua.go:17-41 | from agreeing states script and in-memory step give the same status and end in agreeing states |
| `LuaScript.TwinRuns` | internal/ratelimit/lua.go:17-41 | on every serial run the sorted set and the log agree on every count a later window can ask for, whichever keys Redis expired |
| `LuaScript.SameReplies` | internal/ratelimit/lua.go:25-41 | on every serial run the two limiters reply alike in every field; `burstRemaining` differs exactly for NORMAL replies with hard < soft |
| `LuaScript.StreamCountsBursts` | internal/ratelimit/lua.go:31-37 | one stream event per overage: as many as the in-memory limiter counts on the same run |
| `LuaScript.StreamNumbersUnits` | internal/ratelimit/lua.go:34-35 | on every run of one month, calls crossing or not, the events of a key are numbered from one and there are as many as its units |
| `LuaScript.StreamIsStamped` | internal/ratelimit/lua.go:35 | each event carries the stamp of the BURST call it announces, in order |
| `LuaScript.DeadlineFollowsLastGrant` | internal/ratelimit/lua.go:27-33 | a key's deadline is a window after Redis ran its last admission |
| `LuaScript.SetRemembers` | internal/ratelimit/lua.go:17-33 | on every run, calls crossing and repeated, the set holds every admission later than W before the latest stamp run or clock of a drop |
| `LuaScript.CrossedWindowSafety` | internal/ratelimit/lua.go:17-33 | if no call is more than d seconds behind that, no interval of length W - d holds more admitted requests than the ceiling |
| `LuaScript.PromptIsEnough` | internal/ratelimit/limiter.go:80-104 | so it is if every call runs at most d seconds after its stamp |
| `Failover.RedisLimiter.constructor` | internal/ratelimit/limiter.go:58-63 | starts with an empty fallback whose freeze flag agrees with its own |
| `Failover.RedisLimiter.SetGlobalBurstFreeze` | internal/ratelimit/limiter.go:66-69 | sets the flag of wrapper and fallback together |
| `Failover.RedisLimiter.Send` | internal/storage/redis.go:23-33 | the client runs the script once for each time the call got through, and the last reply counts |
| `Failover.RedisLimiter.Interpret` | internal/ratelimit/limiter.go:114-133 | the result rebuilt from the six values |
| `Failover.RedisLimiter.Check` | internal/ratelimit/limiter.go:75-134 | answers from Redis, or on any error (script run any number of times, short reply, no client) from memory; states both new stores |
| `FailoverRuns.AloneIsACheck` | internal/ratelimit/limiter.go:75-134 | a check that nobody interrupts, taken step by step, is the wrapper's check |
| `FailoverRuns.StoresAreIndependent` | internal/ratelimit/limiter.go:104-112 | under any interleaving each store is the limiter run on its own part of the run |
| `FailoverRuns.RepliesAreKeyReplies` | internal/ratelimit/limiter.go:75-134 | a reply depends only on the key's limits and the part of the run of the store that gave it |
| `FailoverRuns.StoresInOrder` | internal/ratelimit/limiter.go:80-107 | Redis runs calls in the order of its own clock and memory answers in the order of the clock it reads under its lock |
| `FailoverRuns.FailoverSafety` | internal/ratelimit/limiter.go:75-134 | for every interleaving and pattern of errors, with no call more than d seconds behind, every interval of length W - d holds at most twice the ceiling, by the stamps of the store that answered |
| `FailoverRuns.PromptSafety` | internal/ratelimit/limiter.go:75-134 | so it is if every call runs within d seconds of its stamp |
| `FailoverRuns.WholeWindowSafety` | internal/ratelimit/limiter.go:75-134 | if 2d <= W a whole window holds at most three times the ceiling |
| `FailoverRuns.FrozenMeansNoBurst` | internal/ratelimit/limiter.go:66-102 | on every run frozen from the start neither store ever answers BURST |
| `FailoverRuns.OveragesAreConserved` | internal/ratelimit/lua.go:31-37 | on every run the month's Redis units are the BURST replies received, those on their way and those thrown away by a retry or a fallback; memory counts its own |
| `FailoverRuns.EveryBurstIsBilledOnce` | internal/ratelimit/limiter.go:104-112 | with nobody under way, BURST results equal Redis units plus memory overages if and only if no reply was thrown away |
| `FailoverExtremes.FailoverBoundIsReached` | internal/ratelimit/limiter.go:104-112 | for all limits with a positive window a run with nothing late on which a window holds exactly twice the ceiling |
| `FailoverExtremes.CrossedCallsExceed` | internal/ratelimit/limiter.go:80-104 | for all limits with a ceiling of at least two a run on which calls are at most one second late and a window holds more than twice the ceiling |
| `CreditTank.AdmissionsAreFunded` | internal/ratelimit/token_bucket.go:62-112 | tokens above a spared floor plus admissions since a moment never exceed capacity above the floor plus credit gained |
| `CreditTank.DrawBound` | internal/ratelimit/token_bucket.go:62-112 | in any interval at most the capacity above the floor plus the credit of the interval is admitted |
| `CreditTank.FreezeSparesReserve` | internal/ratelimit/token_bucket.go:80-97 | under freeze no admission leaves less than the burst reserve |
| `TokenBucket.TokenBucketLimiter.constructor` | internal/ratelimit/token_bucket.go:29-34 | starts with no buckets, no overages and no freeze |
| `TokenBucket.TokenBucketLimiter.SetGlobalBurstFreeze` | internal/ratelimit/token_bucket.go:36-38 | sets the flag and changes nothing else |
| `TokenBucket.TokenBucketLimiter.Check` | internal/ratelimit/token_bucket.go:44-127 | reply and new table are those of the specification step, which stamps a new bucket with the earlier of the two clock readings |
| `TokenBucket.TokenBucketLimiter.Settle` | internal/ratelimit/token_bucket.go:69-126 | the three zones: what is taken and what is reported |
| `TokenBucket.NewIsFull` | internal/ratelimit/token_bucket.go:47-67 | a new bucket is full, so when it was created cannot be observed |
| `TokenBucket.CreationIsInvisible` | internal/ratelimit/token_bucket.go:46-67 | with a rate that is not negative, when a bucket was created changes neither table nor reply |
| `TokenBucket.KeysAreIndependent` | internal/ratelimit/token_bucket.go:44-127 | a key's bucket and replies depend only on its own checks and the toggles; its counter is the number of BURST replies |
| `TokenBucket.SlotIsLawful` | internal/ratelimit/token_bucket.go:62-112 | on every run the level stays between zero and capacity, and capacity and rate never change |
| `TokenBucket.BucketMirrorsTank` | internal/ratelimit/token_bucket.go:62-67 | on every run the bucket is a tank filled by a clock that ticks in tokens |
| `TokenBucket.BucketBound` | internal/ratelimit/token_bucket.go:62-112 | over any interval at most hard + rate * length admissions of a key |
| `TokenBucket.WindowBound` | internal/ratelimit/token_bucket.go:48-112 | with rate soft / W, at most hard + soft admissions in any window |
| `TokenBucket.FrozenBound` | internal/ratelimit/token_bucket.go:80-112 | while burst is frozen at most min(soft, hard) + rate * length |
| `TokenBucket.FreezeKeepsReserve` | internal/ratelimit/token_bucket.go:80-112 | while burst is frozen the level never falls below the smaller of its level at the freeze and hard - soft |
| `TokenBucket.RefillComposes` | internal/ratelimit/token_bucket.go:62-67 | capped refill over two adjoining intervals is the refill over both |
| `TokenBucket.RefusedChecksAreInvisible` | internal/ratelimit/token_bucket.go:114-126 | inserting or deleting BLOCKED checks of any keys changes no later status or count |
| `TokenBucket.ReplyIsTrue` | internal/ratelimit/token_bucket.go:69-126 | over every run exactly `remaining` more checks would be NORMAL at this moment and exactly `burstRemaining` after those BURST, unless frozen |
| `TokenBucket.FirstReplies` | internal/ratelimit/token_bucket.go:69-126 | for all limits that are not negative, the replies to the checks of a new key at one moment, number by number: min(soft, hard) NORMAL, then BURST up to `hard`, then BLOCKED |
| `TokenBucket.FirstRepliesFrozen` | internal/ratelimit/token_bucket.go:80-126 | under freeze min(soft, hard) NORMAL and the rest BLOCKED |
| `TokenBucket.WindowBoundIsReached` | internal/ratelimit/token_bucket.go:48-112 | the bounds are reached: `hard` admissions at one moment, and min(soft, hard) more exactly a window later |
| `BucketLocks.LocksAlwaysOk` | internal/ratelimit/token_bucket.go:45-101 | in every reachable state each lock is held by exactly the threads inside its section |
| `BucketLocks.NoDeadlock` | internal/ratelimit/token_bucket.go:45-101 | in every reachable state with an unfinished thread some thread can step, although the table lock is taken under a bucket lock |
| `BucketLocks.DataAlwaysOk` | internal/ratelimit/token_bucket.go:45-60 | distinct keys have distinct buckets and every thread points to the bucket of its key |
| `BucketLocks.OneBucketForEver` | internal/ratelimit/token_bucket.go:46-56 | a key that has a bucket keeps that one in every continuation |
| `BucketLocks.DecisionIsSequential` | internal/ratelimit/token_bucket.go:59-126 | a decision made inside the bucket lock is the sequential limiter's, and so is the bucket it leaves |
| `BucketLocks.EveryReplyIsSequential` | internal/ratelimit/token_bucket.go:44-127 | linearisability: under every interleaving each reply is the sequential limiter's to the checks in decision order |
| `BucketLocks.ChecksAreRecorded` | internal/ratelimit/token_bucket.go:59-126 | that order is the run's own: every decision and freeze toggle once, as it took effect |
| `BucketLocks.ConcurrentBound` | internal/ratelimit/token_bucket.go:44-127 | the long-run bound holds under every interleaving |
| `BucketLocks.ConcurrentFrozenBound` | internal/ratelimit/token_bucket.go:44-127 | so does the bound under freeze |
| `BucketLocks.ConcurrentReserve` | internal/ratelimit/token_bucket.go:44-127 | under every interleaving, while decisions for a key are made under freeze its bucket stays above the smaller of its level then and hard - soft |
| `BucketLocks.OveragesAreNeverLost` | internal/ratelimit/token_bucket.go:97-101 | in every reachable state overages[k] plus the threads between decision and increment is the number of BURST decisions for k |
| `CircuitBreaker.CircuitBreaker.constructor` | internal/cache/cache.go:157-175 | closed, with the documented defaults for settings that are not positive |
| `CircuitBreaker.CircuitBreaker.SetEmergencyCutoff` | internal/cache/cache.go:177-179 | sets the cutoff and changes nothing else |
| `CircuitBreaker.CircuitBreaker.AllowRequest` | internal/cache/cache.go:185-216 | answer and new state are those of the specification step |
| `CircuitBreaker.CircuitBreaker.RecordSuccess` | internal/cache/cache.go:218-233 | the new state is that of the specification step |
| `CircuitBreaker.CircuitBreaker.RecordFailure` | internal/cache/cache.go:235-253 | the new state is that of the specification step |
| `CircuitBreaker.CircuitBreaker.GetState` | internal/cache/cache.go:255-262 | reports Open under cutoff, the phase otherwise |
| `CircuitBreaker.Invariant` | internal/cache/cache.go:185-253 | in every reachable state: probing only when half-open; half-open has no failures and at most one success; closed is below the threshold; open has a failure |
| `CircuitBreaker.EpisodeInvariant` | internal/cache/cache.go:198-247 | during a half-open episode the admissions are at most the successes plus the probe under way |
| `CircuitBreaker.EpisodeAdmitsTwo` | internal/cache/cache.go:198-247 | under every interleaving of late completions a half-open episode admits at most two requests |
| `CircuitBreaker.EpisodeEnds` | internal/cache/cache.go:218-247 | an episode closes exactly on its second recorded success with no failure between, reopens exactly on its first failure, and continues otherwise |
| `CircuitBreaker.EpisodeBegins` | internal/cache/cache.go:198-207 | an episode begins only from Open, with the admission of its first probe |
| `CircuitBreaker.RecoveryNeedsEpisode` | internal/cache/cache.go:195-253 | in every run a breaker that was not closed and is closed later has been through an episode with two recorded successes, no failure and at most two admissions |
| `CircuitBreaker.OutageInvariant` | internal/cache/cache.go:198-253 | once down and until a success is recorded, any two admissions are at least a cooldown apart |
| `CircuitBreaker.OutageLoad` | internal/cache/cache.go:198-253 | n admissions of such an outage satisfy (n - 1) * cooldown <= last - first |
| `CircuitBreaker.ClosedCountsTrailing` | internal/cache/cache.go:218-253 | while closed the failure counter is the number of failures recorded since the last success |
| `CircuitBreaker.TripsExactlyWhen` | internal/cache/cache.go:235-253 | a closed breaker opens exactly when that number reaches the threshold or one failure is as slow as the limit |
| `CircuitBreaker.OpenSinceTripped` | internal/cache/cache.go:235-253 | in every run an open breaker dates from the last failure that was in an episode, reached the threshold or was slow, late failures included |
| `CircuitBreaker.AdmittedExactly` | internal/cache/cache.go:185-216 | over every run, with the cutoff off: admitted always while closed, while open if and only if the cooldown since that failure is over, while half-open if and only if a success was recorded since the last admission; and what phase is reported |
| `CircuitBreaker.TwoSuccessesRecover` | internal/cache/cache.go:198-229 | from open after the cooldown, ask, success, ask, success ends closed with both asks admitted |
| `CircuitBreaker.CutoffIsOrthogonal` | internal/cache/cache.go:177-188 | requests made under cutoff are refused and leave the breaker as if they and the toggles had never happened |
| `CircuitBreaker.LostProbeIsForEver` | internal/cache/cache.go:208-212 | half-open with the slot taken and nothing to be recorded: no later run admits anything |
| `SmartCache.SmartCache.constructor` | internal/cache/cache.go:49-53 | starts empty |
| `SmartCache.SmartCache.EvictExpired` | internal/cache/cache.go:84-94 | the loop removes exactly the entries expired for more than two hours |
| `SmartCache.SmartCache.CopyHeader` | internal/cache/cache.go:100-103 | the copying loop yields the whole header |
| `SmartCache.SmartCache.Set` | internal/cache/cache.go:96-116 | stores status, header, body and expiry under one key, as copies |
| `SmartCache.SmartCache.Get` | internal/cache/cache.go:118-128 | the entry, expired or not |
| `SmartCache.SmartCache.GetLive` | internal/cache/cache.go:130-136 | the entry if and only if it has not expired |
| `SmartCache.CacheHoldsLatest` | internal/cache/cache.go:84-128 | over every run an entry is the latest stored under its key, and is gone only after its TTL plus two hours |
| `SmartCache.CachedExactly` | internal/cache/cache.go:84-128 | over every run an entry is there if and only if something was stored and no eviction has come more than its TTL plus two hours after it since |
| `Gateway.EnterForwards` | internal/proxy/proxy.go:263-368 | below the soft limit and with the breaker willing, a new request is counted as NORMAL and forwarded, and nothing else changes |
| `GatewayFallbacks.RepliesAlwaysOk` | internal/proxy/proxy.go:391-409 | in every run nothing but fast 200-399 replies to the same method and URI enters the cache: no 4xx, 5xx, slow or broken-off one |
| `GatewayFallbacks.StoredForTtl` | internal/proxy/proxy.go:403-408 | every reply is stored for the configured seconds, or five minutes if that is not positive |
| `GatewayFallbacks.EvictionHappens` | internal/cache/cache.go:84-94 | the clean-up removes exactly the entries that expired more than two hours ago |
| `GatewayFallbacks.FallbacksAreGoodReplies` | internal/proxy/proxy.go:344-409 | in every run each STALE-FALLBACK carries status, header and body of such a reply |
| `GatewayFallbacks.FallbackIsLatest` | internal/proxy/proxy.go:350-399 | a request that reads the cache gets the most recently stored reply for its method and URI, and gets one whenever one was stored whose TTL plus two hours have not passed |
| `GatewayFallbacks.FallbackWasLatest` | internal/proxy/proxy.go:350-399 | for every STALE-FALLBACK served there is a moment of the run at which its request read the cache and this was the latest stored reply |
| `GatewayFallbacks.UpToDateStep` | internal/proxy/proxy.go:400-409 | "the last recorded good reply, unless on its way, is the last stored" is kept by a step if and only if the step does not store a reply after a later one |
| `GatewayFallbacks.UpToDateExactly` | internal/proxy/proxy.go:400-409 | over every run it holds throughout if and only if no step does that |
| `GatewayFallbacks.FallbackIsLatestRecorded` | internal/proxy/proxy.go:344-409 | on such a run every STALE-FALLBACK served was, when read, the most recently recorded fast 200-399 reply if and only if that reply was not just then between RecordSuccess and Set |
| `GatewayFallbacks.OneAtATimeIsEnough` | internal/proxy/proxy.go:400-409 | such are all runs in which no two requests of one method and URI are between RecordSuccess and Set at once |
| `GatewayFallbacks.OlderReplyIsServed` | internal/proxy/proxy.go:400-409 | a run from the start, under any settings that admit three requests, in which the older of two recorded replies is served |
| `GatewayAnswers.AnswersAreHonest` | internal/proxy/proxy.go:280-412 | for every run and answered request, from its verdict, its route, what the upstream gave it and what the cache held when it read it: exactly when it is told too many requests, unavailable, bad gateway or nothing, gets which fallback, or gets which status and page of its own reply |
| `GatewayAnswers.RoutedByBreaker` | internal/proxy/proxy.go:345-366 | every request past the limiter was routed as the breaker said when asked, and sent at that moment |
| `GatewayProbe.ProbeStep` | internal/proxy/proxy.go:345-409 | "half-open and probing implies a request in flight" is kept by a step if and only if the step is not the last flight ending without a recorded outcome |
| `GatewayProbe.WedgedForEver` | internal/cache/cache.go:208-212 | once that is lost no continuation ever forwards a request, whatever clock and cutoff do |
| `GatewayProbe.WedgedExactly` | internal/proxy/proxy.go:345-409 | after every run the gateway is wedged if and only if one of its steps lost the probe |
| `GatewayProbe.ProbeStaysCovered` | internal/proxy/proxy.go:345-409 | in particular never, if every flight records an outcome |
| `GatewayProbe.ProbeIsLost` | internal/proxy/proxy.go:365-409 | a run from the start, with latencies measured by its clock, under any settings that admit a request of two keys, in which any flight without a recorded outcome wedges the gateway |
| `GatewayProbe.NeutralFlights` | internal/proxy/proxy.go:373-409 | such flights are aborted ones and fast 404s |
| `GatewayRuns.BooksBalance` | internal/proxy/proxy.go:263-413 | in every state of every run NORMAL + BURST is forwarded plus refused by the breaker plus on the way to it; the fallback counter is the STALE-FALLBACKs served; all keys' overages sum to the BURST verdicts |
| `GatewayRuns.QuiescentBooks` | internal/proxy/proxy.go:263-413 | with nobody under way: NORMAL + BURST = forwarded + refused, the burst counter is the sum of all overages, and every request is counted once |
| `GatewayRuns.LimiterSeesItsRun` | internal/proxy/proxy.go:263-274 | the gateway's limiter is the limiter run on its checks, with a clock in order |
| `GatewayRuns.ArrivalsAreAdmissions` | internal/proxy/proxy.go:263-291 | the requests let through for a key in an interval are the limiter's admissions in it |
| `GatewayRuns.GatewayWindowSafety` | internal/proxy/proxy.go:263-291 | in every run of the gateway at most the ceiling of one key's requests that arrive within a window get past the limiter |
| `GatewayRuns.BreakerSeesItsRun` | internal/proxy/proxy.go:344-409 | the gateway's breaker, from any state on, is the breaker run on its questions and recorded outcomes |
| `GatewayRuns.BreakerAlwaysOk` | internal/cache/cache.go:185-253 | in every run of the gateway the breaker keeps its invariant |
| `GatewayRuns.GatewayOutageLoad` | internal/proxy/proxy.go:344-409 | once the breaker is down and until a fast 200-399 reply, the requests the gateway forwards for all clients together are at least a cooldown apart |
| `GatewayFailover.ArrivalsAreGranted` | internal/proxy/proxy.go:263-291 | over the Redis limiter too, the requests let through are the limiter's grants, by the stamps of the store that answered |
| `GatewayFailover.FailoverWindowSafety` | cmd/gateway/main.go:104-106 | as deployed, whatever Redis does and however calls cross: with no call more than d seconds behind, at most twice the ceiling of a key's requests in every interval of length W - d |
| `GatewayFailover.PromptWindowSafety` | cmd/gateway/main.go:104-106 | so it is if every call runs within d seconds of its stamp |
| `GatewayFailover.WholeWindowSafety` | cmd/gateway/main.go:104-106 | at most three times the ceiling in a whole window if 2d <= W |
| `GatewayProxy.GatewayProxy.constructor` | internal/proxy/proxy.go:45-73 | fresh components that show the machine's initial state |
| `GatewayProxy.GatewayProxy.Admit` | internal/proxy/proxy.go:263-291 | the limiter part leaves the objects in the machine's state after its two steps |
| `GatewayProxy.GatewayProxy.ServeFallback` | internal/proxy/proxy.go:350-363 | answers from the cache and counts it, or with the given alternative |
| `GatewayProxy.GatewayProxy.Settle` | internal/proxy/proxy.go:373-412 | breaker, cache, counters and answer are the machine's for every kind of reply |
| `GatewayProxy.GatewayProxy.Forward` | internal/proxy/proxy.go:344-412 | the same from the breaker on |
| `GatewayProxy.GatewayProxy.ServeInternal` | internal/proxy/proxy.go:263-413 | served alone, a request takes the machine's steps, leaves the objects in its state and gets its answer |
| `Text.ParsePrinted` | internal/crypto/hmac.go:27-58 | parsing a printed 64-bit integer gives it back |
| `Text.ParsesExactly` | internal/crypto/hmac.go:55-58 | what parses: an optional sign and at least one digit, with the value in 64 bits |
| `Text.DigitsAreDecimal` | internal/crypto/hmac.go:55-58 | a string of digits is the decimal of its value but for leading zeros |
| `Text.UpperHexLowers` | internal/crypto/hmac.go:82 | a signature in capitals lowers to the hex |
| `Text.SplitAtComma` | internal/crypto/hmac.go:40 | splitting at commas distributes over any comma |
| `Text.TrimsExactly` | internal/crypto/hmac.go:43 | trimming a part removes the spaces at both ends, all of them and nothing else |
| `Text.HexInjective` | internal/crypto/hmac.go:79-82 | different digests have different hex |
| `Signature.ParseHeader` | internal/crypto/hmac.go:40-49 | the loop finds the last t= and the last v1= part |
| `Signature.VerifySignature` | internal/crypto/hmac.go:35-87 | the verdict is that of the specification, error by error |
| `Signature.VerdictExactly` | internal/crypto/hmac.go:36-86 | for every header, body and clock: accepted if and only if both fields are there and not empty, the timestamp parses and is in time, and the signature, capitals or not, is the hex of the MAC of that timestamp and the body; and which error each other header gets |
| `Signature.LastFieldExactly` | internal/crypto/hmac.go:42-49 | a field is what follows its name in the last part that begins with it, trimmed, and absent if there is none |
| `Signature.LaterFieldWins` | internal/crypto/hmac.go:40-49 | cut a header at any comma: a field is read from the right half if it is there, else from the left |
| `Signature.PrefixIsIgnored` | internal/crypto/hmac.go:40-49 | whatever precedes a header with both fields does not change the verdict |
| `Signature.Generated` | internal/crypto/hmac.go:25-32 | a generated header reads back as the printed timestamp and the hex digest |
| `Signature.RoundTrip` | internal/crypto/hmac.go:60-87 | for all 64-bit times a generated header is accepted if and only if its wrapped age is in [-10, tolerance] or is -2^63 |
| `Signature.RoundTripOnRealClocks` | internal/crypto/hmac.go:60-87 | for 0 < now < 2^62: if and only if -10 <= now - ts <= tolerance or now - ts = 2^63 |
| `Signature.MessageInjective` | internal/crypto/hmac.go:27-29 | the signed message determines timestamp and body |
| `Signature.MessageExactly` | internal/crypto/hmac.go:27-29 | what is signed is the decimal timestamp, a dot and the body |
| `Signature.AcceptedTamperingIsACollision` | internal/crypto/hmac.go:74-84 | a header accepted for another body exhibits two different messages with the same MAC |
| `Delivery.TotalBackoff` | internal/webhook/engine.go:149-158 | the waits of n attempts sum to base * (2^(n-1) - 1) if and only if the last delay fits in 64 bits, and to less otherwise |
| `Delivery.DrivenOk` | internal/webhook/engine.go:148-188 | how a delivery got where it is, for every end: which attempts failed, how many, what was waited, the last error |
| `Delivery.EveryDeliveryEnds` | internal/webhook/engine.go:135-203 | every delivery ends; dead-lettered only after exactly maxRetries failures, with the whole backoff and the last attempt's error |
| `Delivery.EndsExactly` | internal/webhook/engine.go:148-198 | how a delivery ends from what the world does alone: dead-lettered with the last error if no round stops it, else cancelled or delivered by the first that does |
| `Delivery.RetriesExactly` | internal/webhook/engine.go:136-144 | the configured attempts and base delay where positive, else three and one second |
| `Delivery.EndedStays` | internal/webhook/engine.go:182-185 | an ended delivery takes no further attempt |
| `Delivery.Engine.constructor` | internal/webhook/engine.go:33-45 | starts with an empty channel |
| `Delivery.Engine.Publish` | internal/webhook/engine.go:79-85 | appends unless the channel is full, else drops, and never exceeds the capacity |
| `Delivery.Engine.ProcessEvent` | internal/webhook/engine.go:106-133 | starts exactly one delivery per enabled sink with an endpoint whose adapter succeeds |
| `Delivery.Engine.RetryPolicy` | internal/webhook/engine.go:136-144 | attempts and base delay as configured, with the defaults 3 and one second; the product with a millisecond is taken in 64 bits |
| `Delivery.Engine.Round` | internal/webhook/engine.go:149-187 | one round of the loop does what the specification step does: wait, attempt, last error, end |
| `Delivery.Engine.Attempt` | internal/webhook/engine.go:148-188 | the loop ends as the specification does, having waited as long, with a non-nil last error when dead-lettered |
| `Delivery.Engine.DeliverWithRetry` | internal/webhook/engine.go:135-208 | enqueues the item if and only if the delivery ends dead-lettered |
| `DeliveryRuns.EventsAreConserved` | internal/webhook/engine.go:79-104 | in every run published = dropped + queued + taken, and the queue never exceeds 5000 |
| `DeliveryRuns.QueueExactly` | internal/webhook/engine.go:79-102 | first in, first out, with an event dropped exactly when 5000 are queued |
| `DeliveryRuns.OneTaskPerEventAndSink` | internal/webhook/engine.go:106-133 | in every run there is exactly one task per event taken and eligible sink, in a lawful state |
| `DeliveryRuns.TasksExactly` | internal/webhook/engine.go:110-131 | a task for every event taken and every sink that is enabled, has an endpoint and can render it, and for no other |
| `DeliveryRuns.DeadLettersMatchTasks` | internal/webhook/engine.go:190-203 | a task has a dead letter if and only if it ended so, carrying its event, endpoint, payload, attempt count and last error |
| `DeliveryRuns.EndsOnce` | internal/webhook/engine.go:182-203 | a task that has ended never changes again |
| `DeliveryRuns.TasksAreConserved` | internal/webhook/engine.go:106-208 | tasks = running + delivered + cancelled + dead-lettered |
| `DeliveryToQueue.DeadLetterUntilDelivered` | cmd/gateway/main.go:108-112 | end to end over every run with unique ids, restarts included: a delivery that ended dead-lettered is pending as its own letter, or a retry of it got a 2xx, or the process restarted since and the letter was not in the stream or the stream could not be read; without a restart exactly one of the first two |
| `DeliveryToQueue.PendingComesFromADelivery` | internal/webhook/engine.go:190-203 | whatever is pending is the letter of a delivery that ended dead-lettered |
| `DeadLetter.DLQManager.constructor` | internal/webhook/dlq.go:38-50 | starts empty |
| `DeadLetter.DLQManager.LoadFromRedis` | internal/webhook/dlq.go:52-74 | the loop loads every decodable message in stream order |
| `DeadLetter.DLQManager.Enqueue` | internal/webhook/dlq.go:76-101 | keeps the item in memory whether or not it could be persisted |
| `DeadLetter.DLQManager.GetPendingCount` | internal/webhook/dlq.go:103-107 | the number of items in memory |
| `DeadLetter.DLQManager.ReSignAndRetry` | internal/webhook/dlq.go:121-187 | which result it gives in every case; what is sent is the event with the new timestamp rendered anew and signed with that timestamp and the item's or the default secret |
| `DeadLetter.RetryExactly` | internal/webhook/dlq.go:130-186 | what a retry leaves: gone exactly on a 2xx; else new timestamp and payload, same id, sink, URL and secret, and retry count and error changed exactly if it was sent and refused |
| `DeadLetter.SecretExactly` | internal/webhook/dlq.go:151-154 | the item's secret, or the default if it has none |
| `DeadLetter.LoadRestores` | internal/webhook/dlq.go:65-72 | a reload restores every id in the stream as last persisted and leaves other items alone |
| `DeadLetter.RetryPassesReplayCheck` | internal/webhook/dlq.go:130-164 | a retry passes the receiver's replay check exactly while its new signature is fresh, however old the item |
| `DeadLetter.LeavesOnlyDelivered` | internal/webhook/dlq.go:166-186 | short of a restart an item leaves the queue if and only if a retry of it got a 2xx |
| `DeadLetter.NothingIsLost` | internal/webhook/dlq.go:76-187 | over every run without a restart an enqueued id is pending or has been delivered since |
| `DeadLetter.PendingExactly` | internal/webhook/dlq.go:76-187 | without reloads: pending if and only if enqueued and not delivered since |
| `DeadLetter.StreamKeepsAll` | internal/webhook/dlq.go:86-97 | the stream holds exactly the items that were persisted |
| `DeadLetter.ReloadRestores` | internal/webhook/dlq.go:52-74 | after a reload exactly the ids pending before and the ids ever persisted are pending, delivered ones included |
| `DeadLetter.RestartRestores` | internal/webhook/dlq.go:52-74 | after a restart and a reload exactly the ids ever persisted are pending |
| `KillSwitch.RedisClient.FreezeKey` | internal/storage/redis.go:48-54 | sets a flag that expires after 24 hours, unless the write fails |
| `KillSwitch.RedisClient.IsKeyFrozen` | internal/storage/redis.go:56-63 | true if and only if the flag can be read and has not expired |
| `KillSwitch.PostgresRepo.GetAPIKey` | internal/storage/postgres.go:205-250 | flags first, then memory, then the database; caches what it read there |
| `KillSwitch.PostgresRepo.FreezeInMemory` | internal/storage/postgres.go:264-277 | the loop freezes the first match in an arbitrary order and only that, and sets its flags; none if nothing matches |
| `KillSwitch.PostgresRepo.FreezeAPIKey` | internal/storage/postgres.go:252-294 | flags, memory and rows after a freeze, and found if and only if memory or database had a match |
| `KillSwitch.ReplyExactly` | internal/storage/postgres.go:205-250 | which reply a lookup gives in every case, from flags, memory and database |
| `KillSwitch.LookupCachesExactly` | internal/storage/postgres.go:228-237 | a lookup adds to memory exactly the record it got from the database |
| `KillSwitch.ReportIsTrue` | internal/storage/postgres.go:264-293 | a freeze reports not found if and only if no record goes by that name in memory or in the database it asked, and then changes none; otherwise a matching record is frozen and inactive |
| `KillSwitch.FlagHolds` | internal/storage/redis.go:48-54 | over every run a flag never expires early |
| `KillSwitch.FrozenFor24Hours` | internal/storage/postgres.go:205-294 | after a freeze that wrote a flag of the key, no instance that can read it returns a record for the key within 24 hours, whatever it has cached |
| `KillSwitch.FreezeByIdCanMiss` | internal/storage/postgres.go:256-288 | freezing a record by its id through an instance without a copy reports done, and an instance with a usable copy goes on returning it in every continuation without another freeze |
| `KillSwitch.OwnRecordNeverReturns` | internal/storage/postgres.go:264-277 | the instance that froze a record in its own map never returns it again, with Redis and database up or down |
| `KillSwitch.CopiesStay` | internal/storage/postgres.go:213-247 | without another freeze flags, rows and cached records stay, and what is newly cached is a copy of its row |
| `KillSwitch.ReachOfAnyFreeze` | internal/storage/postgres.go:205-294 | after any freeze, whatever name it was given, whichever writes failed and whatever flags were set before: an instance returns a record for a raw key if and only if it reads neither flag as up and has a usable copy left, or had none and the database still offers the record |
| `KillSwitch.ReachOfAFreeze` | internal/storage/postgres.go:205-294 | after an accepted freeze an instance returns the record if and only if the 24 hours are over or it can read no flag, and it held a usable copy, and its own loop did not stop there |
| `KillSwitch.BoundIsTight` | internal/storage/postgres.go:213-226 | one nanosecond before 24 hours another instance's stale copy is refused, at 24 hours it is returned |

## Left out

- Authentication order, admin routes, CORS, jitter sleeps, health pages, TUI, chaos tool, demo and
  mock servers, configuration loading and hot reload: routing, formatting or user interface.
- Float rounding: `float64` is `real`, so a bound met exactly by the model may be off by rounding.
- 64-bit overflow of `now - window` and of counters: the limiter's times and counts are unbounded.
- Clocks that run backwards, and clocks that differ between instances and Redis: `at` and `now` of a call
  are on one scale.
- Kill-switch calls are atomic: a lookup that read its row before a freeze and stores it after would put a
  usable copy over the frozen one.
- A restart in `DeliveryToQueue` is the queue's; deliveries under way may go on, which only adds runs.
- TokenBucket.TokenBucketLimiter.Check: takes a window other than zero for granted; zero gives the source
  a refill rate that is infinite or not a number, which reals do not have.
- GatewayProxy.GatewayProxy.ServeInternal: serves one request at a time; interleavings are those of the
  step machine.
- Token-bucket limits that change while a bucket lives; the source keeps the first capacity and rate.
- Fairness and writer preference of the locks: `BucketLocks` proves that some thread can step, not
  that each one eventually does.
- Go's memory model: each step between two lock or atomic operations is one atomic step; the
  breaker's `AllowRequest` reads the cutoff and takes its lock in one step.
- Streamed replies: the recorder can be flushed, so the reverse proxy may send a reply without a
  length to the client before the fallback is chosen; the model chooses first.
- The extra `X-Cache-Status` header of a fallback.
- Lua's `tostring` of numbers too large to print exactly, and scripts that fail half-way.
- AES-GCM, SHA-256 and HMAC: any function of the right type; the collision lemma says what
  HMAC is relied on for.
- `strings.ToLower` beyond ASCII (no other letter lowers to a hex digit) and headers that are not
  valid UTF-8.
- The signature a first delivery carries; that of a retry from the dead-letter queue is modelled.
- JSON encoding of dead letters: a message is an item or does not decode.
- Two retries of the same dead letter at once, which would share its record.
- The Redis stream poller, Discord and Slack layouts, audit log, billing records and percentiles.
- DeliveryRuns.DeadLettersMatchTasks: dead letters are filed by task; `DeliveryToQueue` files them by
  their random id and takes these ids to be unique.
- GatewayRuns.BooksBalance: counts per verdict, not per tier.
