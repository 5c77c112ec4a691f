/** How much the Redis limiter with its fallback can be made to admit, for all limits: twice the
    ceiling when nothing is late, and more when one second is lost on the way to Redis. Each lemma
    here builds a run and says where it leads. */
module FailoverExtremes {
  import opened Options
  import opened Traces
  import opened RateLimit
  import opened FailoverRuns
  import SW = SlidingWindow
  import Lua = LuaScript

  // ---------- Single steps ----------

  lemma VisitGrants(z: Lua.ZSet, c: Lua.Call, l: Limits)
    requires !c.dropped && !c.frozen && |Lua.Prune(z.scores, c.now - l.window)| < Ceiling(l)
    ensures Lua.Parse(Lua.Visit(z, c, l).1).Admitted()
    ensures Lua.Visit(z, c, l).0.scores == Lua.Prune(z.scores, c.now - l.window)[c.reqId := c.now]
  {}

  lemma ScriptVisits(st: Lua.Redis, c: Lua.Call, l: Limits)
    ensures Lua.ScriptStep(st, c, l).0.Set(c.key) == Lua.Visit(st.Set(c.key), c, l).0
    ensures Lua.ScriptStep(st, c, l).1 == Lua.Visit(st.Set(c.key), c, l).1
  {}

  /** The members a check of `k` under `stamp` would find. */
  function FoundBy(cfg: Config, s: State, k: string, stamp: int): map<string, int> {
    Lua.Prune(s.redis.Set(k).scores, stamp - cfg(k).window)
  }

  lemma PrepareOne(cfg: Config, name: Names, past: Trace<Action>, id: Id, k: string, now: int, t: int)
    returns (run: Trace<Action>)
    requires var s := After(cfg, name, past); id !in s.asks && id !in s.results
    requires InOrder(past, t) && 0 <= t <= now
    ensures var s := After(cfg, name, past);
            After(cfg, name, run) == s.(asks := s.asks[id := Ask(k, now, 1, s.mem.frozen, None)])
    ensures ScriptRuns(cfg, name, run) == ScriptRuns(cfg, name, past) && InOrder(run, now)
  {
    run := Snoc(past, Prepare(id, k, 1, now));
    InOrderLater(past, t, now);
  }

  /** Redis grants a call that finds fewer members than the ceiling. */
  lemma ExecuteOne(cfg: Config, name: Names, past: Trace<Action>, id: Id, at: int)
    returns (run: Trace<Action>)
    requires var s := After(cfg, name, past);
             && id in s.asks && !s.asks[id].frozen
             && |FoundBy(cfg, s, s.asks[id].key, s.asks[id].stamp)| < Ceiling(cfg(s.asks[id].key))
    requires InOrder(past, at) && 0 <= at
    ensures var s, s', q := After(cfg, name, past), After(cfg, name, run), After(cfg, name, past).asks[id];
            && s'.mem == s.mem && s'.results == s.results
            && s'.redis.Set(q.key).scores == FoundBy(cfg, s, q.key, q.stamp)[name(id) := q.stamp]
            && id in s'.asks && s'.asks == s.asks[id := s'.asks[id]]
            && s'.asks[id] == q.(reply := s'.asks[id].reply)
            && s'.asks[id].reply.Some? && s'.asks[id].reply.value.Admitted()
    ensures var q := After(cfg, name, past).asks[id];
            ScriptRuns(cfg, name, run)
            == Snoc(ScriptRuns(cfg, name, past), Lua.Run(CallOf(name, id, q, at, false)))
    ensures InOrder(run, at)
  {
    run := Snoc(past, Execute(id, at, false));
    var s := After(cfg, name, past);
    var q := s.asks[id];
    var c := CallOf(name, id, q, at, false);
    ScriptVisits(s.redis, c, cfg(q.key));
    VisitGrants(s.redis.Set(q.key), c, cfg(q.key));
  }

  ghost predicate IsGrant(o: Outcome, k: string, stamp: int, source: Source) {
    o.key == k && o.stamp == stamp && o.source == source && o.result.Admitted()
  }

  lemma ReceiveOne(cfg: Config, name: Names, past: Trace<Action>, id: Id, t: int)
    returns (run: Trace<Action>, o: Outcome)
    requires var s := After(cfg, name, past);
             id in s.asks && s.asks[id].reply.Some? && s.asks[id].reply.value.Admitted()
    requires InOrder(past, t)
    ensures var s, s' := After(cfg, name, past), After(cfg, name, run);
            && IsGrant(o, s.asks[id].key, s.asks[id].stamp, FromRedis)
            && s' == s.(asks := s.asks - {id}, results := s.results[id := o])
    ensures ScriptRuns(cfg, name, run) == ScriptRuns(cfg, name, past) && InOrder(run, t)
  {
    run := Snoc(past, Receive(id));
    o := After(cfg, name, run).results[id];
  }

  /** Both: the call runs and its reply arrives. */
  lemma FinishOne(cfg: Config, name: Names, past: Trace<Action>, id: Id, at: int)
    returns (run: Trace<Action>, o: Outcome)
    requires var s := After(cfg, name, past);
             && id in s.asks && !s.asks[id].frozen
             && |FoundBy(cfg, s, s.asks[id].key, s.asks[id].stamp)| < Ceiling(cfg(s.asks[id].key))
    requires InOrder(past, at) && 0 <= at
    ensures var s, s', q := After(cfg, name, past), After(cfg, name, run), After(cfg, name, past).asks[id];
            && s'.asks == s.asks - {id} && s'.mem == s.mem
            && s'.results == s.results[id := o] && IsGrant(o, q.key, q.stamp, FromRedis)
            && s'.redis.Set(q.key).scores == FoundBy(cfg, s, q.key, q.stamp)[name(id) := q.stamp]
    ensures var q := After(cfg, name, past).asks[id];
            ScriptRuns(cfg, name, run)
            == Snoc(ScriptRuns(cfg, name, past), Lua.Run(CallOf(name, id, q, at, false)))
    ensures InOrder(run, at)
  {
    var run1 := ExecuteOne(cfg, name, past, id, at);
    run, o := ReceiveOne(cfg, name, run1, id, at);
    assert After(cfg, name, run1).asks - {id} == After(cfg, name, past).asks - {id};
  }

  lemma MemoryChecks(mem: SW.Log, now: int, k: string, l: Limits)
    requires !mem.frozen && Size(mem.Window(k)) < Ceiling(l)
    ensures var (mem', r) := SW.CheckStep(mem, now, k, l);
            r.Admitted() && !mem'.frozen && Size(mem'.Window(k)) <= Size(mem.Window(k)) + 1
  {
    SW.LiveIsSmaller(mem.Window(k), now - l.window);
  }

  /** Memory grants a check that finds fewer entries than the ceiling. */
  lemma FallOne(cfg: Config, name: Names, past: Trace<Action>, id: Id, now: int)
    returns (run: Trace<Action>, o: Outcome)
    requires var s := After(cfg, name, past);
             id in s.asks && !s.mem.frozen && Size(s.mem.Window(s.asks[id].key)) < Ceiling(cfg(s.asks[id].key))
    requires InOrder(past, now) && 0 <= now
    ensures var s, s', k := After(cfg, name, past), After(cfg, name, run), After(cfg, name, past).asks[id].key;
            && s'.asks == s.asks - {id} && s'.redis == s.redis && !s'.mem.frozen
            && s'.results == s.results[id := o] && IsGrant(o, k, now, FromMemory)
            && Size(s'.mem.Window(k)) <= Size(s.mem.Window(k)) + 1
    ensures ScriptRuns(cfg, name, run) == ScriptRuns(cfg, name, past) && InOrder(run, now)
  {
    run := Snoc(past, FallBack(id, now));
    o := After(cfg, name, run).results[id];
    var s := After(cfg, name, past);
    MemoryChecks(s.mem, now, s.asks[id].key, cfg(s.asks[id].key));
  }

  /** The first `n` checks have been granted, for `k` and under stamps in (0, hi]. */
  ghost predicate AllGranted(results: map<Id, Outcome>, k: string, n: nat, hi: int) {
    forall id: Id :: id < n ==> id in results && GrantedBy(results[id], k, hi)
  }

  predicate GrantedBy(o: Outcome, k: string, hi: int) { o.key == k && o.result.Admitted() && 0 < o.stamp <= hi }

  function FirstIds(n: nat): set<Id> { if n == 0 then {} else FirstIds(n - 1) + {n - 1} }

  lemma {:induction false} FirstIdsSize(n: nat)
    ensures |FirstIds(n)| == n && forall id :: id in FirstIds(n) ==> id < n
  {
    if n > 0 { FirstIdsSize(n - 1); }
  }

  lemma GrantedCount(results: map<Id, Outcome>, k: string, n: nat, hi: int)
    requires AllGranted(results, k, n, hi)
    ensures GrantedIn(results, k, 0, hi) >= n
  {
    var redis := Members(results, Granted(FromRedis, k, 0, hi));
    var memory := Members(results, Granted(FromMemory, k, 0, hi));
    FirstIdsSize(n);
    SubsetSize(FirstIds(n), redis + memory);
  }

  lemma PruneIsSmaller(scores: map<string, int>, t: int)
    ensures |Lua.Prune(scores, t)| <= |scores|
  {
    SubsetSize(Lua.Prune(scores, t).Keys, scores.Keys);
    assert |Lua.Prune(scores, t)| == |Lua.Prune(scores, t).Keys| && |scores| == |scores.Keys|;
  }

  // ---------- Twice the ceiling in one second ----------

  /** Redis has at most `r` members for `k`, all with score 1. */
  ghost predicate SetOk(scores: map<string, int>, r: nat) {
    |scores| <= r && forall x :: x in scores ==> scores[x] == 1
  }

  lemma SetGrows(scores: map<string, int>, r: nat, t: int, m: string)
    requires SetOk(scores, r)
    ensures |Lua.Prune(scores, t)| <= r && SetOk(Lua.Prune(scores, t)[m := 1], r + 1)
  {
    PruneIsSmaller(scores, t);
    Lua.OneMoreMember(Lua.Prune(scores, t), m, 1);
  }

  ghost predicate ResultsOk(results: map<Id, Outcome>, k: string, total: nat, hi: int) {
    (forall id :: id in results ==> id < total) && AllGranted(results, k, total, hi)
  }

  lemma ResultsGrow(results: map<Id, Outcome>, o: Outcome, k: string, total: nat, hi: int)
    requires ResultsOk(results, k, total, hi) && GrantedBy(o, k, hi)
    ensures ResultsOk(results[total := o], k, total + 1, hi)
  {}

  /** At time 1 the first `total` checks have been granted, at most `r` of them by Redis and `m` by
      memory, and nobody is under way. */
  ghost predicate BusyState(s: State, k: string, total: nat, r: nat, m: nat, w: int) {
    && s.asks == map[] && !s.mem.frozen && Size(s.mem.Window(k)) <= m
    && SetOk(s.redis.Set(k).scores, r) && ResultsOk(s.results, k, total, w)
  }

  /** After a run in which nothing is late. */
  ghost predicate Busy(cfg: Config, name: Names, run: Trace<Action>, k: string, total: nat, r: nat, m: nat) {
    && BusyState(After(cfg, name, run), k, total, r, m, cfg(k).window)
    && InOrder(run, 1) && Prompt(cfg, name, run, 0)
  }

  lemma BackAgain(asks: map<Id, Ask>, id: Id, q: Ask)
    requires id !in asks
    ensures asks[id := q] - {id} == asks
  {}

  /** A check that Redis answers at once. */
  lemma ServeOne(cfg: Config, name: Names, past: Trace<Action>, id: Id, k: string, now: int)
    returns (run: Trace<Action>, o: Outcome)
    requires var s := After(cfg, name, past);
             && id !in s.asks && id !in s.results && !s.mem.frozen && |FoundBy(cfg, s, k, now)| < Ceiling(cfg(k))
    requires InOrder(past, now) && 0 <= now && Prompt(cfg, name, past, 0)
    ensures var s, s' := After(cfg, name, past), After(cfg, name, run);
            && s'.asks == s.asks && s'.mem == s.mem
            && s'.results == s.results[id := o] && IsGrant(o, k, now, FromRedis)
            && s'.redis.Set(k).scores == FoundBy(cfg, s, k, now)[name(id) := now]
    ensures InOrder(run, now) && Prompt(cfg, name, run, 0)
  {
    var run1 := PrepareOne(cfg, name, past, id, k, now, now);
    run, o := FinishOne(cfg, name, run1, id, now);
    BackAgain(After(cfg, name, past).asks, id, Ask(k, now, 1, false, None));
  }

  /** A check that falls back at once. */
  lemma LocalOne(cfg: Config, name: Names, past: Trace<Action>, id: Id, k: string, now: int)
    returns (run: Trace<Action>, o: Outcome)
    requires var s := After(cfg, name, past);
             && id !in s.asks && id !in s.results && !s.mem.frozen && Size(s.mem.Window(k)) < Ceiling(cfg(k))
    requires InOrder(past, now) && 0 <= now && Prompt(cfg, name, past, 0)
    ensures var s, s' := After(cfg, name, past), After(cfg, name, run);
            && s'.asks == s.asks && s'.redis == s.redis && !s'.mem.frozen
            && s'.results == s.results[id := o] && IsGrant(o, k, now, FromMemory)
            && Size(s'.mem.Window(k)) <= Size(s.mem.Window(k)) + 1
    ensures InOrder(run, now) && Prompt(cfg, name, run, 0)
  {
    var run1 := PrepareOne(cfg, name, past, id, k, now, now);
    run, o := FallOne(cfg, name, run1, id, now);
    BackAgain(After(cfg, name, past).asks, id, Ask(k, now, 1, false, None));
  }

  lemma BusyByRedis(s: State, s': State, o: Outcome, k: string, total: nat, r: nat, w: int, m: string)
    requires BusyState(s, k, total, r, 0, w) && 0 < w
    requires s'.asks == s.asks && s'.mem == s.mem && s'.results == s.results[total := o]
    requires IsGrant(o, k, 1, FromRedis) && s'.redis.Set(k).scores == Lua.Prune(s.redis.Set(k).scores, 1 - w)[m := 1]
    ensures BusyState(s', k, total + 1, r + 1, 0, w)
  {
    SetGrows(s.redis.Set(k).scores, r, 1 - w, m);
    ResultsGrow(s.results, o, k, total, w);
  }

  lemma OneMoreFromRedis(cfg: Config, name: Names, past: Trace<Action>, k: string, total: nat, r: nat)
    returns (run: Trace<Action>)
    requires Busy(cfg, name, past, k, total, r, 0) && 0 < cfg(k).window && r < Ceiling(cfg(k))
    ensures Busy(cfg, name, run, k, total + 1, r + 1, 0)
  {
    var s := After(cfg, name, past);
    var o;
    PruneIsSmaller(s.redis.Set(k).scores, 1 - cfg(k).window);
    run, o := ServeOne(cfg, name, past, total, k, 1);
    BusyByRedis(s, After(cfg, name, run), o, k, total, r, cfg(k).window, name(total));
  }

  lemma OneMoreFromMemory(cfg: Config, name: Names, past: Trace<Action>, k: string, total: nat, r: nat, m: nat)
    returns (run: Trace<Action>)
    requires Busy(cfg, name, past, k, total, r, m) && 0 < cfg(k).window && m < Ceiling(cfg(k))
    ensures Busy(cfg, name, run, k, total + 1, r, m + 1)
  {
    var s := After(cfg, name, past);
    var o;
    run, o := LocalOne(cfg, name, past, total, k, 1);
    ResultsGrow(s.results, o, k, total, cfg(k).window);
  }

  lemma {:induction false} BusyRun(cfg: Config, name: Names, r: nat, m: nat, k: string) returns (run: Trace<Action>)
    requires 0 < cfg(k).window && r <= Ceiling(cfg(k)) && m <= Ceiling(cfg(k))
    ensures Busy(cfg, name, run, k, r + m, r, m)
  {
    if m > 0 {
      run := BusyRun(cfg, name, r, m - 1, k);
      run := OneMoreFromMemory(cfg, name, run, k, r + m - 1, r, m - 1);
    } else if r > 0 {
      run := BusyRun(cfg, name, r - 1, 0, k);
      run := OneMoreFromRedis(cfg, name, run, k, r - 1, r - 1);
    } else {
      run := Nil;
    }
  }

  /** The bound is attained, for all limits: as many grants from Redis as the ceiling, then as many
      from memory, in one second and with nothing late. */
  lemma FailoverBoundIsReached(cfg: Config, name: Names, k: string) returns (run: Trace<Action>)
    requires Injective(name) && 0 < cfg(k).window
    ensures InOrder(run, 1) && Prompt(cfg, name, run, 0)
    ensures GrantedIn(After(cfg, name, run).results, k, 0, cfg(k).window) == 2 * Ceiling(cfg(k))
  {
    var n := Ceiling(cfg(k));
    run := BusyRun(cfg, name, n, n, k);
    GrantedCount(After(cfg, name, run).results, k, n + n, cfg(k).window);
    PromptSafety(cfg, name, run, 1, k, 0, 0);
  }

  // ---------- Calls that cross ----------

  lemma {:induction false} PromptLonger(run: Lua.LuaRun, d: nat, d': nat)
    requires Lua.Prompt(run, d) && d <= d'
    ensures Lua.Prompt(run, d')
  {
    if run.Snoc? { PromptLonger(run.init, d, d'); }
  }

  /** A waiting check runs, at most `d` seconds after its stamp, and is granted. */
  lemma GrantOne(
    cfg: Config, name: Names, past: Trace<Action>, id: Id, k: string, stamp: int, at: int, d: nat, found: nat)
    returns (run: Trace<Action>, o: Outcome)
    requires var s := After(cfg, name, past);
             && id in s.asks && s.asks[id] == Ask(k, stamp, 1, false, None)
             && |FoundBy(cfg, s, k, stamp)| <= found < Ceiling(cfg(k))
    requires InOrder(past, at) && 0 <= at <= stamp + d && Prompt(cfg, name, past, d)
    ensures var s, s' := After(cfg, name, past), After(cfg, name, run);
            && s'.asks == s.asks - {id}
            && s'.results == s.results[id := o] && IsGrant(o, k, stamp, FromRedis)
            && |s'.redis.Set(k).scores| <= found + 1
    ensures InOrder(run, at) && Prompt(cfg, name, run, d)
  {
    run, o := FinishOne(cfg, name, past, id, at);
    Lua.OneMoreMember(FoundBy(cfg, After(cfg, name, past), k, stamp), name(id), stamp);
  }

  lemma NothingLeft(scores: map<string, int>, r: nat)
    requires SetOk(scores, r)
    ensures |Lua.Prune(scores, 1)| == 0
  {
    assert Lua.Prune(scores, 1) == map[];
  }

  /** Two checks read the clock, the first at the end of the window and the second a second later;
      the second runs first, and has Redis forget all it knew. */
  lemma Overtakes(cfg: Config, name: Names, past: Trace<Action>, k: string, total: nat, r: nat, m: nat)
    returns (run: Trace<Action>, o: Outcome)
    requires Busy(cfg, name, past, k, total, r, m) && 0 < cfg(k).window && 1 <= Ceiling(cfg(k))
    ensures var s, s', w := After(cfg, name, past), After(cfg, name, run), cfg(k).window;
            && s'.asks == map[total := Ask(k, w, 1, false, None)]
            && s'.results == s.results[total + 1 := o] && |s'.redis.Set(k).scores| <= 1
    ensures InOrder(run, cfg(k).window + 1) && Prompt(cfg, name, run, 1)
  {
    var w, b := cfg(k).window, total + 1;
    var run1 := PrepareOne(cfg, name, past, total, k, w, 1);
    var run2 := PrepareOne(cfg, name, run1, b, k, w + 1, w);
    NothingLeft(After(cfg, name, past).redis.Set(k).scores, r);
    PromptLonger(ScriptRuns(cfg, name, past), 0, 1);
    run, o := GrantOne(cfg, name, run2, b, k, w + 1, w + 1, 1, 0);
    BackAgain(map[total := Ask(k, w, 1, false, None)], b, Ask(k, w + 1, 1, false, None));
  }

  /** The first runs after it, one second late, and is granted too. */
  lemma Crosses(cfg: Config, name: Names, past: Trace<Action>, k: string, total: nat, r: nat, m: nat)
    returns (run: Trace<Action>)
    requires Busy(cfg, name, past, k, total, r, m) && 0 < cfg(k).window && 2 <= Ceiling(cfg(k))
    ensures AllGranted(After(cfg, name, run).results, k, total + 1, cfg(k).window)
    ensures InOrder(run, cfg(k).window + 1) && Prompt(cfg, name, run, 1)
  {
    var w := cfg(k).window;
    var o;
    var next, _ := Overtakes(cfg, name, past, k, total, r, m);
    PruneIsSmaller(After(cfg, name, next).redis.Set(k).scores, 0);
    run, o := GrantOne(cfg, name, next, total, k, w, w + 1, 1, 1);
  }

  /** For all limits with a ceiling of at least two: a call that reaches Redis one second late, after
      one that read the clock later, puts more than twice the ceiling into a single window, although
      no clock runs backwards. */
  lemma CrossedCallsExceed(cfg: Config, name: Names, k: string) returns (run: Trace<Action>)
    requires 0 < cfg(k).window && 2 <= Ceiling(cfg(k))
    ensures InOrder(run, cfg(k).window + 1) && Prompt(cfg, name, run, 1)
    ensures GrantedIn(After(cfg, name, run).results, k, 0, cfg(k).window) > 2 * Ceiling(cfg(k))
  {
    var n := Ceiling(cfg(k));
    var busy := BusyRun(cfg, name, n, n, k);
    run := Crosses(cfg, name, busy, k, n + n, n, n);
    GrantedCount(After(cfg, name, run).results, k, n + n + 1, cfg(k).window);
  }
}
