/** The gateway as it is deployed, over the Redis limiter with its in-memory fallback. A request's
    check is made of the limiter's own steps; from the verdict on it goes through the pipeline. */
module GatewayFailover {
  import opened Traces
  import opened RateLimit
  import G = Gateway
  import GR = GatewayRuns
  import FR = FailoverRuns
  import Lua = LuaScript

  datatype State = State(limiter: FR.State, pipe: G.State)

  datatype Action =
    | Prepare(id: G.Id, apiKey: string, month: int)
    | Execute(id: G.Id, dropped: bool)
    | Receive(id: G.Id, cacheKey: string)
    | FallBack(id: G.Id, cacheKey: string)
    | Freeze(on: bool)
    | Pipe(step: G.Action)

  function Init(now: int): State { State(FR.Init, G.Init(now)) }

  function Seconds(s: State): int { s.pipe.clock / G.SECOND }

  /** What the limiter is asked to do; the clock is read when it happens. */
  function LimiterAction(s: State, a: Action): FR.Action
    requires !a.Pipe?
  {
    match a
    case Prepare(id, apiKey, month) => FR.Prepare(id, apiKey, month, Seconds(s))
    case Execute(id, dropped) => FR.Execute(id, Seconds(s), dropped)
    case Receive(id, _) => FR.Receive(id)
    case FallBack(id, _) => FR.FallBack(id, Seconds(s))
    case Freeze(on) => FR.Freeze(on)
  }

  predicate IsPipeStep(a: G.Action) { !a.Arrive? && !a.BurstFreeze? }

  /** An answered check becomes a request of the pipeline, stamped by the store that answered. */
  function Admit(pipe: G.State, id: G.Id, cacheKey: string, o: FR.Outcome): G.State {
    pipe.(requests := pipe.requests[id := G.NewRequest(o.key, cacheKey, o.stamp, o.result.status)])
  }

  function Act(g: G.Settings, name: FR.Names, s: State, a: Action): State {
    if a.Pipe? then if IsPipeStep(a.step) then s.(pipe := G.Act(g, s.pipe, a.step)) else s
    else
      var limiter := FR.Act(g.limits, name, s.limiter, LimiterAction(s, a));
      if (a.Receive? || a.FallBack?) && FR.Legal(s.limiter, LimiterAction(s, a)) && a.id in limiter.results
      then State(limiter, Admit(s.pipe, a.id, a.cacheKey, limiter.results[a.id]))
      else s.(limiter := limiter)
  }

  function After(g: G.Settings, name: FR.Names, start: int, acts: Trace<Action>): State {
    match acts
    case Nil => Init(start)
    case Snoc(past, a) => Act(g, name, After(g, name, start, past), a)
  }

  // ---------- The limiter inside ----------

  function LimiterRun(g: G.Settings, name: FR.Names, start: int, acts: Trace<Action>): Trace<FR.Action> {
    match acts
    case Nil => Nil
    case Snoc(past, a) =>
      if a.Pipe? then LimiterRun(g, name, start, past)
      else Snoc(LimiterRun(g, name, start, past), LimiterAction(After(g, name, start, past), a))
  }

  lemma {:induction false} LimiterSeesItsRun(g: G.Settings, name: FR.Names, start: int, acts: Trace<Action>)
    ensures After(g, name, start, acts).limiter == FR.After(g.limits, name, LimiterRun(g, name, start, acts))
  {
    if acts.Snoc? { LimiterSeesItsRun(g, name, start, acts.init); }
  }

  lemma ClockAdvances(g: G.Settings, name: FR.Names, s: State, a: Action)
    ensures Seconds(Act(g, name, s, a)) >= Seconds(s)
  {}

  lemma {:induction false} RunIsInOrder(g: G.Settings, name: FR.Names, start: nat, acts: Trace<Action>)
    ensures 0 <= Seconds(After(g, name, start, acts))
    ensures FR.InOrder(LimiterRun(g, name, start, acts), Seconds(After(g, name, start, acts)))
  {
    if acts.Snoc? {
      var s := After(g, name, start, acts.init);
      RunIsInOrder(g, name, start, acts.init);
      ClockAdvances(g, name, s, acts.last);
      FR.InOrderLater(LimiterRun(g, name, start, acts.init), Seconds(s), Seconds(After(g, name, start, acts)));
    }
  }

  // ---------- Requests are the limiter's outcomes ----------

  ghost predicate Matches(q: G.Request, o: FR.Outcome) {
    q.apiKey == o.key && q.arrived == o.stamp && q.verdict == o.result.status
  }

  ghost predicate Matched(requests: map<G.Id, G.Request>, results: map<FR.Id, FR.Outcome>) {
    requests.Keys == results.Keys && forall id :: id in requests ==> Matches(requests[id], results[id])
  }

  lemma MatchedUpdate(requests: map<G.Id, G.Request>, id: G.Id, q: G.Request, results: map<FR.Id, FR.Outcome>)
    requires Matched(requests, results) && id in requests && Matches(q, results[id])
    ensures Matched(requests[id := q], results)
  {
    assert requests[id := q].Keys == requests.Keys;
  }

  lemma NextKeeps(g: G.Settings, s: G.State, q: G.Request)
    ensures var q' := G.NextRequest(g, s, q);
            q'.apiKey == q.apiKey && q'.arrived == q.arrived && q'.verdict == q.verdict
  {}

  /** The pipeline neither adds requests nor changes what the limiter said. */
  lemma PipeMatched(g: G.Settings, s: G.State, a: G.Action, results: map<FR.Id, FR.Outcome>)
    requires Matched(s.requests, results) && IsPipeStep(a)
    ensures Matched(G.Act(g, s, a).requests, results)
  {
    if a.Advance? && a.id in s.requests {
      NextKeeps(g, s, s.requests[a.id]);
      MatchedUpdate(s.requests, a.id, G.NextRequest(g, s, s.requests[a.id]), results);
    } else if a.Complete? && a.id in s.requests {
      MatchedUpdate(s.requests, a.id, G.Completed(g.breaker, s.requests[a.id], a.reply, G.Latency(s, a.id)), results);
    }
  }

  lemma LimiterMatched(g: G.Settings, name: FR.Names, s: State, a: Action)
    requires Matched(s.pipe.requests, s.limiter.results) && !a.Pipe?
    ensures Matched(Act(g, name, s, a).pipe.requests, Act(g, name, s, a).limiter.results)
  {
    var s' := Act(g, name, s, a);
    if (a.Receive? || a.FallBack?) && FR.Legal(s.limiter, LimiterAction(s, a)) {
      assert s'.limiter.results == s.limiter.results[a.id := s'.limiter.results[a.id]];
    }
  }

  lemma {:induction false} AlwaysMatched(g: G.Settings, name: FR.Names, start: int, acts: Trace<Action>)
    ensures var s := After(g, name, start, acts); Matched(s.pipe.requests, s.limiter.results)
  {
    if acts.Snoc? {
      var s := After(g, name, start, acts.init);
      AlwaysMatched(g, name, start, acts.init);
      if acts.last.Pipe? {
        if IsPipeStep(acts.last.step) { PipeMatched(g, s.pipe, acts.last.step, s.limiter.results); }
      } else {
        LimiterMatched(g, name, s, acts.last);
      }
    }
  }

  lemma MatchedCounts(
    requests: map<G.Id, G.Request>, results: map<FR.Id, FR.Outcome>, k: string, lo: int, hi: int)
    requires Matched(requests, results)
    ensures GR.Count(requests, GR.Arrived(k, lo, hi)) == FR.GrantedIn(results, k, lo, hi)
  {
    var redis := FR.Members(results, FR.Granted(FR.FromRedis, k, lo, hi));
    var memory := FR.Members(results, FR.Granted(FR.FromMemory, k, lo, hi));
    assert redis !! memory;
    forall id ensures id in GR.Members(requests, GR.Arrived(k, lo, hi)) <==> id in redis + memory {
      if id in requests { assert Matches(requests[id], results[id]); }
    }
    assert GR.Members(requests, GR.Arrived(k, lo, hi)) == redis + memory;
  }

  /** The requests let through, by the stamps of the store that answered, are the limiter's grants. */
  lemma ArrivalsAreGranted(
    g: G.Settings, name: FR.Names, start: int, acts: Trace<Action>, k: string, lo: int, hi: int)
    ensures GR.Count(After(g, name, start, acts).pipe.requests, GR.Arrived(k, lo, hi))
            == FR.GrantedIn(FR.After(g.limits, name, LimiterRun(g, name, start, acts)).results, k, lo, hi)
  {
    var s := After(g, name, start, acts);
    LimiterSeesItsRun(g, name, start, acts);
    AlwaysMatched(g, name, start, acts);
    MatchedCounts(s.pipe.requests, s.limiter.results, k, lo, hi);
  }

  // ---------- Safety ----------

  /** Whatever Redis does, however calls cross and whatever else the gateway is doing: if no call of
      a key is more than `d` seconds behind when it runs, no interval of length W - d, by the stamps
      of the store that answered, holds more than twice the ceiling of its requests. */
  lemma FailoverWindowSafety(
    g: G.Settings, name: FR.Names, start: nat, acts: Trace<Action>, k: string, lo: int, d: nat)
    requires FR.Injective(name)
    requires Lua.BehindBy(FR.ScriptRuns(g.limits, name, LimiterRun(g, name, start, acts)), k, d)
    ensures GR.Count(After(g, name, start, acts).pipe.requests, GR.Arrived(k, lo, lo + g.limits(k).window - d))
            <= 2 * Ceiling(g.limits(k))
  {
    var now, run := Seconds(After(g, name, start, acts)), LimiterRun(g, name, start, acts);
    RunIsInOrder(g, name, start, acts);
    ArrivalsAreGranted(g, name, start, acts, k, lo, lo + g.limits(k).window - d);
    FR.FailoverSafety(g.limits, name, run, now, k, lo, d);
  }

  /** So it is if every call runs within `d` seconds of its clock reading. */
  lemma PromptWindowSafety(
    g: G.Settings, name: FR.Names, start: nat, acts: Trace<Action>, k: string, lo: int, d: nat)
    requires FR.Injective(name) && FR.Prompt(g.limits, name, LimiterRun(g, name, start, acts), d)
    ensures GR.Count(After(g, name, start, acts).pipe.requests, GR.Arrived(k, lo, lo + g.limits(k).window - d))
            <= 2 * Ceiling(g.limits(k))
  {
    var s, run := After(g, name, start, acts), LimiterRun(g, name, start, acts);
    RunIsInOrder(g, name, start, acts);
    FR.StoresInOrder(g.limits, name, run, Seconds(s));
    Lua.PromptIsEnough(FR.ScriptRuns(g.limits, name, run), k, d, Seconds(s));
    FailoverWindowSafety(g, name, start, acts, k, lo, d);
  }

  /** And a whole window holds at most three times the ceiling if `d` is at most half of it. */
  lemma WholeWindowSafety(
    g: G.Settings, name: FR.Names, start: nat, acts: Trace<Action>, k: string, lo: int, d: nat)
    requires FR.Injective(name) && 2 * d <= g.limits(k).window
    requires Lua.BehindBy(FR.ScriptRuns(g.limits, name, LimiterRun(g, name, start, acts)), k, d)
    ensures GR.Count(After(g, name, start, acts).pipe.requests, GR.Arrived(k, lo, lo + g.limits(k).window))
            <= 3 * Ceiling(g.limits(k))
  {
    var now, run := Seconds(After(g, name, start, acts)), LimiterRun(g, name, start, acts);
    RunIsInOrder(g, name, start, acts);
    ArrivalsAreGranted(g, name, start, acts, k, lo, lo + g.limits(k).window);
    FR.WholeWindowSafety(g.limits, name, run, now, k, lo, d);
  }
}
