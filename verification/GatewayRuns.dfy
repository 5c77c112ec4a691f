/** Whole runs of the gateway: its books balance, and what is proved of the limiter and of the
    breaker alone holds of them inside the gateway. */
module GatewayRuns {
  import opened Traces
  import opened Gateway
  import RateLimit
  import SW = SlidingWindow
  import CB = CircuitBreaker

  // ---------- Counting requests ----------

  /** The groups of requests the books are about. */
  datatype Group =
    | Judged(verdict: RateLimit.Status)                  // what the limiter said
    | Counted(verdict: RateLimit.Status)                 // the same, once the metrics know
    | Waiting                                            // counted and not yet at the breaker
    | Routed(route: Route)
    | Stale                                              // answered with a STALE-FALLBACK
    | Arrived(apiKey: string, after: int, upTo: int)     // admitted for one key in a time interval

  predicate In(q: Request, group: Group) {
    match group
    case Judged(v) => q.verdict == v
    case Counted(v) => q.verdict == v && !q.stage.Checked?
    case Waiting => q.stage.Passed?
    case Routed(r) => q.route == r
    case Stale => q.stage.Finished? && q.stage.answer.StaleFallback?
    case Arrived(k, lo, hi) => q.apiKey == k && lo < q.arrived <= hi && q.verdict != RateLimit.BLOCKED
  }

  function Members(requests: map<Id, Request>, group: Group): set<Id> {
    set id | id in requests && In(requests[id], group)
  }

  function Count(requests: map<Id, Request>, group: Group): nat { |Members(requests, group)| }

  lemma MembersUpdate(requests: map<Id, Request>, id: Id, q: Request, group: Group)
    ensures Members(requests[id := q], group) == Members(requests, group) - {id} + if In(q, group) then {id} else {}
  {}

  lemma CountUpdate(requests: map<Id, Request>, id: Id, q: Request, group: Group)
    ensures Count(requests[id := q], group)
            == Count(requests, group)
               - (if id in requests && In(requests[id], group) then 1 else 0)
               + (if In(q, group) then 1 else 0)
  {
    MembersUpdate(requests, id, q, group);
  }

  // ---------- Overage units ----------

  /** Every unit on the books, numbered per key: the sum of all keys' overages is their number. */
  function UnitsOf(overages: map<string, nat>): set<(string, nat)> {
    set k, i: nat | k in overages && i < overages[k] :: (k, i)
  }

  function Units(overages: map<string, nat>): nat { |UnitsOf(overages)| }

  lemma OneMoreUnit(log: SW.Log, k: string)
    ensures Units(log.overages[k := log.Overage(k) + 1]) == Units(log.overages) + 1
  {
    var n := log.Overage(k);
    assert UnitsOf(log.overages[k := n + 1]) == UnitsOf(log.overages) + {(k, n)};
  }

  // ---------- The books ----------

  /** A request is routed once it has left the breaker or been blocked, and nobody else is. */
  ghost predicate Lawful(q: Request) {
    match q.stage
    case Checked => q.route == Unrouted
    case Passed => q.route == Unrouted && q.verdict != RateLimit.BLOCKED
    case _ => q.route != Unrouted && (q.route == Blocked <==> q.verdict == RateLimit.BLOCKED)
  }

  ghost predicate AllLawful(s: State) { forall id :: id in s.requests ==> Lawful(s.requests[id]) }

  lemma LawfulStep(g: Settings, s: State, a: Action)
    requires AllLawful(s)
    ensures AllLawful(Act(g, s, a))
  {}

  ghost predicate MetricsOk(s: State) {
    && s.metrics.normal == Count(s.requests, Counted(RateLimit.NORMAL))
    && s.metrics.burst == Count(s.requests, Counted(RateLimit.BURST))
    && s.metrics.blocked == Count(s.requests, Counted(RateLimit.BLOCKED))
    && s.metrics.fallbacks == Count(s.requests, Stale)
    && Units(s.limiter.overages) == Count(s.requests, Judged(RateLimit.BURST))
  }

  lemma UpdateCounts(requests: map<Id, Request>, id: Id, q: Request)
    ensures forall group {:trigger Count(requests[id := q], group)} ::
              Count(requests[id := q], group)
              == Count(requests, group)
                 - (if id in requests && In(requests[id], group) then 1 else 0)
                 + (if In(q, group) then 1 else 0)
  {
    forall group ensures Count(requests[id := q], group)
                         == Count(requests, group)
                            - (if id in requests && In(requests[id], group) then 1 else 0)
                            + (if In(q, group) then 1 else 0)
    {
      CountUpdate(requests, id, q, group);
    }
  }

  lemma ArriveMetrics(g: Settings, s: State, id: Id, apiKey: string, cacheKey: string)
    requires MetricsOk(s) && id !in s.requests
    ensures MetricsOk(ArriveStep(g, s, id, apiKey, cacheKey))
  {
    OneMoreUnit(s.limiter, apiKey);
    UpdateCounts(s.requests, id, ArriveStep(g, s, id, apiKey, cacheKey).requests[id]);
  }

  /** What joining or leaving a group changes its count by. */
  function Delta(q: Request, q': Request, group: Group): int {
    (if In(q', group) then 1 else 0) - (if In(q, group) then 1 else 0)
  }

  lemma NextMetricsCount(g: Settings, s: State, m: Metrics, q: Request)
    ensures var q', m' := NextRequest(g, s, q), NextMetrics(m, q);
            && m'.normal == m.normal + Delta(q, q', Counted(RateLimit.NORMAL))
            && m'.burst == m.burst + Delta(q, q', Counted(RateLimit.BURST))
            && m'.blocked == m.blocked + Delta(q, q', Counted(RateLimit.BLOCKED))
            && m'.fallbacks == m.fallbacks + Delta(q, q', Stale)
            && q'.verdict == q.verdict
  {}

  lemma AdvanceMetrics(g: Settings, s: State, id: Id)
    requires MetricsOk(s) && id in s.requests
    ensures MetricsOk(AdvanceStep(g, s, id))
  {
    var q' := NextRequest(g, s, s.requests[id]);
    NextMetricsCount(g, s, s.metrics, s.requests[id]);
    CountUpdate(s.requests, id, q', Counted(RateLimit.NORMAL));
    CountUpdate(s.requests, id, q', Counted(RateLimit.BURST));
    CountUpdate(s.requests, id, q', Counted(RateLimit.BLOCKED));
    CountUpdate(s.requests, id, q', Stale);
    CountUpdate(s.requests, id, q', Judged(RateLimit.BURST));
  }

  lemma CompleteMetrics(g: Settings, s: State, id: Id, reply: Upstream)
    requires MetricsOk(s) && id in s.requests && s.requests[id].stage.InFlight?
    ensures MetricsOk(CompleteStep(g, s, id, reply))
  {
    UpdateCounts(s.requests, id, Completed(g.breaker, s.requests[id], reply, Latency(s, id)));
  }

  lemma MetricsStep(g: Settings, s: State, a: Action)
    requires MetricsOk(s)
    ensures MetricsOk(Act(g, s, a))
  {
    if a.Arrive? && a.id !in s.requests {
      ArriveMetrics(g, s, a.id, a.apiKey, a.cacheKey);
    } else if a.Advance? && a.id in s.requests {
      AdvanceMetrics(g, s, a.id);
    } else if a.Complete? && a.id in s.requests && s.requests[a.id].stage.InFlight? {
      CompleteMetrics(g, s, a.id, a.reply);
    }
  }

  lemma {:induction false} BooksAlwaysOk(g: Settings, start: int, acts: Trace<Action>)
    ensures MetricsOk(After(g, start, acts)) && AllLawful(After(g, start, acts))
  {
    if acts.Snoc? {
      BooksAlwaysOk(g, start, acts.init);
      MetricsStep(g, After(g, start, acts.init), acts.last);
      LawfulStep(g, After(g, start, acts.init), acts.last);
    } else {
      assert UnitsOf(map[]) == {};
    }
  }

  lemma AdmittedAreRouted(s: State)
    requires AllLawful(s)
    ensures Count(s.requests, Counted(RateLimit.NORMAL)) + Count(s.requests, Counted(RateLimit.BURST))
            == Count(s.requests, Routed(Forwarded)) + Count(s.requests, Routed(RefusedByBreaker))
               + Count(s.requests, Waiting)
    ensures Count(s.requests, Counted(RateLimit.BLOCKED)) == Count(s.requests, Routed(Blocked))
  {
    var r := s.requests;
    var normal, burst := Members(r, Counted(RateLimit.NORMAL)), Members(r, Counted(RateLimit.BURST));
    var sent, refused := Members(r, Routed(Forwarded)), Members(r, Routed(RefusedByBreaker));
    var waiting := Members(r, Waiting);
    assert normal !! burst && sent !! refused && (sent + refused) !! waiting;
    forall id | id in r ensures id in normal + burst <==> id in sent + refused + waiting {
      assert Lawful(r[id]);
    }
    assert normal + burst == sent + refused + waiting;
    assert Members(r, Counted(RateLimit.BLOCKED)) == Members(r, Routed(Blocked)) by {
      forall id | id in r ensures In(r[id], Counted(RateLimit.BLOCKED)) <==> In(r[id], Routed(Blocked)) {
        assert Lawful(r[id]);
      }
    }
  }

  /** In every state of every run the admitted requests are those forwarded, those the breaker
      refused and those on their way to it; the fallback counter is the number of
      STALE-FALLBACK answers; and the overages of all keys sum to the BURST verdicts given. */
  lemma BooksBalance(g: Settings, start: int, acts: Trace<Action>)
    ensures var s := After(g, start, acts);
            && s.metrics.normal + s.metrics.burst
               == Count(s.requests, Routed(Forwarded)) + Count(s.requests, Routed(RefusedByBreaker))
                  + Count(s.requests, Waiting)
            && s.metrics.blocked == Count(s.requests, Routed(Blocked))
            && s.metrics.fallbacks == Count(s.requests, Stale)
            && Units(s.limiter.overages) == Count(s.requests, Judged(RateLimit.BURST))
  {
    BooksAlwaysOk(g, start, acts);
    AdmittedAreRouted(After(g, start, acts));
  }

  ghost predicate Quiescent(s: State) { forall id :: id in s.requests ==> s.requests[id].stage.Finished? }

  lemma FinishedAreCounted(r: map<Id, Request>)
    requires forall id :: id in r ==> r[id].stage.Finished?
    ensures Count(r, Waiting) == 0
    ensures Count(r, Judged(RateLimit.BURST)) == Count(r, Counted(RateLimit.BURST))
    ensures Count(r, Counted(RateLimit.NORMAL)) + Count(r, Counted(RateLimit.BURST))
            + Count(r, Counted(RateLimit.BLOCKED)) == |r|
  {
    assert Members(r, Waiting) == {};
    var normal, burst := Members(r, Counted(RateLimit.NORMAL)), Members(r, Counted(RateLimit.BURST));
    var blocked := Members(r, Counted(RateLimit.BLOCKED));
    assert Members(r, Judged(RateLimit.BURST)) == burst;
    assert r.Keys == normal + burst + blocked;
    assert normal !! burst && (normal + burst) !! blocked;
  }

  /** With nobody under way the books agree exactly. */
  lemma QuiescentBooks(g: Settings, start: int, acts: Trace<Action>)
    requires Quiescent(After(g, start, acts))
    ensures var s := After(g, start, acts);
            && s.metrics.normal + s.metrics.burst
               == Count(s.requests, Routed(Forwarded)) + Count(s.requests, Routed(RefusedByBreaker))
            && s.metrics.burst == Units(s.limiter.overages)
            && s.metrics.fallbacks == Count(s.requests, Stale)
            && s.metrics.normal + s.metrics.burst + s.metrics.blocked == |s.requests|
  {
    BooksAlwaysOk(g, start, acts);
    AdmittedAreRouted(After(g, start, acts));
    FinishedAreCounted(After(g, start, acts).requests);
  }

  // ---------- The limiter inside the gateway ----------

  /** The checks and freeze toggles the limiter sees. */
  function LimiterRun(g: Settings, start: int, acts: Trace<Action>): RateLimit.Run {
    match acts
    case Nil => Nil
    case Snoc(past, a) =>
      var s, run := After(g, start, past), LimiterRun(g, start, past);
      if a.Arrive? && a.id !in s.requests then Snoc(run, RateLimit.Event.Check(s.clock / SECOND, a.apiKey))
      else if a.BurstFreeze? then Snoc(run, RateLimit.Event.Freeze(a.on))
      else run
  }

  lemma {:induction false} LimiterSeesItsRun(g: Settings, start: int, acts: Trace<Action>)
    ensures After(g, start, acts).limiter == SW.After(g.limits, LimiterRun(g, start, acts))
    ensures RateLimit.Monotone(LimiterRun(g, start, acts))
    ensures RateLimit.Before(LimiterRun(g, start, acts), After(g, start, acts).clock / SECOND)
  {
    if acts.Snoc? {
      LimiterSeesItsRun(g, start, acts.init);
      var s := After(g, start, acts.init);
      if acts.last.Pass? {
        RateLimit.BeforeLater(LimiterRun(g, start, acts.init), s.clock / SECOND, (s.clock + acts.last.d) / SECOND);
      }
    }
  }

  lemma ArrivedStep(g: Settings, s: State, a: Action, k: string, lo: int, hi: int)
    ensures !(a.Arrive? && a.id !in s.requests) ==>
              Count(Act(g, s, a).requests, Arrived(k, lo, hi)) == Count(s.requests, Arrived(k, lo, hi))
    ensures a.Arrive? && a.id !in s.requests ==>
              Count(Act(g, s, a).requests, Arrived(k, lo, hi))
              == Count(s.requests, Arrived(k, lo, hi))
                 + if In(Act(g, s, a).requests[a.id], Arrived(k, lo, hi)) then 1 else 0
  {
    match a
    case Arrive(id, apiKey, cacheKey) =>
      if id !in s.requests {
        CountUpdate(s.requests, id, ArriveStep(g, s, id, apiKey, cacheKey).requests[id], Arrived(k, lo, hi));
      }
    case Advance(id) =>
      if id in s.requests { CountUpdate(s.requests, id, NextRequest(g, s, s.requests[id]), Arrived(k, lo, hi)); }
    case Complete(id, reply) =>
      if id in s.requests {
        CountUpdate(s.requests, id, Completed(g.breaker, s.requests[id], reply, Latency(s, id)), Arrived(k, lo, hi));
      }
    case _ =>
  }

  lemma {:induction false} ArrivalsAreAdmissions(
    g: Settings, start: int, acts: Trace<Action>, k: string, lo: int, hi: int)
    ensures Count(After(g, start, acts).requests, Arrived(k, lo, hi))
            == RateLimit.CountIn(SW.Admissions(g.limits(k), LimiterRun(g, start, acts), k), lo, hi)
  {
    if acts.Snoc? {
      ArrivalsAreAdmissions(g, start, acts.init, k, lo, hi);
      ArrivedStep(g, After(g, start, acts.init), acts.last, k, lo, hi);
      LimiterSeesItsRun(g, start, acts.init);
      SW.KeysAreIndependent(g.limits, LimiterRun(g, start, acts.init), k);
    }
  }

  /** Whatever else the gateway is doing, no more requests of one key that arrived within one
      window get past its limiter than the ceiling. */
  lemma GatewayWindowSafety(g: Settings, start: int, acts: Trace<Action>, k: string, lo: int)
    ensures Count(After(g, start, acts).requests, Arrived(k, lo, lo + g.limits(k).window))
            <= RateLimit.Ceiling(g.limits(k))
  {
    LimiterSeesItsRun(g, start, acts);
    ArrivalsAreAdmissions(g, start, acts, k, lo, lo + g.limits(k).window);
    SW.WindowSafety(g.limits(k), LimiterRun(g, start, acts), k, lo);
  }

  // ---------- The breaker inside the gateway ----------

  /** What the breaker is asked or told in one step. */
  function BreakerEvent(g: Settings, s: State, a: Action): CB.Events {
    match a
    case Advance(id) => if id in s.requests && s.requests[id].stage.Passed? then Snoc(Nil, CB.Ask(s.clock)) else Nil
    case Complete(id, reply) =>
      if !(id in s.requests && s.requests[id].stage.InFlight?) then Nil
      else if IsFailure(g.breaker, reply, Latency(s, id)) then Snoc(Nil, CB.Failed(s.clock, Latency(s, id)))
      else if IsSuccess(g.breaker, reply, Latency(s, id)) then Snoc(Nil, CB.Succeeded(s.clock))
      else Nil
    case Cutoff(on) => Snoc(Nil, CB.Event.Cutoff(on))
    case _ => Nil
  }

  /** The questions, recorded outcomes and cutoff toggles of a run that began in state `s`. */
  function BreakerRun(g: Settings, s: State, acts: Trace<Action>): CB.Events {
    match acts
    case Nil => Nil
    case Snoc(past, a) =>
      var run, e := BreakerRun(g, s, past), BreakerEvent(g, Continue(g, s, past), a);
      if e.Snoc? then Snoc(run, e.last) else run
  }

  lemma BreakerStep(g: Settings, s: State, a: Action)
    ensures var e := BreakerEvent(g, s, a);
            Act(g, s, a).breaker == if e.Snoc? then CB.Step(g.breaker, s.breaker, e.last) else s.breaker
  {}

  lemma {:induction false} BreakerSeesItsRun(g: Settings, s: State, acts: Trace<Action>)
    ensures Continue(g, s, acts).breaker == CB.From(g.breaker, s.breaker, BreakerRun(g, s, acts))
  {
    if acts.Snoc? {
      BreakerSeesItsRun(g, s, acts.init);
      BreakerStep(g, Continue(g, s, acts.init), acts.last);
    }
  }

  lemma {:induction false} AfterContinues(g: Settings, start: int, acts: Trace<Action>)
    ensures After(g, start, acts) == Continue(g, Init(start), acts)
  {
    if acts.Snoc? { AfterContinues(g, start, acts.init); }
  }

  /** In every run of the gateway the breaker keeps its invariant. */
  lemma BreakerAlwaysOk(g: Settings, start: int, acts: Trace<Action>)
    requires g.breaker.Valid()
    ensures CB.Inv(g.breaker, After(g, start, acts).breaker)
  {
    AfterContinues(g, start, acts);
    BreakerSeesItsRun(g, Init(start), acts);
    CB.Invariant(g.breaker, start, BreakerRun(g, Init(start), acts));
  }

  // ---------- The load on a failing upstream ----------

  predicate Forwards(g: Settings, s: State, a: Action) {
    a.Advance? && a.id in s.requests && s.requests[a.id].stage.Passed?
    && NextRequest(g, s, s.requests[a.id]).stage.InFlight?
  }

  /** When requests were forwarded upstream, whoever sent them. */
  function ForwardTimes(g: Settings, s: State, acts: Trace<Action>): Trace<int> {
    match acts
    case Nil => Nil
    case Snoc(past, a) =>
      var now := Continue(g, s, past);
      if Forwards(g, now, a) then Snoc(ForwardTimes(g, s, past), now.clock) else ForwardTimes(g, s, past)
  }

  /** No reply of the run is a fast 200-399. */
  ghost predicate NoGoodReply(g: Settings, s: State, acts: Trace<Action>) {
    acts.Snoc? ==> NoGoodReply(g, s, acts.init) && !RecordsSuccess(g, Continue(g, s, acts.init), acts.last)
  }

  predicate RecordsSuccess(g: Settings, s: State, a: Action) {
    && a.Complete? && a.id in s.requests && s.requests[a.id].stage.InFlight?
    && IsSuccess(g.breaker, a.reply, Latency(s, a.id))
  }

  lemma {:induction false} ForwardsAreAdmissions(g: Settings, s: State, acts: Trace<Action>)
    ensures CB.AdmissionTimes(g.breaker, s.breaker, BreakerRun(g, s, acts)) == ForwardTimes(g, s, acts)
  {
    if acts.Snoc? {
      ForwardsAreAdmissions(g, s, acts.init);
      BreakerSeesItsRun(g, s, acts.init);
    }
  }

  lemma BreakerEventTime(g: Settings, s: State, a: Action)
    ensures Act(g, s, a).clock >= s.clock
    ensures var e := BreakerEvent(g, s, a);
            e.Snoc? ==>
              && (!e.last.Cutoff? ==> e.last.now == s.clock)
              && (e.last.Succeeded? ==> RecordsSuccess(g, s, a))
  {}

  lemma {:induction false} BreakerClock(g: Settings, s: State, acts: Trace<Action>)
    ensures CB.SinceTime(BreakerRun(g, s, acts), s.clock)
    ensures CB.TimeAfter(BreakerRun(g, s, acts), s.clock) <= Continue(g, s, acts).clock
    ensures NoGoodReply(g, s, acts) ==> CB.NoSuccess(BreakerRun(g, s, acts))
  {
    if acts.Snoc? {
      BreakerClock(g, s, acts.init);
      BreakerEventTime(g, Continue(g, s, acts.init), acts.last);
    }
  }

  /** However many clients there are, once the breaker is down and until the upstream gives a
      good reply, requests reach it at least one cooldown apart: n of them take n - 1 cooldowns. */
  lemma GatewayOutageLoad(g: Settings, s: State, acts: Trace<Action>)
    requires CB.Down(s.breaker) && s.breaker.lastChange <= s.clock && NoGoodReply(g, s, acts)
    ensures var h := ForwardTimes(g, s, acts);
            && CB.Spread(h, g.breaker.cooldown)
            && (h.Snoc? ==> (Size(h) - 1) * g.breaker.cooldown <= h.last - CB.First(h))
  {
    ForwardsAreAdmissions(g, s, acts);
    BreakerClock(g, s, acts);
    CB.OutageLoad(g.breaker, s.breaker, BreakerRun(g, s, acts), s.clock);
  }
}
