/** Whole runs of the gateway: the breaker's probe slot, and the one way to lose it. */
module GatewayProbe {
  import opened Traces
  import opened Gateway
  import opened GatewayRuns
  import SC = SmartCache
  import CB = CircuitBreaker

  ghost function Flying(requests: map<Id, Request>): set<Id> {
    set id | id in requests && requests[id].stage.InFlight?
  }

  predicate ProbeTaken(b: CB.Breaker) { b.phase.HalfOpen? && b.probing }

  /** A taken probe slot belongs to somebody who will report back. */
  ghost predicate ProbeCovered(s: State) { ProbeTaken(s.breaker) ==> Flying(s.requests) != {} }

  /** The one way to lose the probe: the last request in flight ends in a way that records
      neither success nor failure. */
  ghost predicate LosesProbe(g: Settings, s: State, a: Action) {
    && a.Complete? && a.id in s.requests && s.requests[a.id].stage.InFlight?
    && ProbeTaken(s.breaker) && Flying(s.requests) == {a.id}
    && IsNeutral(g.breaker, a.reply, Latency(s, a.id))
  }

  lemma FlyingAfter(requests: map<Id, Request>, id: Id, q: Request)
    ensures Flying(requests[id := q])
            == Flying(requests) - {id} + if q.stage.InFlight? then {id} else {}
  {}

  /** Every step keeps the probe slot covered, except exactly that one. */
  lemma ProbeStep(g: Settings, s: State, a: Action)
    requires ProbeCovered(s) && CB.Inv(g.breaker, s.breaker)
    ensures ProbeCovered(Act(g, s, a)) <==> !LosesProbe(g, s, a)
  {
    match a
    case Arrive(id, apiKey, cacheKey) =>
      if id !in s.requests { FlyingAfter(s.requests, id, ArriveStep(g, s, id, apiKey, cacheKey).requests[id]); }
    case Advance(id) =>
      if id in s.requests { FlyingAfter(s.requests, id, NextRequest(g, s, s.requests[id])); }
    case Complete(id, reply) =>
      if id in s.requests { FlyingAfter(s.requests, id, Completed(g.breaker, s.requests[id], reply, Latency(s, id))); }
    case _ =>
  }

  /** Half-open, the slot taken and nobody in flight. */
  ghost predicate Wedged(s: State) { ProbeTaken(s.breaker) && Flying(s.requests) == {} }

  lemma WedgedStep(g: Settings, s: State, a: Action)
    requires Wedged(s)
    ensures Wedged(Act(g, s, a)) && !Forwards(g, s, a)
  {
    match a
    case Arrive(id, apiKey, cacheKey) =>
      if id !in s.requests { FlyingAfter(s.requests, id, ArriveStep(g, s, id, apiKey, cacheKey).requests[id]); }
    case Advance(id) =>
      if id in s.requests {
        assert id !in Flying(s.requests);
        FlyingAfter(s.requests, id, NextRequest(g, s, s.requests[id]));
      }
    case Complete(id, _) => assert id !in Flying(s.requests);
    case _ =>
  }

  /** From there no continuation, whatever the clock and the cutoff do, ever forwards a request. */
  lemma {:induction false} WedgedForEver(g: Settings, s: State, acts: Trace<Action>)
    requires Wedged(s)
    ensures Wedged(Continue(g, s, acts)) && ForwardTimes(g, s, acts) == Nil
  {
    if acts.Snoc? {
      WedgedForEver(g, s, acts.init);
      WedgedStep(g, Continue(g, s, acts.init), acts.last);
    }
  }

  // ---------- Whole runs ----------

  /** Some step of the run loses the probe. */
  ghost predicate ProbeLostIn(g: Settings, start: int, acts: Trace<Action>) {
    acts.Snoc? && (ProbeLostIn(g, start, acts.init) || LosesProbe(g, After(g, start, acts.init), acts.last))
  }

  /** For every run: the gateway is wedged after it if and only if one of its steps lost the probe. */
  lemma {:induction false} WedgedExactly(g: Settings, start: int, acts: Trace<Action>)
    requires g.breaker.Valid()
    ensures ProbeCovered(After(g, start, acts)) <==> !Wedged(After(g, start, acts))
    ensures Wedged(After(g, start, acts)) <==> ProbeLostIn(g, start, acts)
  {
    if acts.Snoc? {
      var s := After(g, start, acts.init);
      WedgedExactly(g, start, acts.init);
      if Wedged(s) {
        WedgedStep(g, s, acts.last);
      } else {
        BreakerAlwaysOk(g, start, acts.init);
        ProbeStep(g, s, acts.last);
      }
    }
  }

  /** The step ends a flight that records nothing. */
  predicate EndsNeutral(g: Settings, s: State, a: Action) {
    && a.Complete? && a.id in s.requests && s.requests[a.id].stage.InFlight?
    && IsNeutral(g.breaker, a.reply, Latency(s, a.id))
  }

  ghost predicate NoNeutralEnd(g: Settings, start: int, acts: Trace<Action>) {
    acts.Snoc? ==> NoNeutralEnd(g, start, acts.init) && !EndsNeutral(g, After(g, start, acts.init), acts.last)
  }

  /** In particular, if every flight records something the probe slot is never lost. */
  lemma {:induction false} ProbeStaysCovered(g: Settings, start: int, acts: Trace<Action>)
    requires g.breaker.Valid() && NoNeutralEnd(g, start, acts)
    ensures ProbeCovered(After(g, start, acts))
  {
    OnlyNeutralLoses(g, start, acts);
    WedgedExactly(g, start, acts);
  }

  lemma {:induction false} OnlyNeutralLoses(g: Settings, start: int, acts: Trace<Action>)
    requires NoNeutralEnd(g, start, acts)
    ensures !ProbeLostIn(g, start, acts)
  {
    if acts.Snoc? { OnlyNeutralLoses(g, start, acts.init); }
  }

  // ---------- How it happens ----------

  /** One failure as slow as the latency limit opens the breaker; after the cooldown the next
      request is the probe. */
  function Outage(g: Settings, k: string, uri: string): Trace<Action>
    requires g.breaker.Valid()
  {
    var slow := Snoc(Enter(Nil, 1, k, uri), Pass(g.breaker.latencyLimit));
    Snoc(Snoc(slow, Complete(1, NetError)), Pass(g.breaker.cooldown))
  }

  lemma OutageOpens(g: Settings, start: int, k: string, k': string, uri: string)
    requires g.breaker.Valid() && g.limits(k).soft >= 1 && k != k'
    ensures var s := After(g, start, Outage(g, k, uri));
            && s.breaker.phase.Open? && !s.breaker.cutoff && s.clock - s.breaker.lastChange == g.breaker.cooldown
            && s.requests.Keys == {1} && !s.requests[1].stage.InFlight? && s.limiter.Window(k') == Nil
  {
    EnterForwards(g, start, Nil, 1, k, uri);
    var acts := Enter(Nil, 1, k, uri);
    var slow := Snoc(acts, Pass(g.breaker.latencyLimit));
    var s1, s2 := After(g, start, slow), After(g, start, Snoc(slow, Complete(1, NetError)));
    assert s1.breaker == CB.New(start) && Latency(s1, 1) == g.breaker.latencyLimit;
    assert s2.requests[1].stage.Failing? && s2.breaker.phase.Open?;
  }

  /** The probe after an outage, which comes back after `latency`. */
  function Probed(g: Settings, k: string, k': string, uri: string, reply: Upstream, latency: nat): Trace<Action>
    requires g.breaker.Valid()
  {
    Snoc(Snoc(Enter(Outage(g, k, uri), 2, k', uri), Pass(latency)), Complete(2, reply))
  }

  /** From the start, under any settings that let one request of each of two keys through: any
      flight that records nothing, if it is the first probe after an outage, wedges the gateway.
      A fast 404 is such a flight, and so is one that the client breaks off. */
  lemma ProbeIsLost(
    g: Settings, start: int, k: string, k': string, uri: string, reply: Upstream, latency: nat)
    requires g.breaker.Valid() && g.limits(k).soft >= 1 && g.limits(k').soft >= 1 && k != k'
    requires IsNeutral(g.breaker, reply, latency)
    ensures Wedged(After(g, start, Probed(g, k, k', uri, reply, latency)))
  {
    OutageOpens(g, start, k, k', uri);
    var acts := Outage(g, k, uri);
    var s := After(g, start, acts);
    EnterForwards(g, start, acts, 2, k', uri);
    var s1 := After(g, start, Enter(acts, 2, k', uri));
    var s2 := After(g, start, Snoc(Enter(acts, 2, k', uri), Pass(latency)));
    assert s2 == s1.(clock := s1.clock + latency) && Latency(s2, 2) == latency;
    assert Flying(s.requests) == {};
    FlyingAfter(s.requests, 2, s1.requests[2]);
    FlyingAfter(s1.requests, 2, Completed(g.breaker, s1.requests[2], reply, latency));
  }

  lemma NeutralFlights(c: CB.Settings, page: SC.Page, latency: int)
    requires c.Valid()
    ensures IsNeutral(c, Aborted, latency)
    ensures IsNeutral(c, Response(404, page), latency) <==> latency < c.latencyLimit
  {}
}
