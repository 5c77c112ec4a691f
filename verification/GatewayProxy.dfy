/** internal/proxy/proxy.go: `serveInternal` itself, over the three component objects. */
module GatewayProxy {
  import opened Gateway
  import opened Options
  import RateLimit
  import SW = SlidingWindow
  import CB = CircuitBreaker
  import SC = SmartCache

  /** One request served from arrival to answer with no other step in between; the upstream, if
      it is asked, answers `d` nanoseconds after the arrival. Steps the request does not take
      leave the state alone. */
  function Arrived(g: Settings, s: State, id: Id, apiKey: string, cacheKey: string): State {
    Act(g, Act(g, s, Arrive(id, apiKey, cacheKey)), Advance(id))
  }

  function Answered(g: Settings, s: State, id: Id, d: nat, reply: Upstream): State {
    Act(g, Act(g, s, Pass(d)), Complete(id, reply))
  }

  function Rested(g: Settings, s: State, id: Id): State { Act(g, Act(g, s, Advance(id)), Advance(id)) }

  function Served(
    g: Settings, s: State, id: Id, apiKey: string, cacheKey: string, d: nat, reply: Upstream): State
  {
    Rested(g, Answered(g, Act(g, Arrived(g, s, id, apiKey, cacheKey), Advance(id)), id, d, reply), id)
  }

  /** An answered request takes no further step. */
  lemma AnsweredIsDone(g: Settings, s: State, id: Id, reply: Upstream)
    requires id in s.requests && s.requests[id].stage.Finished?
    ensures Act(g, s, Advance(id)) == s && Act(g, s, Complete(id, reply)) == s
  {
    assert s.requests[id := s.requests[id]] == s.requests;
  }

  lemma BlockedIsDone(g: Settings, s: State, id: Id, d: nat, reply: Upstream)
    requires id in s.requests && s.requests[id].stage.Finished?
    ensures Rested(g, Answered(g, Act(g, s, Advance(id)), id, d, reply), id) == Act(g, s, Pass(d))
  {
    AnsweredIsDone(g, s, id, reply);
    AnsweredIsDone(g, Act(g, s, Pass(d)), id, reply);
  }

  class GatewayProxy {
    const settings: Settings
    const limiter: SW.InMemoryLimiter
    const circuitBreaker: CB.CircuitBreaker
    const smartCache: SC.SmartCache
    var metrics: Metrics

    ghost predicate Valid() reads this, limiter {
      limiter.Valid() && settings.breaker == circuitBreaker.Config()
    }

    /** The objects hold the components of machine state `s`. */
    ghost predicate Shows(s: State) reads this, limiter, circuitBreaker, smartCache {
      && limiter.State() == s.limiter
      && circuitBreaker.State() == s.breaker
      && smartCache.entries == s.cache
      && metrics == s.metrics
    }

    constructor (settings: Settings, now: int)
      requires settings.breaker.Valid()
      ensures Valid() && Shows(Init(now)) && this.settings == settings
      ensures fresh(limiter) && fresh(circuitBreaker) && fresh(smartCache)
    {
      this.settings := settings;
      limiter := new SW.InMemoryLimiter();
      circuitBreaker := new CB.CircuitBreaker(
        settings.breaker.threshold, settings.breaker.latencyLimit, settings.breaker.cooldown, now);
      smartCache := new SC.SmartCache();
      metrics := Metrics(0, 0, 0, 0);
    }

    /** The limiter's part, up to the count of the verdict. */
    method Admit(now: int, apiKey: string, cacheKey: string, ghost s: State, ghost id: Id)
      returns (admitted: bool)
      requires Valid() && limiter.InTime(apiKey, now / SECOND)
      requires Shows(s) && s.clock == now && id !in s.requests
      modifies this, limiter
      ensures Valid() && limiter.InTime(apiKey, now / SECOND)
      ensures var s' := Arrived(settings, s, id, apiKey, cacheKey);
              && Shows(s') && id in s'.requests
              && s'.clock == now && s'.requests[id].cacheKey == cacheKey
              && s'.requests[id].stage == if admitted then Passed else Finished(TooManyRequests)
    {
      var l := settings.limits(apiKey);
      var r := limiter.Check(now / SECOND, apiKey, l.soft, l.hard, l.window);
      match r.status {
        case NORMAL => metrics := metrics.(normal := metrics.normal + 1);
        case BURST => metrics := metrics.(burst := metrics.burst + 1);
        case BLOCKED => metrics := metrics.(blocked := metrics.blocked + 1);
      }
      admitted := r.status != RateLimit.BLOCKED;
    }

    /** A fallback if there is one. */
    method ServeFallback(cacheKey: string, otherwise: Answer, ghost s: State, ghost id: Id) returns (answer: Answer)
      requires Valid() && Shows(s) && id in s.requests && s.requests[id].cacheKey == cacheKey
      requires NextRequest(settings, s, s.requests[id]).stage == FromCache(s.cache, cacheKey, otherwise)
      requires s.requests[id].stage.Refused? || s.requests[id].stage.Failing?
      modifies this
      ensures Valid() && Shows(Rested(settings, s, id))
      ensures Rested(settings, s, id).requests[id].stage == Finished(answer)
    {
      var entry := smartCache.Get(cacheKey);
      if entry.Some? {
        metrics := metrics.(fallbacks := metrics.fallbacks + 1);
        return StaleFallback(entry.value.status, entry.value.page);
      }
      return otherwise;
    }

    /** What becomes of the upstream's reply. */
    method Settle(start: int, later: int, cacheKey: string, reply: Upstream, ghost s: State, ghost id: Id)
      returns (answer: Answer)
      requires Valid() && Shows(s) && s.clock == later
      requires id in s.requests && s.requests[id].cacheKey == cacheKey && s.requests[id].stage.InFlight?
      requires s.requests[id].sent == start
      modifies this, circuitBreaker, smartCache
      ensures Valid()
      ensures var s' := Rested(settings, Act(settings, s, Complete(id, reply)), id);
              Shows(s') && id in s'.requests && s'.requests[id].stage == Finished(answer)
    {
      var latency := later - start;
      ghost var s1 := Act(settings, s, Complete(id, reply));
      if reply.NetError? {
        circuitBreaker.RecordFailure(later, latency);
        answer := ServeFallback(cacheKey, BadGateway, s1, id);
      } else if reply.Aborted? {
        answer := NoAnswer;
      } else if reply.status >= 500 || latency >= circuitBreaker.latencyThreshold {
        circuitBreaker.RecordFailure(later, latency);
        answer := ServeFallback(cacheKey, Flushed(reply.status, reply.page), s1, id);
      } else {
        if 200 <= reply.status < 400 {
          circuitBreaker.RecordSuccess(later);
          var ttl := settings.ttlSeconds * SECOND;
          if ttl <= 0 {
            ttl := 300 * SECOND;
          }
          smartCache.Set(cacheKey, reply.status, reply.page.header, reply.page.body, ttl, later);
        }
        answer := Flushed(reply.status, reply.page);
      }
    }

    /** The breaker's part and the rest. */
    method Forward(
        now: int, cacheKey: string, d: nat, reply: Upstream, ghost s: State, ghost id: Id)
      returns (answer: Answer)
      requires Valid() && Shows(s) && s.clock == now
      requires id in s.requests && s.requests[id].cacheKey == cacheKey && s.requests[id].stage.Passed?
      modifies this, circuitBreaker, smartCache
      ensures Valid()
      ensures var s' := Rested(settings, Answered(settings, Act(settings, s, Advance(id)), id, d, reply), id);
              Shows(s') && id in s'.requests && s'.requests[id].stage == Finished(answer)
    {
      ghost var s1 := Act(settings, Act(settings, s, Advance(id)), Pass(d));
      var allowed, _ := circuitBreaker.AllowRequest(now);
      if !allowed {
        assert Act(settings, s1, Complete(id, reply)) == s1;
        answer := ServeFallback(cacheKey, Unavailable, s1, id);
      } else {
        answer := Settle(now, now + d, cacheKey, reply, s1, id);
      }
    }

    /** Served alone, a request takes exactly the machine's steps and gets its answer. */
    method ServeInternal(
        now: int, apiKey: string, cacheKey: string, d: nat, reply: Upstream, ghost s: State, ghost id: Id)
      returns (answer: Answer)
      requires Valid() && limiter.InTime(apiKey, now / SECOND)
      requires Shows(s) && s.clock == now && id !in s.requests
      modifies this, limiter, circuitBreaker, smartCache
      ensures Valid()
      ensures var s' := Served(settings, s, id, apiKey, cacheKey, d, reply);
              Shows(s') && id in s'.requests && s'.requests[id].stage == Finished(answer)
    {
      var admitted := Admit(now, apiKey, cacheKey, s, id);
      ghost var s1 := Arrived(settings, s, id, apiKey, cacheKey);
      if !admitted {
        BlockedIsDone(settings, s1, id, d, reply);
        return TooManyRequests;
      }
      answer := Forward(now, cacheKey, d, reply, s1, id);
    }
  }
}
