/** internal/proxy/proxy.go: `serveInternal` from the limiter to the flush, for any number of
    requests at once. Each call into the limiter, the breaker, the cache or the metrics is one
    step. The clock is in nanoseconds; the limiter reads it in whole seconds. */
module Gateway {
  import opened Traces
  import RateLimit
  import SW = SlidingWindow
  import CB = CircuitBreaker
  import SC = SmartCache

  type Id = nat

  const SECOND := 1_000_000_000

  datatype Settings = Settings(limits: RateLimit.Config, breaker: CB.Settings, ttlSeconds: int) {
    function Ttl(): int { if ttlSeconds <= 0 then 300 * SECOND else ttlSeconds * SECOND }
  }

  /** What the reverse proxy reports. It aborts the handler when a body cannot be copied to its
      end, because the client left or the upstream cut it: nothing after the call then runs. */
  datatype Upstream = NetError | Response(status: int, page: SC.Page) | Aborted

  datatype Answer =
    | TooManyRequests
    | Unavailable
    | StaleFallback(status: int, page: SC.Page)
    | BadGateway
    | Flushed(status: int, page: SC.Page)
    | NoAnswer

  datatype Route = Unrouted | Blocked | RefusedByBreaker | Forwarded

  datatype Stage =
    | Checked                                            // the limiter has answered
    | Passed                                             // counted, about to ask the breaker
    | Refused                                            // refused by the breaker, about to read the cache
    | InFlight                                           // forwarded upstream
    | Failing(reply: Upstream)                           // failure recorded, about to read the cache
    | Storing(status: int, page: SC.Page, latency: int)   // success recorded, about to store the reply
    | Serving(status: int, page: SC.Page)                 // fallback sent, about to be counted
    | Finished(answer: Answer)

  /** `arrived` is when the limiter was asked, in seconds, and `sent` when the request was forwarded. */
  datatype Request = Request(
    apiKey: string, cacheKey: string, arrived: int, verdict: RateLimit.Status, route: Route, sent: int, stage: Stage)

  function NewRequest(apiKey: string, cacheKey: string, arrived: int, verdict: RateLimit.Status): Request {
    Request(apiKey, cacheKey, arrived, verdict, Unrouted, 0, Checked)
  }

  datatype Metrics = Metrics(normal: nat, burst: nat, blocked: nat, fallbacks: nat)

  /** What the upstream gave to request `id`, which had this method and URI. */
  datatype Reply = Reply(id: Id, cacheKey: string, reply: Upstream, latency: int)

  /** Three histories: `replies` in the order the breaker learned of them, `stores` those of them
      that entered the cache, in the order they did, and `ops` the stores and evictions the cache
      has seen. */
  datatype State = State(
    limiter: SW.Log, breaker: CB.Breaker, cache: SC.Entries, requests: map<Id, Request>, metrics: Metrics, clock: int,
    replies: Trace<Reply>, stores: Trace<Reply>, ops: Trace<SC.Op>)

  function Init(now: int): State {
    State(SW.Empty, CB.New(now), map[], map[], Metrics(0, 0, 0, 0), now, Nil, Nil, Nil)
  }

  datatype Action =
    | Arrive(id: Id, apiKey: string, cacheKey: string)
    | Advance(id: Id)
    | Complete(id: Id, reply: Upstream)
    | BurstFreeze(on: bool)
    | Cutoff(on: bool)
    | Evict
    | Pass(d: nat)

  // ---------- How a reply is judged ----------

  predicate IsFailure(c: CB.Settings, reply: Upstream, latency: int) {
    reply.NetError? || (reply.Response? && (reply.status >= 500 || latency >= c.latencyLimit))
  }

  predicate IsSuccess(c: CB.Settings, reply: Upstream, latency: int) {
    reply.Response? && !IsFailure(c, reply, latency) && 200 <= reply.status < 400
  }

  /** Neither recorded: a fast 4xx, a status below 200, or an aborted flight. */
  predicate IsNeutral(c: CB.Settings, reply: Upstream, latency: int) {
    !IsFailure(c, reply, latency) && !IsSuccess(c, reply, latency)
  }

  // ---------- One step, component by component ----------

  function FromCache(m: SC.Entries, k: string, otherwise: Answer): Stage {
    if k in m then Serving(m[k].status, m[k].page) else Finished(otherwise)
  }

  function NextRequest(g: Settings, s: State, q: Request): Request {
    match q.stage
    case Checked =>
      if q.verdict == RateLimit.BLOCKED then q.(stage := Finished(TooManyRequests), route := Blocked)
      else q.(stage := Passed)
    case Passed =>
      if CB.Allow(g.breaker, s.breaker, s.clock).1 then q.(stage := InFlight, route := Forwarded, sent := s.clock)
      else q.(stage := Refused, route := RefusedByBreaker)
    case Refused => q.(stage := FromCache(s.cache, q.cacheKey, Unavailable))
    case Failing(reply) =>
      q.(stage := FromCache(s.cache, q.cacheKey,
                            if reply.Response? then Flushed(reply.status, reply.page) else BadGateway))
    case Storing(status, page, _) => q.(stage := Finished(Flushed(status, page)))
    case Serving(status, page) => q.(stage := Finished(StaleFallback(status, page)))
    case InFlight => q
    case Finished(_) => q
  }

  function NextMetrics(m: Metrics, q: Request): Metrics {
    match q.stage
    case Checked =>
      (match q.verdict
       case NORMAL => m.(normal := m.normal + 1)
       case BURST => m.(burst := m.burst + 1)
       case BLOCKED => m.(blocked := m.blocked + 1))
    case Serving(_, _) => m.(fallbacks := m.fallbacks + 1)
    case _ => m
  }

  function StoreOp(g: Settings, s: State, q: Request): SC.Op
    requires q.stage.Storing?
  {
    SC.Stored(q.cacheKey, q.stage.status, q.stage.page, g.Ttl(), s.clock)
  }

  /** The reply a request is about to store. */
  function StoredReply(id: Id, q: Request): Reply
    requires q.stage.Storing?
  {
    Reply(id, q.cacheKey, Response(q.stage.status, q.stage.page), q.stage.latency)
  }

  function AdvanceStep(g: Settings, s: State, id: Id): State
    requires id in s.requests
  {
    var q := s.requests[id];
    var s' := s.(requests := s.requests[id := NextRequest(g, s, q)], metrics := NextMetrics(s.metrics, q));
    match q.stage
    case Passed => s'.(breaker := CB.Allow(g.breaker, s.breaker, s.clock).0)
    case Storing(_, _, _) =>
      s'.(cache := SC.Apply(s.cache, StoreOp(g, s, q)), ops := Snoc(s.ops, StoreOp(g, s, q)),
          stores := Snoc(s.stores, StoredReply(id, q)))
    case _ => s'
  }

  function Completed(c: CB.Settings, q: Request, reply: Upstream, latency: int): Request {
    if IsFailure(c, reply, latency) then q.(stage := Failing(reply))
    else if IsSuccess(c, reply, latency) then q.(stage := Storing(reply.status, reply.page, latency))
    else q.(stage := Finished(if reply.Response? then Flushed(reply.status, reply.page) else NoAnswer))
  }

  function Recorded(c: CB.Settings, b: CB.Breaker, now: int, reply: Upstream, latency: int): CB.Breaker {
    if IsFailure(c, reply, latency) then CB.Failure(c, b, now, latency)
    else if IsSuccess(c, reply, latency) then CB.Success(b, now)
    else b
  }

  function ArriveStep(g: Settings, s: State, id: Id, apiKey: string, cacheKey: string): State {
    var (log, r) := SW.CheckStep(s.limiter, s.clock / SECOND, apiKey, g.limits(apiKey));
    s.(limiter := log,
       requests := s.requests[id := NewRequest(apiKey, cacheKey, s.clock / SECOND, r.status)])
  }

  /** How long the flight of a request has lasted. */
  function Latency(s: State, id: Id): int
    requires id in s.requests
  {
    s.clock - s.requests[id].sent
  }

  function CompleteStep(g: Settings, s: State, id: Id, reply: Upstream): State
    requires id in s.requests
  {
    var latency := Latency(s, id);
    s.(requests := s.requests[id := Completed(g.breaker, s.requests[id], reply, latency)],
       breaker := Recorded(g.breaker, s.breaker, s.clock, reply, latency),
       replies := Snoc(s.replies, Reply(id, s.requests[id].cacheKey, reply, latency)))
  }

  function Act(g: Settings, s: State, a: Action): State {
    match a
    case Arrive(id, apiKey, cacheKey) => if id in s.requests then s else ArriveStep(g, s, id, apiKey, cacheKey)
    case Advance(id) => if id in s.requests then AdvanceStep(g, s, id) else s
    case Complete(id, reply) =>
      if id in s.requests && s.requests[id].stage.InFlight? then CompleteStep(g, s, id, reply) else s
    case BurstFreeze(on) => s.(limiter := s.limiter.(frozen := on))
    case Cutoff(on) => s.(breaker := s.breaker.(cutoff := on))
    case Evict => s.(cache := SC.Apply(s.cache, SC.Evicted(s.clock)), ops := Snoc(s.ops, SC.Evicted(s.clock)))
    case Pass(d) => s.(clock := s.clock + d)
  }

  function After(g: Settings, start: int, acts: Trace<Action>): State {
    match acts
    case Nil => Init(start)
    case Snoc(past, a) => Act(g, After(g, start, past), a)
  }

  /** The state after a run that began in state `s`. */
  function Continue(g: Settings, s: State, acts: Trace<Action>): State {
    match acts
    case Nil => s
    case Snoc(past, a) => Act(g, Continue(g, s, past), a)
  }

  // ---------- A request that goes straight through ----------

  /** A new request comes in and is forwarded. */
  function Enter(acts: Trace<Action>, id: Id, k: string, uri: string): Trace<Action> {
    Snoc(Snoc(Snoc(acts, Arrive(id, k, uri)), Advance(id)), Advance(id))
  }

  /** Below the soft limit a new request passes the limiter. */
  lemma ArrivePasses(g: Settings, s: State, id: Id, k: string, uri: string)
    requires id !in s.requests && Size(s.limiter.Window(k)) < g.limits(k).soft
    ensures var s' := Act(g, Act(g, s, Arrive(id, k, uri)), Advance(id));
            && s'.requests == s.requests[id := NewRequest(k, uri, s.clock / SECOND, RateLimit.NORMAL).(stage := Passed)]
            && s' == s.(requests := s'.requests, limiter := s'.limiter,
                        metrics := s.metrics.(normal := s.metrics.normal + 1))
            && Size(s'.limiter.Window(k)) <= Size(s.limiter.Window(k)) + 1
            && forall k' :: k' != k ==> s'.limiter.Window(k') == s.limiter.Window(k')
  {
    SW.LiveIsSmaller(s.limiter.Window(k), s.clock / SECOND - g.limits(k).window);
    var s1 := Act(g, s, Arrive(id, k, uri));
    assert s1 == ArriveStep(g, s, id, k, uri);
  }

  /** If the breaker lets it, it is forwarded. */
  lemma EnterForwards(g: Settings, start: int, acts: Trace<Action>, id: Id, k: string, uri: string)
    requires var s := After(g, start, acts);
             && id !in s.requests && Size(s.limiter.Window(k)) < g.limits(k).soft
             && CB.Allow(g.breaker, s.breaker, s.clock).1
    ensures var s, s' := After(g, start, acts), After(g, start, Enter(acts, id, k, uri));
            && s'.requests
               == s.requests[id := Request(k, uri, s.clock / SECOND, RateLimit.NORMAL, Forwarded, s.clock, InFlight)]
            && s' == s.(requests := s'.requests, limiter := s'.limiter,
                        metrics := s.metrics.(normal := s.metrics.normal + 1),
                        breaker := CB.Allow(g.breaker, s.breaker, s.clock).0)
            && Size(s'.limiter.Window(k)) <= Size(s.limiter.Window(k)) + 1
            && forall k' :: k' != k ==> s'.limiter.Window(k') == s.limiter.Window(k')
  {
    var s := After(g, start, acts);
    ArrivePasses(g, s, id, k, uri);
    var acts1 := Snoc(acts, Arrive(id, k, uri));
    assert After(g, start, Snoc(acts1, Advance(id))) == Act(g, Act(g, s, Arrive(id, k, uri)), Advance(id));
  }
}
