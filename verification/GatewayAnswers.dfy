/** Whole runs of the gateway: what a client is answered, from what happened to its request. */
module GatewayAnswers {
  import opened Options
  import opened Traces
  import opened Gateway
  import opened GatewayFallbacks
  import RateLimit
  import CB = CircuitBreaker
  import SC = SmartCache

  /** What the upstream gave to a request. */
  function ReplyTo(replies: Trace<Reply>, id: Id): Option<Reply> {
    match replies
    case Nil => None
    case Snoc(past, r) => if r.id == id then Some(r) else ReplyTo(past, id)
  }

  /** A network error, a 5xx, or a reply as slow as the limit. */
  predicate Failed(c: CB.Settings, r: Reply) {
    r.reply.NetError? || (r.reply.Response? && (r.reply.status >= 500 || r.latency >= c.latencyLimit))
  }

  /** The request had to look into the cache: the breaker refused it or its flight failed. */
  predicate NeedsFallback(c: CB.Settings, q: Request, got: Option<Reply>) {
    q.route == RefusedByBreaker || (got.Some? && Failed(c, got.value))
  }

  // ---------- Each stage knows what happened ----------

  ghost predicate AnswerOk(c: CB.Settings, q: Request, got: Option<Reply>, answer: Answer) {
    match answer
    case TooManyRequests => q.route == Blocked && got.None?
    case Unavailable => q.route == RefusedByBreaker && got.None?
    case StaleFallback(_, _) => NeedsFallback(c, q, got) && q.route != Blocked
    case BadGateway => q.route == Forwarded && got.Some? && got.value.reply.NetError?
    case Flushed(status, page) => q.route == Forwarded && got.Some? && got.value.reply == Response(status, page)
    case NoAnswer => q.route == Forwarded && got.Some? && got.value.reply.Aborted?
  }

  ghost predicate Honest(c: CB.Settings, q: Request, got: Option<Reply>) {
    && (got.Some? ==> q.route == Forwarded)
    && (!q.stage.Checked? ==> (q.verdict == RateLimit.BLOCKED <==> q.route == Blocked))
    && match q.stage
       case Checked => q.route == Unrouted && got.None?
       case Passed => q.route == Unrouted && got.None?
       case Refused => q.route == RefusedByBreaker && got.None?
       case InFlight => q.route == Forwarded && got.None?
       case Failing(reply) => got.Some? && got.value.reply == reply && Failed(c, got.value)
       case Storing(status, page, latency) =>
         got.Some? && got.value.reply == Response(status, page) && !Failed(c, got.value)
       case Serving(_, _) => NeedsFallback(c, q, got) && q.route != Blocked
       case Finished(answer) => AnswerOk(c, q, got, answer)
  }

  ghost predicate AllHonest(c: CB.Settings, s: State) {
    && (forall id :: id in s.requests ==> Honest(c, s.requests[id], ReplyTo(s.replies, id)))
    && (forall id :: id !in s.requests ==> ReplyTo(s.replies, id).None?)
  }

  lemma NextIsHonest(g: Settings, s: State, q: Request, got: Option<Reply>)
    requires Honest(g.breaker, q, got)
    ensures Honest(g.breaker, NextRequest(g, s, q), got)
  {}

  lemma CompletedIsHonest(c: CB.Settings, id: Id, q: Request, reply: Upstream, latency: int)
    requires Honest(c, q, None) && q.stage.InFlight?
    ensures Honest(c, Completed(c, q, reply, latency), Some(Reply(id, q.cacheKey, reply, latency)))
  {}

  lemma CompleteHonest(g: Settings, s: State, id: Id, reply: Upstream)
    requires AllHonest(g.breaker, s) && id in s.requests && s.requests[id].stage.InFlight?
    ensures AllHonest(g.breaker, CompleteStep(g, s, id, reply))
  {
    assert Honest(g.breaker, s.requests[id], ReplyTo(s.replies, id));
    CompletedIsHonest(g.breaker, id, s.requests[id], reply, Latency(s, id));
  }

  lemma HonestStep(g: Settings, s: State, a: Action)
    requires AllHonest(g.breaker, s)
    ensures AllHonest(g.breaker, Act(g, s, a))
  {
    if a.Advance? && a.id in s.requests {
      NextIsHonest(g, s, s.requests[a.id], ReplyTo(s.replies, a.id));
    } else if a.Complete? && a.id in s.requests && s.requests[a.id].stage.InFlight? {
      CompleteHonest(g, s, a.id, a.reply);
    }
  }

  lemma {:induction false} AlwaysHonest(g: Settings, start: int, acts: Trace<Action>)
    ensures AllHonest(g.breaker, After(g, start, acts))
  {
    if acts.Snoc? {
      AlwaysHonest(g, start, acts.init);
      HonestStep(g, After(g, start, acts.init), acts.last);
    }
  }

  // ---------- What the cache held when it was read ----------

  /** What the cache holds for a method and URI. */
  function Held(cache: SC.Entries, k: string): Option<(int, SC.Page)> {
    if k in cache then Some((cache[k].status, cache[k].page)) else None
  }

  ghost predicate HasRead(c: CB.Settings, s: State, id: Id) {
    && id in s.requests && (s.requests[id].stage.Serving? || s.requests[id].stage.Finished?)
    && NeedsFallback(c, s.requests[id], ReplyTo(s.replies, id))
  }

  ghost predicate ReadsNow(s: State, id: Id, q: Request) {
    && id in s.requests && Reading(s.requests[id]) && s.requests[id].cacheKey == q.cacheKey
    && Served(q) == Held(s.cache, q.cacheKey)
  }

  lemma ReadStep(g: Settings, s: State, a: Action, id: Id)
    requires AllHonest(g.breaker, s) && HasRead(g.breaker, Act(g, s, a), id)
    ensures var q' := Act(g, s, a).requests[id];
            || ReadsNow(s, id, q')
            || (HasRead(g.breaker, s, id)
                && Served(s.requests[id]) == Served(q') && s.requests[id].cacheKey == q'.cacheKey)
  {
    assert id in s.requests ==> Honest(g.breaker, s.requests[id], ReplyTo(s.replies, id));
  }

  lemma {:induction false} ReadMoment(g: Settings, start: int, acts: Trace<Action>, id: Id) returns (p: Trace<Action>)
    requires HasRead(g.breaker, After(g, start, acts), id)
    ensures Prefix(p, acts) && ReadsNow(After(g, start, p), id, After(g, start, acts).requests[id])
  {
    var s := After(g, start, acts.init);
    AlwaysHonest(g, start, acts.init);
    ReadStep(g, s, acts.last, id);
    if ReadsNow(s, id, After(g, start, acts).requests[id]) {
      p := acts.init;
    } else {
      p := ReadMoment(g, start, acts.init, id);
    }
  }

  // ---------- Every answer ----------

  /** For every run and every answered request: `got` is what the upstream gave it, and if it had to
      look into the cache, `p` is the moment of the run at which it did and `found` what was there.
      Blocked requests are told so, and nobody else; a request the breaker refused gets the
      fallback found, or else is told that the upstream is unavailable; a failed flight gets the
      fallback found, or else its own reply, or for a network error a bad gateway; any other flight
      gets exactly the status and page the upstream gave; and one that was aborted gets nothing. */
  lemma AnswersAreHonest(g: Settings, start: int, acts: Trace<Action>, id: Id)
    returns (p: Trace<Action>, found: Option<(int, SC.Page)>)
    requires var s := After(g, start, acts); id in s.requests && s.requests[id].stage.Finished?
    ensures Prefix(p, acts)
    ensures var s := After(g, start, acts);
            var q, got := s.requests[id], ReplyTo(s.replies, id);
            var answer, failed := q.stage.answer, got.Some? && Failed(g.breaker, got.value);
            && (NeedsFallback(g.breaker, q, got) ==>
                  && var s' := After(g, start, p);
                     id in s'.requests && Reading(s'.requests[id]) && found == Held(s'.cache, q.cacheKey))
            && (q.route == Forwarded <==> got.Some?)
            && (answer == TooManyRequests <==> q.verdict == RateLimit.BLOCKED)
            && (answer == Unavailable <==> q.route == RefusedByBreaker && found.None?)
            && (answer == BadGateway <==> got.Some? && got.value.reply.NetError? && found.None?)
            && (answer == NoAnswer <==> got.Some? && got.value.reply.Aborted?)
            && (forall status, page :: answer == StaleFallback(status, page) <==>
                  (q.route == RefusedByBreaker || failed) && found == Some((status, page)))
            && (forall status, page :: answer == Flushed(status, page) <==>
                  got.Some? && got.value.reply == Response(status, page) && (failed ==> found.None?))
  {
    var s := After(g, start, acts);
    AlwaysHonest(g, start, acts);
    assert Honest(g.breaker, s.requests[id], ReplyTo(s.replies, id));
    p, found := acts, None;
    if NeedsFallback(g.breaker, s.requests[id], ReplyTo(s.replies, id)) {
      p := ReadMoment(g, start, acts, id);
      found := Held(After(g, start, p).cache, s.requests[id].cacheKey);
    }
  }

  // ---------- Every route ----------

  /** At this state the request asks the breaker, which lets it through or not. */
  ghost predicate AsksNow(g: Settings, s: State, id: Id, q: Request) {
    && id in s.requests && s.requests[id].stage.Passed?
    && (q.route == Forwarded <==> CB.Allow(g.breaker, s.breaker, s.clock).1)
    && (q.route == Forwarded ==> q.sent == s.clock)
  }

  predicate AskedBreaker(q: Request) { q.route == Forwarded || q.route == RefusedByBreaker }

  lemma RouteStep(g: Settings, s: State, a: Action, id: Id)
    requires AllHonest(g.breaker, s)
    requires id in Act(g, s, a).requests && AskedBreaker(Act(g, s, a).requests[id])
    ensures var q' := Act(g, s, a).requests[id];
            || AsksNow(g, s, id, q')
            || (id in s.requests && s.requests[id].route == q'.route && s.requests[id].sent == q'.sent)
  {
    assert id in s.requests ==> Honest(g.breaker, s.requests[id], ReplyTo(s.replies, id));
  }

  /** Every request that got past the limiter was routed as the breaker said when it was asked, at
      the moment `p` of the run; if forwarded, that is when it was sent. */
  lemma {:induction false} RoutedByBreaker(g: Settings, start: int, acts: Trace<Action>, id: Id)
    returns (p: Trace<Action>)
    requires var s := After(g, start, acts); id in s.requests && AskedBreaker(s.requests[id])
    ensures Prefix(p, acts) && AsksNow(g, After(g, start, p), id, After(g, start, acts).requests[id])
  {
    var s := After(g, start, acts.init);
    AlwaysHonest(g, start, acts.init);
    RouteStep(g, s, acts.last, id);
    if AsksNow(g, s, id, After(g, start, acts).requests[id]) {
      p := acts.init;
    } else {
      p := RoutedByBreaker(g, start, acts.init, id);
    }
  }
}
