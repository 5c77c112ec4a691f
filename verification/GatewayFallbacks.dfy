/** Whole runs of the gateway: what a STALE-FALLBACK answer carries. */
module GatewayFallbacks {
  import opened Options
  import opened Traces
  import opened Gateway
  import RateLimit
  import SW = SlidingWindow
  import CB = CircuitBreaker
  import SC = SmartCache

  // ---------- Replies and stores ----------

  ghost predicate Given(replies: Trace<Reply>, r: Reply) {
    replies.Snoc? && (replies.last == r || Given(replies.init, r))
  }

  /** A fast reply with a status in 200-399. */
  predicate IsGood(c: CB.Settings, r: Reply) {
    r.reply.Response? && 200 <= r.reply.status < 400 && r.latency < c.latencyLimit
  }

  /** The upstream gave this reply to this method and URI, fast and with a status in 200-399. */
  ghost predicate GaveGood(c: CB.Settings, replies: Trace<Reply>, k: string, status: int, page: SC.Page) {
    replies.Snoc? &&
      ((IsGood(c, replies.last) && replies.last.cacheKey == k && replies.last.reply == Response(status, page))
       || GaveGood(c, replies.init, k, status, page))
  }

  /** The last reply stored under a key, and the last good one the breaker learned of. */
  function LastStore(stores: Trace<Reply>, k: string): Option<Reply> {
    match stores
    case Nil => None
    case Snoc(past, r) => if r.cacheKey == k then Some(r) else LastStore(past, k)
  }

  function LastGood(c: CB.Settings, replies: Trace<Reply>, k: string): Option<Reply> {
    match replies
    case Nil => None
    case Snoc(past, r) => if r.cacheKey == k && IsGood(c, r) then Some(r) else LastGood(c, past, k)
  }

  ghost predicate AllGood(c: CB.Settings, replies: Trace<Reply>, stores: Trace<Reply>) {
    stores.Snoc? ==>
      && AllGood(c, replies, stores.init)
      && IsGood(c, stores.last) && Given(replies, stores.last)
  }

  lemma {:induction false} GivenIsGood(c: CB.Settings, replies: Trace<Reply>, r: Reply)
    requires Given(replies, r) && IsGood(c, r)
    ensures GaveGood(c, replies, r.cacheKey, r.reply.status, r.reply.page)
  {
    if replies.last != r { GivenIsGood(c, replies.init, r); }
  }

  lemma {:induction false} LastStoreIsGood(c: CB.Settings, replies: Trace<Reply>, stores: Trace<Reply>, k: string)
    requires AllGood(c, replies, stores)
    ensures var last := LastStore(stores, k);
            last.Some? ==>
              && IsGood(c, last.value) && last.value.cacheKey == k
              && GaveGood(c, replies, k, last.value.reply.status, last.value.reply.page)
  {
    if stores.Snoc? {
      if stores.last.cacheKey == k {
        GivenIsGood(c, replies, stores.last);
      } else {
        LastStoreIsGood(c, replies, stores.init, k);
      }
    }
  }

  lemma {:induction false} MoreReplies(c: CB.Settings, replies: Trace<Reply>, r: Reply, stores: Trace<Reply>)
    requires AllGood(c, replies, stores)
    ensures AllGood(c, Snoc(replies, r), stores)
  {
    if stores.Snoc? { MoreReplies(c, replies, r, stores.init); }
  }

  /** The cache's own history of stores is the gateway's. */
  ghost predicate Linked(ops: Trace<SC.Op>, stores: Trace<Reply>) {
    match ops
    case Nil => stores.Nil?
    case Snoc(past, Evicted(_)) => Linked(past, stores)
    case Snoc(past, Stored(k, status, page, _, _)) =>
      && stores.Snoc? && Linked(past, stores.init)
      && stores.last.cacheKey == k && stores.last.reply == Response(status, page)
  }

  lemma {:induction false} LinkedLast(ops: Trace<SC.Op>, stores: Trace<Reply>, k: string)
    requires Linked(ops, stores)
    ensures var op, r := SC.LastStored(ops, k), LastStore(stores, k);
            && (op.None? <==> r.None?)
            && (op.Some? ==> op.value.Stored? && r.value.reply == Response(op.value.status, op.value.page))
  {
    match ops
    case Nil =>
    case Snoc(past, Evicted(_)) => LinkedLast(past, stores, k);
    case Snoc(past, Stored(_, _, _, _, _)) => LinkedLast(past, stores.init, k);
  }

  // ---------- The cache ----------

  ghost predicate CacheOk(s: State) {
    s.cache == SC.After(s.ops) && SC.By(s.ops, s.clock) && Linked(s.ops, s.stores)
  }

  lemma {:induction false} ByLater(ops: Trace<SC.Op>, t: int, t': int)
    requires SC.By(ops, t) && t <= t'
    ensures SC.By(ops, t')
  {
    if ops.Snoc? { ByLater(ops.init, t, t'); }
  }

  lemma CacheStep(g: Settings, s: State, a: Action)
    requires CacheOk(s)
    ensures CacheOk(Act(g, s, a))
  {
    if a.Pass? { ByLater(s.ops, s.clock, s.clock + a.d); }
  }

  lemma {:induction false} CacheAlwaysOk(g: Settings, start: int, acts: Trace<Action>)
    ensures CacheOk(After(g, start, acts))
  {
    if acts.Snoc? {
      CacheAlwaysOk(g, start, acts.init);
      CacheStep(g, After(g, start, acts.init), acts.last);
    }
  }

  /** The clean-up removes exactly the entries that expired more than two hours ago. */
  lemma EvictionHappens(g: Settings, s: State, k: string)
    ensures var s' := Act(g, s, Evict);
            && (k in s'.cache <==> k in s.cache && s.clock <= s.cache[k].expiresAt + 7_200_000_000_000)
            && (k in s'.cache ==> s'.cache[k] == s.cache[k])
  {}

  /** The answer is found in the cache: the request has been refused or its flight has failed. */
  predicate Reading(q: Request) { q.stage.Refused? || q.stage.Failing? }

  ghost predicate IsLatestStore(s: State, k: string, status: int, page: SC.Page) {
    LastStore(s.stores, k).Some? && LastStore(s.stores, k).value.reply == Response(status, page)
  }

  /** When the last reply stored under `k` leaves the cache at the earliest. */
  ghost function KeptUntil(s: State, k: string): Option<int> {
    match SC.LastStored(s.ops, k)
    case Some(Stored(_, _, _, ttl, at)) => Some(at + ttl + SC.TWO_HOURS)
    case _ => None
  }

  /** What a hit returns is the latest stored reply, and a reply is found until its TTL plus two
      hours have passed. */
  lemma HitIsLatest(s: State, k: string, otherwise: Answer)
    requires CacheOk(s)
    ensures var stage := FromCache(s.cache, k, otherwise);
            && (stage.Serving? ==> IsLatestStore(s, k, stage.status, stage.page))
            && (KeptUntil(s, k).Some? && s.clock <= KeptUntil(s, k).value ==> stage.Serving?)
  {
    SC.CacheHoldsLatest(s.ops, k, s.clock);
    LinkedLast(s.ops, s.stores, k);
  }

  /** A request that reads the cache gets the most recently stored reply for its method and URI;
      it gets one whenever one was stored and its TTL plus two hours have not passed. */
  lemma FallbackIsLatest(g: Settings, start: int, acts: Trace<Action>, id: Id)
    requires var s := After(g, start, acts); id in s.requests && Reading(s.requests[id])
    ensures var s := After(g, start, acts);
            var k, stage := s.requests[id].cacheKey, NextRequest(g, s, s.requests[id]).stage;
            && (stage.Serving? ==> IsLatestStore(s, k, stage.status, stage.page))
            && (KeptUntil(s, k).Some? && s.clock <= KeptUntil(s, k).value ==> stage.Serving?)
  {
    var s := After(g, start, acts);
    CacheAlwaysOk(g, start, acts);
    HitIsLatest(s, s.requests[id].cacheKey, Unavailable);
  }

  ghost predicate AllStoredFor(ops: Trace<SC.Op>, ttl: int) {
    ops.Snoc? ==> AllStoredFor(ops.init, ttl) && (ops.last.Stored? ==> ops.last.ttl == ttl)
  }

  /** Every reply is stored for the configured number of seconds, or for five minutes if that is not
      positive. */
  lemma {:induction false} StoredForTtl(g: Settings, start: int, acts: Trace<Action>)
    ensures AllStoredFor(After(g, start, acts).ops,
                         if g.ttlSeconds > 0 then g.ttlSeconds * 1_000_000_000 else 300_000_000_000)
  {
    if acts.Snoc? { StoredForTtl(g, start, acts.init); }
  }

  // ---------- Only good replies ----------

  /** The fallback a request has been or is being given. */
  function Served(q: Request): Option<(int, SC.Page)> {
    match q.stage
    case Serving(status, page) => Some((status, page))
    case Finished(StaleFallback(status, page)) => Some((status, page))
    case _ => None
  }

  ghost predicate RequestOk(c: CB.Settings, replies: Trace<Reply>, id: Id, q: Request) {
    && (q.stage.Storing? ==> Given(replies, StoredReply(id, q)) && IsGood(c, StoredReply(id, q)))
    && (Served(q).Some? ==> GaveGood(c, replies, q.cacheKey, Served(q).value.0, Served(q).value.1))
  }

  ghost predicate RepliesOk(g: Settings, s: State) {
    && CacheOk(s)
    && AllGood(g.breaker, s.replies, s.stores)
    && forall id :: id in s.requests ==> RequestOk(g.breaker, s.replies, id, s.requests[id])
  }

  lemma AdvanceReplies(g: Settings, s: State, id: Id)
    requires RepliesOk(g, s) && id in s.requests
    ensures RequestOk(g.breaker, s.replies, id, NextRequest(g, s, s.requests[id]))
    ensures AllGood(g.breaker, s.replies, AdvanceStep(g, s, id).stores)
  {
    var q := s.requests[id];
    assert RequestOk(g.breaker, s.replies, id, q);
    LastStoreIsGood(g.breaker, s.replies, s.stores, q.cacheKey);
    HitIsLatest(s, q.cacheKey, Unavailable);
  }

  lemma CompleteReplies(g: Settings, s: State, id: Id, reply: Upstream)
    requires RepliesOk(g, s) && id in s.requests && s.requests[id].stage.InFlight?
    ensures RepliesOk(g, Act(g, s, Complete(id, reply)))
  {
    var s' := Act(g, s, Complete(id, reply));
    CacheStep(g, s, Complete(id, reply));
    MoreReplies(g.breaker, s.replies, s'.replies.last, s.stores);
    forall i | i in s'.requests ensures RequestOk(g.breaker, s'.replies, i, s'.requests[i]) {
      assert RequestOk(g.breaker, s.replies, i, s.requests[i]);
    }
  }

  lemma RepliesStep(g: Settings, s: State, a: Action)
    requires RepliesOk(g, s)
    ensures RepliesOk(g, Act(g, s, a))
  {
    CacheStep(g, s, a);
    if a.Advance? && a.id in s.requests {
      AdvanceReplies(g, s, a.id);
    } else if a.Complete? && a.id in s.requests && s.requests[a.id].stage.InFlight? {
      CompleteReplies(g, s, a.id, a.reply);
    }
  }

  lemma {:induction false} RepliesAlwaysOk(g: Settings, start: int, acts: Trace<Action>)
    ensures RepliesOk(g, After(g, start, acts))
  {
    if acts.Snoc? {
      RepliesAlwaysOk(g, start, acts.init);
      RepliesStep(g, After(g, start, acts.init), acts.last);
    }
  }

  /** In every run, every STALE-FALLBACK served carries the status and body of a fast 200-399
      reply the upstream gave to the same method and URI. */
  lemma FallbacksAreGoodReplies(g: Settings, start: int, acts: Trace<Action>, id: Id)
    requires var s := After(g, start, acts); id in s.requests && Served(s.requests[id]).Some?
    ensures var s := After(g, start, acts);
            var (status, page) := Served(s.requests[id]).value;
            GaveGood(g.breaker, s.replies, s.requests[id].cacheKey, status, page)
  {
    RepliesAlwaysOk(g, start, acts);
    assert RequestOk(g.breaker, After(g, start, acts).replies, id, After(g, start, acts).requests[id]);
  }

  // ---------- The latest stored reply, for every answer served ----------

  /** At this state the request reads the cache, whose latest reply for it is this one. */
  ghost predicate ReadsLatest(s: State, id: Id, k: string, status: int, page: SC.Page) {
    && id in s.requests && Reading(s.requests[id]) && s.requests[id].cacheKey == k
    && IsLatestStore(s, k, status, page)
  }

  /** A step leaves a fallback that has been chosen alone, and chooses one only by reading it. */
  lemma ServedStep(g: Settings, s: State, a: Action, id: Id)
    requires CacheOk(s)
    requires id in Act(g, s, a).requests && Served(Act(g, s, a).requests[id]).Some?
    ensures id in s.requests
    ensures var q' := Act(g, s, a).requests[id];
            && q'.cacheKey == s.requests[id].cacheKey
            && (Served(s.requests[id]) == Served(q')
                || ReadsLatest(s, id, q'.cacheKey, Served(q').value.0, Served(q').value.1))
  {
    if a.Advance? && a.id in s.requests { HitIsLatest(s, s.requests[a.id].cacheKey, Unavailable); }
  }

  /** Every STALE-FALLBACK served in a run was, at the moment its request read the cache, the
      reply most recently stored for its method and URI: `p` is how the run began. */
  lemma {:induction false} FallbackWasLatest(g: Settings, start: int, acts: Trace<Action>, id: Id)
    returns (p: Trace<Action>)
    requires var s := After(g, start, acts); id in s.requests && Served(s.requests[id]).Some?
    ensures Prefix(p, acts)
    ensures var q := After(g, start, acts).requests[id];
            ReadsLatest(After(g, start, p), id, q.cacheKey, Served(q).value.0, Served(q).value.1)
  {
    var s, q := After(g, start, acts.init), After(g, start, acts).requests[id];
    CacheAlwaysOk(g, start, acts.init);
    ServedStep(g, s, acts.last, id);
    if ReadsLatest(s, id, q.cacheKey, Served(q).value.0, Served(q).value.1) {
      p := acts.init;
    } else {
      p := FallbackWasLatest(g, start, acts.init, id);
    }
  }

  // ---------- The latest recorded reply ----------

  /** The request that got this reply has recorded it and not stored it yet. */
  predicate Pending(requests: map<Id, Request>, r: Reply) {
    r.id in requests && requests[r.id].stage.Storing? && StoredReply(r.id, requests[r.id]) == r
  }

  /** Nothing is on its way that was recorded last. */
  predicate Landed(c: CB.Settings, s: State, k: string) {
    var last := LastGood(c, s.replies, k);
    last.Some? ==> !Pending(s.requests, last.value)
  }

  /** What is stored last is what was recorded last. */
  predicate Current(c: CB.Settings, s: State, k: string) { LastStore(s.stores, k) == LastGood(c, s.replies, k) }

  predicate UpToDate(c: CB.Settings, s: State, k: string) { Landed(c, s, k) ==> Current(c, s, k) }

  predicate StoresTo(q: Request, k: string) { q.stage.Storing? && q.cacheKey == k }

  /** The one step that breaks this: a request stores its reply although a later one has been
      recorded, and stored, before it. */
  predicate Overtakes(c: CB.Settings, s: State, a: Action, k: string) {
    && a.Advance? && a.id in s.requests && StoresTo(s.requests[a.id], k)
    && Landed(c, s, k) && LastGood(c, s.replies, k) != Some(StoredReply(a.id, s.requests[a.id]))
  }

  lemma {:induction false} LastGoodKey(c: CB.Settings, replies: Trace<Reply>, k: string)
    ensures LastGood(c, replies, k).Some? ==> LastGood(c, replies, k).value.cacheKey == k
  {
    if replies.Snoc? { LastGoodKey(c, replies.init, k); }
  }

  /** Every step keeps cache and record together, except exactly that one. */
  lemma UpToDateStep(g: Settings, s: State, a: Action, k: string)
    requires UpToDate(g.breaker, s, k)
    ensures UpToDate(g.breaker, Act(g, s, a), k) <==> !Overtakes(g.breaker, s, a, k)
  {
    LastGoodKey(g.breaker, s.replies, k);
  }

  /** What has been stored is not on its way any more. */
  ghost predicate StoredAreDone(requests: map<Id, Request>, stores: Trace<Reply>) {
    stores.Snoc? ==>
      && StoredAreDone(requests, stores.init)
      && stores.last.id in requests && requests[stores.last.id].stage.Finished?
  }

  lemma {:induction false} DoneStaysDone(g: Settings, s: State, a: Action, stores: Trace<Reply>)
    requires StoredAreDone(s.requests, stores)
    ensures StoredAreDone(Act(g, s, a).requests, stores)
  {
    if stores.Snoc? { DoneStaysDone(g, s, a, stores.init); }
  }

  lemma {:induction false} StoredAlwaysDone(g: Settings, start: int, acts: Trace<Action>)
    ensures StoredAreDone(After(g, start, acts).requests, After(g, start, acts).stores)
  {
    if acts.Snoc? {
      StoredAlwaysDone(g, start, acts.init);
      var s := After(g, start, acts.init);
      DoneStaysDone(g, s, acts.last, s.stores);
    }
  }

  lemma {:induction false} LastStoreIsDone(requests: map<Id, Request>, stores: Trace<Reply>, k: string)
    requires StoredAreDone(requests, stores)
    ensures LastStore(stores, k).Some? ==> !Pending(requests, LastStore(stores, k).value)
  {
    if stores.Snoc? { LastStoreIsDone(requests, stores.init, k); }
  }

  /** A reply still on its way is not in the cache. */
  lemma CurrentHasLanded(g: Settings, start: int, acts: Trace<Action>, k: string)
    requires Current(g.breaker, After(g, start, acts), k)
    ensures Landed(g.breaker, After(g, start, acts), k)
  {
    StoredAlwaysDone(g, start, acts);
    LastStoreIsDone(After(g, start, acts).requests, After(g, start, acts).stores, k);
  }

  ghost predicate AlwaysUpToDate(g: Settings, start: int, acts: Trace<Action>, k: string) {
    && UpToDate(g.breaker, After(g, start, acts), k)
    && (acts.Snoc? ==> AlwaysUpToDate(g, start, acts.init, k))
  }

  ghost predicate NeverOvertakes(g: Settings, start: int, acts: Trace<Action>, k: string) {
    acts.Snoc? ==>
      NeverOvertakes(g, start, acts.init, k) && !Overtakes(g.breaker, After(g, start, acts.init), acts.last, k)
  }

  /** The exact condition, over whole runs: the cache holds the reply recorded last whenever that
      one is no longer on its way, if and only if no step overtakes. */
  lemma {:induction false} UpToDateExactly(g: Settings, start: int, acts: Trace<Action>, k: string)
    ensures AlwaysUpToDate(g, start, acts, k) <==> NeverOvertakes(g, start, acts, k)
  {
    if acts.Snoc? {
      UpToDateExactly(g, start, acts.init, k);
      if AlwaysUpToDate(g, start, acts.init, k) {
        UpToDateStep(g, After(g, start, acts.init), acts.last, k);
      }
    }
  }

  lemma {:induction false} UpToDateAt(g: Settings, start: int, p: Trace<Action>, acts: Trace<Action>, k: string)
    requires Prefix(p, acts) && AlwaysUpToDate(g, start, acts, k)
    ensures UpToDate(g.breaker, After(g, start, p), k)
  {
    if p != acts { UpToDateAt(g, start, p, acts.init, k); }
  }

  /** So on a run without overtaking every STALE-FALLBACK served was, when its request read the
      cache, the fast 200-399 reply recorded most recently for its method and URI if and only if
      that reply was not just then on its way to the cache. */
  lemma FallbackIsLatestRecorded(g: Settings, start: int, acts: Trace<Action>, id: Id) returns (p: Trace<Action>)
    requires var s := After(g, start, acts);
             && id in s.requests && Served(s.requests[id]).Some?
             && NeverOvertakes(g, start, acts, s.requests[id].cacheKey)
    ensures Prefix(p, acts)
    ensures var s, q := After(g, start, p), After(g, start, acts).requests[id];
            var (status, page), last := Served(q).value, LastGood(g.breaker, s.replies, q.cacheKey);
            && ReadsLatest(s, id, q.cacheKey, status, page)
            && (Current(g.breaker, s, q.cacheKey) <==> Landed(g.breaker, s, q.cacheKey))
            && (Landed(g.breaker, s, q.cacheKey) ==> last.Some? && last.value.reply == Response(status, page))
  {
    p := FallbackWasLatest(g, start, acts, id);
    var k := After(g, start, acts).requests[id].cacheKey;
    UpToDateExactly(g, start, acts, k);
    UpToDateAt(g, start, p, acts, k);
    if Current(g.breaker, After(g, start, p), k) { CurrentHasLanded(g, start, p, k); }
  }

  // ---------- One at a time is enough ----------

  /** No two requests of one method and URI are between recording and storing at once. */
  ghost predicate AtMostOne(requests: map<Id, Request>, k: string) {
    forall i, j :: i in requests && j in requests && StoresTo(requests[i], k) && StoresTo(requests[j], k) ==> i == j
  }

  ghost predicate OneAtATime(g: Settings, start: int, acts: Trace<Action>, k: string) {
    && AtMostOne(After(g, start, acts).requests, k)
    && (acts.Snoc? ==> OneAtATime(g, start, acts.init, k))
  }

  /** Whoever is about to store was the last to be recorded. */
  ghost predicate StorerIsLast(c: CB.Settings, s: State, k: string) {
    forall id :: id in s.requests && StoresTo(s.requests[id], k) ==>
      LastGood(c, s.replies, k) == Some(StoredReply(id, s.requests[id]))
  }

  lemma StorerStep(g: Settings, s: State, a: Action, k: string)
    requires StorerIsLast(g.breaker, s, k) && AtMostOne(Act(g, s, a).requests, k)
    ensures StorerIsLast(g.breaker, Act(g, s, a), k)
  {
    var s' := Act(g, s, a);
    forall id | id in s'.requests && StoresTo(s'.requests[id], k)
      ensures LastGood(g.breaker, s'.replies, k) == Some(StoredReply(id, s'.requests[id]))
    {
      if a.Complete? && a.id in s.requests && s.requests[a.id].stage.InFlight? && StoresTo(s'.requests[a.id], k) {
        assert id == a.id;
      } else {
        assert id in s.requests && s.requests[id] == s'.requests[id];
      }
    }
  }

  lemma {:induction false} OneAtATimeIsEnough(g: Settings, start: int, acts: Trace<Action>, k: string)
    requires OneAtATime(g, start, acts, k)
    ensures NeverOvertakes(g, start, acts, k) && StorerIsLast(g.breaker, After(g, start, acts), k)
  {
    if acts.Snoc? {
      OneAtATimeIsEnough(g, start, acts.init, k);
      StorerStep(g, After(g, start, acts.init), acts.last, k);
    }
  }

  // ---------- An older reply is served ----------

  const Older := SC.Page(map[], "old")
  const Newer := SC.Page(map[], "new")

  /** Both flights come back; the later reply is stored first. */
  function Crossed(acts: Trace<Action>): Trace<Action> {
    var completed := Snoc(Snoc(acts, Complete(1, Response(200, Older))), Complete(2, Response(200, Newer)));
    Snoc(Snoc(completed, Advance(2)), Advance(1))
  }

  /** The third flight fails and reads the cache. */
  function ReadBack(acts: Trace<Action>): Trace<Action> {
    Snoc(Snoc(Snoc(acts, Complete(3, NetError)), Advance(3)), Advance(3))
  }

  ghost predicate IsFlight(s: State, id: Id, uri: string) {
    && id in s.requests && s.requests[id].stage.InFlight? && s.requests[id].cacheKey == uri
    && s.requests[id].sent == s.clock
  }

  lemma CrossedStores(g: Settings, start: int, acts: Trace<Action>, uri: string)
    requires var s := After(g, start, acts);
             g.breaker.Valid() && IsFlight(s, 1, uri) && IsFlight(s, 2, uri) && IsFlight(s, 3, uri)
    ensures var s' := After(g, start, Crossed(acts));
            && IsFlight(s', 3, uri) && uri in s'.cache && s'.cache[uri].status == 200 && s'.cache[uri].page == Older
            && LastGood(g.breaker, s'.replies, uri) == Some(Reply(2, uri, Response(200, Newer), 0))
  {
    var acts1 := Snoc(acts, Complete(1, Response(200, Older)));
    var s1 := After(g, start, acts1);
    assert s1.requests[1].stage == Storing(200, Older, 0) && IsFlight(s1, 2, uri);
    var acts2 := Snoc(acts1, Complete(2, Response(200, Newer)));
    var s2 := After(g, start, acts2);
    assert s2.requests[2].stage == Storing(200, Newer, 0) && s2.requests[1] == s1.requests[1];
    var acts3 := Snoc(acts2, Advance(2));
    var s3 := After(g, start, acts3);
    assert s3.requests[1] == s1.requests[1] && s3.replies == s2.replies;
  }

  lemma ReadBackServes(g: Settings, start: int, acts: Trace<Action>, uri: string, page: SC.Page)
    requires var s := After(g, start, acts);
             IsFlight(s, 3, uri) && uri in s.cache && s.cache[uri].status == 200 && s.cache[uri].page == page
    ensures var s, s' := After(g, start, acts), After(g, start, ReadBack(acts));
            && 3 in s'.requests && s'.requests[3].stage == Finished(StaleFallback(200, page))
            && LastGood(g.breaker, s'.replies, uri) == LastGood(g.breaker, s.replies, uri)
  {
    var acts1 := Snoc(acts, Complete(3, NetError));
    var s1 := After(g, start, acts1);
    assert s1.requests[3].stage == Failing(NetError);
    var s2 := After(g, start, Snoc(acts1, Advance(3)));
    assert s2.requests[3].stage == Serving(200, page);
  }

  /** From the start, under any settings that let three requests of one key through: two replies
      to one method and URI cross on their way to the cache, and the older one is served. */
  lemma OlderReplyIsServed(g: Settings, start: int, k: string, uri: string)
    requires g.breaker.Valid() && g.limits(k).soft >= 3
    ensures var acts := ReadBack(Crossed(Enter(Enter(Enter(Nil, 1, k, uri), 2, k, uri), 3, k, uri)));
            var s := After(g, start, acts);
            && 3 in s.requests && s.requests[3].stage == Finished(StaleFallback(200, Older))
            && LastGood(g.breaker, s.replies, uri) == Some(Reply(2, uri, Response(200, Newer), 0))
  {
    var one := Enter(Nil, 1, k, uri);
    var two := Enter(one, 2, k, uri);
    var three := Enter(two, 3, k, uri);
    EnterForwards(g, start, Nil, 1, k, uri);
    EnterForwards(g, start, one, 2, k, uri);
    EnterForwards(g, start, two, 3, k, uri);
    CrossedStores(g, start, three, uri);
    ReadBackServes(g, start, Crossed(three), uri, Older);
  }
}
