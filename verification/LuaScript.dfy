/** internal/ratelimit/lua.go: the Redis script over a sorted set with key expiry. */
module LuaScript {
  import opened Traces
  import opened RateLimit
  import SW = SlidingWindow

  /** A sorted set (member to score) and the time Redis may drop it, as EXPIRE set it. */
  datatype ZSet = ZSet(scores: map<string, int>, deadline: int)

  datatype StreamEntry = StreamEntry(apiKey: string, timestamp: int, units: nat)

  /** What the script reads and writes: `units` is the billing hash, one per month and key. */
  datatype Redis = Redis(
    sets: map<string, ZSet>, units: map<(int, string), nat>, stream: Trace<StreamEntry>)
  {
    function Set(k: string): ZSet { if k in sets then sets[k] else ZSet(map[], 0) }
    function Units(month: int, k: string): nat { if (month, k) in units then units[(month, k)] else 0 }
  }

  const Empty := Redis(map[], map[], Nil)

  /** The six values the script returns; the wrapper rebuilds a Result from them. */
  datatype Reply = Reply(
    status: Status, count: int, soft: int, hard: int, remaining: int, burstRemaining: int)

  /** The members ZREMRANGEBYSCORE(0, t) leaves. */
  function Prune(scores: map<string, int>, t: int): map<string, int> {
    map m | m in scores && !(0 <= scores[m] <= t) :: scores[m]
  }

  /** One execution of the script. `now` is the caller's clock when it prepared the call and `at`
      is Redis's when it runs it; `month` names the billing key, `reqId` the new member, `frozen`
      is the freeze flag sent along. `dropped` is Redis's choice to have removed an expired key. */
  datatype Call = Call(
    now: int, at: int, key: string, month: int, reqId: string, frozen: bool, dropped: bool)

  /** The set the script finds: an expired key may be gone, one still alive never is. */
  function Found(z: ZSet, c: Call): map<string, int> {
    if c.dropped && c.at >= z.deadline then map[] else z.scores
  }

  function Answer(count: nat, frozen: bool, l: Limits): Reply {
    if count < l.soft then
      Reply(NORMAL, count + 1, l.soft, l.hard, l.soft - (count + 1), l.hard - l.soft)
    else if count < l.hard && !frozen then
      Reply(BURST, count + 1, l.soft, l.hard, 0, l.hard - (count + 1))
    else
      Reply(BLOCKED, count, l.soft, l.hard, 0, 0)
  }

  /** What one run does to the sorted set of its key. A refusal still prunes. */
  function Visit(z: ZSet, c: Call, l: Limits): (ZSet, Reply) {
    var live := Prune(Found(z, c), c.now - l.window);
    var r := Answer(|live|, c.frozen, l);
    (if r.status == BLOCKED then ZSet(live, z.deadline) else ZSet(live[c.reqId := c.now], c.at + l.window), r)
  }

  function ScriptStep(st: Redis, c: Call, l: Limits): (Redis, Reply) {
    var (z, r) := Visit(st.Set(c.key), c, l);
    if r.status == BURST then
      var units := st.Units(c.month, c.key) + 1;
      (Redis(st.sets[c.key := z], st.units[(c.month, c.key) := units],
             Snoc(st.stream, StreamEntry(c.key, c.now, units))), r)
    else (st.(sets := st.sets[c.key := z]), r)
  }

  /** How `RedisLimiter.Check` reads a reply. */
  function Parse(r: Reply): Result {
    var burst := r.hard - r.soft;
    Result(r.status, r.count, r.soft, r.remaining, if burst < 0 then 0 else burst, r.burstRemaining)
  }

  lemma OverwriteSet(sets: map<string, ZSet>, k: string, a: ZSet, b: ZSet)
    ensures sets[k := a][k := b] == sets[k := b]
  {}

  /** The Redis commands the script issues, on the data they mutate. */
  class RedisServer {
    var sets: map<string, ZSet>
    var units: map<(int, string), nat>
    var stream: Trace<StreamEntry>

    ghost function State(): Redis reads this { Redis(sets, units, stream) }

    constructor ()
      ensures State() == Empty
    {
      sets, units, stream := map[], map[], Nil;
    }

    /** ZREMRANGEBYSCORE from 0 and ZCARD, on a key that Redis may just have expired. */
    method PruneAndCount(c: Call, threshold: int) returns (count: nat)
      modifies this`sets
      ensures var z := old(State()).Set(c.key);
              var live := Prune(Found(z, c), threshold);
              sets == old(sets)[c.key := ZSet(live, z.deadline)] && count == |live|
    {
      var z := if c.key in sets then sets[c.key] else ZSet(map[], 0);
      if c.dropped && c.at >= z.deadline {
        z := z.(scores := map[]);
      }
      z := z.(scores := Prune(z.scores, threshold));
      sets := sets[c.key := z];
      count := |z.scores|;
    }

    /** ZADD, and EXPIRE by Redis's own clock. */
    method Add(k: string, score: int, member: string, ttl: int, at: int)
      requires k in sets
      modifies this`sets
      ensures sets == old(sets)[k := ZSet(old(sets)[k].scores[member := score], at + ttl)]
    {
      sets := sets[k := ZSet(sets[k].scores[member := score], at + ttl)];
    }

    /** HINCRBY on the billing hash and XADD of the new value. */
    method Bill(month: int, k: string, now: int)
      modifies this`units, this`stream
      ensures var n := old(State()).Units(month, k) + 1;
              && units == old(units)[(month, k) := n]
              && stream == Snoc(old(stream), StreamEntry(k, now, n))
    {
      var overage := (if (month, k) in units then units[(month, k)] else 0) + 1;
      units := units[(month, k) := overage];
      stream := Snoc(stream, StreamEntry(k, now, overage));
    }

    method RunScript(c: Call, softLimit: int, hardLimit: int, window: int, burstFrozen: int) returns (r: Reply)
      modifies this
      ensures (State(), r)
              == ScriptStep(old(State()), c.(frozen := burstFrozen != 0), Limits(softLimit, hardLimit, window))
    {
      var count := PruneAndCount(c, c.now - window);
      if count < softLimit {
        ghost var pruned := sets[c.key];
        Add(c.key, c.now, c.reqId, window, c.at);
        OverwriteSet(old(sets), c.key, pruned, sets[c.key]);
        return Reply(NORMAL, count + 1, softLimit, hardLimit, softLimit - (count + 1), hardLimit - softLimit);
      } else if count < hardLimit && burstFrozen == 0 {
        ghost var pruned := sets[c.key];
        Add(c.key, c.now, c.reqId, window, c.at);
        OverwriteSet(old(sets), c.key, pruned, sets[c.key]);
        Bill(c.month, c.key, c.now);
        return Reply(BURST, count + 1, softLimit, hardLimit, 0, hardLimit - (count + 1));
      } else {
        return Reply(BLOCKED, count, softLimit, hardLimit, 0, 0);
      }
    }
  }

  // ---------- Runs ----------

  datatype Event = Run(call: Call) | Freeze(on: bool)

  type LuaRun = Trace<Event>

  /** The same run as the in-memory limiter sees it. */
  function Plain(e: Event): RateLimit.Event {
    match e
    case Run(c) => Check(c.now, c.key)
    case Freeze(on) => RateLimit.Freeze(on)
  }

  function PlainRun(run: LuaRun): RateLimit.Run {
    match run
    case Nil => Nil
    case Snoc(past, e) => Snoc(PlainRun(past), Plain(e))
  }

  function Step(cfg: Config, st: Redis, e: Event): Redis {
    match e
    case Run(c) => ScriptStep(st, c, cfg(c.key)).0
    case Freeze(_) => st
  }

  function After(cfg: Config, run: LuaRun): Redis {
    match run
    case Nil => Empty
    case Snoc(past, e) => Step(cfg, After(cfg, past), e)
  }

  /** What the script answers to a call that comes after the run. */
  function ReplyAfter(cfg: Config, run: LuaRun, c: Call): Reply {
    ScriptStep(After(cfg, run), c, cfg(c.key)).1
  }

  /** The sorted set of key `k`, computed from the run alone. */
  function KeySet(l: Limits, run: LuaRun, k: string): ZSet {
    match run
    case Nil => ZSet(map[], 0)
    case Snoc(past, e) =>
      var z := KeySet(l, past, k);
      if e.Run? && e.call.key == k then Visit(z, e.call, l).0 else z
  }

  function KeyReply(l: Limits, run: LuaRun, c: Call): Reply { Visit(KeySet(l, run, c.key), c, l).1 }

  /** How many script runs billed key `k` in `month`. */
  function BurstRuns(l: Limits, run: LuaRun, month: int, k: string): nat {
    match run
    case Nil => 0
    case Snoc(past, e) =>
      BurstRuns(l, past, month, k)
      + if e.Run? && e.call.key == k && e.call.month == month && KeyReply(l, past, e.call).status == BURST
        then 1 else 0
  }

  /** Keys do not interfere, and the billing hash counts the BURST replies of its month. */
  lemma {:induction false} KeysAreIndependent(cfg: Config, run: LuaRun, k: string, month: int)
    ensures After(cfg, run).Set(k) == KeySet(cfg(k), run, k)
    ensures After(cfg, run).Units(month, k) == BurstRuns(cfg(k), run, month, k)
    ensures forall c: Call :: c.key == k ==> ReplyAfter(cfg, run, c) == KeyReply(cfg(k), run, c)
  {
    if run.Snoc? { KeysAreIndependent(cfg, run.init, k, month); }
  }

  // ---------- Runs one call at a time ----------

  ghost predicate Fresh(run: LuaRun, id: string) {
    run.Snoc? ==> Fresh(run.init, id) && (run.last.Run? ==> run.last.call.reqId != id)
  }

  /** The call is as if reading the clock and the flag and running the script were one step: its
      id is new, its flag is current, and if Redis dropped the key no second went by. */
  ghost predicate AtOnce(past: LuaRun, c: Call) {
    && 0 <= c.now <= c.at && (c.dropped ==> c.at == c.now)
    && Fresh(past, c.reqId) && c.frozen == FrozenAfter(PlainRun(past))
  }

  ghost predicate Serial(run: LuaRun) {
    run.Snoc? ==> Serial(run.init) && (run.last.Run? ==> AtOnce(run.init, run.last.call))
  }

  // ---------- The sorted set counts what the log counts ----------

  /** Members with a score later than `t`. */
  ghost function Later(scores: map<string, int>, t: int): set<string> {
    set m | m in scores && scores[m] > t
  }

  ghost predicate Dated(z: ZSet, window: int, t: int) {
    forall m :: m in z.scores ==> 0 <= z.scores[m] <= t && z.scores[m] + window <= z.deadline
  }

  /** At time `t` the set and a log agree on every later window. */
  ghost predicate Agrees(scores: map<string, int>, log: Times, window: int, t: int) {
    forall u :: t - window <= u ==> SameAfter(scores, log, u)
  }

  ghost predicate SameAfter(scores: map<string, int>, log: Times, u: int) {
    |Later(scores, u)| == CountAfter(log, u)
  }

  /** EXPIRE is unobservable to a call that runs at once: whatever Redis dropped, the script would
      have pruned. */
  lemma ExpiryIsUnobservable(z: ZSet, c: Call, window: int)
    requires Dated(z, window, c.now) && (c.dropped ==> c.at <= c.now)
    ensures Prune(Found(z, c), c.now - window) == Prune(z.scores, c.now - window)
  {}

  /** Not to one that is under way while the key expires: prepared within the window of the last
      admission, it finds nothing. */
  lemma ExpiryOvertakesCall(t: int, window: int, m: string, c: Call)
    requires 0 <= t && 0 < window && t <= c.now < t + window <= c.at && c.dropped
    ensures var z := ZSet(map[m := t], t + window);
            && Dated(z, window, c.now)
            && Prune(Found(z, c), c.now - window) == map[] && m in Prune(z.scores, c.now - window)
  {}

  lemma PruneKeepsLater(z: ZSet, window: int, now: int, t: int, u: int)
    requires Dated(z, window, now) && t <= u
    ensures Prune(z.scores, t).Keys == Later(z.scores, t)
    ensures Later(Prune(z.scores, t), u) == Later(z.scores, u)
  {}

  lemma LaterAfterAdd(scores: map<string, int>, id: string, now: int, u: int)
    requires id !in scores
    ensures |Later(scores[id := now], u)| == |Later(scores, u)| + if now > u then 1 else 0
  {
    assert Later(scores[id := now], u) == Later(scores, u) + if now > u then {id} else {};
  }

  /** The state of one key in the two limiters. */
  ghost predicate Twin(z: ZSet, log: Times, window: int, t: int) {
    Dated(z, window, t) && Agrees(z.scores, log, window, t)
  }

  lemma TwinAdmission(z: ZSet, log: Times, window: int, now: int, at: int, id: string)
    requires Twin(z, log, window, now) && 0 <= now <= at && id !in z.scores
    ensures Twin(ZSet(Prune(z.scores, now - window)[id := now], at + window),
                 Snoc(SW.Live(log, now - window), now), window, now)
  {
    var kept, live := Prune(z.scores, now - window), SW.Live(log, now - window);
    var kept', live' := kept[id := now], Snoc(live, now);
    forall u | now - window <= u ensures SameAfter(kept', live', u) {
      assert SameAfter(z.scores, log, u);
      PruneKeepsLater(z, window, now, now - window, u);
      LaterAfterAdd(kept, id, now, u);
      SW.LiveCounts(log, now - window, u);
    }
  }

  lemma TwinRefusal(z: ZSet, log: Times, window: int, now: int)
    requires Twin(z, log, window, now)
    ensures Twin(ZSet(Prune(z.scores, now - window), z.deadline), log, window, now)
  {
    var kept := Prune(z.scores, now - window);
    forall u | now - window <= u ensures SameAfter(kept, log, u) {
      assert SameAfter(z.scores, log, u);
      PruneKeepsLater(z, window, now, now - window, u);
    }
  }

  lemma SameCount(z: ZSet, log: Times, window: int, c: Call)
    requires Twin(z, log, window, c.now) && (c.dropped ==> c.at <= c.now)
    ensures |Prune(Found(z, c), c.now - window)| == Size(SW.Live(log, c.now - window))
  {
    assert SameAfter(z.scores, log, c.now - window);
    ExpiryIsUnobservable(z, c, window);
    PruneKeepsLater(z, window, c.now, c.now - window, c.now - window);
    assert |Prune(z.scores, c.now - window).Keys| == |Prune(z.scores, c.now - window)|;
    SW.LiveCounts(log, c.now - window, c.now);
  }

  ghost predicate VisitsAlike(z: ZSet, log: Times, c: Call, l: Limits) {
    var live := SW.Live(log, c.now - l.window);
    var kept := Prune(z.scores, c.now - l.window);
    var admitted := Decide(Size(live), c.frozen, l).Admitted();
    && SW.Visit(log, c.now, c.frozen, l).0 == (if admitted then Snoc(live, c.now) else log)
    && Visit(z, c, l).0
       == (if admitted then ZSet(kept[c.reqId := c.now], c.at + l.window) else ZSet(kept, z.deadline))
  }

  lemma TwinsVisitAlike(z: ZSet, log: Times, c: Call, l: Limits)
    requires Twin(z, log, l.window, c.now) && (c.dropped ==> c.at <= c.now)
    ensures VisitsAlike(z, log, c, l)
  {
    SameCount(z, log, l.window, c);
    ExpiryIsUnobservable(z, c, l.window);
  }

  lemma TwinsStay(z: ZSet, log: Times, c: Call, l: Limits)
    requires Twin(z, log, l.window, c.now) && 0 <= c.now <= c.at && (c.dropped ==> c.at == c.now)
    requires c.reqId !in z.scores
    ensures Twin(Visit(z, c, l).0, SW.Visit(log, c.now, c.frozen, l).0, l.window, c.now)
  {
    TwinsVisitAlike(z, log, c, l);
    if Decide(Size(SW.Live(log, c.now - l.window)), c.frozen, l).Admitted() {
      TwinAdmission(z, log, l.window, c.now, c.at, c.reqId);
    } else {
      TwinRefusal(z, log, l.window, c.now);
    }
  }

  /** On twins the two steps decide alike and leave twins behind. */
  lemma TwinVisit(z: ZSet, log: Times, c: Call, l: Limits)
    requires Twin(z, log, l.window, c.now) && 0 <= c.now <= c.at && (c.dropped ==> c.at == c.now)
    requires c.reqId !in z.scores
    ensures Visit(z, c, l).1.status == SW.Visit(log, c.now, c.frozen, l).1.status
    ensures Twin(Visit(z, c, l).0, SW.Visit(log, c.now, c.frozen, l).0, l.window, c.now)
  {
    TwinReplies(z, log, c, l);
    TwinsStay(z, log, c, l);
  }

  lemma {:induction false} IdsAreUsed(l: Limits, run: LuaRun, k: string, id: string)
    requires Fresh(run, id)
    ensures id !in KeySet(l, run, k).scores
  {
    if run.Snoc? { IdsAreUsed(l, run.init, k, id); }
  }

  lemma {:induction false} TwinRuns(l: Limits, run: LuaRun, k: string, t: int)
    requires Serial(run) && Monotone(PlainRun(run)) && Before(PlainRun(run), t)
    ensures Twin(KeySet(l, run, k), SW.KeyLog(l, PlainRun(run), k), l.window, t)
  {
    if run.Snoc? {
      var past, e := run.init, run.last;
      var plain := PlainRun(past);
      if e.Run? && e.call.key == k {
        TwinRuns(l, past, k, e.call.now);
        IdsAreUsed(l, past, k, e.call.reqId);
        TwinVisit(KeySet(l, past, k), SW.KeyLog(l, plain, k), e.call, l);
        TwinLater(KeySet(l, run, k), SW.KeyLog(l, PlainRun(run), k), l.window, e.call.now, t);
      } else {
        TwinRuns(l, past, k, t);
      }
    }
  }

  lemma TwinLater(z: ZSet, log: Times, window: int, t: int, t': int)
    requires Twin(z, log, window, t) && t <= t'
    ensures Twin(z, log, window, t')
  {}

  ghost predicate Matches(lua: Result, mem: Result, l: Limits) {
    && lua.(burstRemaining := mem.burstRemaining) == mem
    && (lua == mem <==> l.soft <= l.hard || mem.status != NORMAL)
  }

  lemma SameDecision(count: nat, frozen: bool, l: Limits)
    ensures Matches(Parse(Answer(count, frozen, l)), Decide(count, frozen, l), l)
  {}

  lemma TwinReplies(z: ZSet, log: Times, c: Call, l: Limits)
    requires Twin(z, log, l.window, c.now) && (c.dropped ==> c.at <= c.now)
    ensures Matches(Parse(Visit(z, c, l).1), SW.Visit(log, c.now, c.frozen, l).1, l)
  {
    SameCount(z, log, l.window, c);
    SameDecision(Size(SW.Live(log, c.now - l.window)), c.frozen, l);
  }

  lemma SameKeyReplies(l: Limits, run: LuaRun, c: Call)
    requires Serial(run) && AtOnce(run, c) && Monotone(PlainRun(run)) && Before(PlainRun(run), c.now)
    ensures Matches(Parse(KeyReply(l, run, c)), SW.KeyReply(l, PlainRun(run), c.now, c.key), l)
  {
    TwinRuns(l, run, c.key, c.now);
    TwinReplies(KeySet(l, run, c.key), SW.KeyLog(l, PlainRun(run), c.key), c, l);
  }

  /** On every run in which calls run one at a time the two limiters agree on every field but
      `burstRemaining`, and on that one exactly when the hard limit is not below the soft one or
      the status is not NORMAL. */
  lemma SameReplies(cfg: Config, run: LuaRun, c: Call)
    requires Serial(run) && AtOnce(run, c) && Monotone(PlainRun(run)) && Before(PlainRun(run), c.now)
    ensures var mem := SW.Reply(cfg, PlainRun(run), c.now, c.key);
            var lua := Parse(ReplyAfter(cfg, run, c));
            && lua.(burstRemaining := mem.burstRemaining) == mem
            && (lua == mem <==> cfg(c.key).soft <= cfg(c.key).hard || mem.status != NORMAL)
  {
    SameKeyReplies(cfg(c.key), run, c);
    KeysAreIndependent(cfg, run, c.key, c.month);
    SW.KeysAreIndependent(cfg, PlainRun(run), c.key);
  }

  // ---------- The event stream ----------

  function Published(stream: Trace<StreamEntry>, k: string): nat {
    match stream
    case Nil => 0
    case Snoc(past, x) => Published(past, k) + if x.apiKey == k then 1 else 0
  }

  /** Every overage is announced on the stream once: as many events as the in-memory limiter
      counts overages on the same run. */
  lemma {:induction false} StreamCountsBursts(cfg: Config, run: LuaRun, k: string)
    requires Serial(run) && Monotone(PlainRun(run))
    ensures Published(After(cfg, run).stream, k) == SW.Bursts(cfg(k), PlainRun(run), k)
  {
    if run.Snoc? {
      var past, e := run.init, run.last;
      StreamCountsBursts(cfg, past, k);
      if e.Run? {
        SameKeyReplies(cfg(e.call.key), past, e.call);
        KeysAreIndependent(cfg, past, e.call.key, e.call.month);
      }
    }
  }

  /** All calls are billed to one month. */
  ghost predicate OneMonth(run: LuaRun, month: int) {
    run.Snoc? ==> OneMonth(run.init, month) && (run.last.Run? ==> run.last.call.month == month)
  }

  /** The events of each key are numbered from one. */
  ghost predicate Numbered(stream: Trace<StreamEntry>) {
    stream.Snoc? ==>
      Numbered(stream.init) && stream.last.units == Published(stream.init, stream.last.apiKey) + 1
  }

  /** On every run, however its calls cross: a month's events of a key number its units one by one. */
  lemma {:induction false} StreamNumbersUnits(cfg: Config, run: LuaRun, month: int, k: string)
    requires OneMonth(run, month)
    ensures Numbered(After(cfg, run).stream)
    ensures Published(After(cfg, run).stream, k) == After(cfg, run).Units(month, k)
  {
    if run.Snoc? {
      StreamNumbersUnits(cfg, run.init, month, k);
      if run.last.Run? { StreamNumbersUnits(cfg, run.init, month, run.last.call.key); }
    }
  }

  function EventTimes(stream: Trace<StreamEntry>, k: string): Times {
    match stream
    case Nil => Nil
    case Snoc(past, x) => if x.apiKey == k then Snoc(EventTimes(past, k), x.timestamp) else EventTimes(past, k)
  }

  /** The stamps of the calls of `k` that were answered BURST. */
  function BurstTimes(l: Limits, run: LuaRun, k: string): Times {
    match run
    case Nil => Nil
    case Snoc(past, e) =>
      if e.Run? && e.call.key == k && KeyReply(l, past, e.call).status == BURST
      then Snoc(BurstTimes(l, past, k), e.call.now)
      else BurstTimes(l, past, k)
  }

  /** Each event carries the stamp of the call it announces. */
  lemma {:induction false} StreamIsStamped(cfg: Config, run: LuaRun, k: string)
    ensures EventTimes(After(cfg, run).stream, k) == BurstTimes(cfg(k), run, k)
  {
    if run.Snoc? {
      StreamIsStamped(cfg, run.init, k);
      if run.last.Run? { KeysAreIndependent(cfg, run.init, run.last.call.key, run.last.call.month); }
    }
  }

  /** When Redis ran the admissions of `k`, by its own clock. */
  function GrantTimes(l: Limits, run: LuaRun, k: string): Times {
    match run
    case Nil => Nil
    case Snoc(past, e) =>
      if e.Run? && e.call.key == k && KeyReply(l, past, e.call).status != BLOCKED
      then Snoc(GrantTimes(l, past, k), e.call.at)
      else GrantTimes(l, past, k)
  }

  /** A key may be dropped a window after Redis ran its last admission, and no earlier. */
  lemma {:induction false} DeadlineFollowsLastGrant(l: Limits, run: LuaRun, k: string)
    ensures KeySet(l, run, k).deadline
            == if GrantTimes(l, run, k).Nil? then 0 else GrantTimes(l, run, k).last + l.window
  {
    if run.Snoc? { DeadlineFollowsLastGrant(l, run.init, k); }
  }

  // ---------- Calls that cross on their way ----------

  /** Every request id of `k` ever admitted, with the stamp it was admitted under. A request whose
      call runs again keeps its one entry. */
  function History(l: Limits, run: LuaRun, k: string): map<string, int> {
    match run
    case Nil => map[]
    case Snoc(past, e) =>
      if e.Run? && e.call.key == k && KeyReply(l, past, e.call).status != BLOCKED
      then History(l, past, k)[e.call.reqId := e.call.now]
      else History(l, past, k)
  }

  /** How far Redis has looked ahead when it forgot admissions of `k`: the latest stamp it has run,
      or its own clock where it dropped the key. */
  function NextHorizon(h: int, c: Call): int { Max(h, if c.dropped then Max(c.now, c.at) else c.now) }

  function Horizon(run: LuaRun, k: string): int {
    match run
    case Nil => 0
    case Snoc(past, e) =>
      if e.Run? && e.call.key == k then NextHorizon(Horizon(past, k), e.call) else Horizon(past, k)
  }

  /** No call of `k` is more than `d` seconds behind that when it runs. */
  ghost predicate BehindBy(run: LuaRun, k: string, d: nat) {
    run.Snoc? ==>
      BehindBy(run.init, k, d) && (run.last.Run? && run.last.call.key == k ==> Horizon(run, k) <= run.last.call.now + d)
  }

  /** Redis's clock runs forward, and no call runs before it was prepared. */
  ghost predicate Timely(run: LuaRun, t: int) {
    run.Snoc? ==>
      match run.last
      case Run(c) => Timely(run.init, c.at) && 0 <= c.now <= c.at <= t
      case Freeze(_) => Timely(run.init, t)
  }

  /** What the set still has to know at horizon `h`, and when it may be dropped. */
  ghost predicate Remembers(z: ZSet, hist: map<string, int>, window: int, h: int, t: int) {
    && (forall m :: m in hist && hist[m] > h - window ==> m in z.scores && z.scores[m] == hist[m])
    && (forall m :: m in z.scores ==> 0 <= z.scores[m] <= t && z.scores[m] + window <= z.deadline)
  }

  lemma PruneRemembers(z: ZSet, hist: map<string, int>, window: int, h: int, t: int, c: Call)
    requires Remembers(z, hist, window, h, t) && t <= c.at
    ensures Remembers(ZSet(Prune(Found(z, c), c.now - window), z.deadline), hist, window, NextHorizon(h, c), c.at)
  {}

  lemma AddRemembers(z: ZSet, hist: map<string, int>, window: int, h: int, t: int, c: Call)
    requires Remembers(z, hist, window, h, t) && 0 <= c.now <= c.at == t
    ensures Remembers(ZSet(z.scores[c.reqId := c.now], c.at + window), hist[c.reqId := c.now], window, h, c.at)
  {}

  lemma OneMoreMember(scores: map<string, int>, m: string, x: int)
    ensures |scores[m := x]| <= |scores| + 1
  {
    assert scores[m := x].Keys == scores.Keys + {m};
    assert |scores[m := x]| == |scores[m := x].Keys| && |scores| == |scores.Keys|;
  }

  lemma VisitShape(z: ZSet, c: Call, l: Limits)
    ensures var live, (z', r) := Prune(Found(z, c), c.now - l.window), Visit(z, c, l);
            && z' == (if r.status == BLOCKED then ZSet(live, z.deadline)
                      else ZSet(live[c.reqId := c.now], c.at + l.window))
            && (r.status != BLOCKED ==> |live| < Ceiling(l))
  {}

  lemma VisitRemembers(z: ZSet, hist: map<string, int>, l: Limits, h: int, t: int, c: Call)
    requires Remembers(z, hist, l.window, h, t) && 0 <= c.now <= c.at && t <= c.at
    ensures Visit(z, c, l).1.status == BLOCKED ==> Remembers(Visit(z, c, l).0, hist, l.window, NextHorizon(h, c), c.at)
    ensures Visit(z, c, l).1.status != BLOCKED ==>
              && Remembers(Visit(z, c, l).0, hist[c.reqId := c.now], l.window, NextHorizon(h, c), c.at)
              && |Visit(z, c, l).0.scores| <= Ceiling(l)
  {
    VisitShape(z, c, l);
    PruneRemembers(z, hist, l.window, h, t, c);
    if Visit(z, c, l).1.status != BLOCKED {
      var live := Prune(Found(z, c), c.now - l.window);
      AddRemembers(ZSet(live, z.deadline), hist, l.window, NextHorizon(h, c), c.at, c);
      OneMoreMember(live, c.reqId, c.now);
    }
  }

  lemma {:induction false} SetRemembers(l: Limits, run: LuaRun, k: string, t: int)
    requires Timely(run, t)
    ensures Remembers(KeySet(l, run, k), History(l, run, k), l.window, Horizon(run, k), t)
  {
    if run.Snoc? {
      var e := run.last;
      if e.Run? {
        SetRemembers(l, run.init, k, e.call.at);
        if e.call.key == k {
          VisitRemembers(KeySet(l, run.init, k), History(l, run.init, k), l, Horizon(run.init, k), e.call.at, e.call);
        }
      } else {
        SetRemembers(l, run.init, k, t);
      }
    }
  }

  /** The ids admitted with a stamp in (lo, hi]. */
  function Stamped(hist: map<string, int>, lo: int, hi: int): set<string> { set m | m in hist && lo < hist[m] <= hi }

  lemma StampedFit(z: ZSet, hist: map<string, int>, window: int, h: int, t: int, lo: int, hi: int)
    requires Remembers(z, hist, window, h, t) && h <= lo + window
    ensures |Stamped(hist, lo, hi)| <= |z.scores|
  {
    assert Stamped(hist, lo, hi) <= z.scores.Keys;
    SubsetSize(Stamped(hist, lo, hi), z.scores.Keys);
  }

  /** Safety of the script on every run, however its calls cross and are repeated: if none is more
      than `d` seconds behind, no interval of length W - d holds more admitted requests than the
      ceiling. With d = 0 it is the window itself. */
  lemma {:induction false} CrossedWindowSafety(l: Limits, run: LuaRun, k: string, lo: int, d: nat, t: int)
    requires Timely(run, t) && BehindBy(run, k, d)
    ensures |Stamped(History(l, run, k), lo, lo + l.window - d)| <= Ceiling(l)
  {
    if run.Snoc? {
      var e, hi := run.last, lo + l.window - d;
      CrossedWindowSafety(l, run.init, k, lo, d, if e.Run? then e.call.at else t);
      if e.Run? && e.call.key == k && KeyReply(l, run.init, e.call).status != BLOCKED {
        SetRemembers(l, run, k, t);
        if lo < e.call.now <= hi {
          SetRemembers(l, run.init, k, e.call.at);
          VisitRemembers(KeySet(l, run.init, k), History(l, run.init, k), l, Horizon(run.init, k), e.call.at, e.call);
          StampedFit(KeySet(l, run, k), History(l, run, k), l.window, Horizon(run, k), t, lo, hi);
        } else {
          SubsetSize(Stamped(History(l, run, k), lo, hi), Stamped(History(l, run.init, k), lo, hi));
        }
      }
    }
  }

  /** Every call runs at most `d` seconds after it was prepared. */
  ghost predicate Prompt(run: LuaRun, d: nat) {
    run.Snoc? ==> Prompt(run.init, d) && (run.last.Run? ==> run.last.call.at <= run.last.call.now + d)
  }

  lemma {:induction false} HorizonIsPast(run: LuaRun, k: string, t: int)
    requires Timely(run, t) && 0 <= t
    ensures Horizon(run, k) <= t
  {
    if run.Snoc? {
      HorizonIsPast(run.init, k, if run.last.Run? then run.last.call.at else t);
    }
  }

  /** Then none is further behind than that. */
  lemma {:induction false} PromptIsEnough(run: LuaRun, k: string, d: nat, t: int)
    requires Timely(run, t) && 0 <= t && Prompt(run, d)
    ensures BehindBy(run, k, d)
  {
    if run.Snoc? {
      if run.last.Run? {
        PromptIsEnough(run.init, k, d, run.last.call.at);
        HorizonIsPast(run, k, run.last.call.at);
      } else {
        PromptIsEnough(run.init, k, d, t);
      }
    }
  }
}
