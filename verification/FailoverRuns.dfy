/** internal/ratelimit/limiter.go: the Redis limiter under any number of concurrent checks. Each
    check reads the clock and the flag, has its call run by Redis any number of times, and then
    either receives the last reply or falls back to memory, which reads the clock anew. No lock
    spans these steps. */
module FailoverRuns {
  import opened Options
  import opened Traces
  import opened RateLimit
  import SW = SlidingWindow
  import Lua = LuaScript
  import FO = Failover

  type Id = nat

  /** The random request id of each check. */
  type Names = Id -> string

  /** A check under way; `reply` is what its last execution answered. */
  datatype Ask = Ask(key: string, stamp: int, month: int, frozen: bool, reply: Option<Result>)

  datatype Source = FromRedis | FromMemory

  /** An answered check; `stamp` is the clock reading of the store that answered. */
  datatype Outcome = Outcome(key: string, stamp: int, month: int, source: Source, result: Result)

  datatype State = State(redis: Lua.Redis, mem: SW.Log, asks: map<Id, Ask>, results: map<Id, Outcome>)

  const Init := State(Lua.Empty, SW.Empty, map[], map[])

  datatype Action =
    | Prepare(id: Id, key: string, month: int, now: int)
    | Execute(id: Id, at: int, dropped: bool)
    | Receive(id: Id)
    | FallBack(id: Id, now: int)
    | Freeze(on: bool)

  function CallOf(name: Names, id: Id, q: Ask, at: int, dropped: bool): Lua.Call {
    Lua.Call(q.stamp, at, q.key, q.month, name(id), q.frozen, dropped)
  }

  predicate Legal(s: State, a: Action) {
    match a
    case Prepare(id, _, _, _) => id !in s.asks && id !in s.results
    case Execute(id, _, _) => id in s.asks
    case Receive(id) => id in s.asks && s.asks[id].reply.Some?
    case FallBack(id, _) => id in s.asks
    case Freeze(_) => true
  }

  function Answered(s: State, id: Id, o: Outcome): State {
    s.(asks := s.asks - {id}, results := s.results[id := o])
  }

  function Act(cfg: Config, name: Names, s: State, a: Action): State {
    if !Legal(s, a) then s
    else
      match a
      case Prepare(id, key, month, now) => s.(asks := s.asks[id := Ask(key, now, month, s.mem.frozen, None)])
      case Execute(id, at, dropped) =>
        var q := s.asks[id];
        var (redis, r) := Lua.ScriptStep(s.redis, CallOf(name, id, q, at, dropped), cfg(q.key));
        s.(redis := redis, asks := s.asks[id := q.(reply := Some(Lua.Parse(r)))])
      case Receive(id) =>
        var q := s.asks[id];
        Answered(s, id, Outcome(q.key, q.stamp, q.month, FromRedis, q.reply.value))
      case FallBack(id, now) =>
        var q := s.asks[id];
        var (mem, r) := SW.CheckStep(s.mem, now, q.key, cfg(q.key));
        Answered(s.(mem := mem), id, Outcome(q.key, now, q.month, FromMemory, r))
      case Freeze(on) => s.(mem := s.mem.(frozen := on))
  }

  function After(cfg: Config, name: Names, run: Trace<Action>): State {
    match run
    case Nil => Init
    case Snoc(past, a) => Act(cfg, name, After(cfg, name, past), a)
  }

  /** The clock readings of a run are in order, none negative and none later than `t`. */
  ghost predicate InOrder(run: Trace<Action>, t: int) {
    run.Snoc? ==>
      match run.last
      case Prepare(_, _, _, now) => 0 <= now <= t && InOrder(run.init, now)
      case Execute(_, at, _) => 0 <= at <= t && InOrder(run.init, at)
      case FallBack(_, now) => 0 <= now <= t && InOrder(run.init, now)
      case _ => InOrder(run.init, t)
  }

  lemma {:induction false} InOrderLater(run: Trace<Action>, t: int, t': int)
    requires InOrder(run, t) && t <= t'
    ensures InOrder(run, t')
  {
    if run.Snoc? && (run.last.Receive? || run.last.Freeze?) { InOrderLater(run.init, t, t'); }
  }

  // ---------- What each store sees ----------

  function ScriptRuns(cfg: Config, name: Names, run: Trace<Action>): Lua.LuaRun {
    match run
    case Nil => Nil
    case Snoc(past, a) =>
      var s := After(cfg, name, past);
      if a.Execute? && a.id in s.asks
      then Snoc(ScriptRuns(cfg, name, past), Lua.Run(CallOf(name, a.id, s.asks[a.id], a.at, a.dropped)))
      else ScriptRuns(cfg, name, past)
  }

  function MemRuns(cfg: Config, name: Names, run: Trace<Action>): Run {
    match run
    case Nil => Nil
    case Snoc(past, a) =>
      var s := After(cfg, name, past);
      if a.FallBack? && a.id in s.asks then Snoc(MemRuns(cfg, name, past), RateLimit.Check(a.now, s.asks[a.id].key))
      else if a.Freeze? then Snoc(MemRuns(cfg, name, past), RateLimit.Freeze(a.on))
      else MemRuns(cfg, name, past)
  }

  /** The two stores never see each other: each is the limiter run on its own part. */
  lemma {:induction false} StoresAreIndependent(cfg: Config, name: Names, run: Trace<Action>)
    ensures After(cfg, name, run).redis == Lua.After(cfg, ScriptRuns(cfg, name, run))
    ensures After(cfg, name, run).mem == SW.After(cfg, MemRuns(cfg, name, run))
  {
    if run.Snoc? { StoresAreIndependent(cfg, name, run.init); }
  }

  /** What an execution answers and what a fallback answers depend only on the key's limits and on
      that store's part of the run. */
  lemma RepliesAreKeyReplies(cfg: Config, name: Names, run: Trace<Action>, a: Action)
    requires (a.Execute? || a.FallBack?) && a.id in After(cfg, name, run).asks
    ensures var s, s', q := After(cfg, name, run), After(cfg, name, Snoc(run, a)), After(cfg, name, run).asks[a.id];
            if a.Execute? then
              && a.id in s'.asks
              && s'.asks[a.id].reply
                 == Some(Lua.Parse(Lua.KeyReply(cfg(q.key), ScriptRuns(cfg, name, run),
                                                CallOf(name, a.id, q, a.at, a.dropped))))
            else
              && a.id in s'.results
              && s'.results[a.id].result == SW.KeyReply(cfg(q.key), MemRuns(cfg, name, run), a.now, q.key)
  {
    var q := After(cfg, name, run).asks[a.id];
    StoresAreIndependent(cfg, name, run);
    Lua.KeysAreIndependent(cfg, ScriptRuns(cfg, name, run), q.key, q.month);
    SW.KeysAreIndependent(cfg, MemRuns(cfg, name, run), q.key);
  }

  ghost predicate StampsOk(asks: map<Id, Ask>, t: int) { forall id :: id in asks ==> 0 <= asks[id].stamp <= t }

  lemma {:induction false} StampsInOrder(cfg: Config, name: Names, run: Trace<Action>, t: int)
    requires InOrder(run, t)
    ensures StampsOk(After(cfg, name, run).asks, t)
  {
    if run.Snoc? {
      match run.last
      case Prepare(_, _, _, now) => StampsInOrder(cfg, name, run.init, now);
      case Execute(_, at, _) => StampsInOrder(cfg, name, run.init, at);
      case FallBack(_, now) => StampsInOrder(cfg, name, run.init, now);
      case _ => StampsInOrder(cfg, name, run.init, t);
    }
  }

  lemma {:induction false} TimelyLater(run: Lua.LuaRun, t: int, t': int)
    requires Lua.Timely(run, t) && t <= t'
    ensures Lua.Timely(run, t')
  {
    if run.Snoc? && run.last.Freeze? { TimelyLater(run.init, t, t'); }
  }

  /** Redis runs calls in the order of its own clock and memory answers in the order of its own,
      because the fallback reads the clock under its lock. */
  lemma {:induction false} StoresInOrder(cfg: Config, name: Names, run: Trace<Action>, t: int)
    requires InOrder(run, t)
    ensures Lua.Timely(ScriptRuns(cfg, name, run), t)
    ensures Monotone(MemRuns(cfg, name, run)) && Before(MemRuns(cfg, name, run), t)
  {
    if run.Snoc? {
      var t' := match run.last
        case Prepare(_, _, _, now) => now
        case Execute(_, at, _) => at
        case FallBack(_, now) => now
        case _ => t;
      StoresInOrder(cfg, name, run.init, t');
      StampsInOrder(cfg, name, run.init, t');
      TimelyLater(ScriptRuns(cfg, name, run.init), t', t);
      BeforeLater(MemRuns(cfg, name, run.init), t', t);
    }
  }

  // ---------- Counting outcomes ----------

  datatype Group =
    | Granted(source: Source, key: string, after: int, upTo: int)
    | Bursts(source: Source, key: string)
    | MonthBursts(key: string, month: int)

  predicate In(o: Outcome, g: Group) {
    match g
    case Granted(src, k, lo, hi) => o.source == src && o.key == k && o.result.Admitted() && lo < o.stamp <= hi
    case Bursts(src, k) => o.source == src && o.key == k && o.result.status == BURST
    case MonthBursts(k, month) =>
      o.source == FromRedis && o.key == k && o.month == month && o.result.status == BURST
  }

  function Members(results: map<Id, Outcome>, g: Group): set<Id> { set id | id in results && In(results[id], g) }

  function Count(results: map<Id, Outcome>, g: Group): nat { |Members(results, g)| }

  lemma CountNew(results: map<Id, Outcome>, id: Id, o: Outcome, g: Group)
    requires id !in results
    ensures Count(results[id := o], g) == Count(results, g) + if In(o, g) then 1 else 0
  {
    assert Members(results[id := o], g) == Members(results, g) + if In(o, g) then {id} else {};
  }

  /** Nobody is both under way and answered. */
  ghost predicate Apart(s: State) { forall id :: id in s.asks ==> id !in s.results }

  lemma {:induction false} AlwaysApart(cfg: Config, name: Names, run: Trace<Action>)
    ensures Apart(After(cfg, name, run))
  {
    if run.Snoc? { AlwaysApart(cfg, name, run.init); }
  }

  // ---------- What memory grants ----------

  lemma {:induction false} MemoryGrants(cfg: Config, name: Names, run: Trace<Action>, k: string, lo: int, hi: int)
    ensures Count(After(cfg, name, run).results, Granted(FromMemory, k, lo, hi))
            == CountIn(SW.Admissions(cfg(k), MemRuns(cfg, name, run), k), lo, hi)
  {
    if run.Snoc? {
      MemoryGrants(cfg, name, run.init, k, lo, hi);
      MemoryGrantsStep(cfg, name, run.init, run.last, k, lo, hi);
    }
  }

  lemma MemoryGrantsStep(cfg: Config, name: Names, past: Trace<Action>, a: Action, k: string, lo: int, hi: int)
    ensures var s := After(cfg, name, past);
            Count(After(cfg, name, Snoc(past, a)).results, Granted(FromMemory, k, lo, hi))
            == Count(s.results, Granted(FromMemory, k, lo, hi))
               + if a.FallBack? && a.id in s.asks && s.asks[a.id].key == k && lo < a.now <= hi
                    && SW.KeyReply(cfg(k), MemRuns(cfg, name, past), a.now, k).Admitted() then 1 else 0
  {
    var s, s' := After(cfg, name, past), After(cfg, name, Snoc(past, a));
    AlwaysApart(cfg, name, past);
    if a.FallBack? && a.id in s.asks {
      StoresAreIndependent(cfg, name, past);
      SW.KeysAreIndependent(cfg, MemRuns(cfg, name, past), s.asks[a.id].key);
      CountNew(s.results, a.id, s'.results[a.id], Granted(FromMemory, k, lo, hi));
    } else if a.Receive? && Legal(s, a) {
      CountNew(s.results, a.id, s'.results[a.id], Granted(FromMemory, k, lo, hi));
    }
  }

  // ---------- What Redis grants ----------

  ghost predicate Injective(name: Names) { forall i: Id, j: Id :: name(i) == name(j) ==> i == j }

  /** The stamp of a check of `k` that Redis has granted, as far as anybody knows. */
  ghost predicate GrantedAt(s: State, id: Id, k: string, stamp: int) {
    || (id in s.results && s.results[id].source == FromRedis && s.results[id].key == k
        && s.results[id].result.Admitted() && s.results[id].stamp == stamp)
    || (id in s.asks && s.asks[id].key == k && s.asks[id].reply.Some?
        && s.asks[id].reply.value.Admitted() && s.asks[id].stamp == stamp)
  }

  ghost predicate InHistory(name: Names, s: State, k: string, hist: map<string, int>) {
    forall id, stamp :: GrantedAt(s, id, k, stamp) ==> name(id) in hist && hist[name(id)] == stamp
  }

  lemma ExecuteInHistory(cfg: Config, name: Names, past: Trace<Action>, a: Action, k: string)
    requires Injective(name) && a.Execute? && a.id in After(cfg, name, past).asks
    requires InHistory(name, After(cfg, name, past), k, Lua.History(cfg(k), ScriptRuns(cfg, name, past), k))
    ensures InHistory(name, After(cfg, name, Snoc(past, a)), k,
                      Lua.History(cfg(k), ScriptRuns(cfg, name, Snoc(past, a)), k))
  {
    var s, s' := After(cfg, name, past), After(cfg, name, Snoc(past, a));
    var q := s.asks[a.id];
    var runs := ScriptRuns(cfg, name, past);
    StoresAreIndependent(cfg, name, past);
    AlwaysApart(cfg, name, past);
    Lua.KeysAreIndependent(cfg, runs, q.key, q.month);
    var hist, hist' := Lua.History(cfg(k), runs, k), Lua.History(cfg(k), ScriptRuns(cfg, name, Snoc(past, a)), k);
    forall id, stamp | GrantedAt(s', id, k, stamp) ensures name(id) in hist' && hist'[name(id)] == stamp {
      if id != a.id { assert GrantedAt(s, id, k, stamp); }
    }
  }

  lemma {:induction false} GrantsAreInHistory(cfg: Config, name: Names, run: Trace<Action>, k: string)
    requires Injective(name)
    ensures InHistory(name, After(cfg, name, run), k, Lua.History(cfg(k), ScriptRuns(cfg, name, run), k))
  {
    if run.Snoc? {
      GrantsAreInHistory(cfg, name, run.init, k);
      var s, s' := After(cfg, name, run.init), After(cfg, name, run);
      if run.last.Execute? && run.last.id in s.asks {
        ExecuteInHistory(cfg, name, run.init, run.last, k);
      } else {
        forall id, stamp | GrantedAt(s', id, k, stamp) ensures GrantedAt(s, id, k, stamp) {}
      }
    }
  }

  lemma {:induction false} InjectionSize(ids: set<Id>, name: Names, names: set<string>)
    requires Injective(name) && forall id :: id in ids ==> name(id) in names
    ensures |ids| <= |names|
  {
    if ids != {} {
      var id :| id in ids;
      InjectionSize(ids - {id}, name, names - {name(id)});
    }
  }

  lemma RedisGrants(cfg: Config, name: Names, run: Trace<Action>, k: string, lo: int, hi: int)
    requires Injective(name)
    ensures Count(After(cfg, name, run).results, Granted(FromRedis, k, lo, hi))
            <= |Lua.Stamped(Lua.History(cfg(k), ScriptRuns(cfg, name, run), k), lo, hi)|
  {
    var s, hist := After(cfg, name, run), Lua.History(cfg(k), ScriptRuns(cfg, name, run), k);
    GrantsAreInHistory(cfg, name, run, k);
    var ids := Members(s.results, Granted(FromRedis, k, lo, hi));
    forall id | id in ids ensures name(id) in Lua.Stamped(hist, lo, hi) {
      assert GrantedAt(s, id, k, s.results[id].stamp);
    }
    InjectionSize(ids, name, Lua.Stamped(hist, lo, hi));
  }

  // ---------- Safety ----------

  /** The checks of `k` granted under a stamp in (lo, hi], by either store. */
  function GrantedIn(results: map<Id, Outcome>, k: string, lo: int, hi: int): nat {
    Count(results, Granted(FromRedis, k, lo, hi)) + Count(results, Granted(FromMemory, k, lo, hi))
  }

  lemma {:induction false} WiderCounts(h: Times, lo: int, hi: int, hi': int)
    requires hi <= hi'
    ensures CountIn(h, lo, hi) <= CountIn(h, lo, hi')
  {
    if h.Snoc? { WiderCounts(h.init, lo, hi, hi'); }
  }

  /** Whatever Redis does and however calls cross on their way to it: if no call is more than `d`
      seconds behind when it runs, no interval of length W - d holds more than twice the ceiling.
      With d = 0 it is the window. */
  lemma FailoverSafety(cfg: Config, name: Names, run: Trace<Action>, t: int, k: string, lo: int, d: nat)
    requires Injective(name) && InOrder(run, t) && Lua.BehindBy(ScriptRuns(cfg, name, run), k, d)
    ensures GrantedIn(After(cfg, name, run).results, k, lo, lo + cfg(k).window - d) <= 2 * Ceiling(cfg(k))
  {
    var hi := lo + cfg(k).window - d;
    StoresInOrder(cfg, name, run, t);
    RedisGrants(cfg, name, run, k, lo, hi);
    Lua.CrossedWindowSafety(cfg(k), ScriptRuns(cfg, name, run), k, lo, d, t);
    MemoryGrants(cfg, name, run, k, lo, hi);
    SW.WindowSafety(cfg(k), MemRuns(cfg, name, run), k, lo);
    WiderCounts(SW.Admissions(cfg(k), MemRuns(cfg, name, run), k), lo, hi, lo + cfg(k).window);
  }

  /** Every call runs at most `d` seconds after its clock reading. */
  ghost predicate Prompt(cfg: Config, name: Names, run: Trace<Action>, d: nat) {
    Lua.Prompt(ScriptRuns(cfg, name, run), d)
  }

  /** In particular if no call takes more than `d` seconds to run. */
  lemma PromptSafety(cfg: Config, name: Names, run: Trace<Action>, t: nat, k: string, lo: int, d: nat)
    requires Injective(name) && InOrder(run, t) && Prompt(cfg, name, run, d)
    ensures GrantedIn(After(cfg, name, run).results, k, lo, lo + cfg(k).window - d) <= 2 * Ceiling(cfg(k))
  {
    StoresInOrder(cfg, name, run, t);
    Lua.PromptIsEnough(ScriptRuns(cfg, name, run), k, d, t);
    FailoverSafety(cfg, name, run, t, k, lo, d);
  }

  lemma StampedSplit(hist: map<string, int>, lo: int, mid: int, hi: int)
    requires lo <= mid
    ensures |Lua.Stamped(hist, lo, hi)| <= |Lua.Stamped(hist, lo, mid)| + |Lua.Stamped(hist, mid, hi)|
  {
    var both := Lua.Stamped(hist, lo, mid) + Lua.Stamped(hist, mid, hi);
    SubsetSize(Lua.Stamped(hist, lo, hi), both);
  }

  /** And a whole window holds at most three times the ceiling if calls are behind by no more than
      half of it: two from Redis, one from memory. */
  lemma WholeWindowSafety(cfg: Config, name: Names, run: Trace<Action>, t: int, k: string, lo: int, d: nat)
    requires Injective(name) && InOrder(run, t) && Lua.BehindBy(ScriptRuns(cfg, name, run), k, d)
    requires 2 * d <= cfg(k).window
    ensures GrantedIn(After(cfg, name, run).results, k, lo, lo + cfg(k).window) <= 3 * Ceiling(cfg(k))
  {
    var w := cfg(k).window;
    var runs := ScriptRuns(cfg, name, run);
    var hist := Lua.History(cfg(k), runs, k);
    StoresInOrder(cfg, name, run, t);
    RedisGrants(cfg, name, run, k, lo, lo + w);
    StampedSplit(hist, lo, lo + w - d, lo + w);
    Lua.CrossedWindowSafety(cfg(k), runs, k, lo, d, t);
    Lua.CrossedWindowSafety(cfg(k), runs, k, lo + w - d, d, t);
    SubsetSize(Lua.Stamped(hist, lo + w - d, lo + w), Lua.Stamped(hist, lo + w - d, lo + w - d + w - d));
    MemoryGrants(cfg, name, run, k, lo, lo + w);
    SW.WindowSafety(cfg(k), MemRuns(cfg, name, run), k, lo);
  }

  // ---------- Burst freeze ----------

  /** Burst is frozen before anything else happens and never thawed. */
  ghost predicate FrozenThroughout(run: Trace<Action>) {
    match run
    case Nil => false
    case Snoc(Nil, a) => a == Action.Freeze(true)
    case Snoc(past, a) => FrozenThroughout(past) && a != Action.Freeze(false)
  }

  ghost predicate NoBurst(s: State) {
    && s.mem.frozen
    && (forall id :: id in s.asks ==>
          s.asks[id].frozen && (s.asks[id].reply.Some? ==> s.asks[id].reply.value.status != BURST))
    && (forall id :: id in s.results ==> s.results[id].result.status != BURST)
  }

  lemma NoBurstStep(cfg: Config, name: Names, s: State, a: Action)
    requires NoBurst(s) && a != Action.Freeze(false)
    ensures NoBurst(Act(cfg, name, s, a))
  {}

  /** Then neither store ever answers BURST: the flag reaches Redis with every call. */
  lemma {:induction false} FrozenMeansNoBurst(cfg: Config, name: Names, run: Trace<Action>)
    requires FrozenThroughout(run)
    ensures NoBurst(After(cfg, name, run))
  {
    if run.init.Nil? {
      assert After(cfg, name, run.init) == Init;
    } else {
      FrozenMeansNoBurst(cfg, name, run.init);
      NoBurstStep(cfg, name, After(cfg, name, run.init), run.last);
    }
  }

  // ---------- Billing ----------

  predicate HoldsBurst(q: Ask, k: string, month: int) {
    q.key == k && q.month == month && q.reply.Some? && q.reply.value.status == BURST
  }

  /** The checks whose last execution answered BURST and whose reply has not arrived. */
  function Held(asks: map<Id, Ask>, k: string, month: int): set<Id> {
    set id | id in asks && HoldsBurst(asks[id], k, month)
  }

  /** The step throws such a reply away: the call runs again, or the check falls back. */
  predicate Wastes(s: State, a: Action, k: string, month: int) {
    (a.Execute? || a.FallBack?) && a.id in s.asks && HoldsBurst(s.asks[a.id], k, month)
  }

  function Wasted(cfg: Config, name: Names, run: Trace<Action>, k: string, month: int): nat {
    match run
    case Nil => 0
    case Snoc(past, a) =>
      Wasted(cfg, name, past, k, month) + if Wastes(After(cfg, name, past), a, k, month) then 1 else 0
  }

  lemma HeldUpdate(asks: map<Id, Ask>, id: Id, q: Ask, k: string, month: int)
    ensures Held(asks[id := q], k, month)
            == Held(asks, k, month) - {id} + if HoldsBurst(q, k, month) then {id} else {}
    ensures Held(asks - {id}, k, month) == Held(asks, k, month) - {id}
  {}

  ghost predicate Billed(s: State, k: string, month: int, wasted: nat) {
    && s.redis.Units(month, k) == Count(s.results, MonthBursts(k, month)) + |Held(s.asks, k, month)| + wasted
    && s.mem.Overage(k) == Count(s.results, Bursts(FromMemory, k))
  }

  lemma ExecuteBilled(cfg: Config, name: Names, s: State, a: Action, k: string, month: int, wasted: nat)
    requires Billed(s, k, month, wasted) && a.Execute? && a.id in s.asks
    ensures Billed(Act(cfg, name, s, a), k, month, wasted + if Wastes(s, a, k, month) then 1 else 0)
  {
    HeldUpdate(s.asks, a.id, Act(cfg, name, s, a).asks[a.id], k, month);
  }

  lemma ReceiveBilled(cfg: Config, name: Names, s: State, a: Action, k: string, month: int, wasted: nat)
    requires Billed(s, k, month, wasted) && Apart(s) && a.Receive? && Legal(s, a)
    ensures Billed(Act(cfg, name, s, a), k, month, wasted)
  {
    var o := Act(cfg, name, s, a).results[a.id];
    HeldUpdate(s.asks, a.id, s.asks[a.id], k, month);
    CountNew(s.results, a.id, o, MonthBursts(k, month));
    CountNew(s.results, a.id, o, Bursts(FromMemory, k));
  }

  lemma OverageStep(mem: SW.Log, now: int, k': string, l: Limits, k: string)
    ensures var (mem', r) := SW.CheckStep(mem, now, k', l);
            mem'.Overage(k) == mem.Overage(k) + if k == k' && r.status == BURST then 1 else 0
  {}

  lemma BilledAfterFallBack(s: State, id: Id, mem: SW.Log, o: Outcome, k: string, month: int, wasted: nat)
    requires Billed(s, k, month, wasted) && id in s.asks && id !in s.results && o.source == FromMemory
    requires mem.Overage(k) == s.mem.Overage(k) + if o.key == k && o.result.status == BURST then 1 else 0
    ensures Billed(Answered(s.(mem := mem), id, o), k, month,
                   wasted + if HoldsBurst(s.asks[id], k, month) then 1 else 0)
  {
    HeldUpdate(s.asks, id, s.asks[id], k, month);
    CountNew(s.results, id, o, MonthBursts(k, month));
    CountNew(s.results, id, o, Bursts(FromMemory, k));
  }

  lemma FallBackBilled(cfg: Config, name: Names, s: State, a: Action, k: string, month: int, wasted: nat)
    requires Billed(s, k, month, wasted) && Apart(s) && a.FallBack? && Legal(s, a)
    ensures Billed(Act(cfg, name, s, a), k, month, wasted + if Wastes(s, a, k, month) then 1 else 0)
  {
    var q := s.asks[a.id];
    var (mem, r) := SW.CheckStep(s.mem, a.now, q.key, cfg(q.key));
    OverageStep(s.mem, a.now, q.key, cfg(q.key), k);
    BilledAfterFallBack(s, a.id, mem, Outcome(q.key, a.now, q.month, FromMemory, r), k, month, wasted);
  }

  /** Conservation on every run: a month's units are the BURST replies Redis gave that month, those
      on their way and those thrown away; memory counts its own. */
  lemma {:induction false} OveragesAreConserved(cfg: Config, name: Names, run: Trace<Action>, k: string, month: int)
    ensures Billed(After(cfg, name, run), k, month, Wasted(cfg, name, run, k, month))
  {
    if run.Snoc? {
      var s, a, w := After(cfg, name, run.init), run.last, Wasted(cfg, name, run.init, k, month);
      OveragesAreConserved(cfg, name, run.init, k, month);
      AlwaysApart(cfg, name, run.init);
      match a
      case Prepare(id, _, _, _) =>
        if Legal(s, a) { HeldUpdate(s.asks, id, Act(cfg, name, s, a).asks[id], k, month); }
      case Execute(id, _, _) => if Legal(s, a) { ExecuteBilled(cfg, name, s, a, k, month, w); }
      case Receive(_) => if Legal(s, a) { ReceiveBilled(cfg, name, s, a, k, month, w); }
      case FallBack(_, _) => if Legal(s, a) { FallBackBilled(cfg, name, s, a, k, month, w); }
      case Freeze(_) =>
    }
  }

  ghost predicate OneMonth(run: Trace<Action>, month: int) {
    run.Snoc? ==> OneMonth(run.init, month) && (run.last.Prepare? ==> run.last.month == month)
  }

  ghost predicate MonthOk(s: State, month: int) {
    && (forall id :: id in s.asks ==> s.asks[id].month == month)
    && (forall id :: id in s.results ==> s.results[id].month == month)
  }

  lemma MonthStep(cfg: Config, name: Names, s: State, a: Action, month: int)
    requires MonthOk(s, month) && (a.Prepare? ==> a.month == month)
    ensures MonthOk(Act(cfg, name, s, a), month)
  {}

  lemma {:induction false} MonthOfAll(cfg: Config, name: Names, run: Trace<Action>, month: int)
    requires OneMonth(run, month)
    ensures MonthOk(After(cfg, name, run), month)
  {
    if run.Snoc? {
      MonthOfAll(cfg, name, run.init, month);
      MonthStep(cfg, name, After(cfg, name, run.init), run.last, month);
    }
  }

  /** With nobody under way, BURST results equal Redis units plus memory overages if and only if no
      reply was thrown away: an error after the script ran, or a call sent twice, bills twice. */
  lemma EveryBurstIsBilledOnce(cfg: Config, name: Names, run: Trace<Action>, k: string, month: int)
    requires OneMonth(run, month) && After(cfg, name, run).asks == map[]
    ensures var s := After(cfg, name, run);
            Count(s.results, Bursts(FromRedis, k)) + Count(s.results, Bursts(FromMemory, k))
            == s.redis.Units(month, k) + s.mem.Overage(k)
            <==> Wasted(cfg, name, run, k, month) == 0
  {
    var s := After(cfg, name, run);
    OveragesAreConserved(cfg, name, run, k, month);
    MonthOfAll(cfg, name, run, month);
    assert Members(s.results, Bursts(FromRedis, k)) == Members(s.results, MonthBursts(k, month));
    assert Held(s.asks, k, month) == {};
  }

  // ---------- A check that nobody interrupts ----------

  function Runs(cfg: Config, name: Names, s: State, id: Id, execs: seq<FO.Exec>, n: nat): State
    requires n <= |execs|
  {
    if n == 0 then s
    else
      Act(cfg, name, Runs(cfg, name, s, id, execs, n - 1), Execute(id, execs[n - 1].at, execs[n - 1].dropped))
  }

  function Alone(cfg: Config, name: Names, s: State, id: Id, q: FO.Request): State {
    var s1 := Act(cfg, name, s, Prepare(id, q.call.key, q.call.month, q.call.now));
    var s2 := Runs(cfg, name, s1, id, q.execs, |q.execs|);
    Act(cfg, name, s2, if q.Answered() then Receive(id) else FallBack(id, q.memNow))
  }

  lemma {:induction false} RunsExecute(
    cfg: Config, name: Names, s: State, id: Id, c: Lua.Call, execs: seq<FO.Exec>, n: nat)
    requires n <= |execs| && id in s.asks && s.asks[id] == Ask(c.key, c.now, c.month, c.frozen, None)
    requires c.reqId == name(id)
    ensures var s', l := Runs(cfg, name, s, id, execs, n), cfg(c.key);
            && s'.redis == FO.Executed(s.redis, c, execs, n, l)
            && s'.mem == s.mem && s'.results == s.results && id in s'.asks
            && s'.asks[id].(reply := None) == s.asks[id]
            && s'.asks[id].reply ==
               if n == 0 then None
               else Some(Lua.Parse(Lua.ScriptStep(FO.Executed(s.redis, c, execs, n - 1, l),
                                                  FO.Running(c, execs[n - 1]), l).1))
  {
    if n > 0 {
      RunsExecute(cfg, name, s, id, c, execs, n - 1);
      var s1 := Runs(cfg, name, s, id, execs, n - 1);
      assert CallOf(name, id, s1.asks[id], execs[n - 1].at, execs[n - 1].dropped) == FO.Running(c, execs[n - 1]);
    }
  }

  lemma ReceiveGives(cfg: Config, name: Names, s: State, id: Id)
    requires id in s.asks && s.asks[id].reply.Some?
    ensures var s' := Act(cfg, name, s, Receive(id));
            && s'.redis == s.redis && s'.mem == s.mem
            && id in s'.results && s'.results[id].result == s.asks[id].reply.value
  {}

  lemma FallBackGives(cfg: Config, name: Names, s: State, id: Id, now: int)
    requires id in s.asks
    ensures var s', k := Act(cfg, name, s, FallBack(id, now)), s.asks[id].key;
            && s'.redis == s.redis && id in s'.results
            && (s'.mem, s'.results[id].result) == SW.CheckStep(s.mem, now, k, cfg(k))
  {}

  /** The state in which the last step finds the check. */
  lemma BeforeTheEnd(cfg: Config, name: Names, s: State, id: Id, q: FO.Request)
    requires id !in s.asks && id !in s.results && q.call.reqId == name(id)
    ensures var s1 := Act(cfg, name, s, Prepare(id, q.call.key, q.call.month, q.call.now));
            var s2 := Runs(cfg, name, s1, id, q.execs, |q.execs|);
            var c, l := q.call.(frozen := s.mem.frozen), cfg(q.call.key);
            && s2.redis == FO.Executed(s.redis, c, q.execs, |q.execs|, l)
            && s2.mem == s.mem && id in s2.asks && s2.asks[id].key == c.key
            && (|q.execs| > 0 ==>
                  s2.asks[id].reply
                  == Some(Lua.Parse(Lua.ScriptStep(FO.Executed(s.redis, c, q.execs, |q.execs| - 1, l),
                                                   FO.Running(c, q.execs[|q.execs| - 1]), l).1)))
  {
    var c := q.call.(frozen := s.mem.frozen);
    var s1 := Act(cfg, name, s, Prepare(id, c.key, c.month, c.now));
    RunsExecute(cfg, name, s1, id, c, q.execs, |q.execs|);
  }

  /** It is the wrapper's check. */
  lemma AloneIsACheck(cfg: Config, name: Names, s: State, id: Id, q: FO.Request)
    requires id !in s.asks && id !in s.results && q.call.reqId == name(id)
    ensures var s', (w, r) := Alone(cfg, name, s, id, q), FO.CheckStep(FO.Wrapper(s.redis, s.mem), q, cfg(q.call.key));
            && id in s'.results && s'.results[id].result == r
            && s'.redis == w.redis && s'.mem == w.mem
  {
    BeforeTheEnd(cfg, name, s, id, q);
    var s1 := Act(cfg, name, s, Prepare(id, q.call.key, q.call.month, q.call.now));
    var s2 := Runs(cfg, name, s1, id, q.execs, |q.execs|);
    if q.Answered() {
      ReceiveGives(cfg, name, s2, id);
    } else {
      FallBackGives(cfg, name, s2, id, q.memNow);
    }
  }
}
