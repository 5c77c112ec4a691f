/** internal/ratelimit/limiter.go: the in-memory sliding-window log. */
module SlidingWindow {
  import opened Traces
  import opened RateLimit

  // ---------- The log of one key ----------

  ghost predicate Sorted(s: seq<int>) {
    forall i, j :: 0 <= i < j < |s| ==> InOrder(s, i, j)
  }

  ghost predicate InOrder(s: seq<int>, i: nat, j: nat)
    requires i < |s| && j < |s|
  {
    s[i] <= s[j]
  }

  ghost predicate Latest(s: seq<int>, t: int) { forall i :: 0 <= i < |s| ==> s[i] <= t }

  /** `i` is the first index whose timestamp is later than `t`. */
  ghost predicate FirstAfter(s: seq<int>, t: int, i: nat) {
    && i <= |s|
    && (forall j :: 0 <= j < i ==> s[j] <= t)
    && (forall j :: i <= j < |s| ==> s[j] > t)
  }

  /** The binary search of `sort.Search`. */
  method Search(s: seq<int>, t: int) returns (idx: nat)
    requires Sorted(s)
    ensures FirstAfter(s, t, idx)
  {
    var lo, hi := 0, |s|;
    while lo < hi
      invariant 0 <= lo <= hi <= |s|
      invariant forall j :: 0 <= j < lo ==> s[j] <= t
      invariant forall j :: hi <= j < |s| ==> s[j] > t
    {
      var mid := (lo + hi) / 2;
      if !(s[mid] > t) {
        forall j | 0 <= j < mid ensures s[j] <= t { assert InOrder(s, j, mid); }
        lo := mid + 1;
      } else {
        forall j | mid < j < |s| ensures s[j] > t { assert InOrder(s, mid, j); }
        hi := mid;
      }
    }
    idx := lo;
  }

  /** The entries of a log from index `i` up to `n`, as a history. */
  function Entries(s: seq<int>, i: nat, n: nat): Times
    requires n <= |s|
  {
    if n <= i then Nil else Snoc(Entries(s, i, n - 1), s[n - 1])
  }

  function AsTimes(s: seq<int>): Times { Entries(s, 0, |s|) }

  /** What pruning must leave of a log: the entries later than `t`. */
  function Live(h: Times, t: int): Times {
    match h
    case Nil => Nil
    case Snoc(past, x) => if x > t then Snoc(Live(past, t), x) else Live(past, t)
  }

  /** A log that agrees with another, shifted by `d`, has the same entries. */
  lemma {:induction false} EntriesShift(s: seq<int>, s': seq<int>, d: nat, n: nat)
    requires n <= |s'| && d + n <= |s|
    requires forall j :: 0 <= j < n ==> s'[j] == s[d + j]
    ensures Entries(s', 0, n) == Entries(s, d, d + n)
    ensures Size(Entries(s', 0, n)) == n
  {
    if n > 0 { EntriesShift(s, s', d, n - 1); }
  }

  lemma AsTimesAppend(s: seq<int>, x: int)
    ensures AsTimes(s + [x]) == Snoc(AsTimes(s), x)
  {
    EntriesShift(s + [x], s, 0, |s|);
  }

  lemma {:induction false} EntriesAreLive(s: seq<int>, t: int, i: nat, n: nat)
    requires FirstAfter(s, t, i) && n <= |s|
    ensures Entries(s, i, n) == Live(Entries(s, 0, n), t)
  {
    if n > 0 { EntriesAreLive(s, t, i, n - 1); }
  }

  /** Slicing a log at the index the search finds is pruning it. */
  lemma SliceIsLive(s: seq<int>, t: int, i: nat)
    requires FirstAfter(s, t, i)
    ensures AsTimes(s[i..]) == Live(AsTimes(s), t)
    ensures Size(AsTimes(s[i..])) == |s[i..]|
  {
    EntriesAreLive(s, t, i, |s|);
    EntriesShift(s, s[i..], i, |s| - i);
  }

  lemma {:induction false} LiveCounts(h: Times, t: int, u: int)
    ensures Size(Live(h, t)) == CountAfter(h, t)
    ensures t <= u || UpTo(h, u) ==> CountAfter(Live(h, t), u) == CountAfter(h, u)
  {
    if h.Snoc? { LiveCounts(h.init, t, u); }
  }

  lemma {:induction false} LiveIsSmaller(h: Times, t: int)
    ensures Size(Live(h, t)) <= Size(h)
  {
    if h.Snoc? { LiveIsSmaller(h.init, t); }
  }

  // ---------- The limiter ----------

  datatype Log = Log(windows: map<string, Times>, overages: map<string, nat>, frozen: bool) {
    function Window(k: string): Times { if k in windows then windows[k] else Nil }
    function Overage(k: string): nat { if k in overages then overages[k] else 0 }
  }

  const Empty := Log(map[], map[], false)

  /** What one check does to the log of its key. A refusal writes nothing back, not even the
      pruned log. */
  function Visit(log: Times, now: int, frozen: bool, l: Limits): (Times, Result) {
    var live := Live(log, now - l.window);
    var r := Decide(Size(live), frozen, l);
    (if r.Admitted() then Snoc(live, now) else log, r)
  }

  function CheckStep(st: Log, now: int, k: string, l: Limits): (Log, Result) {
    var (log, r) := Visit(st.Window(k), now, st.frozen, l);
    if r.status == BLOCKED then (st, r)
    else if r.status == NORMAL then (st.(windows := st.windows[k := log]), r)
    else (st.(windows := st.windows[k := log], overages := st.overages[k := st.Overage(k) + 1]), r)
  }

  function Step(cfg: Config, st: Log, e: Event): Log {
    match e
    case Check(now, k) => CheckStep(st, now, k, cfg(k)).0
    case Freeze(on) => st.(frozen := on)
  }

  /** The limiter after a run, and its reply to a check that comes next. */
  function After(cfg: Config, run: Run): Log {
    match run
    case Nil => Empty
    case Snoc(past, e) => Step(cfg, After(cfg, past), e)
  }

  function Reply(cfg: Config, run: Run, now: int, k: string): Result {
    CheckStep(After(cfg, run), now, k, cfg(k)).1
  }

  // ---------- One key of a run ----------

  /** The log of key `k`, computed from the run alone. */
  function KeyLog(l: Limits, run: Run, k: string): Times {
    match run
    case Nil => Nil
    case Snoc(past, e) =>
      var log := KeyLog(l, past, k);
      if e.Check? && e.key == k then Visit(log, e.now, FrozenAfter(past), l).0 else log
  }

  function KeyReply(l: Limits, run: Run, now: int, k: string): Result {
    Visit(KeyLog(l, run, k), now, FrozenAfter(run), l).1
  }

  /** The full history of one key: the time of every admission, never pruned. */
  function Admissions(l: Limits, run: Run, k: string): Times {
    match run
    case Nil => Nil
    case Snoc(past, e) =>
      if e.Check? && e.key == k && KeyReply(l, past, e.now, k).Admitted()
      then Snoc(Admissions(l, past, k), e.now)
      else Admissions(l, past, k)
  }

  /** How many checks of `k` were answered BURST. */
  function Bursts(l: Limits, run: Run, k: string): nat {
    match run
    case Nil => 0
    case Snoc(past, e) =>
      Bursts(l, past, k) + if e.Check? && e.key == k && KeyReply(l, past, e.now, k).status == BURST then 1 else 0
  }

  /** Keys do not interfere: the limiter's state of a key, its overage counter and its replies
      depend only on that key's limits, that key's checks and the freeze toggles. */
  lemma {:induction false} KeysAreIndependent(cfg: Config, run: Run, k: string)
    ensures After(cfg, run).Window(k) == KeyLog(cfg(k), run, k)
    ensures After(cfg, run).frozen == FrozenAfter(run)
    ensures After(cfg, run).Overage(k) == Bursts(cfg(k), run, k)
    ensures forall now :: Reply(cfg, run, now, k) == KeyReply(cfg(k), run, now, k)
  {
    if run.Snoc? { KeysAreIndependent(cfg, run.init, k); }
  }

  // ---------- The pruned log refines the history ----------

  /** The history is in order, and every window that ends at an admission holds at most `m`. */
  ghost predicate EachWindow(h: Times, window: int, m: nat) {
    h.Snoc? ==> EachWindow(h.init, window, m) && UpTo(h, h.last) && CountAfter(h, h.last - window) <= m
  }

  ghost predicate SameAfter(log: Times, adm: Times, u: int) { CountAfter(log, u) == CountAfter(adm, u) }

  /** The log of one key against that key's whole history at time `t`: they agree on every count
      a window ending at `t` or later can ask for. */
  ghost predicate Refines(log: Times, adm: Times, l: Limits, t: int) {
    && UpTo(log, t)
    && Size(log) <= Ceiling(l)
    && UpTo(adm, t)
    && EachWindow(adm, l.window, Ceiling(l))
    && forall u :: t - l.window <= u ==> SameAfter(log, adm, u)
  }

  lemma VisitRefines(log: Times, adm: Times, l: Limits, now: int, frozen: bool)
    requires Refines(log, adm, l, now)
    ensures var (log', r) := Visit(log, now, frozen, l);
            Refines(log', if r.Admitted() then Snoc(adm, now) else adm, l, now)
  {
    var t := now - l.window;
    var log', adm' := Snoc(Live(log, t), now), Snoc(adm, now);
    LiveCounts(log, t, now);
    assert SameAfter(log, adm, t);
    forall u | t <= u ensures SameAfter(log', adm', u) {
      assert SameAfter(log, adm, u);
      LiveCounts(log, t, u);
    }
  }

  lemma RefinesLater(log: Times, adm: Times, l: Limits, t: int, t': int)
    requires Refines(log, adm, l, t) && t <= t'
    ensures Refines(log, adm, l, t')
  {
    CountAfterLater(log, t, t');
    CountAfterLater(adm, t, t');
  }

  /** Every run keeps the log of every key a refinement of the key's history. */
  lemma {:induction false} LogRefinesHistory(l: Limits, run: Run, k: string, t: int)
    requires Monotone(run) && Before(run, t)
    ensures Refines(KeyLog(l, run, k), Admissions(l, run, k), l, t)
  {
    if run.Snoc? {
      var past, e := run.init, run.last;
      if e.Check? && e.key == k {
        LogRefinesHistory(l, past, k, e.now);
        VisitRefines(KeyLog(l, past, k), Admissions(l, past, k), l, e.now, FrozenAfter(past));
        RefinesLater(KeyLog(l, run, k), Admissions(l, run, k), l, e.now, t);
      } else {
        LogRefinesHistory(l, past, k, t);
      }
    }
  }

  lemma PrunedLogCounts(log: Times, adm: Times, l: Limits, now: int)
    requires Refines(log, adm, l, now)
    ensures Size(Live(log, now - l.window)) == CountIn(adm, now - l.window, now)
  {
    assert SameAfter(log, adm, now - l.window);
    LiveCounts(log, now - l.window, now);
    CountInBounds(adm, now - l.window, now, now);
  }

  /** Each reply is a function of how many admissions the full history has in (now - W, now]. */
  lemma KeyReplyCountsHistory(l: Limits, run: Run, now: int, k: string)
    requires Monotone(run) && Before(run, now)
    ensures KeyReply(l, run, now, k)
            == Decide(CountIn(Admissions(l, run, k), now - l.window, now), FrozenAfter(run), l)
  {
    LogRefinesHistory(l, run, k, now);
    PrunedLogCounts(KeyLog(l, run, k), Admissions(l, run, k), l, now);
  }

  lemma ReplyCountsHistory(cfg: Config, run: Run, now: int, k: string)
    requires Monotone(run) && Before(run, now)
    ensures var l := cfg(k);
            Reply(cfg, run, now, k)
            == Decide(CountIn(Admissions(l, run, k), now - l.window, now), FrozenAfter(run), l)
  {
    KeyReplyCountsHistory(cfg(k), run, now, k);
    KeysAreIndependent(cfg, run, k);
  }

  /** The log of a key never holds more entries than the ceiling. */
  lemma {:induction false} LogIsBounded(cfg: Config, run: Run, k: string)
    requires Monotone(run)
    ensures Size(After(cfg, run).Window(k)) <= Ceiling(cfg(k))
  {
    LogRefinesHistory(cfg(k), run, k, LatestCheck(run));
    KeysAreIndependent(cfg, run, k);
  }

  ghost function LatestCheck(run: Run): (t: int)
    ensures Before(run, t)
  {
    match run
    case Nil => 0
    case Snoc(past, e) =>
      var t := LatestCheck(past);
      if e.Check? && e.now > t then BeforeLater(past, t, e.now); e.now else t
  }

  lemma {:induction false} EachWindowBoundsAll(h: Times, window: int, m: nat, lo: int)
    requires EachWindow(h, window, m)
    ensures CountIn(h, lo, lo + window) <= m
  {
    if h.Snoc? {
      if h.last <= lo + window {
        CountInBounds(h, lo, lo + window, h.last - window);
      } else {
        EachWindowBoundsAll(h.init, window, m, lo);
      }
    }
  }

  /** Safety of every run: no window, wherever it starts, holds more admissions than the ceiling
      (the hard limit, when it is not below the soft one). On integer seconds the interval
      (lo, lo + W] is the half-open [lo + 1, lo + 1 + W). */
  lemma WindowSafety(l: Limits, run: Run, k: string, lo: int)
    requires Monotone(run)
    ensures CountIn(Admissions(l, run, k), lo, lo + l.window) <= Ceiling(l)
  {
    LogRefinesHistory(l, run, k, LatestCheck(run));
    EachWindowBoundsAll(Admissions(l, run, k), l.window, Ceiling(l), lo);
  }

  /** `n` checks of one key in the same second. */
  function Salvo(n: nat, now: int, k: string): Run {
    if n == 0 then Nil else Snoc(Salvo(n - 1, now, k), Check(now, k))
  }

  /** `n` admissions at the same time. */
  function Volley(n: nat, now: int): Times { if n == 0 then Nil else Snoc(Volley(n - 1, now), now) }

  lemma {:induction false} VolleyCounts(n: nat, now: int, lo: int, hi: int)
    ensures CountIn(Volley(n, now), lo, hi) == if lo < now <= hi then n else 0
  {
    if n > 0 { VolleyCounts(n - 1, now, lo, hi); }
  }

  lemma {:induction false} SalvoIsInOrder(n: nat, now: int, k: string)
    ensures Monotone(Salvo(n, now, k)) && Before(Salvo(n, now, k), now) && !FrozenAfter(Salvo(n, now, k))
  {
    if n > 0 { SalvoIsInOrder(n - 1, now, k); }
  }

  /** As many checks as the ceiling, all in one second, are all admitted. */
  lemma {:induction false} SalvoIsAdmitted(l: Limits, n: nat, now: int, k: string)
    requires l.window > 0 && n <= Ceiling(l)
    ensures Admissions(l, Salvo(n, now, k), k) == Volley(n, now)
  {
    if n > 0 {
      SalvoIsAdmitted(l, n - 1, now, k);
      SalvoIsInOrder(n - 1, now, k);
      KeyReplyCountsHistory(l, Salvo(n - 1, now, k), now, k);
      VolleyCounts(n - 1, now, now - l.window, now);
    }
  }

  /** The ceiling is reached, for all limits and at any time. */
  lemma CeilingIsReached(l: Limits, now: int, k: string)
    requires l.window > 0
    ensures Monotone(Salvo(Ceiling(l), now, k))
    ensures CountIn(Admissions(l, Salvo(Ceiling(l), now, k), k), now - 1, now - 1 + l.window) == Ceiling(l)
  {
    SalvoIsInOrder(Ceiling(l), now, k);
    SalvoIsAdmitted(l, Ceiling(l), now, k);
    VolleyCounts(Ceiling(l), now, now - 1, now - 1 + l.window);
  }

  ghost predicate WindowHolds(l: Limits, run: Run, k: string, lo: int, m: int) {
    Monotone(run) ==> CountIn(Admissions(l, run, k), lo, lo + l.window) <= m
  }

  lemma {:induction false} EmptyWindow(h: Times, lo: int, hi: int)
    requires hi <= lo
    ensures CountIn(h, lo, hi) == 0
  {
    if h.Snoc? { EmptyWindow(h.init, lo, hi); }
  }

  /** When the hard limit is a limit: no window of any run holds more than `hard` admissions if
      and only if `hard` is not negative and not below `soft` (a window that is not positive holds
      nothing). */
  lemma HardLimitExactly(l: Limits)
    ensures (forall run: Run, k: string, lo: int :: WindowHolds(l, run, k, lo, l.hard))
            <==> 0 <= l.hard && (l.window <= 0 || l.soft <= l.hard)
  {
    if 0 <= l.hard && (l.window <= 0 || l.soft <= l.hard) {
      forall run: Run, k: string, lo: int ensures WindowHolds(l, run, k, lo, l.hard) {
        if l.window <= 0 {
          EmptyWindow(Admissions(l, run, k), lo, lo + l.window);
        } else if Monotone(run) {
          WindowSafety(l, run, k, lo);
        }
      }
    } else if l.hard < 0 {
      assert !WindowHolds(l, Nil, "", 0, l.hard);
    } else {
      CeilingIsReached(l, 0, "");
      assert !WindowHolds(l, Salvo(Ceiling(l), 0, ""), "", -1, l.hard);
    }
  }

  /** A window that ends at an admission made under burst freeze holds at most `soft`. */
  lemma FrozenWindowSafety(l: Limits, run: Run, now: int, k: string)
    requires Monotone(run) && Before(run, now)
    requires FrozenAfter(run) && KeyReply(l, run, now, k).Admitted()
    ensures CountIn(Admissions(l, Snoc(run, Check(now, k)), k), now - l.window, now) <= l.soft
  {
    KeyReplyCountsHistory(l, run, now, k);
  }

  // ---------- What the numbers of a reply mean ----------

  /** `j` further checks of `k` at the same moment. */
  function More(run: Run, j: nat, now: int, k: string): Run {
    if j == 0 then run else Snoc(More(run, j - 1, now, k), Check(now, k))
  }

  /** How many admissions a window can get to. */
  function Room(l: Limits, frozen: bool): nat { if frozen then Max(l.soft, 0) else Ceiling(l) }

  lemma {:induction false} MoreIsInOrder(run: Run, j: nat, now: int, k: string)
    requires Monotone(run) && Before(run, now)
    ensures var run' := More(run, j, now, k);
            Monotone(run') && Before(run', now) && FrozenAfter(run') == FrozenAfter(run)
  {
    if j > 0 { MoreIsInOrder(run, j - 1, now, k); }
  }

  lemma {:induction false} MoreCounts(l: Limits, run: Run, j: nat, now: int, k: string)
    requires Monotone(run) && Before(run, now) && l.window > 0
    ensures var n := CountIn(Admissions(l, run, k), now - l.window, now);
            CountIn(Admissions(l, More(run, j, now, k), k), now - l.window, now)
            == if n + j <= Room(l, FrozenAfter(run)) then n + j else Max(n, Room(l, FrozenAfter(run)))
  {
    if j > 0 {
      MoreCounts(l, run, j - 1, now, k);
      MoreIsInOrder(run, j - 1, now, k);
      KeyReplyCountsHistory(l, More(run, j - 1, now, k), now, k);
    }
  }

  /** The same of counts alone: `n` admissions before the reply, `n'` after it and `j` checks more. */
  lemma DecisionIsTrue(n: nat, frozen: bool, l: Limits, j: nat)
    ensures var r, room := Decide(n, frozen, l), Room(l, frozen);
            var n' := if r.Admitted() then n + 1 else n;
            var later := Decide(if n' + j <= room then n' + j else Max(n', room), frozen, l).status;
            && r.count == n' && r.limit == l.soft && r.burstLimit == Max(l.hard - l.soft, 0)
            && 0 <= r.remaining && 0 <= r.burstRemaining
            && (later == NORMAL <==> j < r.remaining)
            && (later == BURST <==> !frozen && r.remaining <= j < r.remaining + r.burstRemaining)
  {}

  /** The reply is true: `count` is how many admissions the window holds after it, `remaining` how
      many more checks would be NORMAL at this moment, and `burstRemaining` how many after those
      would be BURST unless burst is frozen; the ones after that are BLOCKED. */
  lemma ReplyIsTrue(l: Limits, run: Run, now: int, k: string, j: nat)
    requires Monotone(run) && Before(run, now) && l.window > 0
    ensures var r, run' := KeyReply(l, run, now, k), Snoc(run, Check(now, k));
            var later := KeyReply(l, More(run', j, now, k), now, k).status;
            && r.count == CountIn(Admissions(l, run', k), now - l.window, now)
            && r.limit == l.soft && r.burstLimit == Max(l.hard - l.soft, 0)
            && 0 <= r.remaining && 0 <= r.burstRemaining
            && (later == NORMAL <==> j < r.remaining)
            && (later == BURST <==> !FrozenAfter(run) && r.remaining <= j < r.remaining + r.burstRemaining)
  {
    var run' := Snoc(run, Check(now, k));
    KeyReplyCountsHistory(l, run, now, k);
    MoreIsInOrder(run', j, now, k);
    MoreCounts(l, run', j, now, k);
    KeyReplyCountsHistory(l, More(run', j, now, k), now, k);
    DecisionIsTrue(CountIn(Admissions(l, run, k), now - l.window, now), FrozenAfter(run), l, j);
  }

  /** The `retry_after` promise: a client refused at `t` and not admitted since is NORMAL again
      from `t + W` on, exactly when its soft limit allows anything at all. */
  lemma RetryAfterWindow(l: Limits, refused: Run, t: int, run: Run, now: int, k: string)
    requires Monotone(run) && Before(run, now)
    requires Prefix(Snoc(refused, Check(t, k)), run) && !KeyReply(l, refused, t, k).Admitted()
    requires Admissions(l, run, k) == Admissions(l, refused, k)
    requires now >= t + l.window
    ensures KeyReply(l, run, now, k).status == NORMAL <==> l.soft >= 1
    ensures l.soft >= 1 ==> KeyReply(l, run, now, k).count == 1
  {
    var adm := Admissions(l, run, k);
    MonotonePrefix(Snoc(refused, Check(t, k)), run);
    LogRefinesHistory(l, refused, k, t);
    CountAfterLater(adm, t, now - l.window);
    KeyReplyCountsHistory(l, run, now, k);
    CountInBounds(adm, now - l.window, now, now - l.window);
  }

  // ---------- The class ----------

  class InMemoryLimiter {
    var windows: map<string, seq<int>>
    var overages: map<string, nat>
    var globalBurstFreeze: bool

    ghost function State(): Log reads this {
      Log(map k | k in windows :: AsTimes(windows[k]), overages, globalBurstFreeze)
    }

    /** Every log is sorted, which is what the binary search relies on. */
    ghost predicate Valid() reads this {
      forall k :: k in windows ==> Sorted(windows[k])
    }

    /** The clock has not run backwards past the key's log. */
    ghost predicate InTime(k: string, now: int) reads this {
      k in windows ==> Latest(windows[k], now)
    }

    constructor ()
      ensures Valid() && State() == Empty
    {
      windows, overages, globalBurstFreeze := map[], map[], false;
    }

    method SetGlobalBurstFreeze(frozen: bool)
      requires Valid()
      modifies this
      ensures Valid() && State() == old(State()).(frozen := frozen)
    {
      globalBurstFreeze := frozen;
    }

    method Check(now: int, apiKey: string, softLimit: int, hardLimit: int, windowSec: int) returns (r: Result)
      requires Valid() && InTime(apiKey, now)
      modifies this
      ensures Valid() && InTime(apiKey, now)
      ensures (State(), r) == CheckStep(old(State()), now, apiKey, Limits(softLimit, hardLimit, windowSec))
    {
      var minTime := now - windowSec;
      var timestamps := if apiKey in windows then windows[apiKey] else [];
      timestamps := PruneExpired(timestamps, minTime, now);
      AsTimesAppend(timestamps, now);
      var count := |timestamps|;
      var burstLimit := hardLimit - softLimit;
      if burstLimit < 0 {
        burstLimit := 0;
      }

      if count < softLimit {
        timestamps := timestamps + [now];
        Store(apiKey, timestamps);
        return Result(NORMAL, count + 1, softLimit, softLimit - (count + 1), burstLimit, burstLimit);
      }
      if count < hardLimit && !globalBurstFreeze {
        timestamps := timestamps + [now];
        Store(apiKey, timestamps);
        overages := overages[apiKey := (if apiKey in overages then overages[apiKey] else 0) + 1];
        return Result(BURST, count + 1, softLimit, 0, burstLimit, hardLimit - (count + 1));
      }
      return Result(BLOCKED, count, softLimit, 0, burstLimit, 0);
    }

    static method PruneExpired(log: seq<int>, minTime: int, ghost now: int) returns (live: seq<int>)
      requires Sorted(log) && Latest(log, now)
      ensures AsTimes(live) == Live(AsTimes(log), minTime) && |live| == Size(AsTimes(live))
      ensures Sorted(live + [now]) && Latest(live + [now], now)
    {
      live := log;
      var idx := Search(log, minTime);
      if idx > 0 {
        live := log[idx..];
      }
      SliceIsLive(log, minTime, idx);
      forall i, j | 0 <= i < j <= |live| ensures InOrder(live + [now], i, j) {
        if j < |live| { assert InOrder(log, idx + i, idx + j); }
      }
    }

    method Store(k: string, log: seq<int>)
      requires Valid() && Sorted(log)
      modifies this`windows
      ensures Valid() && windows == old(windows)[k := log]
      ensures State() == old(State()).(windows := old(State()).windows[k := AsTimes(log)])
    {
      windows := windows[k := log];
    }

    method GetOverageUnits(apiKey: string) returns (units: nat)
      ensures units == State().Overage(apiKey)
    {
      units := if apiKey in overages then overages[apiKey] else 0;
    }

    /** Copies the table entry by entry. */
    method GetAllOverages() returns (res: map<string, nat>)
      ensures res == overages
    {
      res := map[];
      var rest := overages.Keys;
      while rest != {}
        invariant rest <= overages.Keys
        invariant res == map k | k in overages.Keys - rest :: overages[k]
        decreases |rest|
      {
        var k :| k in rest;
        res := res[k := overages[k]];
        rest := rest - {k};
      }
    }
  }
}
