/** The vocabulary shared by the sliding-window limiters: limits, results, the dual-threshold
    decision, and runs of checks and freeze toggles against a nondecreasing clock. */
module RateLimit {
  import opened Traces

  datatype Status = NORMAL | BURST | BLOCKED

  datatype Limits = Limits(soft: int, hard: int, window: int)

  /** Which limits each API key has; fixed during a run. */
  type Config = string -> Limits

  datatype Result = Result(
    status: Status, count: int, limit: int, remaining: int, burstLimit: int, burstRemaining: int)
  {
    predicate Admitted() { status != BLOCKED }
  }

  function Max(a: int, b: int): int { if a < b then b else a }

  /** The most entries one window may hold: the code tests `soft` first, so a hard limit below
      the soft one does not lower it. */
  function Ceiling(l: Limits): nat { Max(Max(l.soft, l.hard), 0) }

  /** The reply to a check that finds `count` admissions in its window. */
  function Decide(count: nat, frozen: bool, l: Limits): Result {
    var burst := Max(l.hard - l.soft, 0);
    if count < l.soft then
      Result(NORMAL, count + 1, l.soft, l.soft - (count + 1), burst, burst)
    else if count < l.hard && !frozen then
      Result(BURST, count + 1, l.soft, 0, burst, l.hard - (count + 1))
    else
      Result(BLOCKED, count, l.soft, 0, burst, 0)
  }

  // ---------- Runs ----------

  datatype Event = Check(now: int, key: string) | Freeze(on: bool)

  type Run = Trace<Event>

  /** No check of the run is later than `t`. */
  ghost predicate Before(run: Run, t: int) {
    run.Snoc? ==> Before(run.init, t) && (run.last.Check? ==> run.last.now <= t)
  }

  /** The clock never runs backwards from one check of the run to a later one. */
  ghost predicate Monotone(run: Run) {
    run.Snoc? ==> Monotone(run.init) && (run.last.Check? ==> Before(run.init, run.last.now))
  }

  lemma {:induction false} BeforeLater(run: Run, t: int, t': int)
    requires Before(run, t) && t <= t'
    ensures Before(run, t')
  {
    if run.Snoc? { BeforeLater(run.init, t, t'); }
  }

  lemma {:induction false} MonotonePrefix(p: Run, run: Run)
    requires Prefix(p, run) && Monotone(run)
    ensures Monotone(p)
  {
    if p != run { MonotonePrefix(p, run.init); }
  }

  /** The freeze flag as the history of toggles determines it. */
  function FrozenAfter(run: Run): bool {
    match run
    case Nil => false
    case Snoc(past, e) => if e.Freeze? then e.on else FrozenAfter(past)
  }

  // ---------- Histories of admission times ----------

  type Times = Trace<int>

  /** How many entries are later than `t`, and how many lie in the interval (lo, hi]. */
  function CountAfter(h: Times, t: int): nat {
    match h
    case Nil => 0
    case Snoc(past, x) => CountAfter(past, t) + if x > t then 1 else 0
  }

  function CountIn(h: Times, lo: int, hi: int): nat {
    match h
    case Nil => 0
    case Snoc(past, x) => CountIn(past, lo, hi) + if lo < x <= hi then 1 else 0
  }

  /** No entry is later than `t`. */
  ghost predicate UpTo(h: Times, t: int) { CountAfter(h, t) == 0 }

  lemma {:induction false} CountAfterLater(h: Times, t: int, t': int)
    ensures t <= t' ==> CountAfter(h, t') <= CountAfter(h, t)
  {
    if h.Snoc? { CountAfterLater(h.init, t, t'); }
  }

  lemma {:induction false} CountInBounds(h: Times, lo: int, hi: int, lo': int)
    ensures lo' <= lo ==> CountIn(h, lo, hi) <= CountAfter(h, lo')
    ensures UpTo(h, hi) ==> CountIn(h, lo, hi) == CountAfter(h, lo)
  {
    if h.Snoc? { CountInBounds(h.init, lo, hi, lo'); }
  }
}
