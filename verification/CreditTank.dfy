/** The token bucket seen by a clock that ticks in tokens: time times refill rate, or "credit".
    A refill then adds a difference of credits, and the long-run bound needs no multiplication. */
module CreditTank {
  import opened Traces
  import opened RateLimit

  function Min(a: real, b: real): real { if a <= b then a else b }

  /** The tokens a span of time is worth. */
  function Earn(seconds: real, rate: real): real { seconds * rate }

  /** The part of a bucket that only BURST may draw on. */
  function Reserve(l: Limits): real { Max(l.hard - l.soft, 0) as real }

  /** The zone a refilled bucket is in, and what a check leaves in it. */
  function Zone(tokens: real, frozen: bool, l: Limits): Status {
    if tokens >= Reserve(l) + 1.0 then NORMAL
    else if tokens >= 1.0 && !frozen then BURST
    else BLOCKED
  }

  function Take(tokens: real, frozen: bool, l: Limits): real {
    if Zone(tokens, frozen, l) == BLOCKED then tokens else tokens - 1.0
  }

  // ---------- Runs of one key's checks ----------

  /** A check at `now`, when the clock stands at `credit` tokens, under freeze or not. */
  datatype Tick = Tick(now: real, credit: real, frozen: bool)

  type Ticks = Trace<Tick>

  datatype Tank = NoTank | Tank(tokens: real, credit: real)

  function Filled(l: Limits, t: Tank, credit: real): real {
    match t
    case NoTank => l.hard as real
    case Tank(tokens, last) => Min(l.hard as real, tokens + (credit - last))
  }

  function After(l: Limits, run: Ticks): Tank {
    match run
    case Nil => NoTank
    case Snoc(past, e) => Tank(Take(Filled(l, After(l, past), e.credit), e.frozen, l), e.credit)
  }

  function Verdict(l: Limits, past: Ticks, e: Tick): Status {
    Zone(Filled(l, After(l, past), e.credit), e.frozen, l)
  }

  function AdmittedIn(l: Limits, run: Ticks, from: real, to: real): nat {
    match run
    case Nil => 0
    case Snoc(past, e) =>
      AdmittedIn(l, past, from, to) + if from <= e.now <= to && Verdict(l, past, e) != BLOCKED then 1 else 0
  }

  // ---------- What every run keeps ----------

  /** Time and credit never run backwards, and no check is later than (now, credit). */
  ghost predicate By(run: Ticks, now: real, credit: real) {
    run.Snoc? ==> run.last.now <= now && run.last.credit <= credit
  }

  ghost predicate Ordered(run: Ticks) {
    run.Snoc? ==> Ordered(run.init) && By(run.init, run.last.now, run.last.credit)
  }

  lemma {:induction false} TankIsLawful(l: Limits, run: Ticks)
    requires l.hard >= 0 && Ordered(run)
    ensures run.Snoc? ==> 0.0 <= After(l, run).tokens <= l.hard as real && After(l, run).credit == run.last.credit
    ensures run.Nil? ==> After(l, run) == NoTank
  {
    if run.Snoc? { TankIsLawful(l, run.init); }
  }

  function Level(tokens: real, floor: real): real { if tokens > floor then tokens - floor else 0.0 }

  /** Every admission at `from` or later leaves at least `floor` tokens behind. */
  ghost predicate Spares(l: Limits, run: Ticks, from: real, floor: real) {
    run.Snoc? ==>
      && Spares(l, run.init, from, floor)
      && (from <= run.last.now && Verdict(l, run.init, run.last) != BLOCKED ==> After(l, run).tokens >= floor)
  }

  /** The credit clock stands at `c0` or later from time `from` on. */
  ghost predicate StartsAt(run: Ticks, from: real, c0: real) {
    run.Snoc? ==> StartsAt(run.init, from, c0) && (from <= run.last.now ==> c0 <= run.last.credit)
  }

  /** Tokens above the floor, plus what was admitted since `from`, never exceed what the tank
      could hold above the floor plus the credit gained since. */
  lemma {:induction false} AdmissionsAreFunded(l: Limits, run: Ticks, from: real, to: real, floor: real, c0: real)
    requires l.hard >= 0 && Ordered(run) && StartsAt(run, from, c0) && Spares(l, run, from, floor)
    requires 0.0 <= floor <= l.hard as real && (run.Snoc? ==> run.last.now <= to)
    ensures if run.Snoc? && from <= run.last.now
            then Level(After(l, run).tokens, floor) + AdmittedIn(l, run, from, to) as real
                 <= l.hard as real - floor + (run.last.credit - c0)
            else AdmittedIn(l, run, from, to) == 0
  {
    if run.Snoc? {
      AdmissionsAreFunded(l, run.init, from, to, floor, c0);
      TankIsLawful(l, run.init);
    }
  }

  /** The credit clock has reached at most `c1` by time `to`. */
  ghost predicate EndsBy(run: Ticks, to: real, c1: real) {
    run.Snoc? ==> EndsBy(run.init, to, c1) && (run.last.now <= to ==> run.last.credit <= c1)
  }

  /** In any interval at most what lies above the floor plus the credit of the interval. */
  lemma {:induction false} DrawBound(l: Limits, run: Ticks, from: real, to: real, floor: real, c0: real, c1: real)
    requires l.hard >= 0 && Ordered(run) && StartsAt(run, from, c0) && EndsBy(run, to, c1) && c0 <= c1
    requires Spares(l, run, from, floor) && 0.0 <= floor <= l.hard as real
    ensures AdmittedIn(l, run, from, to) as real <= l.hard as real - floor + (c1 - c0)
  {
    if run.Snoc? {
      if run.last.now <= to {
        AdmissionsAreFunded(l, run, from, to, floor, c0);
        TankIsLawful(l, run);
      } else {
        DrawBound(l, run.init, from, to, floor, c0, c1);
      }
    }
  }

  lemma {:induction false} NothingGoesNegative(l: Limits, run: Ticks, from: real)
    ensures Spares(l, run, from, 0.0)
  {
    if run.Snoc? { NothingGoesNegative(l, run.init, from); }
  }

  /** Every check at `from` or later was made under burst freeze. */
  ghost predicate FrozenFrom(run: Ticks, from: real) {
    run.Snoc? ==> FrozenFrom(run.init, from) && (from <= run.last.now ==> run.last.frozen)
  }

  lemma {:induction false} FreezeSparesReserve(l: Limits, run: Ticks, from: real)
    requires FrozenFrom(run, from)
    ensures Spares(l, run, from, Reserve(l))
  {
    if run.Snoc? { FreezeSparesReserve(l, run.init, from); }
  }
}
