/** internal/cache/cache.go: the circuit breaker. Times and latencies are nanoseconds. */
module CircuitBreaker {
  import opened Traces

  datatype Phase = Closed | HalfOpen | Open

  /** As the constructor leaves it: everything positive. */
  datatype Settings = Settings(threshold: int, latencyLimit: int, cooldown: int) {
    predicate Valid() { threshold > 0 && latencyLimit > 0 && cooldown > 0 }
  }

  datatype Breaker = Breaker(
    phase: Phase, failures: int, successes: int, lastChange: int, cutoff: bool, probing: bool)

  function New(now: int): Breaker { Breaker(Closed, 0, 0, now, false, false) }

  function Allow(c: Settings, b: Breaker, now: int): (Breaker, bool, Phase) {
    if b.cutoff then (b, false, Open)
    else
      match b.phase
      case Closed => (b, true, Closed)
      case Open =>
        if now - b.lastChange >= c.cooldown
        then (b.(phase := HalfOpen, lastChange := now, successes := 0, failures := 0, probing := true), true, HalfOpen)
        else (b, false, Open)
      case HalfOpen => if b.probing then (b, false, HalfOpen) else (b.(probing := true), true, HalfOpen)
  }

  function Success(b: Breaker, now: int): Breaker {
    match b.phase
    case HalfOpen =>
      if b.successes + 1 >= 2
      then b.(phase := Closed, successes := b.successes + 1, probing := false, failures := 0, lastChange := now)
      else b.(successes := b.successes + 1, probing := false)
    case Closed => b.(failures := 0)
    case Open => b
  }

  function Failure(c: Settings, b: Breaker, now: int, latency: int): Breaker {
    var b' := b.(failures := b.failures + 1, probing := false);
    if b.phase.HalfOpen? || b'.failures >= c.threshold || (latency > 0 && latency >= c.latencyLimit)
    then b'.(phase := Open, lastChange := now)
    else b'
  }

  class CircuitBreaker {
    var state: Phase
    var consecutiveFailures: int
    var consecutiveSuccesses: int
    const failureThreshold: int
    const cooldown: int
    const latencyThreshold: int
    var lastStateChange: int
    var emergencyCutoff: bool
    var halfOpenProbing: bool

    ghost function Config(): Settings { Settings(failureThreshold, latencyThreshold, cooldown) }

    ghost function State(): Breaker reads this {
      Breaker(state, consecutiveFailures, consecutiveSuccesses, lastStateChange, emergencyCutoff, halfOpenProbing)
    }

    constructor (failureThreshold: int, latencyThreshold: int, cooldown: int, now: int)
      ensures State() == New(now) && Config().Valid()
      ensures this.failureThreshold == if failureThreshold > 0 then failureThreshold else 3
      ensures this.latencyThreshold == if latencyThreshold > 0 then latencyThreshold else 1_000_000_000
      ensures this.cooldown == if cooldown > 0 then cooldown else 10_000_000_000
    {
      this.failureThreshold := if failureThreshold <= 0 then 3 else failureThreshold;
      this.cooldown := if cooldown <= 0 then 10_000_000_000 else cooldown;
      this.latencyThreshold := if latencyThreshold <= 0 then 1_000_000_000 else latencyThreshold;
      state, consecutiveFailures, consecutiveSuccesses := Closed, 0, 0;
      lastStateChange, emergencyCutoff, halfOpenProbing := now, false, false;
    }

    method SetEmergencyCutoff(enabled: bool)
      modifies this
      ensures State() == old(State()).(cutoff := enabled)
    {
      emergencyCutoff := enabled;
    }

    method AllowRequest(now: int) returns (ok: bool, phase: Phase)
      modifies this
      ensures (State(), ok, phase) == Allow(Config(), old(State()), now)
    {
      if emergencyCutoff {
        return false, Open;
      }
      match state
      case Closed => return true, Closed;
      case Open =>
        if now - lastStateChange >= cooldown {
          state := HalfOpen;
          lastStateChange := now;
          consecutiveSuccesses := 0;
          consecutiveFailures := 0;
          halfOpenProbing := true;
          return true, HalfOpen;
        }
        return false, Open;
      case HalfOpen =>
        if !halfOpenProbing {
          halfOpenProbing := true;
          return true, HalfOpen;
        }
        return false, HalfOpen;
    }

    method RecordSuccess(now: int)
      modifies this
      ensures State() == Success(old(State()), now)
    {
      if state == HalfOpen {
        consecutiveSuccesses := consecutiveSuccesses + 1;
        halfOpenProbing := false;
        if consecutiveSuccesses >= 2 {
          state := Closed;
          consecutiveFailures := 0;
          lastStateChange := now;
        }
      } else if state == Closed {
        consecutiveFailures := 0;
      }
    }

    method RecordFailure(now: int, latency: int)
      modifies this
      ensures State() == Failure(Config(), old(State()), now, latency)
    {
      consecutiveFailures := consecutiveFailures + 1;
      halfOpenProbing := false;
      if state == HalfOpen {
        state := Open;
        lastStateChange := now;
        return;
      }
      if consecutiveFailures >= failureThreshold || (latency > 0 && latency >= latencyThreshold) {
        state := Open;
        lastStateChange := now;
      }
    }

    method GetState() returns (phase: Phase)
      ensures phase == if State().cutoff then Open else State().phase
    {
      phase := if emergencyCutoff then Open else state;
    }
  }

  // ---------- Runs: any interleaving of requests, completions and cutoff toggles ----------

  datatype Event =
    | Ask(now: int)
    | Succeeded(now: int)
    | Failed(now: int, latency: int)
    | Cutoff(on: bool)

  type Events = Trace<Event>

  function Step(c: Settings, b: Breaker, e: Event): Breaker {
    match e
    case Ask(now) => Allow(c, b, now).0
    case Succeeded(now) => Success(b, now)
    case Failed(now, latency) => Failure(c, b, now, latency)
    case Cutoff(on) => b.(cutoff := on)
  }

  predicate Admits(c: Settings, b: Breaker, e: Event) { e.Ask? && Allow(c, b, e.now).1 }

  /** The breaker after a run that began in state `b`. */
  function From(c: Settings, b: Breaker, run: Events): Breaker {
    match run
    case Nil => b
    case Snoc(past, e) => Step(c, From(c, b, past), e)
  }

  function After(c: Settings, start: int, run: Events): Breaker { From(c, New(start), run) }

  ghost predicate Inv(c: Settings, b: Breaker) {
    && (b.probing ==> b.phase.HalfOpen?)
    && (b.phase.HalfOpen? ==> b.failures == 0 && 0 <= b.successes <= 1)
    && (b.phase.Closed? ==> 0 <= b.failures < c.threshold)
    && (b.phase.Open? ==> b.failures >= 1)
  }

  lemma {:induction false} Invariant(c: Settings, start: int, run: Events)
    requires c.Valid()
    ensures Inv(c, After(c, start, run))
  {
    if run.Snoc? { Invariant(c, start, run.init); }
  }

  // ---------- Half-open episodes ----------

  /** Admissions, recorded successes and recorded failures since the breaker last became half-open. */
  datatype Episode = Episode(admitted: nat, succeeded: nat, failed: nat)

  function Extend(c: Settings, b: Breaker, e: Event, ep: Episode): Episode {
    Episode(ep.admitted + (if Admits(c, b, e) then 1 else 0),
            ep.succeeded + (if e.Succeeded? then 1 else 0),
            ep.failed + (if e.Failed? then 1 else 0))
  }

  function Current(c: Settings, start: int, run: Events): Episode {
    match run
    case Nil => Episode(0, 0, 0)
    case Snoc(past, e) =>
      var b := After(c, start, past);
      if b.phase.HalfOpen? then Extend(c, b, e, Current(c, start, past)) else Extend(c, b, e, Episode(0, 0, 0))
  }

  lemma {:induction false} EpisodeInvariant(c: Settings, start: int, run: Events)
    requires c.Valid()
    ensures var b, ep := After(c, start, run), Current(c, start, run);
            b.phase.HalfOpen? ==>
              && ep.admitted <= b.successes + (if b.probing then 1 else 0)
              && ep.succeeded == b.successes
              && ep.failed == 0
  {
    if run.Snoc? {
      EpisodeInvariant(c, start, run.init);
      Invariant(c, start, run.init);
    }
  }

  /** However late completions interleave, a half-open episode admits at most two requests. */
  lemma EpisodeAdmitsTwo(c: Settings, start: int, run: Events)
    requires c.Valid() && After(c, start, run).phase.HalfOpen?
    ensures Current(c, start, run).admitted <= 2
  {
    EpisodeInvariant(c, start, run);
    Invariant(c, start, run);
  }

  /** An episode closes the breaker exactly on its second recorded success, and only if no
      failure was recorded in it; any failure reopens it. */
  lemma EpisodeEnds(c: Settings, start: int, past: Events, e: Event)
    requires c.Valid() && After(c, start, past).phase.HalfOpen?
    ensures var ep, b' := Current(c, start, Snoc(past, e)), After(c, start, Snoc(past, e));
            && (b'.phase.Closed? <==> ep.succeeded == 2 && ep.failed == 0)
            && (b'.phase.Open? <==> ep.failed == 1)
            && (b'.phase.HalfOpen? <==> ep.succeeded <= 1 && ep.failed == 0)
            && ep.admitted <= 2
  {
    EpisodeInvariant(c, start, past);
    Invariant(c, start, past);
  }

  /** The breaker leaves Open only through a half-open episode, and Closed only to Open. */
  lemma PhaseOrder(c: Settings, b: Breaker, e: Event)
    ensures b.phase.Open? ==> !Step(c, b, e).phase.Closed?
    ensures b.phase.Closed? ==> !Step(c, b, e).phase.HalfOpen?
    ensures b.phase.Open? && Step(c, b, e).phase.HalfOpen? ==> Admits(c, b, e)
  {}

  /** An episode begins only from Open, with the admission of its first probe. */
  lemma EpisodeBegins(c: Settings, start: int, past: Events, e: Event)
    requires !After(c, start, past).phase.HalfOpen? && After(c, start, Snoc(past, e)).phase.HalfOpen?
    ensures After(c, start, past).phase.Open?
    ensures Current(c, start, Snoc(past, e)) == Episode(1, 0, 0)
  {
    PhaseOrder(c, After(c, start, past), e);
  }

  /** After `past` the breaker is half-open, and `e` is the second success of an episode without
      a failure. */
  ghost predicate Recovers(c: Settings, start: int, past: Events, e: Event) {
    && After(c, start, past).phase.HalfOpen? && After(c, start, Snoc(past, e)).phase.Closed?
    && var ep := Current(c, start, Snoc(past, e)); ep.succeeded == 2 && ep.failed == 0 && ep.admitted <= 2
  }

  /** No breaker that was open is closed again without such an episode in between: `past` is how
      far the run had come, `e` what closed it. */
  lemma {:induction false} RecoveryNeedsEpisode(c: Settings, start: int, since: Events, run: Events)
    returns (past: Events, e: Event)
    requires c.Valid() && Prefix(since, run)
    requires !After(c, start, since).phase.Closed? && After(c, start, run).phase.Closed?
    ensures Prefix(since, past) && Prefix(Snoc(past, e), run) && Recovers(c, start, past, e)
  {
    PhaseOrder(c, After(c, start, run.init), run.last);
    if After(c, start, run.init).phase.HalfOpen? {
      past, e := run.init, run.last;
      EpisodeEnds(c, start, past, e);
    } else {
      past, e := RecoveryNeedsEpisode(c, start, since, run.init);
    }
  }

  // ---------- Load during an outage ----------

  ghost predicate SinceTime(run: Events, t: int) {
    run.Snoc? ==>
      && SinceTime(run.init, t)
      && match run.last
         case Cutoff(_) => true
         case _ => run.last.now >= TimeAfter(run.init, t)
  }

  /** The latest clock reading of a run that began at `t`. */
  function TimeAfter(run: Events, t: int): int {
    match run
    case Nil => t
    case Snoc(past, Cutoff(_)) => TimeAfter(past, t)
    case Snoc(past, e) => e.now
  }

  ghost predicate NoSuccess(run: Events) {
    run.Snoc? ==> NoSuccess(run.init) && !run.last.Succeeded?
  }

  function AdmissionTimes(c: Settings, b: Breaker, run: Events): Trace<int> {
    match run
    case Nil => Nil
    case Snoc(past, e) =>
      if Admits(c, From(c, b, past), e) then Snoc(AdmissionTimes(c, b, past), e.now) else AdmissionTimes(c, b, past)
  }

  ghost predicate Spread(h: Trace<int>, gap: int) {
    h.Snoc? ==> Spread(h.init, gap) && (h.init.Snoc? ==> h.init.last + gap <= h.last)
  }

  predicate Down(b: Breaker) { b.phase.Open? || (b.phase.HalfOpen? && b.probing) }

  lemma {:induction false} OutageInvariant(c: Settings, b: Breaker, run: Events, t: int)
    requires Down(b) && b.lastChange <= t && SinceTime(run, t) && NoSuccess(run)
    ensures var b', h := From(c, b, run), AdmissionTimes(c, b, run);
            && Down(b') && b'.lastChange <= TimeAfter(run, t)
            && Spread(h, c.cooldown) && (h.Snoc? ==> h.last <= b'.lastChange)
  {
    if run.Snoc? { OutageInvariant(c, b, run.init, t); }
  }

  function First(h: Trace<int>): int
    requires h.Snoc?
  {
    if h.init.Nil? then h.last else First(h.init)
  }

  lemma {:induction false} SpreadSpans(h: Trace<int>, gap: int)
    requires Spread(h, gap) && h.Snoc?
    ensures (Size(h) - 1) * gap <= h.last - First(h)
  {
    if h.init.Snoc? {
      SpreadSpans(h.init, gap);
      assert (Size(h) - 1) * gap == (Size(h.init) - 1) * gap + gap;
    }
  }

  /** Once the breaker is down, and until a success is recorded, n admissions take at least
      n - 1 cooldowns: whatever failures arrive late and however the cutoff is toggled. */
  lemma OutageLoad(c: Settings, b: Breaker, run: Events, t: int)
    requires Down(b) && b.lastChange <= t && SinceTime(run, t) && NoSuccess(run)
    ensures var h := AdmissionTimes(c, b, run);
            Spread(h, c.cooldown) && (h.Snoc? ==> (Size(h) - 1) * c.cooldown <= h.last - First(h))
  {
    OutageInvariant(c, b, run, t);
    var h := AdmissionTimes(c, b, run);
    if h.Snoc? { SpreadSpans(h, c.cooldown); }
  }

  // ---------- The exact trip condition ----------

  /** Failures recorded since the last recorded success. */
  function Trailing(run: Events): nat {
    match run
    case Nil => 0
    case Snoc(past, e) => if e.Failed? then Trailing(past) + 1 else if e.Succeeded? then 0 else Trailing(past)
  }

  lemma {:induction false} ClosedCountsTrailing(c: Settings, start: int, run: Events)
    requires c.Valid()
    ensures After(c, start, run).phase.Closed? ==> After(c, start, run).failures == Trailing(run)
  {
    if run.Snoc? { ClosedCountsTrailing(c, start, run.init); }
  }

  /** A closed breaker opens exactly when the failures since the last success reach the threshold
      or one failure is as slow as the latency limit; otherwise it stays closed. */
  lemma TripsExactlyWhen(c: Settings, start: int, past: Events, e: Event)
    requires c.Valid() && After(c, start, past).phase.Closed?
    ensures var run := Snoc(past, e);
            var trips := e.Failed? && (Trailing(run) >= c.threshold || e.latency >= c.latencyLimit);
            After(c, start, run).phase == if trips then Open else Closed
  {
    ClosedCountsTrailing(c, start, past);
  }

  // ---------- Exactly when a request is admitted ----------

  /** Failures recorded since the last success recorded while closed, the last closing or the
      beginning of the last episode. */
  function Recent(c: Settings, start: int, run: Events): nat {
    match run
    case Nil => 0
    case Snoc(past, e) =>
      var was, now := After(c, start, past).phase, After(c, start, run).phase;
      if e.Failed? then Recent(c, start, past) + 1
      else if now.Closed? && e.Succeeded? then 0
      else if was.Open? && now.HalfOpen? then 0
      else Recent(c, start, past)
  }

  lemma {:induction false} FailuresAreRecent(c: Settings, start: int, run: Events)
    requires c.Valid()
    ensures After(c, start, run).failures == Recent(c, start, run)
  {
    if run.Snoc? {
      FailuresAreRecent(c, start, run.init);
      Invariant(c, start, run.init);
    }
  }

  /** A failure that opens the breaker, or opens it anew: one in a half-open episode, one that
      makes the recent ones reach the threshold, or one as slow as the limit. */
  predicate Trips(c: Settings, start: int, past: Events, e: Event) {
    e.Failed?
    && (After(c, start, past).phase.HalfOpen?
        || Recent(c, start, Snoc(past, e)) >= c.threshold
        || e.latency >= c.latencyLimit)
  }

  /** When that last happened. */
  function TrippedAt(c: Settings, start: int, run: Events): int {
    match run
    case Nil => start
    case Snoc(past, e) => if Trips(c, start, past, e) then e.now else TrippedAt(c, start, past)
  }

  lemma {:induction false} OpenSinceTripped(c: Settings, start: int, run: Events)
    requires c.Valid()
    ensures After(c, start, run).phase.Open? ==> After(c, start, run).lastChange == TrippedAt(c, start, run)
  {
    if run.Snoc? {
      OpenSinceTripped(c, start, run.init);
      FailuresAreRecent(c, start, run);
      Invariant(c, start, run.init);
    }
  }

  /** A success has been recorded since the last admission. */
  predicate SuccessSince(c: Settings, start: int, run: Events) {
    match run
    case Nil => true
    case Snoc(past, e) =>
      if Admits(c, After(c, start, past), e) then false else e.Succeeded? || SuccessSince(c, start, past)
  }

  lemma {:induction false} SlotIsFree(c: Settings, start: int, run: Events)
    ensures After(c, start, run).phase.HalfOpen? ==> (After(c, start, run).probing <==> !SuccessSince(c, start, run))
  {
    if run.Snoc? { SlotIsFree(c, start, run.init); }
  }

  /** Over every run: with the cutoff off a request is admitted always while closed, while open
      exactly when the cooldown since the last tripping failure is over, and while half-open exactly
      when a success has been recorded since the last admission. What is reported is the phase
      the breaker is then in. */
  lemma AdmittedExactly(c: Settings, start: int, run: Events, now: int)
    requires c.Valid()
    ensures var b := After(c, start, run);
            var (b', admitted, reported) := Allow(c, b, now);
            && (admitted <==>
                  && !CutoffAfter(run)
                  && (b.phase.Closed?
                      || (b.phase.Open? && now - TrippedAt(c, start, run) >= c.cooldown)
                      || (b.phase.HalfOpen? && SuccessSince(c, start, run))))
            && reported == (if CutoffAfter(run) then Open else b'.phase)
            && b'.phase == (if admitted && b.phase.Open? then HalfOpen else b.phase)
  {
    OpenSinceTripped(c, start, run);
    SlotIsFree(c, start, run);
    CutoffIsOrthogonal(c, start, run);
  }

  /** An outage is over after two successful probes: from an open breaker whose cooldown has passed,
      ask, success, ask, success ends closed with no failure counted, and both asks are admitted. */
  lemma TwoSuccessesRecover(c: Settings, b: Breaker, t1: int, t2: int, t3: int, t4: int)
    requires b.phase.Open? && !b.cutoff && t1 - b.lastChange >= c.cooldown
    ensures var b1 := Step(c, b, Ask(t1));
            var b2 := Step(c, b1, Succeeded(t2));
            var b3 := Step(c, b2, Ask(t3));
            var b4 := Step(c, b3, Succeeded(t4));
            && Admits(c, b, Ask(t1)) && Admits(c, b2, Ask(t3))
            && b4.phase.Closed? && b4.failures == 0 && !b4.probing
            && forall t :: Admits(c, b4, Ask(t))
  {}

  // ---------- The emergency cutoff is orthogonal ----------

  function CutoffAfter(run: Events): bool {
    match run
    case Nil => false
    case Snoc(past, e) => if e.Cutoff? then e.on else CutoffAfter(past)
  }

  /** The run without cutoff toggles and without the requests made under cutoff. */
  function Underlying(run: Events): Events {
    match run
    case Nil => Nil
    case Snoc(past, e) =>
      if e.Cutoff? || (e.Ask? && CutoffAfter(past)) then Underlying(past) else Snoc(Underlying(past), e)
  }

  /** Requests made under cutoff are all refused and leave no trace: the breaker underneath is
      as if they, and the toggles, had never happened. */
  lemma {:induction false} CutoffIsOrthogonal(c: Settings, start: int, run: Events)
    ensures After(c, start, run) == After(c, start, Underlying(run)).(cutoff := CutoffAfter(run))
    ensures !After(c, start, Underlying(run)).cutoff
    ensures forall now :: Allow(c, After(c, start, run), now).1
                          == (!CutoffAfter(run) && Allow(c, After(c, start, Underlying(run)), now).1)
  {
    if run.Snoc? { CutoffIsOrthogonal(c, start, run.init); }
  }

  // ---------- A lost probe ----------

  ghost predicate NothingRecorded(run: Events) {
    run.Snoc? ==> NothingRecorded(run.init) && (run.last.Ask? || run.last.Cutoff?)
  }

  /** Half-open with the probe slot taken and nothing left to complete: nothing is ever admitted
      again, whatever the clock and the cutoff do. */
  lemma {:induction false} LostProbeIsForEver(c: Settings, b: Breaker, run: Events)
    requires b.phase.HalfOpen? && b.probing && NothingRecorded(run)
    ensures From(c, b, run) == b.(cutoff := From(c, b, run).cutoff)
    ensures AdmissionTimes(c, b, run) == Nil
  {
    if run.Snoc? { LostProbeIsForEver(c, b, run.init); }
  }
}
