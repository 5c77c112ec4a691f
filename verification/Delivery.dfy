/** internal/webhook/engine.go: the bounded event channel, the fan-out to sinks and the retry
    loop. Delays are nanoseconds. */
module Delivery {
  import opened Traces
  import opened Options
  import opened Text
  import opened DeadLetter
  import Signature

  const CAPACITY := 5000

  datatype Sink = Sink(enabled: bool, endpoint: string)

  /** How many attempts a delivery has, and the delay before the second. */
  datatype Retries = Policy(max: nat, base: int64)

  datatype Config = Config(maxRetries: int64, retryBaseDelayMs: int64, sinks: map<string, Sink>, adapt: Adapter) {
    /** The configured values, or the defaults for those that are not positive. */
    function Retries(): (r: Retries)
      ensures r.max >= 1 && r.base > 0
    {
      var d := Wrap(retryBaseDelayMs * 1_000_000);
      Policy(if maxRetries <= 0 then 3 else maxRetries, if d <= 0 then 1_000_000_000 else d)
    }
  }

  // ---------- Backoff ----------

  function Pow2(k: nat): (p: nat) ensures p >= 1 { if k == 0 then 1 else 2 * Pow2(k - 1) }

  /** The delay in the size it ought to have: the base, doubled `k` times. */
  function Delay(base: int64, k: nat): int { if k == 0 then base else 2 * Delay(base, k - 1) }

  lemma {:induction false} DelayIsExponential(base: int64, k: nat)
    ensures Delay(base, k) == base * Pow2(k)
    ensures base > 0 ==> Delay(base, k) > 0
  {
    if k > 0 {
      DelayIsExponential(base, k - 1);
      assert base * (2 * Pow2(k - 1)) == 2 * (base * Pow2(k - 1));
    }
  }

  /** How long attempt `k` waits first: the delay is a 64-bit product, and a timer set to a
      negative delay fires at once. */
  function Wait(base: int64, k: nat): nat {
    if k == 0 then 0
    else
      var d := Wrap(Delay(base, k - 1));
      if d > 0 then d else 0
  }

  /** The waits of the first `n` attempts together. */
  function TotalWait(base: int64, n: nat): nat {
    if n == 0 then 0 else TotalWait(base, n - 1) + Wait(base, n - 1)
  }

  lemma WaitIsExact(base: int64, k: nat)
    requires base > 0 && k >= 1
    ensures Wait(base, k) <= Delay(base, k - 1)
    ensures Wait(base, k) == Delay(base, k - 1) <==> Delay(base, k - 1) < LIMIT
  {
    DelayIsExponential(base, k - 1);
  }

  lemma {:induction false} TotalWaitIsExact(base: int64, n: nat)
    requires base > 0 && n >= 1
    ensures TotalWait(base, n) <= Delay(base, n - 1) - base
    ensures TotalWait(base, n) == Delay(base, n - 1) - base <==> n == 1 || Delay(base, n - 2) < LIMIT
  {
    if n > 1 {
      TotalWaitIsExact(base, n - 1);
      WaitIsExact(base, n - 1);
      DelayIsExponential(base, n - 2);
    }
  }

  /** The backoff is exponential in total exactly as long as its last delay fits in 64 bits; past
      that the sum falls short. */
  lemma TotalBackoff(base: int64, n: nat)
    requires base > 0 && n >= 1
    ensures TotalWait(base, n) <= base * Pow2(n - 1) - base
    ensures TotalWait(base, n) == base * Pow2(n - 1) - base <==> n == 1 || base * Pow2(n - 2) < LIMIT
  {
    TotalWaitIsExact(base, n);
    DelayIsExponential(base, n - 1);
    if n > 1 { DelayIsExponential(base, n - 2); }
  }

  // ---------- One delivery ----------

  datatype End = Running | Delivered | Cancelled | DeadLettered

  /** What the world does to one round of the loop: the context may end during the wait;
      otherwise the attempt comes to something. */
  datatype Input = Input(cancelled: bool, outcome: Outcome)

  /** How far a delivery has come; `tries` is everything the sink has answered so far. */
  datatype Progress = Progress(tries: Trace<Outcome>, waited: nat, lastError: Option<string>, end: End)

  const Untried := Progress(Nil, 0, None, Running)

  datatype Task = Task(event: Event, sink: string, endpoint: string, payload: seq<byte>, progress: Progress)

  function ErrorText(o: Outcome): string {
    match o
    case BuildError(e) => e
    case NetError(e) => e
    case Status(code, _) => "http status " + PrintInt(code)
  }

  ghost predicate AllFailed(h: Trace<Outcome>) { h.Snoc? ==> AllFailed(h.init) && !h.last.Delivered() }

  /** One round of the retry loop. */
  function Next(r: Retries, p: Progress, i: Input): Progress {
    var n := Size(p.tries);
    if !p.end.Running? then p
    else if n > 0 && i.cancelled then p.(end := Cancelled)
    else
      var tries, waited := Snoc(p.tries, i.outcome), p.waited + Wait(r.base, n);
      if i.outcome.Delivered() then Progress(tries, waited, p.lastError, Delivered)
      else Progress(tries, waited, Some(ErrorText(i.outcome)), if n + 1 >= r.max then DeadLettered else Running)
  }

  /** How a delivery got where it is. */
  ghost predicate ProgressOk(r: Retries, p: Progress) {
    && p.waited == TotalWait(r.base, Size(p.tries))
    && (match p.end
        case Running => AllFailed(p.tries) && Size(p.tries) < r.max
        case Cancelled => AllFailed(p.tries) && 1 <= Size(p.tries) < r.max
        case Delivered => p.tries.Snoc? && AllFailed(p.tries.init) && p.tries.last.Delivered() && Size(p.tries) <= r.max
        case DeadLettered => AllFailed(p.tries) && Size(p.tries) == r.max)
    && (!p.end.Delivered? ==>
          p.lastError == if p.tries.Nil? then None else Some(ErrorText(p.tries.last)))
  }

  lemma NextOk(r: Retries, p: Progress, i: Input)
    requires ProgressOk(r, p)
    ensures ProgressOk(r, Next(r, p, i))
  {}

  /** A delivery after `n` rounds against a given world. */
  function Driven(r: Retries, world: nat -> Input, n: nat): Progress {
    if n == 0 then Untried else Next(r, Driven(r, world, n - 1), world(n - 1))
  }

  lemma {:induction false} DrivenOk(r: Retries, world: nat -> Input, n: nat)
    requires r.max >= 1
    ensures ProgressOk(r, Driven(r, world, n))
    ensures Driven(r, world, n).end.Running? ==> Size(Driven(r, world, n).tries) == n
  {
    if n > 0 {
      DrivenOk(r, world, n - 1);
      NextOk(r, Driven(r, world, n - 1), world(n - 1));
    }
  }

  /** An ended delivery takes no further round. */
  lemma {:induction false} EndedStays(r: Retries, world: nat -> Input, n: nat, m: nat)
    requires n <= m && !Driven(r, world, n).end.Running?
    ensures Driven(r, world, m) == Driven(r, world, n)
  {
    if n < m { EndedStays(r, world, n, m - 1); }
  }

  /** Whatever the sinks and the context do, a delivery ends within `max` rounds; it is
      dead-lettered only after exactly `max` failed attempts, with the last one's error and the
      whole backoff waited out. */
  lemma EveryDeliveryEnds(r: Retries, world: nat -> Input)
    requires r.max >= 1 && r.base > 0
    ensures var p := Driven(r, world, r.max);
            && !p.end.Running?
            && (p.end.DeadLettered? ==>
                  && AllFailed(p.tries) && Size(p.tries) == r.max
                  && p.lastError == Some(ErrorText(p.tries.last))
                  && (r.max == 1 || r.base * Pow2(r.max - 2) < LIMIT ==>
                        p.waited == r.base * Pow2(r.max - 1) - r.base))
  {
    DrivenOk(r, world, r.max);
    TotalBackoff(r.base, r.max);
  }

  predicate Is2xx(o: Outcome) { o.Status? && 200 <= o.code < 300 }

  /** The loop stops at round `i`: the context ends in its wait, or the sink answers with a 2xx. */
  predicate Stops(world: nat -> Input, i: nat) { (i > 0 && world(i).cancelled) || Is2xx(world(i).outcome) }

  /** What the sink answered in the first rounds, one after the other. */
  ghost predicate Answers(h: Trace<Outcome>, world: nat -> Input) {
    h.Snoc? ==> Answers(h.init, world) && h.last == world(Size(h.init)).outcome
  }

  lemma {:induction false} RunsUntilStopped(r: Retries, world: nat -> Input, n: nat)
    requires 1 <= r.max && n <= r.max && forall i: nat :: i < n ==> !Stops(world, i)
    ensures var p := Driven(r, world, n);
            && p.end == (if n < r.max then Running else DeadLettered)
            && Size(p.tries) == n && Answers(p.tries, world)
  {
    if n > 0 {
      RunsUntilStopped(r, world, n - 1);
      assert !Stops(world, n - 1);
    }
  }

  /** How a delivery ends, from what the world does alone. If no round stops it, it is dead-lettered
      with the last round's error; otherwise the first round that does decides: cancelled if the
      context ended, delivered if the sink answered with a 2xx. */
  lemma EndsExactly(r: Retries, world: nat -> Input, n: nat)
    requires 1 <= r.max && n <= r.max && forall i: nat :: i < n ==> !Stops(world, i)
    ensures n == r.max ==>
              var p := Driven(r, world, r.max);
              && p.end == DeadLettered && Size(p.tries) == r.max && Answers(p.tries, world)
              && p.lastError == Some(match world(r.max - 1).outcome
                                     case BuildError(e) => e
                                     case NetError(e) => e
                                     case Status(code, _) => "http status " + PrintInt(code))
    ensures n < r.max && Stops(world, n) ==>
              var p, cancelled := Driven(r, world, r.max), n > 0 && world(n).cancelled;
              && p.end == (if cancelled then Cancelled else Delivered)
              && Size(p.tries) == (if cancelled then n else n + 1) && Answers(p.tries, world)
  {
    RunsUntilStopped(r, world, n);
    if n == r.max {
      RunsUntilStopped(r, world, n - 1);
    } else if Stops(world, n) {
      EndedStays(r, world, n + 1, r.max);
    }
  }

  /** Attempts and base delay are the configured ones where they are positive, and the base delay fits
      in 64 bits as nanoseconds; three attempts and one second otherwise. */
  lemma RetriesExactly(c: Config)
    ensures c.Retries().max == if c.maxRetries > 0 then c.maxRetries else 3
    ensures var ns := c.retryBaseDelayMs as int * 1_000_000;
            -LIMIT <= ns < LIMIT ==> c.Retries().base as int == if ns > 0 then ns else 1_000_000_000
  {}

  const MASTER_SECRET := Signature.Bytes("aegis_master_secret_webhook_signing_key_2026")

  function ItemOf(c: Config, t: Task, suffix: string): Item {
    Item("dlq_" + t.event.eventId + "_" + suffix, t.event, t.sink, t.endpoint, MASTER_SECRET, c.Retries().max,
         if t.progress.lastError.Some? then t.progress.lastError.value else "", t.payload)
  }

  /** The tasks an event gives rise to: one for each enabled sink with an endpoint whose adapter
      can render it. */
  predicate Eligible(c: Config, event: Event, sink: string) {
    sink in c.sinks && c.sinks[sink].enabled && c.sinks[sink].endpoint != "" && c.adapt(sink, event).Some?
  }

  function TaskFor(c: Config, event: Event, sink: string): Task
    requires Eligible(c, event, sink)
  {
    Task(event, sink, c.sinks[sink].endpoint, c.adapt(sink, event).value, Untried)
  }

  class Engine {
    const cfg: Config
    const dlqManager: DLQManager
    var eventsChan: seq<Event>

    constructor (cfg: Config, dlqManager: DLQManager)
      ensures this.cfg == cfg && this.dlqManager == dlqManager && eventsChan == []
    {
      this.cfg, this.dlqManager, eventsChan := cfg, dlqManager, [];
    }

    /** Never blocks: with the channel full the event is dropped. */
    method Publish(event: Event) returns (kept: bool)
      requires |eventsChan| <= CAPACITY
      modifies this
      ensures kept <==> |old(eventsChan)| < CAPACITY
      ensures eventsChan == if kept then old(eventsChan) + [event] else old(eventsChan)
      ensures |eventsChan| <= CAPACITY
    {
      kept := |eventsChan| < CAPACITY;
      if kept {
        eventsChan := eventsChan + [event];
      }
    }

    /** One delivery is started for every eligible sink, in whatever order the map is walked. */
    method ProcessEvent(event: Event) returns (tasks: map<string, Task>)
      ensures tasks.Keys == set sink | sink in cfg.sinks && Eligible(cfg, event, sink)
      ensures forall sink :: sink in tasks ==> tasks[sink] == TaskFor(cfg, event, sink)
    {
      tasks := map[];
      var rest := cfg.sinks.Keys;
      while rest != {}
        invariant rest <= cfg.sinks.Keys
        invariant tasks.Keys == set sink | sink in cfg.sinks.Keys - rest && Eligible(cfg, event, sink)
        invariant forall sink :: sink in tasks ==> tasks[sink] == TaskFor(cfg, event, sink)
        decreases |rest|
      {
        var sink :| sink in rest;
        rest := rest - {sink};
        var detail := cfg.sinks[sink];
        if !detail.enabled || detail.endpoint == "" {
          continue;
        }
        var payload := cfg.adapt(sink, event);
        if payload.None? {
          continue;
        }
        tasks := tasks[sink := Task(event, sink, detail.endpoint, payload.value, Untried)];
      }
    }

    /** The configured values, or the defaults for those that are not positive. */
    method RetryPolicy() returns (r: Retries)
      ensures r == cfg.Retries()
    {
      var maxRetries := cfg.maxRetries;
      if maxRetries <= 0 {
        maxRetries := 3;
      }
      var baseDelay := Wrap(cfg.retryBaseDelayMs * 1_000_000);
      if baseDelay <= 0 {
        baseDelay := 1_000_000_000;
      }
      return Policy(maxRetries, baseDelay);
    }

    /** One round: the backoff, unless it is the first, and the attempt. */
    static method Round(attempt: nat, r: Retries, i: Input, lastErr: Option<string>, waited: nat, ghost p: Progress)
      returns (end: End, lastErr': Option<string>, waited': nat)
      requires attempt < r.max
      requires p.end.Running? && Size(p.tries) == attempt && p.lastError == lastErr && p.waited == waited
      ensures var p' := Next(r, p, i);
              && end == p'.end && lastErr' == p'.lastError && waited' == p'.waited
              && (end.Running? || end.DeadLettered? ==> Size(p'.tries) == attempt + 1 && lastErr'.Some?)
              && (end.Running? <==> attempt + 1 < r.max && !end.Cancelled? && !end.Delivered?)
    {
      lastErr', waited' := lastErr, waited;
      if attempt > 0 {
        var backoff := Wrap(r.base * Pow2(attempt - 1));
        DelayIsExponential(r.base, attempt - 1);
        if i.cancelled {
          return Cancelled, lastErr', waited';
        }
        waited' := waited' + if backoff > 0 then backoff else 0;
      }
      match i.outcome {
        case BuildError(e) => lastErr' := Some(e);
        case NetError(e) => lastErr' := Some(e);
        case Status(code, _) =>
          if 200 <= code < 300 {
            return Delivered, lastErr', waited';
          }
          lastErr' := Some("http status " + PrintInt(code));
      }
      end := if attempt + 1 < r.max then Running else DeadLettered;
    }

    /** The retry loop runs a delivery to its end. */
    static method Attempt(r: Retries, world: nat -> Input) returns (end: End, lastErr: Option<string>, waited: nat)
      requires r.max >= 1
      ensures var p := Driven(r, world, r.max);
              && end == p.end && !end.Running? && waited == p.waited && lastErr == p.lastError
              && (end.DeadLettered? ==> lastErr.Some?)
    {
      end, lastErr, waited := Running, None, 0;
      var attempt := 0;
      while attempt < r.max
        invariant 0 <= attempt <= r.max
        invariant var p := Driven(r, world, attempt);
                  end == p.end && lastErr == p.lastError && waited == p.waited && Size(p.tries) == attempt
        invariant end == (if attempt < r.max then Running else DeadLettered)
        invariant end.DeadLettered? ==> lastErr.Some?
      {
        ghost var p := Driven(r, world, attempt);
        end, lastErr, waited := Round(attempt, r, world(attempt), lastErr, waited, p);
        attempt := attempt + 1;
        if end.Cancelled? || end.Delivered? {
          EndedStays(r, world, attempt, r.max);
          return;
        }
      }
    }

    /** A task that ends dead-lettered, and no other, goes to the dead-letter queue. */
    method DeliverWithRetry(task: Task, world: nat -> Input, suffix: string, persisted: bool) returns (end: End)
      modifies dlqManager, dlqManager.stream
      ensures var p := Driven(cfg.Retries(), world, cfg.Retries().max);
              && end == p.end && !end.Running?
              && (end.DeadLettered? ==>
                    var item := ItemOf(cfg, task.(progress := p), suffix);
                    && dlqManager.inMemory == old(dlqManager.inMemory)[item.id := item]
                    && dlqManager.stream.entries
                       == old(dlqManager.stream.entries) + if persisted then [Some(item)] else [])
              && (!end.DeadLettered? ==>
                    dlqManager.inMemory == old(dlqManager.inMemory)
                    && dlqManager.stream.entries == old(dlqManager.stream.entries))
    {
      var r := RetryPolicy();
      var ending, lastErr, _ := Attempt(r, world);
      end := ending;
      if end.DeadLettered? {
        var item := Item("dlq_" + task.event.eventId + "_" + suffix, task.event, task.sink, task.endpoint,
                         MASTER_SECRET, r.max, lastErr.value, task.payload);
        dlqManager.Enqueue(item, persisted);
      }
    }
  }
}
