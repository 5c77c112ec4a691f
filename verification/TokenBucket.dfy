/** internal/ratelimit/token_bucket.go: the token bucket, one check at a time, with `float64` as `real`. */
module TokenBucket {
  import opened Traces
  import opened RateLimit
  import opened CreditTank

  /** Limits together with the refill rate they imply. */
  datatype Quota = Quota(limits: Limits, rate: real)

  function QuotaOf(l: Limits): Quota
    requires l.window != 0
  {
    Quota(l, l.soft as real / l.window as real)
  }

  /** No negative limit and no negative refill. */
  predicate Sane(q: Quota) { q.limits.soft >= 0 && q.limits.hard >= 0 && q.rate >= 0.0 }

  datatype Bucket = Bucket(tokens: real, capacity: real, rate: real, lastRefill: real)

  function New(q: Quota, now: real): Bucket {
    Bucket(q.limits.hard as real, q.limits.hard as real, q.rate, now)
  }

  function Refill(b: Bucket, now: real): Bucket {
    b.(tokens := Min(b.capacity, b.tokens + Earn(now - b.lastRefill, b.rate)), lastRefill := now)
  }

  /** What is reported of a zone when `left` tokens remain. */
  function Report(zone: Status, left: real, l: Limits): Result {
    var burst := Max(l.hard - l.soft, 0);
    match zone
    case NORMAL =>
      var rem := (left - Reserve(l)).Floor;
      Result(NORMAL, l.soft - rem, l.soft, rem, burst, burst)
    case BURST => Result(BURST, l.hard - left.Floor, l.soft, 0, burst, left.Floor)
    case BLOCKED => Result(BLOCKED, l.hard, l.soft, 0, burst, 0)
  }

  /** What one check does to a bucket, and its reply. */
  function Visit(b: Bucket, now: real, frozen: bool, l: Limits): Bucket {
    var filled := Refill(b, now);
    filled.(tokens := Take(filled.tokens, frozen, l))
  }

  function Judge(b: Bucket, now: real, frozen: bool, l: Limits): Status { Zone(Refill(b, now).tokens, frozen, l) }

  function Reply(b: Bucket, now: real, frozen: bool, l: Limits): Result {
    Report(Judge(b, now, frozen, l), Visit(b, now, frozen, l).tokens, l)
  }

  datatype Table = Table(buckets: map<string, Bucket>, overages: map<string, nat>, frozen: bool) {
    function Overage(k: string): nat { if k in overages then overages[k] else 0 }
    function At(k: string, now: real, q: Quota): Bucket { if k in buckets then buckets[k] else New(q, now) }
  }

  const Empty := Table(map[], map[], false)

  /** A check at `now`; a new bucket is stamped with an earlier reading of the clock, `created`. */
  function CheckStep(st: Table, created: real, now: real, k: string, q: Quota): (Table, Result) {
    var b := st.At(k, created, q);
    var r := Reply(b, now, st.frozen, q.limits);
    (Table(st.buckets[k := Visit(b, now, st.frozen, q.limits)],
           if r.status == BURST then st.overages[k := st.Overage(k) + 1] else st.overages, st.frozen), r)
  }

  class TokenBucketLimiter {
    var buckets: map<string, Bucket>
    var overages: map<string, nat>
    var globalBurstFreeze: bool

    ghost function State(): Table reads this { Table(buckets, overages, globalBurstFreeze) }

    constructor ()
      ensures State() == Empty
    {
      buckets, overages, globalBurstFreeze := map[], map[], false;
    }

    method SetGlobalBurstFreeze(frozen: bool)
      modifies this
      ensures State() == old(State()).(frozen := frozen)
    {
      globalBurstFreeze := frozen;
    }

    method Check(created: real, now: real, apiKey: string, softLimit: int, hardLimit: int, windowSec: int)
      returns (r: Result)
      requires windowSec != 0
      modifies this
      ensures (State(), r)
              == CheckStep(old(State()), created, now, apiKey, QuotaOf(Limits(softLimit, hardLimit, windowSec)))
    {
      ghost var q := QuotaOf(Limits(softLimit, hardLimit, windowSec));
      var bucket;
      if apiKey in buckets {
        bucket := buckets[apiKey];
      } else {
        var refillRate := softLimit as real / windowSec as real;
        bucket := Bucket(hardLimit as real, hardLimit as real, refillRate, created);
      }
      var elapsed := now - bucket.lastRefill;
      bucket := bucket.(lastRefill := now, tokens := Min(bucket.capacity, bucket.tokens + Earn(elapsed, bucket.rate)));
      assert bucket == Refill(old(State()).At(apiKey, created, q), now);

      var left;
      left, r := Settle(bucket.tokens, globalBurstFreeze, softLimit, hardLimit, windowSec);
      buckets := buckets[apiKey := bucket.(tokens := left)];
      if r.status == BURST {
        overages := overages[apiKey := (if apiKey in overages then overages[apiKey] else 0) + 1];
      }
    }

    /** The three cases of a refilled bucket. */
    static method Settle(tokens: real, frozen: bool, softLimit: int, hardLimit: int, ghost windowSec: int)
      returns (left: real, r: Result)
      ensures var l := Limits(softLimit, hardLimit, windowSec);
              left == Take(tokens, frozen, l) && r == Report(Zone(tokens, frozen, l), left, l)
    {
      var burstCapacity := (hardLimit - softLimit) as real;
      if burstCapacity < 0.0 {
        burstCapacity := 0.0;
      }
      var burstLimit := hardLimit - softLimit;
      if burstLimit < 0 {
        burstLimit := 0;
      }
      if tokens >= burstCapacity + 1.0 {
        left := tokens - 1.0;
        var rem := (left - burstCapacity).Floor;
        if rem < 0 {
          rem := 0;
        }
        return left, Result(NORMAL, softLimit - rem, softLimit, rem, burstLimit, burstLimit);
      }
      if tokens >= 1.0 && !frozen {
        left := tokens - 1.0;
        var burstRem := left.Floor;
        return left, Result(BURST, hardLimit - burstRem, softLimit, 0, burstLimit, burstRem);
      }
      return tokens, Result(BLOCKED, hardLimit, softLimit, 0, burstLimit, 0);
    }
  }

  lemma NewIsFull(q: Quota, created: real, now: real)
    requires created <= now && q.rate >= 0.0
    ensures Refill(New(q, created), now) == Refill(New(q, now), now) == New(q, now)
  {
    Grows(now - created, q.rate);
  }

  /** So when a bucket was created cannot be observed, unless limits are negative. */
  lemma CreationIsInvisible(st: Table, created: real, now: real, k: string, q: Quota)
    requires created <= now && q.rate >= 0.0
    ensures CheckStep(st, created, now, k, q) == CheckStep(st, now, now, k, q)
  {
    NewIsFull(q, created, now);
  }

  lemma Grows(d: real, rate: real)
    requires d >= 0.0 && rate >= 0.0
    ensures Earn(d, rate) >= 0.0
  {}

  // ---------- Runs ----------

  datatype Event = Check(now: real, key: string) | Freeze(on: bool)

  type BucketRun = Trace<Event>

  ghost predicate Before(run: BucketRun, t: real) {
    run.Snoc? ==> Before(run.init, t) && (run.last.Check? ==> run.last.now <= t)
  }

  ghost predicate Monotone(run: BucketRun) {
    run.Snoc? ==> Monotone(run.init) && (run.last.Check? ==> Before(run.init, run.last.now))
  }

  lemma {:induction false} BeforeLater(run: BucketRun, t: real, t': real)
    requires Before(run, t) && t <= t'
    ensures Before(run, t')
  {
    if run.Snoc? { BeforeLater(run.init, t, t'); }
  }

  function FrozenAfter(run: BucketRun): bool {
    match run
    case Nil => false
    case Snoc(past, e) => if e.Freeze? then e.on else FrozenAfter(past)
  }

  /** The quota of each key, fixed during a run. */
  type Plan = string -> Quota

  ghost predicate AllSane(cfg: Plan) { forall k: string :: Sane(cfg(k)) }

  ghost function Step(cfg: Plan, st: Table, e: Event): Table
    requires AllSane(cfg)
  {
    match e
    case Check(now, k) => assert Sane(cfg(k)); CheckStep(st, now, now, k, cfg(k)).0
    case Freeze(on) => st.(frozen := on)
  }

  ghost function TableAfter(cfg: Plan, run: BucketRun): Table
    requires AllSane(cfg)
  {
    match run
    case Nil => Empty
    case Snoc(past, e) => Step(cfg, TableAfter(cfg, past), e)
  }

  datatype Slot = Absent | Present(b: Bucket)

  /** The bucket a check of the slot at `now` works on. */
  function At(s: Slot, now: real, q: Quota): Bucket { if s.Present? then s.b else New(q, now) }

  /** The bucket of key `k`, computed from the run alone. */
  function KeySlot(q: Quota, run: BucketRun, k: string): Slot
    requires Sane(q)
  {
    match run
    case Nil => Absent
    case Snoc(past, e) =>
      var s := KeySlot(q, past, k);
      if e.Check? && e.key == k then Present(Visit(At(s, e.now, q), e.now, FrozenAfter(past), q.limits)) else s
  }

  function KeyReply(q: Quota, run: BucketRun, now: real, k: string): Result
    requires Sane(q)
  {
    Reply(At(KeySlot(q, run, k), now, q), now, FrozenAfter(run), q.limits)
  }

  function KeyVerdict(q: Quota, run: BucketRun, now: real, k: string): Status
    requires Sane(q)
  {
    Judge(At(KeySlot(q, run, k), now, q), now, FrozenAfter(run), q.limits)
  }

  function Bursts(q: Quota, run: BucketRun, k: string): nat
    requires Sane(q)
  {
    match run
    case Nil => 0
    case Snoc(past, e) =>
      Bursts(q, past, k) + if e.Check? && e.key == k && KeyVerdict(q, past, e.now, k) == BURST then 1 else 0
  }

  /** Keys do not interfere, and the overage counter counts the BURST replies. */
  lemma {:induction false} KeysAreIndependent(cfg: Plan, run: BucketRun, k: string)
    requires AllSane(cfg)
    ensures var st := TableAfter(cfg, run);
            && KeySlot(cfg(k), run, k) == (if k in st.buckets then Present(st.buckets[k]) else Absent)
            && st.frozen == FrozenAfter(run)
            && st.Overage(k) == Bursts(cfg(k), run, k)
    ensures forall now :: CheckStep(TableAfter(cfg, run), now, now, k, cfg(k)).1 == KeyReply(cfg(k), run, now, k)
  {
    if run.Snoc? { KeysAreIndependent(cfg, run.init, k); }
  }

  /** The bucket belongs to its quota, was last refilled by `t` and holds a lawful level. */
  ghost predicate Lawful(s: Slot, q: Quota, t: real) {
    s.Present? ==>
      && s.b.capacity == q.limits.hard as real && s.b.rate == q.rate
      && s.b.lastRefill <= t && 0.0 <= s.b.tokens <= s.b.capacity
  }

  lemma {:induction false} SlotIsLawful(q: Quota, run: BucketRun, k: string, t: real)
    requires Sane(q) && Monotone(run) && Before(run, t)
    ensures Lawful(KeySlot(q, run, k), q, t)
  {
    if run.Snoc? {
      var e := run.last;
      if e.Check? && e.key == k {
        SlotIsLawful(q, run.init, k, e.now);
        RefillBounds(q, KeySlot(q, run.init, k), e.now);
      } else {
        SlotIsLawful(q, run.init, k, t);
      }
    }
  }

  /** A refill neither overfills nor takes. */
  lemma RefillBounds(q: Quota, s: Slot, now: real)
    requires Sane(q) && Lawful(s, q, now)
    ensures var b := At(s, now, q); var r := Refill(b, now);
            && 0.0 <= b.tokens <= r.tokens <= b.capacity == r.capacity == q.limits.hard as real
            && r.rate == q.rate
  {
    Grows(now - At(s, now, q).lastRefill, q.rate);
  }

  // ---------- The long-run bound, by way of the credit clock ----------

  /** The checks of key `k` as the credit clock sees them. */
  function TicksOf(q: Quota, run: BucketRun, k: string): Ticks {
    match run
    case Nil => Nil
    case Snoc(past, e) =>
      if e.Check? && e.key == k then Snoc(TicksOf(q, past, k), Tick(e.now, Earn(e.now, q.rate), FrozenAfter(past)))
      else TicksOf(q, past, k)
  }

  ghost predicate Mirrors(s: Slot, t: Tank, q: Quota) {
    if s.Absent? then t.NoTank?
    else
      && t == Tank(s.b.tokens, Earn(s.b.lastRefill, q.rate))
      && s.b.capacity == q.limits.hard as real && s.b.rate == q.rate
  }

  lemma SplitProduct(a: real, b: real, rate: real)
    ensures Earn(a - b, rate) == Earn(a, rate) - Earn(b, rate)
  {}

  lemma RefillMirrors(q: Quota, s: Slot, t: Tank, now: real, credit: real)
    requires Mirrors(s, t, q) && Sane(q) && credit == Earn(now, q.rate)
    ensures Refill(At(s, now, q), now).tokens == Filled(q.limits, t, credit)
  {
    SplitProduct(now, At(s, now, q).lastRefill, q.rate);
  }

  lemma {:induction false} BucketMirrorsTank(q: Quota, run: BucketRun, k: string)
    requires Sane(q)
    ensures Mirrors(KeySlot(q, run, k), After(q.limits, TicksOf(q, run, k)), q)
  {
    if run.Snoc? {
      BucketMirrorsTank(q, run.init, k);
      var e := run.last;
      if e.Check? && e.key == k {
        RefillMirrors(q, KeySlot(q, run.init, k), After(q.limits, TicksOf(q, run.init, k)), e.now, Earn(e.now, q.rate));
      }
    }
  }

  /** How many checks of `k` were admitted at a time in [from, to]. */
  function Admitted(q: Quota, run: BucketRun, k: string, from: real, to: real): nat
    requires Sane(q)
  {
    match run
    case Nil => 0
    case Snoc(past, e) =>
      Admitted(q, past, k, from, to)
      + if e.Check? && e.key == k && from <= e.now <= to && KeyVerdict(q, past, e.now, k) != BLOCKED then 1 else 0
  }

  lemma SameVerdict(q: Quota, past: BucketRun, now: real, k: string)
    requires Sane(q)
    ensures KeyVerdict(q, past, now, k)
            == Verdict(q.limits, TicksOf(q, past, k), Tick(now, Earn(now, q.rate), FrozenAfter(past)))
  {
    BucketMirrorsTank(q, past, k);
    RefillMirrors(q, KeySlot(q, past, k), After(q.limits, TicksOf(q, past, k)), now, Earn(now, q.rate));
  }

  lemma {:induction false} SameAdmissions(q: Quota, run: BucketRun, k: string, from: real, to: real)
    requires Sane(q)
    ensures Admitted(q, run, k, from, to) == AdmittedIn(q.limits, TicksOf(q, run, k), from, to)
  {
    if run.Snoc? {
      SameAdmissions(q, run.init, k, from, to);
      if run.last.Check? { SameVerdict(q, run.init, run.last.now, k); }
    }
  }

  lemma Scales(a: real, b: real, rate: real)
    requires a <= b && rate >= 0.0
    ensures Earn(a, rate) <= Earn(b, rate)
  {
    SplitProduct(b, a, rate);
    Grows(b - a, rate);
  }

  lemma {:induction false} TicksBy(q: Quota, run: BucketRun, k: string, t: real, credit: real)
    requires Sane(q) && Before(run, t) && credit == Earn(t, q.rate)
    ensures By(TicksOf(q, run, k), t, credit)
  {
    if run.Snoc? {
      TicksBy(q, run.init, k, t, credit);
      if run.last.Check? { Scales(run.last.now, t, q.rate); }
    }
  }

  /** The credit clock of a run is in order and starts and ends where its interval does. */
  lemma {:induction false} TicksAreOrdered(
    q: Quota, run: BucketRun, k: string, from: real, c0: real, to: real, c1: real)
    requires Sane(q) && Monotone(run) && c0 == Earn(from, q.rate) && c1 == Earn(to, q.rate)
    ensures var ticks := TicksOf(q, run, k); Ordered(ticks) && StartsAt(ticks, from, c0) && EndsBy(ticks, to, c1)
  {
    if run.Snoc? {
      TicksAreOrdered(q, run.init, k, from, c0, to, c1);
      var e := run.last;
      if e.Check? {
        TicksBy(q, run.init, k, e.now, Earn(e.now, q.rate));
        if from <= e.now { Scales(from, e.now, q.rate); }
        if e.now <= to { Scales(e.now, to, q.rate); }
      }
    }
  }

  lemma SparingBound(q: Quota, run: BucketRun, k: string, from: real, to: real, floor: real)
    requires Sane(q) && Monotone(run) && from <= to && 0.0 <= floor <= q.limits.hard as real
    requires Spares(q.limits, TicksOf(q, run, k), from, floor)
    ensures Admitted(q, run, k, from, to) as real
            <= q.limits.hard as real - floor + (Earn(to, q.rate) - Earn(from, q.rate))
  {
    var c0, c1 := Earn(from, q.rate), Earn(to, q.rate);
    Scales(from, to, q.rate);
    TicksAreOrdered(q, run, k, from, c0, to, c1);
    DrawBound(q.limits, TicksOf(q, run, k), from, to, floor, c0, c1);
    SameAdmissions(q, run, k, from, to);
  }

  /** Over any interval [from, to] a key gets at most hard + rate * (to - from) admissions. */
  lemma BucketBound(q: Quota, run: BucketRun, k: string, from: real, to: real)
    requires Sane(q) && Monotone(run) && from <= to
    ensures Admitted(q, run, k, from, to) as real <= q.limits.hard as real + Earn(to - from, q.rate)
  {
    NothingGoesNegative(q.limits, TicksOf(q, run, k), from);
    SparingBound(q, run, k, from, to, 0.0);
    SplitProduct(to, from, q.rate);
  }

  lemma WindowCredit(l: Limits, from: real, to: real)
    requires l.window > 0 && to == from + l.window as real
    ensures Earn(to, QuotaOf(l).rate) - Earn(from, QuotaOf(l).rate) == l.soft as real
  {
    var rate := QuotaOf(l).rate;
    SplitProduct(to, from, rate);
    assert l.window as real * rate == l.soft as real;
  }

  lemma RateIsSane(l: Limits)
    requires l.soft >= 0 && l.hard >= 0 && l.window > 0
    ensures Sane(QuotaOf(l))
  {}

  /** With the rate soft / W, at most hard + soft in any window. */
  lemma WindowBound(l: Limits, run: BucketRun, k: string, from: real)
    requires l.soft >= 0 && l.hard >= 0 && l.window > 0 && Monotone(run)
    ensures Sane(QuotaOf(l))
    ensures Admitted(QuotaOf(l), run, k, from, from + l.window as real) <= l.hard + l.soft
  {
    RateIsSane(l);
    WindowCredit(l, from, from + l.window as real);
    CreditBound(QuotaOf(l), run, k, from, from + l.window as real, l.soft);
  }

  lemma CreditBound(q: Quota, run: BucketRun, k: string, from: real, to: real, gain: int)
    requires Sane(q) && Monotone(run) && from <= to && Earn(to, q.rate) - Earn(from, q.rate) == gain as real
    ensures Admitted(q, run, k, from, to) <= q.limits.hard + gain
  {
    NothingGoesNegative(q.limits, TicksOf(q, run, k), from);
    SparingBound(q, run, k, from, to, 0.0);
  }

  /** Every check of `k` at `from` or later was made under burst freeze. */
  ghost predicate FreezeHolds(run: BucketRun, k: string, from: real) {
    run.Snoc? ==>
      && FreezeHolds(run.init, k, from)
      && (run.last.Check? && run.last.key == k && from <= run.last.now ==> FrozenAfter(run.init))
  }

  lemma {:induction false} TicksAreFrozen(q: Quota, run: BucketRun, k: string, from: real)
    requires FreezeHolds(run, k, from)
    ensures FrozenFrom(TicksOf(q, run, k), from)
  {
    if run.Snoc? { TicksAreFrozen(q, run.init, k, from); }
  }

  /** While burst is frozen, at most min(soft, hard) + rate * (to - from). */
  lemma FrozenBound(q: Quota, run: BucketRun, k: string, from: real, to: real)
    requires Sane(q) && Monotone(run) && from <= to && FreezeHolds(run, k, from)
    ensures Admitted(q, run, k, from, to) as real
            <= (if q.limits.soft <= q.limits.hard then q.limits.soft else q.limits.hard) as real
               + Earn(to - from, q.rate)
  {
    TicksAreFrozen(q, run, k, from);
    FreezeSparesReserve(q.limits, TicksOf(q, run, k), from);
    SparingBound(q, run, k, from, to, Reserve(q.limits));
    SplitProduct(to, from, q.rate);
  }

  /** `run` continues `since`, and every check of `k` in between was made under burst freeze. */
  ghost predicate FrozenSince(since: BucketRun, run: BucketRun, k: string) {
    run == since
    || (run.Snoc? && FrozenSince(since, run.init, k)
        && (run.last.Check? && run.last.key == k ==> FrozenAfter(run.init)))
  }

  function Tokens(q: Quota, run: BucketRun, k: string): real
    requires Sane(q)
  {
    At(KeySlot(q, run, k), 0.0, q).tokens
  }

  /** A freeze keeps the burst reserve: the bucket never falls below the smaller of its level
      when the freeze began and hard - soft. */
  lemma {:induction false} FreezeKeepsReserve(q: Quota, since: BucketRun, run: BucketRun, k: string)
    requires Sane(q) && Monotone(run) && FrozenSince(since, run, k)
    ensures Tokens(q, run, k) >= Min(Tokens(q, since, k), Reserve(q.limits))
  {
    if run != since {
      FreezeKeepsReserve(q, since, run.init, k);
      var e := run.last;
      if e.Check? && e.key == k {
        SlotIsLawful(q, run.init, k, e.now);
        RefillBounds(q, KeySlot(q, run.init, k), e.now);
      }
    }
  }

  // ---------- Refused checks leave no trace ----------

  /** `thin` is `run` with some refused checks left out. */
  ghost predicate Thins(cfg: Plan, run: BucketRun, thin: BucketRun)
    requires AllSane(cfg)
  {
    match run
    case Nil => thin.Nil?
    case Snoc(past, e) =>
      || (thin.Snoc? && thin.last == e && Thins(cfg, past, thin.init))
      || (e.Check? && Refused(cfg, past, e) && Thins(cfg, past, thin))
  }

  ghost predicate Refused(cfg: Plan, past: BucketRun, e: Event)
    requires AllSane(cfg) && e.Check?
  {
    assert Sane(cfg(e.key));
    KeyVerdict(cfg(e.key), past, e.now, e.key) == BLOCKED
  }

  /** Capped refill composes: refilling at `t` on the way to `now` changes nothing. */
  lemma RefillComposes(b: Bucket, t: real, now: real)
    requires b.rate >= 0.0 && b.lastRefill <= t <= now
    ensures Refill(Refill(b, t), now) == Refill(b, now)
  {
    SplitProduct(now - b.lastRefill, now - t, b.rate);
    Grows(now - t, b.rate);
    Grows(t - b.lastRefill, b.rate);
  }

  /** No later check can tell the two slots apart. */
  ghost predicate Alike(a: Slot, b: Slot, q: Quota, t: real)
    requires Sane(q)
  {
    Refill(At(a, t, q), t) == Refill(At(b, t, q), t)
  }

  lemma SlotRefill(q: Quota, s: Slot, t: real, now: real)
    requires Sane(q) && Lawful(s, q, t) && t <= now
    ensures Refill(Refill(At(s, t, q), t), now) == Refill(At(s, now, q), now)
  {
    Grows(1.0, q.rate);
    if s.Present? {
      RefillComposes(s.b, t, now);
    } else {
      NewIsFull(q, t, now);
    }
  }

  lemma {:induction false} ThinRunsAlike(cfg: Plan, run: BucketRun, thin: BucketRun, k: string, t: real)
    requires AllSane(cfg) && Sane(cfg(k)) && Thins(cfg, run, thin) && Monotone(run) && Before(run, t)
    ensures FrozenAfter(run) == FrozenAfter(thin)
    ensures Monotone(thin) && Before(thin, t)
    ensures Alike(KeySlot(cfg(k), run, k), KeySlot(cfg(k), thin, k), cfg(k), t)
  {
    if run.Snoc? {
      var past, e, q := run.init, run.last, cfg(k);
      if e.Check? && Refused(cfg, past, e) && Thins(cfg, past, thin) {
        ThinRunsAlike(cfg, past, thin, k, t);
        if e.key == k {
          SlotIsLawful(q, past, k, e.now);
          SlotRefill(q, KeySlot(q, past, k), e.now, t);
        }
      } else {
        ThinRunsAlike(cfg, past, thin.init, k, t);
        if e.Check? {
          ThinRunsAlike(cfg, past, thin.init, k, e.now);
        }
      }
    }
  }

  /** Inserting or deleting refused checks, of any keys, changes no later reply: not the status
      and not a count. */
  lemma RefusedChecksAreInvisible(cfg: Plan, run: BucketRun, thin: BucketRun, now: real, k: string)
    requires AllSane(cfg) && Thins(cfg, run, thin) && Monotone(run) && Before(run, now)
    ensures Sane(cfg(k)) && KeyReply(cfg(k), run, now, k) == KeyReply(cfg(k), thin, now, k)
  {
    assert Sane(cfg(k));
    ThinRunsAlike(cfg, run, thin, k, now);
  }

  // ---------- What a bucket grants ----------

  /** The level a check of `k` at `now` would find. */
  function LevelAt(q: Quota, run: BucketRun, k: string, now: real): real
    requires Sane(q)
  {
    Refill(At(KeySlot(q, run, k), now, q), now).tokens
  }

  /** `j` further checks of `k` at the same moment. */
  function More(run: BucketRun, j: nat, now: real, k: string): BucketRun {
    if j == 0 then run else Snoc(More(run, j - 1, now, k), Event.Check(now, k))
  }

  lemma {:induction false} MoreIsInOrder(run: BucketRun, j: nat, now: real, k: string)
    requires Monotone(run) && Before(run, now)
    ensures var run' := More(run, j, now, k);
            Monotone(run') && Before(run', now) && FrozenAfter(run') == FrozenAfter(run)
  {
    if j > 0 { MoreIsInOrder(run, j - 1, now, k); }
  }

  lemma NoTimeNoTokens(rate: real)
    ensures Earn(0.0, rate) == 0.0
  {}

  /** A check takes what its zone says, and no time passes until the next. */
  lemma CheckTakes(q: Quota, run: BucketRun, k: string, now: real)
    requires Sane(q) && Monotone(run) && Before(run, now)
    ensures 0.0 <= LevelAt(q, run, k, now)
    ensures LevelAt(q, Snoc(run, Event.Check(now, k)), k, now)
            == Take(LevelAt(q, run, k, now), FrozenAfter(run), q.limits)
    ensures KeyVerdict(q, run, now, k) == Zone(LevelAt(q, run, k, now), FrozenAfter(run), q.limits)
  {
    SlotIsLawful(q, run, k, now);
    RefillBounds(q, KeySlot(q, run, k), now);
    NoTimeNoTokens(q.rate);
  }

  /** How many checks in a row a level is good for: whole tokens, under freeze those above the
      reserve. */
  function GoodFor(level: real, frozen: bool, l: Limits): nat {
    var usable := if frozen then level - Reserve(l) else level;
    if usable < 0.0 then 0 else usable.Floor
  }

  lemma TakeIsGood(level: real, spent: nat, frozen: bool, l: Limits)
    requires level >= 0.0 && spent <= GoodFor(level, frozen, l)
    ensures Zone(level - spent as real, frozen, l) != BLOCKED <==> spent < GoodFor(level, frozen, l)
  {}

  lemma {:induction false} MoreTakes(q: Quota, run: BucketRun, j: nat, now: real, k: string)
    requires Sane(q) && Monotone(run) && Before(run, now)
    ensures var level := LevelAt(q, run, k, now);
            var n := GoodFor(level, FrozenAfter(run), q.limits);
            LevelAt(q, More(run, j, now, k), k, now) == level - (if j < n then j else n) as real
  {
    CheckTakes(q, run, k, now);
    if j > 0 {
      var level := LevelAt(q, run, k, now);
      var n := GoodFor(level, FrozenAfter(run), q.limits);
      MoreTakes(q, run, j - 1, now, k);
      MoreIsInOrder(run, j - 1, now, k);
      CheckTakes(q, More(run, j - 1, now, k), k, now);
      TakeIsGood(level, if j - 1 < n then j - 1 else n, FrozenAfter(run), q.limits);
    }
  }

  lemma NormalsLeft(left: real, j: nat, l: Limits)
    requires left >= Reserve(l)
    ensures left - j as real >= Reserve(l) + 1.0 <==> j < (left - Reserve(l)).Floor
  {}

  /** The reply is true: `remaining` is how many more checks would be NORMAL at this moment, and
      `burstRemaining` how many after those would be BURST unless burst is frozen; the ones after
      that are BLOCKED. `count` is what is used of the soft or of the hard limit. */
  lemma ReplyIsTrue(q: Quota, run: BucketRun, now: real, k: string, j: nat)
    requires Sane(q) && Monotone(run) && Before(run, now)
    ensures var r, l := KeyReply(q, run, now, k), q.limits;
            var later := KeyVerdict(q, More(Snoc(run, Event.Check(now, k)), j, now, k), now, k);
            && r.limit == l.soft && r.burstLimit == Max(l.hard - l.soft, 0)
            && 0 <= r.remaining && 0 <= r.burstRemaining
            && r.count == (if r.status == NORMAL then l.soft - r.remaining else l.hard - r.burstRemaining)
            && (later == NORMAL <==> j < r.remaining)
            && (later == BURST <==> !FrozenAfter(run) && r.remaining <= j < r.remaining + r.burstRemaining)
  {
    var run', frozen := Snoc(run, Event.Check(now, k)), FrozenAfter(run);
    CheckTakes(q, run, k, now);
    MoreTakes(q, run', j, now, k);
    MoreIsInOrder(run', j, now, k);
    CheckTakes(q, More(run', j, now, k), k, now);
    LaterZone(LevelAt(q, run, k, now), frozen, q.limits, j);
  }

  /** The same of levels alone. */
  lemma LaterZone(level: real, frozen: bool, l: Limits, j: nat)
    requires level >= 0.0
    ensures var left := Take(level, frozen, l);
            var r, n := Report(Zone(level, frozen, l), left, l), GoodFor(left, frozen, l);
            var later := Zone(left - (if j < n then j else n) as real, frozen, l);
            && 0 <= r.remaining && 0 <= r.burstRemaining
            && (later == NORMAL <==> j < r.remaining)
            && (later == BURST <==> !frozen && r.remaining <= j < r.remaining + r.burstRemaining)
  {
    var left := Take(level, frozen, l);
    if left >= Reserve(l) { NormalsLeft(left, j, l); }
  }

  /** How many checks of `k` are admitted in a row. */
  lemma {:induction false} MoreAdmitted(q: Quota, run: BucketRun, j: nat, now: real, k: string, from: real, to: real)
    requires Sane(q) && Monotone(run) && Before(run, now) && from <= now <= to
    ensures var n := GoodFor(LevelAt(q, run, k, now), FrozenAfter(run), q.limits);
            Admitted(q, More(run, j, now, k), k, from, to) == Admitted(q, run, k, from, to) + if j < n then j else n
  {
    if j > 0 {
      var level := LevelAt(q, run, k, now);
      var n := GoodFor(level, FrozenAfter(run), q.limits);
      MoreAdmitted(q, run, j - 1, now, k, from, to);
      MoreTakes(q, run, j - 1, now, k);
      MoreIsInOrder(run, j - 1, now, k);
      CheckTakes(q, run, k, now);
      CheckTakes(q, More(run, j - 1, now, k), k, now);
      TakeIsGood(level, if j - 1 < n then j - 1 else n, FrozenAfter(run), q.limits);
    }
  }

  /** For all limits that are not negative, the checks of a new key at one moment: the first
      min(soft, hard) are NORMAL, then up to `hard` are BURST, and the next are BLOCKED, each with
      its numbers. */
  lemma FirstReplies(q: Quota, now: real, k: string, n: nat)
    requires Sane(q)
    ensures var l, r := q.limits, KeyReply(q, More(Nil, n, now, k), now, k);
            var normal, burst := if l.soft < l.hard then l.soft else l.hard, Max(l.hard - l.soft, 0);
            r == if n < normal then Result(NORMAL, l.soft - (normal - n - 1), l.soft, normal - n - 1, burst, burst)
                 else if n < l.hard then Result(BURST, n + 1, l.soft, 0, burst, l.hard - n - 1)
                 else Result(BLOCKED, l.hard, l.soft, 0, burst, 0)
  {
    NoTimeNoTokens(q.rate);
    MoreIsInOrder(Nil, n, now, k);
    MoreTakes(q, Nil, n, now, k);
    CheckTakes(q, More(Nil, n, now, k), k, now);
    WholeLevel(q.limits, n);
  }

  lemma WholeLevel(l: Limits, n: nat)
    requires l.soft >= 0 && l.hard >= 0
    ensures GoodFor(l.hard as real, false, l) == l.hard
    ensures GoodFor(l.hard as real, true, l) == if l.soft < l.hard then l.soft else l.hard
  {}

  /** Under burst freeze the first min(soft, hard) are NORMAL and the rest BLOCKED. */
  lemma FirstRepliesFrozen(q: Quota, now: real, k: string, n: nat)
    requires Sane(q)
    ensures var l := q.limits;
            KeyVerdict(q, More(Snoc(Nil, Event.Freeze(true)), n, now, k), now, k)
            == if n < (if l.soft < l.hard then l.soft else l.hard) then NORMAL else BLOCKED
  {
    var run: BucketRun := Snoc(Nil, Event.Freeze(true));
    assert KeySlot(q, Nil, k) == Absent && KeySlot(q, run, k) == Absent && FrozenAfter(run);
    assert Before(Nil, now) && Before(run, now);
    NoTimeNoTokens(q.rate);
    MoreIsInOrder(run, n, now, k);
    MoreTakes(q, run, n, now, k);
    CheckTakes(q, More(run, n, now, k), k, now);
    WholeLevel(q.limits, n);
  }

  /** The level of a drained bucket a window later. */
  lemma WindowRefills(l: Limits, run: BucketRun, now: real, k: string)
    requires l.soft >= 0 && l.hard >= 0 && l.window > 0 && Monotone(run) && Before(run, now)
    requires Sane(QuotaOf(l)) && KeySlot(QuotaOf(l), run, k).Present?
    requires KeySlot(QuotaOf(l), run, k).b == Bucket(0.0, l.hard as real, QuotaOf(l).rate, now)
    ensures LevelAt(QuotaOf(l), run, k, now + l.window as real) == Min(l.hard as real, l.soft as real)
  {
    WindowCredit(l, now, now + l.window as real);
    SplitProduct(now + l.window as real, now, QuotaOf(l).rate);
  }

  lemma {:induction false} MoreSlot(q: Quota, run: BucketRun, j: nat, now: real, k: string)
    requires Sane(q) && j > 0 && Monotone(run) && Before(run, now)
    ensures var s := KeySlot(q, More(run, j, now, k), k);
            s.Present? && s.b == Bucket(LevelAt(q, More(run, j, now, k), k, now), q.limits.hard as real, q.rate, now)
  {
    MoreIsInOrder(run, j, now, k);
    SlotIsLawful(q, More(run, j, now, k), k, now);
    NoTimeNoTokens(q.rate);
  }

  lemma {:induction false} BeforeMore(run: BucketRun, j: nat, now: real, k: string, t: real)
    requires Monotone(run) && Before(run, now) && now <= t
    ensures Before(More(run, j, now, k), t)
  {
    MoreIsInOrder(run, j, now, k);
    BeforeLater(More(run, j, now, k), now, t);
  }

  /** The bounds are reached, for all limits that are not negative: `hard` checks at one moment, and
      a window later as many more as the bucket has refilled. */
  lemma WindowBoundIsReached(l: Limits, now: real, k: string)
    requires l.soft >= 0 && l.hard >= 1 && l.window > 0
    ensures Sane(QuotaOf(l))
    ensures var later, refilled := now + l.window as real, if l.soft < l.hard then l.soft else l.hard;
            var run := More(Nil, l.hard, now, k);
            && Admitted(QuotaOf(l), run, k, now, now) == l.hard
            && Monotone(More(run, refilled, later, k))
            && Admitted(QuotaOf(l), More(run, refilled, later, k), k, now, later) == l.hard + refilled
  {
    RateIsSane(l);
    var q, later := QuotaOf(l), now + l.window as real;
    var refilled := if l.soft < l.hard then l.soft else l.hard;
    var run := More(Nil, l.hard, now, k);
    NoTimeNoTokens(q.rate);
    WholeLevel(l, 0);
    MoreAdmitted(q, Nil, l.hard, now, k, now, now);
    MoreAdmitted(q, Nil, l.hard, now, k, now, later);
    MoreTakes(q, Nil, l.hard, now, k);
    MoreSlot(q, Nil, l.hard, now, k);
    MoreIsInOrder(Nil, l.hard, now, k);
    BeforeMore(Nil, l.hard, now, k, later);
    WindowRefills(l, run, now, k);
    MoreIsInOrder(run, refilled, later, k);
    MoreAdmitted(q, run, refilled, later, k, now, later);
  }
}
