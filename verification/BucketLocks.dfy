/** internal/ratelimit/token_bucket.go, concurrently: any number of threads run `Check` and
    `GetOverageUnits`, one step per lock operation, over the table lock and the bucket locks. */
module BucketLocks {
  import opened Traces
  import RateLimit
  import TB = TokenBucket
  import CT = CreditTank

  type Tid = nat
  type BucketId = nat

  /** Where a thread is. The arguments are the bucket it points to and the reply it decided. */
  datatype Pc =
    | Start                                        // about to take the table lock
    | InTable                                      // holds the table lock
    | HasBucket(b: BucketId)                       // about to take the bucket lock
    | Deciding(b: BucketId)                        // holds the bucket lock
    | MustCount(b: BucketId, r: RateLimit.Result)  // decided BURST, holds the bucket, wants the table lock
    | Counting(b: BucketId, r: RateLimit.Result)   // holds both locks
    | Leaving(b: BucketId, r: RateLimit.Result)    // about to release the bucket lock
    | WantRead                                     // a reader before RLock
    | Reading                                      // holds the table lock shared
    | Done

  datatype Thread = Thread(key: string, pc: Pc)

  datatype Lock = Free | Held(holder: Tid) | Shared(readers: set<Tid>)

  /** `checks` records the decisions and freeze toggles in the order they took effect. */
  datatype State = State(
    threads: map<Tid, Thread>,
    tableLock: Lock,
    bucketLocks: map<BucketId, Tid>,
    table: map<string, BucketId>,
    contents: map<BucketId, TB.Bucket>,
    overages: map<string, nat>,
    frozen: bool,
    clock: real,
    checks: TB.BucketRun)
  {
    function Overage(k: string): nat { if k in overages then overages[k] else 0 }
  }

  const Init := State(map[], Free, map[], map[], map[], map[], false, 0.0, Nil)

  predicate HoldsTable(pc: Pc) { pc.InTable? || pc.Counting? }

  predicate HasBucketLock(pc: Pc) { pc.Deciding? || pc.MustCount? || pc.Counting? || pc.Leaving? }

  predicate Points(pc: Pc) { pc.HasBucket? || HasBucketLock(pc) }

  predicate Enabled(s: State, t: Tid)
    requires t in s.threads
  {
    match s.threads[t].pc
    case Start => s.tableLock.Free?
    case HasBucket(b) => b !in s.bucketLocks
    case MustCount(_, _) => s.tableLock.Free?
    case WantRead => !s.tableLock.Held?
    case Done => false
    case _ => true
  }

  /** The reply a thread inside its bucket's critical section decides on. */
  function Decision(cfg: TB.Plan, s: State, t: Tid, b: BucketId): RateLimit.Result
    requires t in s.threads && b in s.contents
  {
    TB.Reply(s.contents[b], s.clock, s.frozen, cfg(s.threads[t].key).limits)
  }

  // One step of an enabled thread, component by component. `addr` is where a new bucket would
  // be allocated.

  function NextPc(cfg: TB.Plan, s: State, t: Tid, addr: BucketId): Pc
    requires t in s.threads
  {
    var k := s.threads[t].key;
    match s.threads[t].pc
    case Start => InTable
    case InTable => HasBucket(if k in s.table then s.table[k] else addr)
    case HasBucket(b) => Deciding(b)
    case Deciding(b) =>
      if b !in s.contents then Deciding(b)
      else
        var r := Decision(cfg, s, t, b);
        if r.status == RateLimit.BURST then MustCount(b, r) else Leaving(b, r)
    case MustCount(b, r) => Counting(b, r)
    case Counting(b, r) => Leaving(b, r)
    case Leaving(_, _) => Done
    case WantRead => Reading
    case Reading => Done
    case Done => Done
  }

  function NextTableLock(t: Tid, pc: Pc, lock: Lock): Lock {
    match pc
    case Start => Held(t)
    case InTable => Free
    case MustCount(_, _) => Held(t)
    case Counting(_, _) => Free
    case WantRead => Shared(if lock.Shared? then lock.readers + {t} else {t})
    case Reading =>
      if lock.Shared? && lock.readers - {t} != {} then Shared(lock.readers - {t}) else Free
    case _ => lock
  }

  function NextBucketLocks(t: Tid, pc: Pc, locks: map<BucketId, Tid>): map<BucketId, Tid> {
    match pc
    case HasBucket(b) => locks[b := t]
    case Leaving(b, _) => locks - {b}
    case _ => locks
  }

  function NextTable(s: State, th: Thread, addr: BucketId): map<string, BucketId> {
    if th.pc.InTable? && th.key !in s.table then s.table[th.key := addr] else s.table
  }

  function NextContents(cfg: TB.Plan, s: State, th: Thread, addr: BucketId): map<BucketId, TB.Bucket> {
    match th.pc
    case InTable => if th.key in s.table then s.contents else s.contents[addr := TB.New(cfg(th.key), s.clock)]
    case Deciding(b) =>
      if b !in s.contents then s.contents
      else s.contents[b := TB.Visit(s.contents[b], s.clock, s.frozen, cfg(th.key).limits)]
    case _ => s.contents
  }

  function NextOverages(s: State, th: Thread): map<string, nat> {
    if th.pc.Counting? then s.overages[th.key := s.Overage(th.key) + 1] else s.overages
  }

  function NextChecks(s: State, th: Thread): TB.BucketRun {
    if th.pc.Deciding? && th.pc.b in s.contents then Snoc(s.checks, TB.Check(s.clock, th.key)) else s.checks
  }

  function Exec(cfg: TB.Plan, s: State, t: Tid, addr: BucketId): State
    requires t in s.threads && Enabled(s, t)
  {
    var th := s.threads[t];
    State(s.threads[t := th.(pc := NextPc(cfg, s, t, addr))],
          NextTableLock(t, th.pc, s.tableLock), NextBucketLocks(t, th.pc, s.bucketLocks),
          NextTable(s, th, addr), NextContents(cfg, s, th, addr), NextOverages(s, th), s.frozen, s.clock,
          NextChecks(s, th))
  }

  /** What can happen next: a thread arrives, a thread takes its step (`addr` is the address a
      new bucket would get), burst freeze is toggled, time passes. */
  datatype Action =
    | Spawn(t: Tid, key: string, reader: bool)
    | Run(t: Tid, addr: BucketId)
    | Toggle(on: bool)
    | Pass(d: real)

  function Act(cfg: TB.Plan, s: State, a: Action): State {
    match a
    case Spawn(t, key, reader) =>
      if t in s.threads then s else s.(threads := s.threads[t := Thread(key, if reader then WantRead else Start)])
    case Run(t, addr) =>
      if t in s.threads && Enabled(s, t) && addr !in s.contents then Exec(cfg, s, t, addr) else s
    case Toggle(on) => s.(frozen := on, checks := Snoc(s.checks, TB.Freeze(on)))
    case Pass(d) => if d >= 0.0 then s.(clock := s.clock + d) else s
  }

  function After(cfg: TB.Plan, acts: Trace<Action>): State {
    match acts
    case Nil => Init
    case Snoc(past, a) => Act(cfg, After(cfg, past), a)
  }

  // ---------- Locks ----------

  type Threads = map<Tid, Thread>

  /** The table lock is held by exactly the thread that is inside, or shared by exactly the readers. */
  ghost predicate TableOk(threads: Threads, lock: Lock) {
    && (forall t :: t in threads ==> (HoldsTable(threads[t].pc) <==> lock == Held(t)))
    && (forall t :: t in threads ==> (threads[t].pc.Reading? <==> lock.Shared? && t in lock.readers))
    && (lock.Held? ==> lock.holder in threads)
    && (lock.Shared? ==> lock.readers != {} && lock.readers <= threads.Keys)
  }

  /** Each bucket lock is held by exactly the one thread inside that bucket. */
  ghost predicate BucketsOk(threads: Threads, locks: map<BucketId, Tid>) {
    && (forall t :: t in threads && HasBucketLock(threads[t].pc) ==>
          threads[t].pc.b in locks && locks[threads[t].pc.b] == t)
    && (forall b :: b in locks ==>
          locks[b] in threads && HasBucketLock(threads[locks[b]].pc) && threads[locks[b]].pc.b == b)
  }

  /** How a thread's step may move the table lock. */
  ghost predicate TableMove(t: Tid, pc: Pc, pc': Pc, lock: Lock, lock': Lock) {
    || (lock' == lock && !HoldsTable(pc) && !HoldsTable(pc') && !pc.Reading? && !pc'.Reading?)
    || (lock.Free? && lock' == Held(t) && HoldsTable(pc'))
    || (HoldsTable(pc) && lock' == Free && !HoldsTable(pc') && !pc'.Reading?)
    || (!lock.Held? && pc.WantRead? && pc'.Reading?
        && lock' == Shared(if lock.Shared? then lock.readers + {t} else {t}))
    || (pc.Reading? && pc'.Done? && lock.Shared?
        && lock' == if lock.readers - {t} == {} then Free else Shared(lock.readers - {t}))
  }

  lemma TableMoveOk(threads: Threads, t: Tid, pc': Pc, lock: Lock, lock': Lock)
    requires t in threads && TableOk(threads, lock) && TableMove(t, threads[t].pc, pc', lock, lock')
    ensures TableOk(threads[t := threads[t].(pc := pc')], lock')
  {
    var threads' := threads[t := threads[t].(pc := pc')];
    assert threads'.Keys == threads.Keys;
    forall r | r in threads'
      ensures HoldsTable(threads'[r].pc) <==> lock' == Held(r)
      ensures threads'[r].pc.Reading? <==> lock'.Shared? && r in lock'.readers
    {
      if r != t && lock.Shared? {
        assert r in lock.readers <==> r in lock.readers - {t};
      }
    }
  }

  /** How a thread's step may move the bucket locks. */
  ghost predicate BucketMove(t: Tid, pc: Pc, pc': Pc, locks: map<BucketId, Tid>, locks': map<BucketId, Tid>) {
    || (locks' == locks && !HasBucketLock(pc) && !HasBucketLock(pc'))
    || (locks' == locks && HasBucketLock(pc) && HasBucketLock(pc') && pc'.b == pc.b)
    || (pc.HasBucket? && pc'.Deciding? && pc'.b == pc.b && pc.b !in locks && locks' == locks[pc.b := t])
    || (pc.Leaving? && pc'.Done? && locks' == locks - {pc.b})
  }

  lemma BucketMoveOk(threads: Threads, t: Tid, pc': Pc, locks: map<BucketId, Tid>, locks': map<BucketId, Tid>)
    requires t in threads && BucketsOk(threads, locks) && BucketMove(t, threads[t].pc, pc', locks, locks')
    ensures BucketsOk(threads[t := threads[t].(pc := pc')], locks')
  {}

  lemma PcMoves(cfg: TB.Plan, s: State, t: Tid, addr: BucketId)
    requires t in s.threads && Enabled(s, t) && (s.threads[t].pc.Reading? ==> s.tableLock.Shared?)
    ensures var pc, pc' := s.threads[t].pc, NextPc(cfg, s, t, addr);
            && TableMove(t, pc, pc', s.tableLock, NextTableLock(t, pc, s.tableLock))
            && BucketMove(t, pc, pc', s.bucketLocks, NextBucketLocks(t, pc, s.bucketLocks))
  {}

  ghost predicate LocksOk(s: State) { TableOk(s.threads, s.tableLock) && BucketsOk(s.threads, s.bucketLocks) }

  lemma ExecShape(cfg: TB.Plan, s: State, t: Tid, addr: BucketId)
    requires t in s.threads && Enabled(s, t)
    ensures var s', th := Exec(cfg, s, t, addr), s.threads[t];
            && s'.threads == s.threads[t := th.(pc := NextPc(cfg, s, t, addr))]
            && s'.tableLock == NextTableLock(t, th.pc, s.tableLock)
            && s'.bucketLocks == NextBucketLocks(t, th.pc, s.bucketLocks)
  {}

  lemma ExecLocks(cfg: TB.Plan, s: State, t: Tid, addr: BucketId)
    requires LocksOk(s) && t in s.threads && Enabled(s, t)
    ensures LocksOk(Exec(cfg, s, t, addr))
  {
    var pc, pc' := s.threads[t].pc, NextPc(cfg, s, t, addr);
    PcMoves(cfg, s, t, addr);
    TableMoveOk(s.threads, t, pc', s.tableLock, NextTableLock(t, pc, s.tableLock));
    BucketMoveOk(s.threads, t, pc', s.bucketLocks, NextBucketLocks(t, pc, s.bucketLocks));
    ExecShape(cfg, s, t, addr);
  }

  lemma SpawnLocks(threads: Threads, t: Tid, th: Thread, lock: Lock, locks: map<BucketId, Tid>)
    requires t !in threads && (th.pc.Start? || th.pc.WantRead?) && TableOk(threads, lock) && BucketsOk(threads, locks)
    ensures TableOk(threads[t := th], lock) && BucketsOk(threads[t := th], locks)
  {}

  lemma LocksStep(cfg: TB.Plan, s: State, a: Action)
    requires LocksOk(s)
    ensures LocksOk(Act(cfg, s, a))
  {
    if a.Run? && a.t in s.threads && Enabled(s, a.t) {
      ExecLocks(cfg, s, a.t, a.addr);
    } else if a.Spawn? && a.t !in s.threads {
      SpawnLocks(s.threads, a.t, Thread(a.key, if a.reader then WantRead else Start), s.tableLock, s.bucketLocks);
    }
  }

  lemma {:induction false} LocksAlwaysOk(cfg: TB.Plan, acts: Trace<Action>)
    ensures LocksOk(After(cfg, acts))
  {
    if acts.Snoc? {
      LocksAlwaysOk(cfg, acts.init);
      LocksStep(cfg, After(cfg, acts.init), acts.last);
    }
  }

  /** If a thread waits, somebody can step: whoever holds the table lock never waits for a
      bucket, and whoever holds a bucket waits at most for the table. */
  lemma SomeoneCanStep(s: State, t: Tid)
    requires LocksOk(s) && t in s.threads && !s.threads[t].pc.Done?
    ensures exists t' :: t' in s.threads && Enabled(s, t')
  {
    if s.tableLock.Held? {
      assert Enabled(s, s.tableLock.holder);
    } else if s.tableLock.Shared? {
      var r :| r in s.tableLock.readers;
      assert Enabled(s, r);
    } else if s.threads[t].pc.HasBucket? && s.threads[t].pc.b in s.bucketLocks {
      assert Enabled(s, s.bucketLocks[s.threads[t].pc.b]);
    } else {
      assert Enabled(s, t);
    }
  }

  /** No reachable deadlock, although the table lock is taken while a bucket lock is held. */
  lemma NoDeadlock(cfg: TB.Plan, acts: Trace<Action>, t: Tid)
    requires var s := After(cfg, acts); t in s.threads && !s.threads[t].pc.Done?
    ensures var s := After(cfg, acts); exists t' :: t' in s.threads && Enabled(s, t')
  {
    LocksAlwaysOk(cfg, acts);
    SomeoneCanStep(After(cfg, acts), t);
  }

  // ---------- One bucket per key, for ever ----------

  /** Distinct keys have distinct buckets, and every thread points to the bucket of its key. */
  ghost predicate TableInjective(table: map<string, BucketId>) {
    forall k, k' :: k in table && k' in table && table[k] == table[k'] ==> k == k'
  }

  ghost predicate PointsHome(th: Thread, table: map<string, BucketId>) {
    Points(th.pc) ==> th.key in table && table[th.key] == th.pc.b
  }

  ghost predicate DataOk(s: State) {
    && TableInjective(s.table)
    && (forall k :: k in s.table ==> s.table[k] in s.contents)
    && (forall t :: t in s.threads ==> PointsHome(s.threads[t], s.table))
  }

  lemma ExecData(cfg: TB.Plan, s: State, t: Tid, addr: BucketId)
    requires DataOk(s) && t in s.threads && Enabled(s, t) && addr !in s.contents
    ensures DataOk(Exec(cfg, s, t, addr))
    ensures forall k :: k in s.table ==>
              k in Exec(cfg, s, t, addr).table && Exec(cfg, s, t, addr).table[k] == s.table[k]
  {
    ExecShape(cfg, s, t, addr);
    assert PointsHome(s.threads[t], s.table);
  }

  lemma DataStep(cfg: TB.Plan, s: State, a: Action)
    requires DataOk(s)
    ensures DataOk(Act(cfg, s, a))
    ensures forall k :: k in s.table ==> k in Act(cfg, s, a).table && Act(cfg, s, a).table[k] == s.table[k]
  {
    if a.Run? && a.t in s.threads && Enabled(s, a.t) && a.addr !in s.contents {
      ExecData(cfg, s, a.t, a.addr);
    }
  }

  lemma {:induction false} DataAlwaysOk(cfg: TB.Plan, acts: Trace<Action>)
    ensures DataOk(After(cfg, acts))
  {
    if acts.Snoc? {
      DataAlwaysOk(cfg, acts.init);
      DataStep(cfg, After(cfg, acts.init), acts.last);
    }
  }

  /** Once a key has a bucket it keeps that one in every continuation of the run. */
  lemma {:induction false} OneBucketForEver(cfg: TB.Plan, past: Trace<Action>, acts: Trace<Action>, k: string)
    requires Prefix(past, acts) && k in After(cfg, past).table
    ensures k in After(cfg, acts).table && After(cfg, acts).table[k] == After(cfg, past).table[k]
  {
    if past != acts {
      OneBucketForEver(cfg, past, acts.init, k);
      DataAlwaysOk(cfg, acts.init);
      DataStep(cfg, After(cfg, acts.init), acts.last);
    }
  }

  // ---------- The decisions are those of the sequential limiter ----------

  /** The checks decided and the freeze toggles of a run, in the order they took effect. */
  function ChecksOf(cfg: TB.Plan, acts: Trace<Action>): TB.BucketRun {
    match acts
    case Nil => Nil
    case Snoc(past, Toggle(on)) => Snoc(ChecksOf(cfg, past), TB.Freeze(on))
    case Snoc(past, Run(t, addr)) =>
      var s := After(cfg, past);
      if t in s.threads && s.threads[t].pc.Deciding? && addr !in s.contents
      then Snoc(ChecksOf(cfg, past), TB.Check(s.clock, s.threads[t].key))
      else ChecksOf(cfg, past)
    case Snoc(past, _) => ChecksOf(cfg, past)
  }

  /** That is what is recorded: nothing is decided twice or left out. */
  lemma {:induction false} ChecksAreRecorded(cfg: TB.Plan, acts: Trace<Action>)
    ensures After(cfg, acts).checks == ChecksOf(cfg, acts)
  {
    if acts.Snoc? {
      ChecksAreRecorded(cfg, acts.init);
      DataAlwaysOk(cfg, acts.init);
      var s := After(cfg, acts.init);
      if acts.last.Run? && acts.last.t in s.threads { assert PointsHome(s.threads[acts.last.t], s.table); }
    }
  }

  /** What the bucket of `k` holds is what the recorded checks, run one after the other, leave;
      a bucket nobody has checked yet is full. */
  ghost predicate Linear(q: TB.Quota, s: State, k: string)
    requires TB.Sane(q)
  {
    var slot := TB.KeySlot(q, s.checks, k);
    if k !in s.table then slot.Absent?
    else
      && s.table[k] in s.contents
      && var b := s.contents[s.table[k]];
         if slot.Present? then b == slot.b else b == TB.New(q, b.lastRefill) && b.lastRefill <= s.clock
  }

  ghost predicate InTime(s: State) {
    TB.Monotone(s.checks) && TB.Before(s.checks, s.clock) && TB.FrozenAfter(s.checks) == s.frozen
  }

  /** A bucket that has not been checked yet cannot be told from one created by this check. */
  lemma FreshBucketChecksAlike(q: TB.Quota, t0: real, now: real, frozen: bool)
    requires TB.Sane(q) && t0 <= now
    ensures TB.Visit(TB.New(q, t0), now, frozen, q.limits) == TB.Visit(TB.New(q, now), now, frozen, q.limits)
    ensures TB.Reply(TB.New(q, t0), now, frozen, q.limits) == TB.Reply(TB.New(q, now), now, frozen, q.limits)
  {
    TB.NewIsFull(q, t0, now);
  }

  /** Linearisability: whatever the interleaving, the reply a thread decides on is the reply the
      sequential limiter gives to its check after the checks decided before it. */
  lemma DecisionIsSequential(cfg: TB.Plan, s: State, t: Tid, b: BucketId)
    requires t in s.threads && s.threads[t].pc == Deciding(b) && DataOk(s) && InTime(s)
    requires TB.Sane(cfg(s.threads[t].key)) && Linear(cfg(s.threads[t].key), s, s.threads[t].key)
    ensures var k := s.threads[t].key;
            && b in s.contents
            && Decision(cfg, s, t, b) == TB.KeyReply(cfg(k), s.checks, s.clock, k)
            && TB.KeySlot(cfg(k), Snoc(s.checks, TB.Check(s.clock, k)), k)
               == TB.Present(TB.Visit(s.contents[b], s.clock, s.frozen, cfg(k).limits))
  {
    var k := s.threads[t].key;
    assert PointsHome(s.threads[t], s.table);
    if TB.KeySlot(cfg(k), s.checks, k).Absent? {
      FreshBucketChecksAlike(cfg(k), s.contents[b].lastRefill, s.clock, s.frozen);
    }
  }

  ghost predicate Sequential(cfg: TB.Plan, s: State, k: string)
    requires TB.Sane(cfg(k))
  {
    DataOk(s) && InTime(s) && Linear(cfg(k), s, k)
  }

  /** The parts of a state that the recorded checks speak about. */
  lemma ExecSequential(cfg: TB.Plan, s: State, t: Tid, addr: BucketId, k: string)
    requires TB.Sane(cfg(k)) && Sequential(cfg, s, k)
    requires t in s.threads && Enabled(s, t) && addr !in s.contents
    ensures InTime(Exec(cfg, s, t, addr)) && Linear(cfg(k), Exec(cfg, s, t, addr), k)
  {
    var th := s.threads[t];
    assert PointsHome(th, s.table);
    if th.pc.Deciding? && th.key == k {
      DecisionIsSequential(cfg, s, t, th.pc.b);
    }
  }

  lemma SequentialStep(cfg: TB.Plan, s: State, a: Action, k: string)
    requires TB.Sane(cfg(k)) && Sequential(cfg, s, k)
    ensures Sequential(cfg, Act(cfg, s, a), k)
  {
    DataStep(cfg, s, a);
    if a.Run? && a.t in s.threads && Enabled(s, a.t) && a.addr !in s.contents {
      ExecSequential(cfg, s, a.t, a.addr, k);
    } else if a.Pass? && a.d >= 0.0 {
      TB.BeforeLater(s.checks, s.clock, s.clock + a.d);
    }
  }

  lemma {:induction false} AlwaysSequential(cfg: TB.Plan, acts: Trace<Action>, k: string)
    requires TB.Sane(cfg(k))
    ensures Sequential(cfg, After(cfg, acts), k)
  {
    if acts.Snoc? {
      AlwaysSequential(cfg, acts.init, k);
      SequentialStep(cfg, After(cfg, acts.init), acts.last, k);
    }
  }

  /** In every reachable state a thread about to decide gets the sequential limiter's reply. */
  lemma EveryReplyIsSequential(cfg: TB.Plan, acts: Trace<Action>, t: Tid, b: BucketId)
    requires var s := After(cfg, acts);
             t in s.threads && s.threads[t].pc == Deciding(b) && TB.Sane(cfg(s.threads[t].key))
    ensures var s := After(cfg, acts); var k := s.threads[t].key;
            b in s.contents && Decision(cfg, s, t, b) == TB.KeyReply(cfg(k), s.checks, s.clock, k)
  {
    var s := After(cfg, acts);
    AlwaysSequential(cfg, acts, s.threads[t].key);
    DecisionIsSequential(cfg, s, t, b);
  }

  /** So the long-run bound holds under every interleaving: in any interval [from, to] at most
      hard + rate * (to - from) checks of a key are decided in its favour. */
  lemma ConcurrentBound(cfg: TB.Plan, acts: Trace<Action>, k: string, from: real, to: real)
    requires TB.Sane(cfg(k)) && from <= to
    ensures TB.Admitted(cfg(k), After(cfg, acts).checks, k, from, to) as real
            <= cfg(k).limits.hard as real + CT.Earn(to - from, cfg(k).rate)
  {
    AlwaysSequential(cfg, acts, k);
    TB.BucketBound(cfg(k), After(cfg, acts).checks, k, from, to);
  }

  /** While burst is frozen for a key's decisions, at most min(soft, hard) + rate * (to - from). */
  lemma ConcurrentFrozenBound(cfg: TB.Plan, acts: Trace<Action>, k: string, from: real, to: real)
    requires TB.Sane(cfg(k)) && from <= to && TB.FreezeHolds(After(cfg, acts).checks, k, from)
    ensures var l := cfg(k).limits;
            TB.Admitted(cfg(k), After(cfg, acts).checks, k, from, to) as real
            <= (if l.soft <= l.hard then l.soft else l.hard) as real + CT.Earn(to - from, cfg(k).rate)
  {
    AlwaysSequential(cfg, acts, k);
    TB.FrozenBound(cfg(k), After(cfg, acts).checks, k, from, to);
  }

  /** The level of a key's bucket; one not created yet will be full. */
  function Level(q: TB.Quota, s: State, k: string): real {
    if k in s.table && s.table[k] in s.contents then s.contents[s.table[k]].tokens else q.limits.hard as real
  }

  lemma LevelIsSequential(cfg: TB.Plan, acts: Trace<Action>, k: string)
    requires TB.Sane(cfg(k))
    ensures Level(cfg(k), After(cfg, acts), k) == TB.Tokens(cfg(k), After(cfg, acts).checks, k)
  {
    AlwaysSequential(cfg, acts, k);
  }

  /** From a moment of a run on, as long as every decision for `k` is made under freeze, the
      bucket never falls below the smaller of its level then and hard - soft. */
  lemma ConcurrentReserve(cfg: TB.Plan, past: Trace<Action>, acts: Trace<Action>, k: string)
    requires TB.Sane(cfg(k)) && TB.FrozenSince(After(cfg, past).checks, After(cfg, acts).checks, k)
    ensures Level(cfg(k), After(cfg, acts), k)
            >= CT.Min(Level(cfg(k), After(cfg, past), k), CT.Reserve(cfg(k).limits))
  {
    AlwaysSequential(cfg, acts, k);
    LevelIsSequential(cfg, past, k);
    LevelIsSequential(cfg, acts, k);
    TB.FreezeKeepsReserve(cfg(k), After(cfg, past).checks, After(cfg, acts).checks, k);
  }

  // ---------- Overages ----------

  predicate OwesCount(th: Thread, k: string) { th.key == k && (th.pc.MustCount? || th.pc.Counting?) }

  /** Threads between a BURST decision for `k` and its increment. */
  ghost function Owing(threads: Threads, k: string): set<Tid> {
    set t | t in threads && OwesCount(threads[t], k)
  }

  lemma OwingUpdate(threads: Threads, t: Tid, th: Thread, k: string)
    ensures Owing(threads[t := th], k) == Owing(threads, k) - {t} + if OwesCount(th, k) then {t} else {}
  {}

  lemma OwingAfter(threads: Threads, t: Tid, th: Thread, k: string)
    ensures |Owing(threads[t := th], k)|
            == |Owing(threads, k)| + (if OwesCount(th, k) then 1 else 0)
               - (if t in threads && OwesCount(threads[t], k) then 1 else 0)
  {
    OwingUpdate(threads, t, th, k);
  }

  /** The counter plus the increments still owed is the number of BURST decisions. */
  ghost predicate Counted(q: TB.Quota, s: State, k: string)
    requires TB.Sane(q)
  {
    s.Overage(k) + |Owing(s.threads, k)| == TB.Bursts(q, s.checks, k)
  }

  lemma ExecBooks(cfg: TB.Plan, s: State, t: Tid, addr: BucketId, k: string)
    requires t in s.threads && Enabled(s, t) && DataOk(s)
    ensures var s', th := Exec(cfg, s, t, addr), s.threads[t];
            && s'.Overage(k) == s.Overage(k) + (if th.pc.Counting? && th.key == k then 1 else 0)
            && s'.checks == (if th.pc.Deciding? then Snoc(s.checks, TB.Check(s.clock, th.key)) else s.checks)
            && s'.threads == s.threads[t := th.(pc := NextPc(cfg, s, t, addr))]
  {
    assert PointsHome(s.threads[t], s.table);
  }

  lemma ExecCounted(cfg: TB.Plan, s: State, t: Tid, addr: BucketId, k: string)
    requires TB.Sane(cfg(k)) && Sequential(cfg, s, k) && Counted(cfg(k), s, k)
    requires t in s.threads && Enabled(s, t) && addr !in s.contents
    ensures Counted(cfg(k), Exec(cfg, s, t, addr), k)
  {
    var th := s.threads[t];
    var th' := th.(pc := NextPc(cfg, s, t, addr));
    OwingAfter(s.threads, t, th', k);
    ExecBooks(cfg, s, t, addr, k);
    if th.pc.Deciding? && th.key == k {
      DecisionIsSequential(cfg, s, t, th.pc.b);
    }
  }

  lemma CountedStep(cfg: TB.Plan, s: State, a: Action, k: string)
    requires TB.Sane(cfg(k)) && Sequential(cfg, s, k) && Counted(cfg(k), s, k)
    ensures Counted(cfg(k), Act(cfg, s, a), k)
  {
    if a.Run? && a.t in s.threads && Enabled(s, a.t) && a.addr !in s.contents {
      ExecCounted(cfg, s, a.t, a.addr, k);
    } else if a.Spawn? && a.t !in s.threads {
      OwingAfter(s.threads, a.t, Thread(a.key, if a.reader then WantRead else Start), k);
    }
  }

  /** In every reachable state overages[k] plus the threads between decision and increment is
      the number of BURST decisions for `k`. */
  lemma {:induction false} OveragesAreNeverLost(cfg: TB.Plan, acts: Trace<Action>, k: string)
    requires TB.Sane(cfg(k))
    ensures Counted(cfg(k), After(cfg, acts), k)
  {
    if acts.Snoc? {
      OveragesAreNeverLost(cfg, acts.init, k);
      AlwaysSequential(cfg, acts.init, k);
      CountedStep(cfg, After(cfg, acts.init), acts.last, k);
    } else {
      assert Owing(map[], k) == {};
    }
  }
}
