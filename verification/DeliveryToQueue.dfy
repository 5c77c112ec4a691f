/** internal/webhook: the engine and the dead-letter queue together. Deliveries that end
    dead-lettered are enqueued, operators retry, and the process restarts; on starting it loads
    the stream, if it can be read. */
module DeliveryToQueue {
  import opened Options
  import opened Text
  import opened Traces
  import opened Delivery
  import DR = DeliveryRuns
  import DL = DeadLetter

  datatype Action =
    | Engine(step: DR.Action, persisted: bool)   // `persisted`: whether a dead letter reached the stream
    | Retry(id: string, now: int64, outcome: DL.Outcome)
    | Restart(reached: bool)

  function EngineRun(run: Trace<Action>): Trace<DR.Action> {
    match run
    case Nil => Nil
    case Snoc(past, a) => if a.Engine? then Snoc(EngineRun(past), a.step) else EngineRun(past)
  }

  function EngineAfter(c: Config, run: Trace<Action>): (s: DR.State)
    ensures s.Sound()
  {
    DR.After(c, EngineRun(run))
  }

  /** The step ends a delivery as dead-lettered. */
  predicate DeadLetters(c: Config, s: DR.State, a: DR.Action) {
    && a.Drive? && a.key in s.tasks && s.tasks[a.key].progress.end.Running?
    && Next(c.Retries(), s.tasks[a.key].progress, a.input).end.DeadLettered?
  }

  /** What the queue is told. */
  function QueueOps(c: Config, run: Trace<Action>): Trace<DL.Op> {
    match run
    case Nil => Nil
    case Snoc(past, Engine(a, persisted)) =>
      var s := EngineAfter(c, past);
      if DeadLetters(c, s, a) then Snoc(QueueOps(c, past), DL.Enqueue(DR.Act(c, s, a).dead[a.key], persisted))
      else QueueOps(c, past)
    case Snoc(past, Retry(id, now, outcome)) => Snoc(QueueOps(c, past), DL.Op.Retry(id, now, outcome))
    case Snoc(past, Restart(reached)) =>
      var ops := Snoc(QueueOps(c, past), DL.Op.Crash);
      if reached then Snoc(ops, DL.Op.Reload) else ops
  }

  function QueueAfter(c: Config, run: Trace<Action>): DL.State { DL.After(c.adapt, QueueOps(c, run)) }

  // ---------- Every dead letter is enqueued ----------

  /** Dead letters are only ever added, one per step that dead-letters. */
  lemma DeadGrows(c: Config, s: DR.State, a: DR.Action, k: DR.Key)
    requires s.Sound() && DR.DeadOk(c, s, k)
    ensures var s' := DR.Act(c, s, a);
            && (k in s.dead ==> k in s'.dead && s'.dead[k] == s.dead[k])
            && (k in s'.dead && k !in s.dead ==> DeadLetters(c, s, a) && a.key == k)
  {}

  lemma {:induction false} DeadLettersAreEnqueued(c: Config, run: Trace<Action>, k: DR.Key)
    requires k in EngineAfter(c, run).dead
    ensures DL.WasEnqueued(QueueOps(c, run), EngineAfter(c, run).dead[k].id)
  {
    var a, s := run.last, EngineAfter(c, run.init);
    if a.Engine? {
      DR.DeadLettersMatchTasks(c, EngineRun(run.init), k);
      DeadGrows(c, s, a.step, k);
      if k in s.dead { DeadLettersAreEnqueued(c, run.init, k); }
    } else {
      DeadLettersAreEnqueued(c, run.init, k);
    }
  }

  ghost predicate NoRestart(run: Trace<Action>) { run.Snoc? ==> NoRestart(run.init) && !run.last.Restart? }

  lemma {:induction false} NeverCrashes(c: Config, run: Trace<Action>)
    requires NoRestart(run)
    ensures DL.NoCrash(QueueOps(c, run)) && DL.NoReload(QueueOps(c, run))
  {
    if run.Snoc? { NeverCrashes(c, run.init); }
  }

  // ---------- And nothing else is pending ----------

  /** The same letter, whatever retries have written on it. */
  predicate SameLetter(x: DL.Item, y: DL.Item) {
    && x.id == y.id && x.sinkType == y.sinkType && x.targetURL == y.targetURL && x.secret == y.secret
    && x.event.eventId == y.event.eventId && x.event.content == y.event.content
  }

  ghost predicate FromDead(dead: map<DR.Key, DL.Item>, x: DL.Item) {
    exists k :: k in dead && SameLetter(x, dead[k])
  }

  ghost predicate QueueOk(dead: map<DR.Key, DL.Item>, q: DL.State) {
    && (forall id :: id in q.mem ==> q.mem[id].id == id && FromDead(dead, q.mem[id]))
    && (forall x :: DL.Persisted(q.stream, x) ==> FromDead(dead, x))
  }

  lemma MoreDead(dead: map<DR.Key, DL.Item>, dead': map<DR.Key, DL.Item>, q: DL.State)
    requires QueueOk(dead, q) && forall k :: k in dead ==> k in dead' && dead'[k] == dead[k]
    ensures QueueOk(dead', q)
  {
    forall x | FromDead(dead, x) ensures FromDead(dead', x) {
      var k :| k in dead && SameLetter(x, dead[k]);
      assert k in dead' && SameLetter(x, dead'[k]);
    }
  }

  lemma EnqueueOk(adapt: DL.Adapter, dead: map<DR.Key, DL.Item>, q: DL.State, k: DR.Key, persisted: bool)
    requires QueueOk(dead, q) && k in dead
    ensures QueueOk(dead, DL.Step(adapt, q, DL.Enqueue(dead[k], persisted)))
  {
    assert SameLetter(dead[k], dead[k]);
  }

  lemma RetryOk(adapt: DL.Adapter, dead: map<DR.Key, DL.Item>, q: DL.State, id: string, now: int64, outcome: DL.Outcome)
    requires QueueOk(dead, q)
    ensures QueueOk(dead, DL.Step(adapt, q, DL.Op.Retry(id, now, outcome)))
  {
    var q' := DL.Step(adapt, q, DL.Op.Retry(id, now, outcome));
    if id in q.mem && id in q'.mem {
      var k :| k in dead && SameLetter(q.mem[id], dead[k]);
      assert SameLetter(q'.mem[id], dead[k]);
    }
  }

  lemma ReloadOk(adapt: DL.Adapter, dead: map<DR.Key, DL.Item>, q: DL.State)
    requires QueueOk(dead, q)
    ensures QueueOk(dead, DL.Step(adapt, q, DL.Op.Reload))
  {
    var q' := DL.Step(adapt, q, DL.Op.Reload);
    forall id | id in q'.mem ensures q'.mem[id].id == id && FromDead(dead, q'.mem[id]) {
      DL.LoadRestores(q.mem, q.stream, |q.stream|, id);
      if DL.Mentions(q.stream, |q.stream|, id) { assert DL.Persisted(q.stream, q'.mem[id]); }
    }
  }

  lemma {:induction false} QueueAlwaysOk(c: Config, run: Trace<Action>)
    ensures QueueOk(EngineAfter(c, run).dead, QueueAfter(c, run))
  {
    if run.Snoc? {
      QueueAlwaysOk(c, run.init);
      var s, q := EngineAfter(c, run.init), QueueAfter(c, run.init);
      match run.last
      case Engine(a, persisted) =>
        var dead' := DR.Act(c, s, a).dead;
        forall k | k in s.dead ensures k in dead' && dead'[k] == s.dead[k] {
          DR.DeadLettersMatchTasks(c, EngineRun(run.init), k);
          DeadGrows(c, s, a, k);
        }
        MoreDead(s.dead, dead', q);
        if DeadLetters(c, s, a) { EnqueueOk(c.adapt, dead', q, a.key, persisted); }
      case Retry(id, now, outcome) => RetryOk(c.adapt, s.dead, q, id, now, outcome);
      case Restart(reached) =>
        var ops := QueueOps(c, run.init);
        var crashed := DL.After(c.adapt, Snoc(ops, DL.Op.Crash));
        assert crashed == DL.Step(c.adapt, q, DL.Op.Crash) && QueueOk(s.dead, crashed);
        ReloadOk(c.adapt, s.dead, crashed);
        assert QueueAfter(c, run) == if reached then DL.Step(c.adapt, crashed, DL.Op.Reload) else crashed;
    }
  }

  // ---------- End to end ----------

  /** No two deliveries drew the same random suffix for the same event. */
  ghost predicate UniqueIds(dead: map<DR.Key, DL.Item>) {
    forall k, k' :: k in dead && k' in dead && dead[k].id == dead[k'].id ==> k == k'
  }

  /** The process has restarted since this delivery was dead-lettered. */
  ghost predicate RestartedSince(c: Config, run: Trace<Action>, k: DR.Key) {
    run.Snoc? && (RestartedSince(c, run.init, k) || (run.last.Restart? && k in EngineAfter(c, run.init).dead))
  }

  /** The last restart, if any, could read the stream. */
  predicate LastReached(run: Trace<Action>) {
    run.Snoc? ==> if run.last.Restart? then run.last.reached else LastReached(run.init)
  }

  /** The letter is gone with a restart: it never reached the stream, or the stream was not read. */
  ghost predicate Forgotten(c: Config, run: Trace<Action>, k: DR.Key, id: string) {
    RestartedSince(c, run, k) && !(LastReached(run) && DL.IdWasPersisted(QueueOps(c, run), id))
  }

  lemma EnqueuedIsPending(adapt: DL.Adapter, ops: Trace<DL.Op>, item: DL.Item, persisted: bool)
    ensures item.id in DL.After(adapt, Snoc(ops, DL.Enqueue(item, persisted))).mem
  {}

  lemma PersistedLater(ops: Trace<DL.Op>, op: DL.Op, id: string)
    requires !(op.Enqueue? && op.item.id == id)
    ensures DL.IdWasPersisted(Snoc(ops, op), id) <==> DL.IdWasPersisted(ops, id)
  {
    forall x: DL.Item | x.id == id ensures DL.WasPersisted(Snoc(ops, op), x) <==> DL.WasPersisted(ops, x) {}
    if DL.IdWasPersisted(ops, id) {
      var x :| DL.WasPersisted(ops, x) && x.id == id;
      assert DL.WasPersisted(Snoc(ops, op), x);
    }
    if DL.IdWasPersisted(Snoc(ops, op), id) {
      var x :| DL.WasPersisted(Snoc(ops, op), x) && x.id == id;
      assert DL.WasPersisted(ops, x);
    }
  }

  /** Pending, or delivered since it was enqueued. */
  ghost predicate Settled(adapt: DL.Adapter, ops: Trace<DL.Op>, id: string) {
    id in DL.After(adapt, ops).mem || DL.ClearedSince(adapt, ops, id)
  }

  lemma OpKeepsSettled(adapt: DL.Adapter, ops: Trace<DL.Op>, op: DL.Op, id: string)
    requires Settled(adapt, ops, id) && !op.Crash?
    ensures Settled(adapt, Snoc(ops, op), id)
  {
    if id in DL.After(adapt, ops).mem { DL.LeavesOnlyDelivered(adapt, DL.After(adapt, ops), op, id); }
  }

  lemma RestartSettles(adapt: DL.Adapter, ops: Trace<DL.Op>, id: string)
    requires DL.IdWasPersisted(ops, id)
    ensures Settled(adapt, Snoc(Snoc(ops, DL.Op.Crash), DL.Op.Reload), id)
  {
    DL.RestartRestores(adapt, ops, id);
  }

  /** One step of the run, for a letter that was there before it. */
  lemma StepAccounts(c: Config, past: Trace<Action>, a: Action, k: DR.Key, id: string)
    requires k in EngineAfter(c, past).dead
    requires Settled(c.adapt, QueueOps(c, past), id) || Forgotten(c, past, k, id)
    ensures Settled(c.adapt, QueueOps(c, Snoc(past, a)), id) || Forgotten(c, Snoc(past, a), k, id)
  {
    var ops, ops' := QueueOps(c, past), QueueOps(c, Snoc(past, a));
    if a.Restart? {
      PersistedLater(ops, DL.Op.Crash, id);
      PersistedLater(Snoc(ops, DL.Op.Crash), DL.Op.Reload, id);
      if a.reached && DL.IdWasPersisted(ops, id) { RestartSettles(c.adapt, ops, id); }
    } else if ops'.Snoc? && ops'.init == ops && ops' != ops {
      if ops'.last.Enqueue? && ops'.last.item.id == id {
        EnqueuedIsPending(c.adapt, ops, ops'.last.item, ops'.last.persisted);
      } else {
        PersistedLater(ops, ops'.last, id);
        if Settled(c.adapt, ops, id) { OpKeepsSettled(c.adapt, ops, ops'.last, id); }
      }
    }
  }

  lemma {:induction false} LetterIsAccountedFor(c: Config, run: Trace<Action>, k: DR.Key)
    requires k in EngineAfter(c, run).dead
    ensures var id := EngineAfter(c, run).dead[k].id;
            Settled(c.adapt, QueueOps(c, run), id) || Forgotten(c, run, k, id)
  {
    var a, s := run.last, EngineAfter(c, run.init);
    DR.DeadLettersMatchTasks(c, EngineRun(run.init), k);
    if a.Engine? { DeadGrows(c, s, a.step, k); }
    if k in s.dead {
      LetterIsAccountedFor(c, run.init, k);
      StepAccounts(c, run.init, a, k, s.dead[k].id);
    } else {
      EnqueuedIsPending(c.adapt, QueueOps(c, run.init), EngineAfter(c, run).dead[k], a.persisted);
    }
  }

  /** From the event to the queue, over every run: a delivery that ended dead-lettered is pending as
      its own letter, or a retry of it has got a 2xx, or the process has restarted since and the
      letter was not in the stream or the stream could not be read. Without a restart exactly one
      of the first two holds. */
  lemma DeadLetterUntilDelivered(c: Config, run: Trace<Action>, k: DR.Key)
    requires k in EngineAfter(c, run).dead && UniqueIds(EngineAfter(c, run).dead)
    ensures var letter, mem := EngineAfter(c, run).dead[k], QueueAfter(c, run).mem;
            || (letter.id in mem && SameLetter(mem[letter.id], letter))
            || DL.ClearedSince(c.adapt, QueueOps(c, run), letter.id)
            || Forgotten(c, run, k, letter.id)
    ensures var letter, mem := EngineAfter(c, run).dead[k], QueueAfter(c, run).mem;
            NoRestart(run) ==> (letter.id in mem <==> !DL.ClearedSince(c.adapt, QueueOps(c, run), letter.id))
  {
    var dead, mem := EngineAfter(c, run).dead, QueueAfter(c, run).mem;
    var id := dead[k].id;
    LetterIsAccountedFor(c, run, k);
    if NoRestart(run) {
      DeadLettersAreEnqueued(c, run, k);
      NeverCrashes(c, run);
      DL.PendingExactly(c.adapt, QueueOps(c, run), id);
    }
    QueueAlwaysOk(c, run);
    if id in mem {
      var k' :| k' in dead && SameLetter(mem[id], dead[k']);
      assert k' == k;
    }
  }

  /** And whatever is pending is the letter of a delivery that ended dead-lettered. */
  lemma PendingComesFromADelivery(c: Config, run: Trace<Action>, id: string) returns (k: DR.Key)
    requires id in QueueAfter(c, run).mem
    ensures var s := EngineAfter(c, run);
            && k in s.dead && SameLetter(QueueAfter(c, run).mem[id], s.dead[k])
            && k in s.tasks && s.tasks[k].progress.end.DeadLettered?
  {
    QueueAlwaysOk(c, run);
    k :| k in EngineAfter(c, run).dead && SameLetter(QueueAfter(c, run).mem[id], EngineAfter(c, run).dead[k]);
    DR.DeadLettersMatchTasks(c, EngineRun(run), k);
  }
}
