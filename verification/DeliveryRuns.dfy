/** internal/webhook/engine.go: whole runs of the engine, with any number of workers and
    deliveries under way. */
module DeliveryRuns {
  import opened Traces
  import opened Options
  import opened Text
  import opened Delivery
  import DL = DeadLetter

  /** A task is known by the event it came from, counted in order of acceptance, and its sink. */
  datatype Key = Key(event: nat, sink: string)

  /** `accepted` holds every event the channel has ever taken in; the first `taken` of them have
      left it again. */
  datatype State = State(
    accepted: seq<DL.Event>, taken: nat, published: nat, dropped: nat, tasks: map<Key, Task>, dead: map<Key, DL.Item>)
  {
    ghost predicate Sound() { taken <= |accepted| }
    function Queue(): seq<DL.Event> requires Sound() { accepted[taken..] }
  }

  const Init := State([], 0, 0, 0, map[], map[])

  datatype Action =
    | Publish(event: DL.Event)
    | Take                                          // a worker takes the next event
    | Drive(key: Key, input: Input, suffix: string) // one round of one delivery

  function PublishStep(s: State, e: DL.Event): State
    requires s.Sound()
  {
    if |s.Queue()| < CAPACITY then s.(accepted := s.accepted + [e], published := s.published + 1)
    else s.(dropped := s.dropped + 1, published := s.published + 1)
  }

  function Spawned(c: Config, n: nat, e: DL.Event): map<Key, Task> {
    map k | k in (set sink | sink in c.sinks && Eligible(c, e, sink) :: Key(n, sink)) :: TaskFor(c, e, k.sink)
  }

  function DriveStep(c: Config, s: State, k: Key, i: Input, suffix: string): State
    requires k in s.tasks
  {
    var was := s.tasks[k].progress;
    var t := s.tasks[k].(progress := Next(c.Retries(), was, i));
    s.(tasks := s.tasks[k := t],
       dead := if was.end.Running? && t.progress.end.DeadLettered? then s.dead[k := ItemOf(c, t, suffix)] else s.dead)
  }

  function Act(c: Config, s: State, a: Action): State
    requires s.Sound()
  {
    match a
    case Publish(e) => PublishStep(s, e)
    case Take =>
      if s.taken == |s.accepted| then s
      else s.(taken := s.taken + 1, tasks := s.tasks + Spawned(c, s.taken, s.accepted[s.taken]))
    case Drive(k, i, suffix) => if k in s.tasks then DriveStep(c, s, k, i, suffix) else s
  }

  function After(c: Config, run: Trace<Action>): (s: State)
    ensures s.Sound()
  {
    match run
    case Nil => Init
    case Snoc(past, a) => Act(c, After(c, past), a)
  }

  /** The channel is a queue of at most 5000 events: a published event goes to its end, or is dropped
      exactly when it is full; a worker takes the one at its front. */
  lemma QueueExactly(c: Config, s: State, e: DL.Event)
    requires s.Sound()
    ensures var s' := Act(c, s, Publish(e));
            if |s.Queue()| < 5000 then s'.Queue() == s.Queue() + [e] && s'.dropped == s.dropped
            else s'.Queue() == s.Queue() && s'.dropped == s.dropped + 1
    ensures var s' := Act(c, s, Take);
            if s.Queue() == [] then s' == s
            else s'.Queue() == s.Queue()[1..] && s.accepted[s.taken] == s.Queue()[0] && s'.taken == s.taken + 1
  {}

  ghost predicate EventsOk(s: State)
    requires s.Sound()
  {
    s.published == s.dropped + |s.Queue()| + s.taken && |s.Queue()| <= CAPACITY
  }

  lemma EventsStep(c: Config, s: State, a: Action)
    requires s.Sound() && EventsOk(s)
    ensures EventsOk(Act(c, s, a))
  {}

  /** Each event published was dropped, is still queued or has been taken, and the channel never
      holds more than its capacity. */
  lemma {:induction false} EventsAreConserved(c: Config, run: Trace<Action>)
    ensures EventsOk(After(c, run))
  {
    if run.Snoc? {
      EventsAreConserved(c, run.init);
      EventsStep(c, After(c, run.init), run.last);
    }
  }

  /** A delivery belongs to the event and sink it is filed under. */
  ghost predicate Filed(c: Config, s: State, k: Key) {
    && k in s.tasks && k.event < s.taken <= |s.accepted|
    && s.tasks[k].event == s.accepted[k.event] && s.tasks[k].sink == k.sink
    && k.sink in c.sinks && s.tasks[k].endpoint == c.sinks[k.sink].endpoint
    && Some(s.tasks[k].payload) == c.adapt(k.sink, s.accepted[k.event])
  }

  ghost predicate Due(c: Config, s: State, k: Key) {
    k.event < s.taken <= |s.accepted| && Eligible(c, s.accepted[k.event], k.sink)
  }

  ghost predicate TasksOk(c: Config, s: State, k: Key) {
    && (k in s.tasks <==> Due(c, s, k))
    && (k in s.tasks ==> Filed(c, s, k) && ProgressOk(c.Retries(), s.tasks[k].progress))
  }

  lemma PublishTasks(c: Config, s: State, e: DL.Event, k: Key)
    requires s.Sound() && TasksOk(c, s, k)
    ensures TasksOk(c, PublishStep(s, e), k)
  {
    if k.event < s.taken { assert PublishStep(s, e).accepted[k.event] == s.accepted[k.event]; }
  }

  lemma SpawnedTasks(c: Config, n: nat, e: DL.Event, k: Key)
    ensures k in Spawned(c, n, e) <==> k.event == n && Eligible(c, e, k.sink)
    ensures k in Spawned(c, n, e) ==> Spawned(c, n, e)[k] == TaskFor(c, e, k.sink)
  {
    if k.event == n && Eligible(c, e, k.sink) { assert k == Key(n, k.sink); }
  }

  lemma TakeTasks(c: Config, s: State, k: Key)
    requires s.Sound() && TasksOk(c, s, k)
    ensures TasksOk(c, Act(c, s, Take), k)
  {
    if s.taken < |s.accepted| { SpawnedTasks(c, s.taken, s.accepted[s.taken], k); }
  }

  lemma DriveTasks(c: Config, s: State, k': Key, i: Input, suffix: string, k: Key)
    requires s.Sound() && TasksOk(c, s, k) && k' in s.tasks
    ensures TasksOk(c, DriveStep(c, s, k', i, suffix), k)
  {
    if k == k' { NextOk(c.Retries(), s.tasks[k].progress, i); }
  }

  /** There is exactly one task for every event taken and every sink eligible for it, and each is
      in a lawful state. */
  lemma {:induction false} OneTaskPerEventAndSink(c: Config, run: Trace<Action>, k: Key)
    ensures TasksOk(c, After(c, run), k)
  {
    if run.Snoc? {
      OneTaskPerEventAndSink(c, run.init, k);
      var s := After(c, run.init);
      match run.last
      case Publish(e) => PublishTasks(c, s, e, k);
      case Take => TakeTasks(c, s, k);
      case Drive(k', i, suffix) => if k' in s.tasks { DriveTasks(c, s, k', i, suffix, k); }
    }
  }

  /** In full: a task for every event taken and every sink that is enabled, has an endpoint and can
      render the event, and for no other. */
  lemma TasksExactly(c: Config, run: Trace<Action>, k: Key)
    ensures var s := After(c, run);
            k in s.tasks <==>
              && k.event < s.taken && k.sink in c.sinks
              && c.sinks[k.sink].enabled && c.sinks[k.sink].endpoint != ""
              && c.adapt(k.sink, s.accepted[k.event]).Some?
  {
    OneTaskPerEventAndSink(c, run, k);
  }

  /** An item is dead-lettered for a task exactly when it ended so, and then it carries the
      delivery's event, the number of attempts and the last error. */
  ghost predicate DeadOk(c: Config, s: State, k: Key) {
    && (k in s.dead <==> k in s.tasks && s.tasks[k].progress.end.DeadLettered?)
    && (k in s.dead ==>
          && s.dead[k].event == s.tasks[k].event && s.dead[k].sinkType == s.tasks[k].sink
          && s.dead[k].targetURL == s.tasks[k].endpoint && s.dead[k].payload == s.tasks[k].payload
          && s.dead[k].secret == MASTER_SECRET
          && HasPrefix(s.dead[k].id, "dlq_" + s.tasks[k].event.eventId + "_")
          && s.dead[k].retryCount == c.Retries().max && Some(s.dead[k].lastError) == s.tasks[k].progress.lastError)
  }

  lemma DeadStep(c: Config, s: State, a: Action, k: Key)
    requires s.Sound() && TasksOk(c, s, k) && DeadOk(c, s, k)
    ensures DeadOk(c, Act(c, s, a), k)
  {
    if a.Take? && s.taken < |s.accepted| { SpawnedTasks(c, s.taken, s.accepted[s.taken], k); }
  }

  lemma {:induction false} DeadLettersMatchTasks(c: Config, run: Trace<Action>, k: Key)
    ensures DeadOk(c, After(c, run), k)
  {
    if run.Snoc? {
      DeadLettersMatchTasks(c, run.init, k);
      OneTaskPerEventAndSink(c, run.init, k);
      DeadStep(c, After(c, run.init), run.last, k);
    }
  }

  lemma EndedStep(c: Config, s: State, a: Action, k: Key)
    requires s.Sound() && TasksOk(c, s, k) && k in s.tasks && !s.tasks[k].progress.end.Running?
    ensures k in Act(c, s, a).tasks && Act(c, s, a).tasks[k] == s.tasks[k]
  {
    if a.Take? && s.taken < |s.accepted| { SpawnedTasks(c, s.taken, s.accepted[s.taken], k); }
  }

  /** A task that has ended stays as it is for the rest of every run. */
  lemma {:induction false} EndsOnce(c: Config, past: Trace<Action>, run: Trace<Action>, k: Key)
    requires Prefix(past, run) && k in After(c, past).tasks && !After(c, past).tasks[k].progress.end.Running?
    ensures k in After(c, run).tasks && After(c, run).tasks[k] == After(c, past).tasks[k]
  {
    if past != run {
      EndsOnce(c, past, run.init, k);
      OneTaskPerEventAndSink(c, run.init, k);
      EndedStep(c, After(c, run.init), run.last, k);
    }
  }

  function Ended(tasks: map<Key, Task>, end: End): set<Key> { set k | k in tasks && tasks[k].progress.end == end }

  lemma EveryTaskHasOneEnd(tasks: map<Key, Task>)
    ensures |tasks| == |Ended(tasks, Running)| + |Ended(tasks, Delivered)| + |Ended(tasks, Cancelled)|
                       + |Ended(tasks, DeadLettered)|
  {
    var ab := Ended(tasks, Running) + Ended(tasks, Delivered);
    var abc := ab + Ended(tasks, Cancelled);
    assert Ended(tasks, Running) !! Ended(tasks, Delivered);
    assert ab !! Ended(tasks, Cancelled);
    assert abc !! Ended(tasks, DeadLettered);
    assert tasks.Keys == abc + Ended(tasks, DeadLettered);
  }

  /** The ledger: every task is delivered, cancelled, dead-lettered or still running, and the
      dead-lettered ones are those in the dead-letter queue. */
  lemma TasksAreConserved(c: Config, run: Trace<Action>)
    ensures var s := After(c, run);
            && s.dead.Keys == Ended(s.tasks, DeadLettered)
            && |s.tasks|
               == |Ended(s.tasks, Running)| + |Ended(s.tasks, Delivered)| + |Ended(s.tasks, Cancelled)| + |s.dead|
  {
    var s := After(c, run);
    forall k ensures k in s.dead.Keys <==> k in Ended(s.tasks, DeadLettered) {
      DeadLettersMatchTasks(c, run, k);
      assert DeadOk(c, s, k);
    }
    EveryTaskHasOneEnd(s.tasks);
  }
}
