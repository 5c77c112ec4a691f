/** internal/webhook/dlq.go: the dead-letter queue, a map in memory and an append-only stream. */
module DeadLetter {
  import opened Traces
  import opened Options
  import opened Text
  import Signature

  datatype Event = Event(eventId: string, timestamp: int64, content: string)

  datatype Item = Item(
    id: string, event: Event, sinkType: string, targetURL: string, secret: seq<byte>, retryCount: int,
    lastError: string, payload: seq<byte>)

  /** How a sink's adapter renders an event, if it can. */
  type Adapter = (string, Event) -> Option<seq<byte>>

  /** What sending a request comes to. */
  datatype Outcome = BuildError(message: string) | NetError(message: string) | Status(code: int, body: string) {
    predicate Delivered() { Status? && 200 <= code < 300 }
  }

  /** A stream message, as far as it decodes to an item. */
  type Message = Option<Item>

  type Items = map<string, Item>

  // ---------- Loading ----------

  /** Memory after the first `n` messages have been put into it. */
  function Loaded(mem: Items, stream: seq<Message>, n: nat): Items
    requires n <= |stream|
  {
    if n == 0 then mem
    else
      var m := Loaded(mem, stream, n - 1);
      if stream[n - 1].Some? then m[stream[n - 1].value.id := stream[n - 1].value] else m
  }

  ghost predicate Persisted(stream: seq<Message>, item: Item) { Some(item) in stream }

  /** `item` is the last thing the stream says about its id. */
  ghost predicate LastPersisted(stream: seq<Message>, n: nat, item: Item)
    requires n <= |stream|
  {
    exists i :: 0 <= i < n && stream[i] == Some(item)
                && forall j :: i < j < n && stream[j].Some? ==> stream[j].value.id != item.id
  }

  ghost predicate Mentions(stream: seq<Message>, n: nat, id: string)
    requires n <= |stream|
  {
    exists i :: 0 <= i < n && stream[i].Some? && stream[i].value.id == id
  }

  /** After a reload an id is pending if it was pending or is anywhere in the stream; an id in the
      stream comes back as it was last persisted, any other item is left alone. */
  lemma {:induction false} LoadRestores(mem: Items, stream: seq<Message>, n: nat, id: string)
    requires n <= |stream|
    ensures id in Loaded(mem, stream, n) <==> id in mem || Mentions(stream, n, id)
    ensures Mentions(stream, n, id) ==>
              Loaded(mem, stream, n)[id].id == id && LastPersisted(stream, n, Loaded(mem, stream, n)[id])
    ensures id in mem && !Mentions(stream, n, id) ==> Loaded(mem, stream, n)[id] == mem[id]
  {
    if n > 0 {
      LoadRestores(mem, stream, n - 1, id);
      var last := stream[n - 1];
      if last.Some? && last.value.id == id {
        assert LastPersisted(stream, n, last.value);
      } else if Mentions(stream, n - 1, id) {
        var item := Loaded(mem, stream, n - 1)[id];
        assert LastPersisted(stream, n - 1, item);
      }
    }
  }

  // ---------- Retrying ----------

  datatype Retried = NotFound | AdaptFailed | BuildFailed | NetFailed | HttpFailed(code: int) | Cleared

  /** What goes over the wire. */
  datatype Sent = Sent(payload: seq<byte>, signature: string)

  const DEFAULT_SECRET := Signature.Bytes("aegis_default_webhook_secret")

  function SecretOf(item: Item): seq<byte> { if |item.secret| == 0 then DEFAULT_SECRET else item.secret }

  /** The item with a new timestamp and, if its sink can render it, a new payload. */
  function ReSigned(item: Item, now: int64, adapt: Adapter): Item {
    var event := item.event.(timestamp := now);
    match adapt(item.sinkType, event)
    case None => item.(event := event)
    case Some(payload) => item.(event := event, payload := payload)
  }

  function HttpError(code: int, body: string): string { "HTTP " + PrintInt(code) + ": " + body }

  /** The items after a retry of `id`. */
  function AfterRetry(mem: Items, id: string, now: int64, adapt: Adapter, outcome: Outcome): Items {
    if id !in mem then mem
    else
      var item := ReSigned(mem[id], now, adapt);
      if adapt(item.sinkType, item.event).None? then mem[id := item]
      else
        match outcome
        case BuildError(_) => mem[id := item]
        case NetError(e) =>
          mem[id := item.(lastError := "retry network error: " + e, retryCount := item.retryCount + 1)]
        case Status(code, body) =>
          if 200 <= code < 300 then mem - {id}
          else mem[id := item.(lastError := HttpError(code, body), retryCount := item.retryCount + 1)]
  }

  /** The event as a retry at `now` sends it, rendered anew by the item's sink, if it can be. */
  function Rendered(item: Item, now: int64, adapt: Adapter): Option<seq<byte>> {
    adapt(item.sinkType, item.event.(timestamp := now))
  }

  /** The sink refused the request, or could not be reached. */
  predicate Refused(outcome: Outcome) {
    outcome.NetError? || (outcome.Status? && !(200 <= outcome.code < 300))
  }

  /** What a retry leaves of the items: every other one as it was; this one gone exactly if it was
      rendered and answered with a 2xx; and otherwise with the new timestamp, with the payload just
      rendered, and with one more retry and the new error exactly if it was sent and refused. */
  lemma RetryExactly(mem: Items, id: string, now: int64, adapt: Adapter, outcome: Outcome)
    ensures var mem' := AfterRetry(mem, id, now, adapt, outcome);
            && mem' - {id} == mem - {id}
            && (id !in mem ==> id !in mem')
            && (id in mem ==>
                  var was, rendered := mem[id], Rendered(mem[id], now, adapt);
                  && (id !in mem' <==> rendered.Some? && outcome.Status? && 200 <= outcome.code < 300)
                  && (id in mem' ==>
                        var item := mem'[id];
                        && item.id == was.id && item.sinkType == was.sinkType
                        && item.targetURL == was.targetURL && item.secret == was.secret
                        && item.event == was.event.(timestamp := now)
                        && item.payload == (if rendered.Some? then rendered.value else was.payload)
                        && (rendered.Some? && Refused(outcome) ==>
                              && item.retryCount == was.retryCount + 1
                              && item.lastError ==
                                 if outcome.NetError? then "retry network error: " + outcome.message
                                 else "HTTP " + PrintInt(outcome.code) + ": " + outcome.body)
                        && (!(rendered.Some? && Refused(outcome)) ==>
                              item.retryCount == was.retryCount && item.lastError == was.lastError)))
  {
    var mem' := AfterRetry(mem, id, now, adapt, outcome);
    assert forall i :: i in mem && i != id ==> i in mem' && mem'[i] == mem[i];
  }

  class RedisStream {
    var entries: seq<Message>

    constructor ()
      ensures entries == []
    {
      entries := [];
    }
  }

  class DLQManager {
    const stream: RedisStream
    var inMemory: Items

    constructor (stream: RedisStream)
      ensures this.stream == stream && inMemory == map[]
    {
      this.stream, inMemory := stream, map[];
    }

    /** `reached` says whether the stream could be read. */
    method LoadFromRedis(reached: bool)
      modifies this
      ensures inMemory == if reached then Loaded(old(inMemory), stream.entries, |stream.entries|) else old(inMemory)
    {
      if !reached {
        return;
      }
      var msgs := stream.entries;
      for i := 0 to |msgs|
        invariant msgs == stream.entries && inMemory == Loaded(old(inMemory), msgs, i)
      {
        if msgs[i].Some? {
          var item := msgs[i].value;
          inMemory := inMemory[item.id := item];
        }
      }
    }

    /** The item is kept in memory whether or not it could be persisted. */
    method Enqueue(item: Item, persisted: bool)
      modifies this, stream
      ensures inMemory == old(inMemory)[item.id := item]
      ensures stream.entries == if persisted then old(stream.entries) + [Some(item)] else old(stream.entries)
    {
      inMemory := inMemory[item.id := item];
      if persisted {
        stream.entries := stream.entries + [Some(item)];
      }
    }

    method GetPendingCount() returns (n: nat)
      ensures n == |inMemory|
    {
      n := |inMemory|;
    }

    method ReSignAndRetry(mac: Signature.Mac, id: string, now: int64, adapt: Adapter, outcome: Outcome)
      returns (r: Retried, sent: Option<Sent>)
      modifies this
      ensures inMemory == AfterRetry(old(inMemory), id, now, adapt, outcome)
      ensures r.NotFound? <==> id !in old(inMemory)
      ensures r.Cleared? <==> id in old(inMemory) && id !in inMemory
      ensures r.NotFound? ==> sent.None?
      ensures id in old(inMemory) ==>
                var was := old(inMemory)[id];
                var rendered := adapt(was.sinkType, was.event.(timestamp := now));
                if rendered.None? then r.AdaptFailed? && sent.None?
                else
                  && (match outcome
                      case BuildError(_) => r.BuildFailed?
                      case NetError(_) => r.NetFailed?
                      case Status(code, _) => r == if 200 <= code < 300 then Cleared else HttpFailed(code))
                  && (sent.Some? <==> !outcome.BuildError?)
                  && (sent.Some? ==>
                        sent.value == Sent(rendered.value, Signature.Generate(mac, rendered.value, SecretOf(was), now)))
    {
      if id !in inMemory {
        return NotFound, None;
      }
      var item := inMemory[id];
      item := item.(event := item.event.(timestamp := now));
      var payload := adapt(item.sinkType, item.event);
      if payload.None? {
        inMemory := inMemory[id := item];
        return AdaptFailed, None;
      }
      item := item.(payload := payload.value);
      inMemory := inMemory[id := item];
      var secret := item.secret;
      if |secret| == 0 {
        secret := DEFAULT_SECRET;
      }
      var signature := Signature.Generate(mac, payload.value, secret, now);
      if outcome.BuildError? {
        return BuildFailed, None;
      }
      sent := Some(Sent(payload.value, signature));
      match outcome
      case NetError(e) =>
        inMemory := inMemory[id := item.(lastError := "retry network error: " + e, retryCount := item.retryCount + 1)];
        r := NetFailed;
      case Status(code, body) =>
        if 200 <= code < 300 {
          inMemory := inMemory - {id};
          r := Cleared;
        } else {
          inMemory := inMemory[id := item.(lastError := HttpError(code, body), retryCount := item.retryCount + 1)];
          r := HttpFailed(code);
        }
    }
  }

  /** The secret an item was queued with, or the default if it has none. */
  lemma SecretExactly(item: Item)
    ensures SecretOf(item) != [] && (item.secret != [] ==> SecretOf(item) == item.secret)
    ensures item.secret == [] ==> SecretOf(item) == Signature.Bytes("aegis_default_webhook_secret")
  {}

  /** What a retry sends passes its receiver's replay check for as long as a fresh message would,
      however long the item has been queued. */
  lemma RetryPassesReplayCheck(
    mac: Signature.Mac, item: Item, now: int64, adapt: Adapter, tolerance: int64, arrival: int64, clock: int64)
    requires 0 < now < 0x4000_0000_0000_0000 && 0 < arrival < 0x4000_0000_0000_0000
    ensures Rendered(item, now, adapt).Some? ==>
              var payload := Rendered(item, now, adapt).value;
              Signature.Verify(mac, payload, Signature.Generate(mac, payload, SecretOf(item), now), SecretOf(item),
                               tolerance, arrival, clock) == Signature.Ok
              <==> -10 <= arrival as int - now as int <= tolerance
  {
    if Rendered(item, now, adapt).Some? {
      Signature.RoundTripOnRealClocks(
        mac, Rendered(item, now, adapt).value, SecretOf(item), now, tolerance, arrival, clock);
    }
  }

  // ---------- Runs ----------

  datatype Op =
    | Enqueue(item: Item, persisted: bool)
    | Retry(id: string, now: int64, outcome: Outcome)
    | Reload
    | Crash                                    // the process restarts with nothing in memory

  datatype State = State(mem: Items, stream: seq<Message>)

  function Step(adapt: Adapter, s: State, op: Op): State {
    match op
    case Enqueue(item, persisted) =>
      State(s.mem[item.id := item], if persisted then s.stream + [Some(item)] else s.stream)
    case Retry(id, now, outcome) => s.(mem := AfterRetry(s.mem, id, now, adapt, outcome))
    case Reload => s.(mem := Loaded(s.mem, s.stream, |s.stream|))
    case Crash => s.(mem := map[])
  }

  function After(adapt: Adapter, ops: Trace<Op>): State {
    match ops
    case Nil => State(map[], [])
    case Snoc(past, op) => Step(adapt, After(adapt, past), op)
  }

  /** The one operation that clears an id: a retry of it that ends in a 2xx. */
  predicate Clears(adapt: Adapter, s: State, op: Op, id: string) {
    && op.Retry? && op.id == id && id in s.mem && op.outcome.Delivered()
    && adapt(s.mem[id].sinkType, s.mem[id].event.(timestamp := op.now)).Some?
  }

  /** Short of a crash, an item leaves the queue exactly when it has been delivered. */
  lemma LeavesOnlyDelivered(adapt: Adapter, s: State, op: Op, id: string)
    requires !op.Crash? && id in s.mem
    ensures id !in Step(adapt, s, op).mem <==> Clears(adapt, s, op, id)
  {
    if op.Reload? { LoadRestores(s.mem, s.stream, |s.stream|, id); }
  }

  /** Over whole runs without a crash: an id that was enqueued and is not pending has been
      delivered since it was last enqueued. */
  ghost predicate ClearedSince(adapt: Adapter, ops: Trace<Op>, id: string) {
    ops.Snoc? &&
      (Clears(adapt, After(adapt, ops.init), ops.last, id)
       || (ClearedSince(adapt, ops.init, id) && !(ops.last.Enqueue? && ops.last.item.id == id)))
  }

  ghost predicate WasEnqueued(ops: Trace<Op>, id: string) {
    ops.Snoc? && ((ops.last.Enqueue? && ops.last.item.id == id) || WasEnqueued(ops.init, id))
  }

  ghost predicate NoCrash(ops: Trace<Op>) { ops.Snoc? ==> NoCrash(ops.init) && !ops.last.Crash? }

  lemma {:induction false} NothingIsLost(adapt: Adapter, ops: Trace<Op>, id: string)
    requires NoCrash(ops) && WasEnqueued(ops, id)
    ensures id in After(adapt, ops).mem || ClearedSince(adapt, ops, id)
  {
    var s, op := After(adapt, ops.init), ops.last;
    if WasEnqueued(ops.init, id) {
      NothingIsLost(adapt, ops.init, id);
      if id in s.mem { LeavesOnlyDelivered(adapt, s, op, id); }
    }
  }

  ghost predicate NoReload(ops: Trace<Op>) { ops.Snoc? ==> NoReload(ops.init) && !ops.last.Reload? }

  /** With no reload either, pending is exactly: enqueued and not delivered since. */
  lemma {:induction false} PendingExactly(adapt: Adapter, ops: Trace<Op>, id: string)
    requires NoCrash(ops) && NoReload(ops)
    ensures id in After(adapt, ops).mem <==> WasEnqueued(ops, id) && !ClearedSince(adapt, ops, id)
    ensures ClearedSince(adapt, ops, id) ==> WasEnqueued(ops, id)
  {
    if ops.Snoc? {
      PendingExactly(adapt, ops.init, id);
      if id in After(adapt, ops.init).mem { LeavesOnlyDelivered(adapt, After(adapt, ops.init), ops.last, id); }
    }
  }

  /** Every item in the stream was enqueued with the persisted flag, and every item so enqueued
      is in the stream, whatever happened since. */
  ghost predicate WasPersisted(ops: Trace<Op>, item: Item) {
    ops.Snoc? && (ops.last == Enqueue(item, true) || WasPersisted(ops.init, item))
  }

  lemma {:induction false} StreamKeepsAll(adapt: Adapter, ops: Trace<Op>, item: Item)
    ensures Persisted(After(adapt, ops).stream, item) <==> WasPersisted(ops, item)
  {
    if ops.Snoc? { StreamKeepsAll(adapt, ops.init, item); }
  }

  ghost predicate IdWasPersisted(ops: Trace<Op>, id: string) {
    exists item: Item :: WasPersisted(ops, item) && item.id == id
  }

  /** A reload after any run: pending are exactly the ids pending before and the ids ever
      persisted, each of these as it was persisted. So no persisted item is lost, and the ones
      delivered since come back too. */
  lemma ReloadRestores(adapt: Adapter, ops: Trace<Op>, id: string)
    ensures var mem, mem' := After(adapt, ops).mem, After(adapt, Snoc(ops, Reload)).mem;
            && (id in mem' <==> id in mem || IdWasPersisted(ops, id))
            && (IdWasPersisted(ops, id) ==> mem'[id].id == id && WasPersisted(ops, mem'[id]))
  {
    var s := After(adapt, ops);
    var mem' := After(adapt, Snoc(ops, Reload)).mem;
    LoadRestores(s.mem, s.stream, |s.stream|, id);
    forall item: Item ensures Persisted(s.stream, item) <==> WasPersisted(ops, item) {
      StreamKeepsAll(adapt, ops, item);
    }
    if Mentions(s.stream, |s.stream|, id) { assert Persisted(s.stream, mem'[id]); }
    forall item: Item | WasPersisted(ops, item) && item.id == id ensures Mentions(s.stream, |s.stream|, id) {
      assert Persisted(s.stream, item);
      var i :| 0 <= i < |s.stream| && s.stream[i] == Some(item);
    }
  }

  /** After a crash and a reload exactly the ids ever persisted are pending. */
  lemma RestartRestores(adapt: Adapter, ops: Trace<Op>, id: string)
    ensures id in After(adapt, Snoc(Snoc(ops, Crash), Reload)).mem <==> IdWasPersisted(ops, id)
  {
    ReloadRestores(adapt, Snoc(ops, Crash), id);
    forall item: Item ensures WasPersisted(Snoc(ops, Crash), item) <==> WasPersisted(ops, item) {}
    assert IdWasPersisted(Snoc(ops, Crash), id) <==> IdWasPersisted(ops, id);
  }
}
