/** internal/ratelimit/limiter.go: the Redis limiter with its in-memory fallback, one check. */
module Failover {
  import opened RateLimit
  import SW = SlidingWindow
  import Lua = LuaScript

  /** One execution of a call on the server. */
  datatype Exec = Exec(at: int, dropped: bool)

  /** One check: the call the wrapper prepares, and what becomes of it. The client sends a call again
      when it gets no reply, so the script may run any number of times; if `replied`, the last run's
      reply arrives, and otherwise the fallback reads the clock anew. */
  datatype Request = Request(call: Lua.Call, execs: seq<Exec>, replied: bool, memNow: int) {
    predicate Answered() { replied && |execs| > 0 }
  }

  datatype Wrapper = Wrapper(redis: Lua.Redis, mem: SW.Log)

  /** The call as it runs. */
  function Running(c: Lua.Call, x: Exec): Lua.Call { c.(at := x.at, dropped := x.dropped) }

  /** Redis after the first `n` executions. */
  function Executed(redis: Lua.Redis, c: Lua.Call, execs: seq<Exec>, n: nat, l: Limits): Lua.Redis
    requires n <= |execs|
  {
    if n == 0 then redis else Lua.ScriptStep(Executed(redis, c, execs, n - 1, l), Running(c, execs[n - 1]), l).0
  }

  function CheckStep(w: Wrapper, q: Request, l: Limits): (Wrapper, Result) {
    var c, n := q.call.(frozen := w.mem.frozen), |q.execs|;
    var redis := Executed(w.redis, c, q.execs, n, l);
    if q.Answered() then
      var before := Executed(w.redis, c, q.execs, n - 1, l);
      (w.(redis := redis), Lua.Parse(Lua.ScriptStep(before, Running(c, q.execs[n - 1]), l).1))
    else
      var (mem, r) := SW.CheckStep(w.mem, q.memNow, q.call.key, l);
      (Wrapper(redis, mem), r)
  }

  class RedisLimiter {
    const client: Lua.RedisServer?
    const memFallback: SW.InMemoryLimiter
    var globalBurstFreeze: bool

    ghost function State(): Wrapper
      reads this, client, memFallback
    {
      Wrapper(if client == null then Lua.Empty else client.State(), memFallback.State())
    }

    ghost predicate Valid()
      reads this, memFallback
    {
      memFallback.Valid() && memFallback.globalBurstFreeze == globalBurstFreeze
    }

    constructor (client: Lua.RedisServer?)
      ensures Valid() && this.client == client && fresh(memFallback)
      ensures memFallback.State() == SW.Empty
    {
      this.client := client;
      memFallback := new SW.InMemoryLimiter();
      globalBurstFreeze := false;
    }

    method SetGlobalBurstFreeze(frozen: bool)
      requires Valid()
      modifies this, memFallback
      ensures Valid()
      ensures State() == old(State()).(mem := old(State()).mem.(frozen := frozen))
    {
      globalBurstFreeze := frozen;
      memFallback.SetGlobalBurstFreeze(frozen);
    }

    /** What the client library makes of one call: it runs once for each time it was sent and got
        through, and the last reply is the one that counts. */
    method Send(q: Request, softLimit: int, hardLimit: int, windowSec: int, burstFrozenFlag: int)
      returns (res: Lua.Reply)
      requires client != null && |q.execs| > 0
      modifies client
      ensures var c, l := q.call.(frozen := burstFrozenFlag != 0), Limits(softLimit, hardLimit, windowSec);
              && client.State() == Executed(old(client.State()), c, q.execs, |q.execs|, l)
              && res == Lua.ScriptStep(Executed(old(client.State()), c, q.execs, |q.execs| - 1, l),
                                       Running(c, q.execs[|q.execs| - 1]), l).1
    {
      ghost var c, l := q.call.(frozen := burstFrozenFlag != 0), Limits(softLimit, hardLimit, windowSec);
      res := client.RunScript(Running(q.call, q.execs[0]), softLimit, hardLimit, windowSec, burstFrozenFlag);
      assert Executed(old(client.State()), c, q.execs, 0, l) == old(client.State());
      for i := 1 to |q.execs|
        invariant client.State() == Executed(old(client.State()), c, q.execs, i, l)
        invariant res == Lua.ScriptStep(Executed(old(client.State()), c, q.execs, i - 1, l),
                                        Running(c, q.execs[i - 1]), l).1
      {
        res := client.RunScript(Running(q.call, q.execs[i]), softLimit, hardLimit, windowSec, burstFrozenFlag);
      }
    }

    static method Interpret(res: Lua.Reply) returns (r: Result)
      ensures r == Lua.Parse(res)
    {
      var burstLimit := res.hard - res.soft;
      if burstLimit < 0 {
        burstLimit := 0;
      }
      return Result(res.status, res.count, res.soft, res.remaining, burstLimit, res.burstRemaining);
    }

    /** Without a client every check is one whose script never ran. */
    method Check(q: Request, softLimit: int, hardLimit: int, windowSec: int) returns (r: Result)
      requires Valid() && memFallback.InTime(q.call.key, q.memNow)
      modifies memFallback, client
      ensures Valid()
      ensures (State(), r) == CheckStep(old(State()), if client == null then q.(execs := []) else q,
                                        Limits(softLimit, hardLimit, windowSec))
    {
      if client == null {
        r := memFallback.Check(q.memNow, q.call.key, softLimit, hardLimit, windowSec);
        return;
      }
      var burstFrozenFlag := 0;
      if globalBurstFreeze {
        burstFrozenFlag := 1;
      }
      if |q.execs| > 0 {
        var res := Send(q, softLimit, hardLimit, windowSec, burstFrozenFlag);
        if q.replied {
          r := Interpret(res);
          return;
        }
      }
      r := memFallback.Check(q.memNow, q.call.key, softLimit, hardLimit, windowSec);
    }
  }
}
