/** internal/cache/cache.go: the fallback cache. Times are nanoseconds. */
module SmartCache {
  import opened Options
  import opened Traces

  const TWO_HOURS := 7_200_000_000_000

  type Header = map<string, seq<string>>

  /** A reply's header and body; Set copies both, so an entry shares nothing with its reply. */
  datatype Page = Page(header: Header, body: string)

  datatype Entry = Entry(status: int, page: Page, expiresAt: int, cachedAt: int)

  type Entries = map<string, Entry>

  function Put(m: Entries, k: string, status: int, page: Page, ttl: int, now: int): Entries {
    m[k := Entry(status, page, now + ttl, now)]
  }

  predicate Stale(e: Entry, now: int) { now - e.expiresAt > TWO_HOURS }

  function Evict(m: Entries, now: int): Entries { map k | k in m && !Stale(m[k], now) :: m[k] }

  class SmartCache {
    var entries: Entries

    constructor ()
      ensures entries == map[]
    {
      entries := map[];
    }

    /** The loop deletes every entry that expired more than two hours ago. */
    method EvictExpired(now: int)
      modifies this
      ensures entries == Evict(old(entries), now)
    {
      var rest := entries.Keys;
      while rest != {}
        invariant rest <= old(entries).Keys
        invariant entries == map k | k in old(entries) && (k in rest || !Stale(old(entries)[k], now)) :: old(entries)[k]
        decreases |rest|
      {
        var k :| k in rest;
        if now - entries[k].expiresAt > TWO_HOURS {
          entries := entries - {k};
        }
        rest := rest - {k};
      }
    }

    /** Copies a header field by field. */
    static method CopyHeader(header: Header) returns (copy: Header)
      ensures copy == header
    {
      copy := map[];
      var rest := header.Keys;
      while rest != {}
        invariant rest <= header.Keys
        invariant copy == map k | k in header.Keys - rest :: header[k]
        decreases |rest|
      {
        var k :| k in rest;
        copy := copy[k := header[k]];
        rest := rest - {k};
      }
    }

    method Set(key: string, statusCode: int, header: Header, body: string, ttl: int, now: int)
      modifies this
      ensures entries == Put(old(entries), key, statusCode, Page(header, body), ttl, now)
    {
      var headerCopy := CopyHeader(header);
      entries := entries[key := Entry(statusCode, Page(headerCopy, body), now + ttl, now)];
    }

    method Get(key: string) returns (entry: Option<Entry>)
      ensures entry == if key in entries then Some(entries[key]) else None
    {
      if key !in entries {
        return None;
      }
      return Some(entries[key]);
    }

    /** Like Get, but only while the entry has not expired. */
    method GetLive(key: string, now: int) returns (entry: Option<Entry>)
      ensures entry.Some? <==> key in entries && now <= entries[key].expiresAt
      ensures entry.Some? ==> entry.value == entries[key]
    {
      entry := Get(key);
      if entry.None? || now > entry.value.expiresAt {
        return None;
      }
    }
  }

  // ---------- Runs of stores and evictions ----------

  datatype Op = Stored(key: string, status: int, page: Page, ttl: int, at: int) | Evicted(at: int)

  function Apply(m: Entries, op: Op): Entries {
    match op
    case Stored(k, status, page, ttl, at) => Put(m, k, status, page, ttl, at)
    case Evicted(at) => Evict(m, at)
  }

  function After(ops: Trace<Op>): Entries {
    match ops
    case Nil => map[]
    case Snoc(past, op) => Apply(After(past), op)
  }

  /** The latest store under a key. */
  function LastStored(ops: Trace<Op>, k: string): Option<Op> {
    match ops
    case Nil => None
    case Snoc(past, op) => if op.Stored? && op.key == k then Some(op) else LastStored(past, k)
  }

  ghost predicate By(ops: Trace<Op>, t: int) {
    ops.Snoc? ==> By(ops.init, t) && ops.last.at <= t
  }

  /** The cache against its history: an entry is always the latest one stored under its key, and
      it is missing only if none was stored or its TTL plus two hours have passed. */
  lemma {:induction false} CacheHoldsLatest(ops: Trace<Op>, k: string, t: int)
    requires By(ops, t)
    ensures var m, last := After(ops), LastStored(ops, k);
            && (k in m ==>
                  last.Some? && last.value.Stored?
                  && m[k] == Entry(last.value.status, last.value.page, last.value.at + last.value.ttl, last.value.at))
            && (k !in m ==>
                  last.None? || (last.value.Stored? && last.value.at + last.value.ttl + TWO_HOURS < t))
  {
    if ops.Snoc? { CacheHoldsLatest(ops.init, k, t); }
  }

  /** Since its latest store an eviction has come more than TTL plus two hours after it. */
  predicate EvictedSince(ops: Trace<Op>, k: string) {
    match ops
    case Nil => false
    case Snoc(past, Stored(k', _, _, _, _)) => k' != k && EvictedSince(past, k)
    case Snoc(past, Evicted(at)) =>
      var last := LastStored(past, k);
      EvictedSince(past, k)
      || (last.Some? && last.value.Stored? && at > last.value.at + last.value.ttl + TWO_HOURS)
  }

  /** What is in the cache, exactly: what was stored and has not been evicted since. */
  lemma {:induction false} CachedExactly(ops: Trace<Op>, k: string)
    ensures k in After(ops) <==> LastStored(ops, k).Some? && !EvictedSince(ops, k)
    ensures k in After(ops) ==>
              var last := LastStored(ops, k).value;
              last.Stored? && After(ops)[k] == Entry(last.status, last.page, last.at + last.ttl, last.at)
    ensures LastStored(ops, k).Some? ==> LastStored(ops, k).value.Stored?
  {
    if ops.Snoc? { CachedExactly(ops.init, k); }
  }
}
