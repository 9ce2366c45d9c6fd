/** `DNSCache`: a dictionary from domain names to cached DNS answers, each with
    the time it should be refreshed and the time it expires. Time is an integer
    number of milliseconds and the current time is a parameter; the periodic
    clean-up timer becomes an explicit `Sweep` call. */
module DnsCache {
  import opened Wrappers

  /** Milliseconds per second and per day. */
  const MsPerSecond := 1000
  const MsPerDay := 86_400_000

  /** The lifetime of the two built-in entries: 3650 days. */
  const SeedLifetimeDays := 3650

  /** The clean-up period when the constructor is given none: one minute. */
  const DefaultCleanUpEveryMs := 60_000

  datatype RecordKind = A | AAAA | OtherKind(code: nat)

  /** A resource record; its time to live is in whole seconds, as DNS carries it. */
  datatype ResourceRecord = ResourceRecord(name: string, kind: RecordKind, ttlSeconds: int, value: string)

  datatype ResponseCode = NoError | OtherResponse(code: nat)

  /** The socket an answer came from. */
  datatype Origin = Origin(address: string, port: nat)

  datatype DNSInfo = DNSInfo(
    origin: Origin,
    queryId: int,
    isAuthoritativeAnswer: bool,
    isTruncated: bool,
    recursionDesired: bool,
    recursionAvailable: bool,
    responseCode: ResponseCode,
    answers: seq<ResourceRecord>,
    authorities: seq<ResourceRecord>,
    additionalRecords: seq<ResourceRecord>)

  /** A `DNSCacheEntry`: refresh time, end of life, and the cached answer. */
  datatype Entry = Entry(refreshAt: int, expireAt: int, info: DNSInfo)

  type Cache = map<string, Entry>

  /** The entry `Add` builds for an answer with the given time to live, received
      at `now`: refresh after half the lifetime, expire after all of it. */
  function EntryFor(now: int, ttlSeconds: int, info: DNSInfo): (r: Entry)
    ensures r.info == info
    ensures r.expireAt - now == ttlSeconds * MsPerSecond
    ensures 2 * (r.refreshAt - now) == r.expireAt - now
  {
    Entry(now + ttlSeconds * (MsPerSecond / 2), now + ttlSeconds * MsPerSecond, info)
  }

  /** For a non-negative time to live an entry is refreshed no later than it
      expires, and neither lies in the past. */
  lemma EntryForOrdered(now: int, ttlSeconds: int, info: DNSInfo)
    requires ttlSeconds >= 0
    ensures now <= EntryFor(now, ttlSeconds, info).refreshAt <= EntryFor(now, ttlSeconds, info).expireAt
  {
  }

  /** The period of the clean-up timer. */
  function CleanUpPeriod(cleanUpEveryMs: Option<nat>): (r: nat)
    ensures cleanUpEveryMs.Some? ==> r == cleanUpEveryMs.value
    ensures cleanUpEveryMs.None? ==> r == DefaultCleanUpEveryMs
  {
    cleanUpEveryMs.GetOr(DefaultCleanUpEveryMs)
  }

  const LoopbackOrigin := Origin("127.0.0.1", 53)

  /** The built-in answer for `name`: authoritative, A 127.0.0.1 and AAAA ::1. */
  function SeedInfo(name: string): (r: DNSInfo)
    ensures r.origin == LoopbackOrigin && r.isAuthoritativeAnswer && r.responseCode == NoError && r.queryId == 0
    ensures !r.isTruncated && !r.recursionDesired && !r.recursionAvailable
    ensures r.answers == [ResourceRecord(name, A, SeedLifetimeDays * 86_400, "127.0.0.1"),
                          ResourceRecord(name, AAAA, SeedLifetimeDays * 86_400, "::1")]
    ensures r.authorities == [] && r.additionalRecords == []
  {
    DNSInfo(LoopbackOrigin, 0, true, false, false, false, NoError,
            [ResourceRecord(name, A, SeedLifetimeDays * 86_400, "127.0.0.1"),
             ResourceRecord(name, AAAA, SeedLifetimeDays * 86_400, "::1")],
            [], [])
  }

  /** `new DNSCache()` at time `now`: exactly "localhost" and "loopback", due for
      refresh at once and living 3650 days. */
  function NewCache(now: int): (r: Cache)
    ensures r.Keys == {"localhost", "loopback"}
    ensures forall d :: d in r ==> r[d] == Entry(now, now + SeedLifetimeDays * MsPerDay, SeedInfo(d))
  {
    map["localhost" := Entry(now, now + SeedLifetimeDays * MsPerDay, SeedInfo("localhost")),
        "loopback" := Entry(now, now + SeedLifetimeDays * MsPerDay, SeedInfo("loopback"))]
  }

  /** `Add(Domainname, DNSInformation)`: the domain now maps to an entry for the
      given answer, timed by its first record (refresh after half its lifetime,
      expiry after all of it), replacing any earlier one; every other domain keeps
      its entry. `First()` needs at least one answer. */
  function Add(cache: Cache, domain: string, info: DNSInfo, now: int): (r: Cache)
    requires info.answers != []
    ensures r.Keys == cache.Keys + {domain}
    ensures r[domain].info == info
    ensures r[domain].expireAt == now + info.answers[0].ttlSeconds * MsPerSecond
    ensures 2 * (r[domain].refreshAt - now) == info.answers[0].ttlSeconds * MsPerSecond
    ensures forall d :: d in cache && d != domain ==> r[d] == cache[d]
  {
    cache[domain := EntryFor(now, info.answers[0].ttlSeconds, info)]
  }

  /** The answer `Add(Domainname, Origin, ResourceRecord)` caches: one record,
      not authoritative, no error, nothing else; the query id is random in the
      code and a parameter here. */
  function SingleRecordInfo(origin: Origin, record: ResourceRecord, queryId: int): (r: DNSInfo)
    ensures r.answers == [record] && r.authorities == [] && r.additionalRecords == []
    ensures !r.isAuthoritativeAnswer && !r.isTruncated && !r.recursionDesired && !r.recursionAvailable
    ensures r.responseCode == NoError && r.origin == origin && r.queryId == queryId
  {
    DNSInfo(origin, queryId, false, false, false, false, NoError, [record], [], [])
  }

  /** `Add(Domainname, Origin, ResourceRecord)`: inserts only when the domain is
      not yet cached; an existing entry is left exactly as it was. */
  function AddRecord(cache: Cache, domain: string, origin: Origin, record: ResourceRecord,
                     now: int, queryId: int): (r: Cache)
    ensures domain in cache ==> r == cache
    ensures domain !in cache ==>
              && r.Keys == cache.Keys + {domain}
              && r[domain].info == SingleRecordInfo(origin, record, queryId)
              && r[domain].expireAt == now + record.ttlSeconds * MsPerSecond
              && 2 * (r[domain].refreshAt - now) == record.ttlSeconds * MsPerSecond
    ensures forall d :: d in cache && d != domain ==> r[d] == cache[d]
  {
    if domain in cache then cache
    else cache[domain := EntryFor(now, record.ttlSeconds, SingleRecordInfo(origin, record, queryId))]
  }

  /** `GetDNSInfo`: the cached answer whenever the domain is present, expired or
      not; `None` (`null`) otherwise. */
  function GetDNSInfo(cache: Cache, domain: string): (r: Option<DNSInfo>)
    ensures r.Some? <==> domain in cache
    ensures r.Some? ==> r.value == cache[domain].info
  {
    if domain in cache then Some(cache[domain].info) else None
  }

  /** `RemoveExpiredCacheEntries` at time `now`: when the lock is free, exactly the
      entries whose end of life lies strictly before `now` go; when it is taken,
      nothing happens. */
  function Sweep(cache: Cache, now: int, lockAcquired: bool): (r: Cache)
    ensures !lockAcquired ==> r == cache
    ensures lockAcquired ==> forall d :: d in r <==> d in cache && cache[d].expireAt >= now
    ensures forall d :: d in r ==> d in cache && r[d] == cache[d]
  {
    if lockAcquired then map d | d in cache && cache[d].expireAt >= now :: cache[d]
    else cache
  }

  // ----- Properties -----

  /** What `Add` stores is what `GetDNSInfo` returns, and the other domains answer
      as before. */
  lemma AddThenGet(cache: Cache, domain: string, info: DNSInfo, now: int, other: string)
    requires info.answers != []
    ensures GetDNSInfo(Add(cache, domain, info, now), domain) == Some(info)
    ensures other != domain ==> GetDNSInfo(Add(cache, domain, info, now), other) == GetDNSInfo(cache, other)
  {
  }

  /** The latest `Add` wins: adding twice for one domain is adding the second
      answer once. */
  lemma AddReplaces(cache: Cache, domain: string, first: DNSInfo, second: DNSInfo, t1: int, t2: int)
    requires first.answers != [] && second.answers != []
    ensures Add(Add(cache, domain, first, t1), domain, second, t2) == Add(cache, domain, second, t2)
  {
    var a := Add(Add(cache, domain, first, t1), domain, second, t2);
    var b := Add(cache, domain, second, t2);
    assert a.Keys == b.Keys;
    assert forall d :: d in a ==> a[d] == b[d];
  }

  /** The record form never overwrites: once a domain is cached, by either form,
      adding a record for it changes nothing, so the first answer stays. */
  lemma AddRecordKeepsFirst(cache: Cache, domain: string, info: DNSInfo, now: int,
                            origin: Origin, record: ResourceRecord, later: int, queryId: int)
    requires info.answers != []
    ensures AddRecord(Add(cache, domain, info, now), domain, origin, record, later, queryId)
            == Add(cache, domain, info, now)
    ensures GetDNSInfo(AddRecord(Add(cache, domain, info, now), domain, origin, record, later, queryId), domain)
            == Some(info)
  {
  }

  /** Entries made by either `Add`, from a non-negative time to live, are
      refreshed no later than they expire. */
  lemma AddedEntriesOrdered(cache: Cache, domain: string, info: DNSInfo, now: int,
                            origin: Origin, record: ResourceRecord, queryId: int)
    requires info.answers != [] && info.answers[0].ttlSeconds >= 0 && record.ttlSeconds >= 0
    ensures var r := Add(cache, domain, info, now); now <= r[domain].refreshAt <= r[domain].expireAt
    ensures var r := AddRecord(cache, domain, origin, record, now, queryId);
            domain !in cache ==> now <= r[domain].refreshAt <= r[domain].expireAt
  {
    EntryForOrdered(now, info.answers[0].ttlSeconds, info);
    EntryForOrdered(now, record.ttlSeconds, SingleRecordInfo(origin, record, queryId));
  }

  /** A sweep removes nothing a second sweep at the same or a later time would
      keep: sweeping at `t1` then at `t2 >= t1` is sweeping once at `t2`, and in
      particular sweeping twice at one time is sweeping once. */
  lemma SweepComposes(cache: Cache, t1: int, t2: int)
    requires t1 <= t2
    ensures Sweep(Sweep(cache, t1, true), t2, true) == Sweep(cache, t2, true)
  {
    var a := Sweep(Sweep(cache, t1, true), t2, true);
    var b := Sweep(cache, t2, true);
    assert a.Keys == b.Keys;
  }

  /** After a sweep every cached entry is still alive at the time of the sweep. */
  lemma SweepLeavesOnlyLive(cache: Cache, now: int)
    ensures forall d :: d in Sweep(cache, now, true) ==> Sweep(cache, now, true)[d].expireAt >= now
  {
  }

  /** `GetDNSInfo` does not look at expiry: an entry past its end of life is served
      until a sweep removes it, and no longer after. */
  lemma ExpiredServedUntilSwept(cache: Cache, domain: string, now: int)
    requires domain in cache && cache[domain].expireAt < now
    ensures GetDNSInfo(cache, domain) == Some(cache[domain].info)
    ensures GetDNSInfo(Sweep(cache, now, true), domain) == None
    ensures GetDNSInfo(Sweep(cache, now, false), domain) == Some(cache[domain].info)
  {
  }

  /** An answer with a 60-second lifetime added at `t0` survives a sweep at
      exactly `t0 + 60000` ms (end of life is not yet strictly past) and is gone
      after a sweep one millisecond later. */
  lemma SixtySecondAnswer(cache: Cache, domain: string, info: DNSInfo, t0: int)
    requires info.answers != [] && info.answers[0].ttlSeconds == 60
    ensures var c := Add(cache, domain, info, t0);
            && c[domain].refreshAt == t0 + 30_000
            && GetDNSInfo(Sweep(c, t0 + 60_000, true), domain) == Some(info)
            && GetDNSInfo(Sweep(c, t0 + 60_001, true), domain) == None
  {
  }

  /** The built-in entries outlive every sweep for 3650 days. */
  lemma SeedsSurviveSweeps(now: int, later: int)
    requires now <= later <= now + SeedLifetimeDays * MsPerDay
    ensures Sweep(NewCache(now), later, true) == NewCache(now)
    ensures GetDNSInfo(Sweep(NewCache(now), later, true), "localhost") == Some(SeedInfo("localhost"))
  {
    var c := NewCache(now);
    assert Sweep(c, later, true).Keys == c.Keys;
  }
}
