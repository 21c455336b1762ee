/**
 The IP lookup in front of ip-api: a bounded cache that keeps answers and failures for different
 times, and one upstream request per address however many callers are waiting for it.
 Between two awaits the service runs alone, so each of the three pieces below is one step: a
 caller's way up to the await, an upstream answer being remembered, and the request settling.
 */
module CountryCache {
  import opened Wrappers
  import CountryDetection

  type Millis = int

  const CACHE_TTL_MS: Millis := 6 * 60 * 60 * 1000
  const NEGATIVE_CACHE_TTL_MS: Millis := 60 * 1000
  const CACHE_MAX_ENTRIES: nat := 10000

  datatype CacheEntry = CacheEntry(country: Option<string>, expiresAt: Millis)

  // `order` is the order the cache's Map iterates in: a key keeps its place when it is set again.
  // `inFlight` names the upstream request a caller for that address would wait for.
  datatype Core = Core(cache: map<string, CacheEntry>, order: seq<string>, inFlight: map<string, nat>, requests: nat)

  const EMPTY := Core(map[], [], map[], 0)

  datatype Outcome =
    | NoLookup
    | FromCache(country: Option<string>)
    | Waits(request: nat)

  predicate StartsWith(s: string, prefix: string) {
    |prefix| <= |s| && s[..|prefix|] == prefix
  }

  predicate IsPrivateIp(ip: string) {
    || ip == "127.0.0.1" || ip == "::1"
    || StartsWith(ip, "10.") || StartsWith(ip, "192.168.") || StartsWith(ip, "169.254.")
    || StartsWith(ip, "fc") || StartsWith(ip, "fd")
    || (|ip| >= 7 && StartsWith(ip, "172.") && ip[6] == '.' && IsPrivateBlock(ip[4], ip[5]))
  }

  // 16 to 31.
  predicate IsPrivateBlock(tens: char, units: char) {
    || (tens == '1' && '6' <= units <= '9')
    || (tens == '2' && '0' <= units <= '9')
    || (tens == '3' && '0' <= units <= '1')
  }

  function NormalizeIp(ip: string): string {
    if StartsWith(ip, "::ffff:") then ip[7..] else ip
  }

  // The address a caller's lookup is about, if it is looked up at all.
  function LookupKey(ip: string): Option<string> {
    if ip == "" || IsPrivateIp(NormalizeIp(ip)) then None else Some(NormalizeIp(ip))
  }

  function Ttl(country: Option<string>): Millis {
    if country.Some? then CACHE_TTL_MS else NEGATIVE_CACHE_TTL_MS
  }

  predicate Fresh(core: Core, ip: string, now: Millis) {
    ip in core.cache && core.cache[ip].expiresAt > now
  }

  function Lookup(core: Core, ip: string, now: Millis): (Core, Outcome) {
    var key := LookupKey(ip);
    if key.None? then (core, NoLookup)
    else if Fresh(core, key.value, now) then (core, FromCache(core.cache[key.value].country))
    else if key.value in core.inFlight then (core, Waits(core.inFlight[key.value]))
    else
      (core.(inFlight := core.inFlight[key.value := core.requests], requests := core.requests + 1),
       Waits(core.requests))
  }

  function Evict(core: Core): Core {
    if |core.cache| >= CACHE_MAX_ENTRIES && core.order != [] then
      core.(cache := core.cache - {core.order[0]}, order := core.order[1..])
    else core
  }

  function Remember(core: Core, ip: string, country: Option<string>, now: Millis): Core {
    var c := Evict(core);
    c.(cache := c.cache[ip := CacheEntry(country, now + Ttl(country))],
       order := if ip in c.cache then c.order else c.order + [ip])
  }

  function Settle(core: Core, ip: string): Core {
    core.(inFlight := core.inFlight - {ip})
  }

  // ---------------------------------------------------------------------------------------
  // The service
  // ---------------------------------------------------------------------------------------

  class CountryDetectionService {
    var cache: map<string, CacheEntry>
    var keys: seq<string>
    var inFlight: map<string, nat>
    var requests: nat

    constructor ()
      ensures Snapshot() == EMPTY
    {
      cache, keys, inFlight, requests := map[], [], map[], 0;
    }

    ghost function Snapshot(): Core
      reads this
    {
      Core(cache, keys, inFlight, requests)
    }

    // lookupByIp up to its first await.
    method LookupByIp(ip: string, now: Millis) returns (outcome: Outcome)
      modifies this
      ensures (Snapshot(), outcome) == Lookup(old(Snapshot()), ip, now)
    {
      if ip == "" {
        return NoLookup;
      }
      var normalized := NormalizeIp(ip);
      if IsPrivateIp(normalized) {
        return NoLookup;
      }
      if normalized in cache && cache[normalized].expiresAt > now {
        return FromCache(cache[normalized].country);
      }
      if normalized in inFlight {
        return Waits(inFlight[normalized]);
      }
      var pending := requests;
      requests := requests + 1;
      inFlight := inFlight[normalized := pending];
      return Waits(pending);
    }

    method RememberCountry(ip: string, country: Option<string>, now: Millis)
      modifies this
      ensures Snapshot() == Remember(old(Snapshot()), ip, country, now)
    {
      if |cache| >= CACHE_MAX_ENTRIES {
        if keys != [] {
          var oldest := keys[0];
          cache := cache - {oldest};
          keys := keys[1..];
        }
      }
      var ttl := if country.Some? then CACHE_TTL_MS else NEGATIVE_CACHE_TTL_MS;
      if ip !in cache {
        keys := keys + [ip];
      }
      cache := cache[ip := CacheEntry(country, now + ttl)];
    }

    method Forget(ip: string)
      modifies this
      ensures Snapshot() == Settle(old(Snapshot()), ip)
    {
      inFlight := inFlight - {ip};
    }

    // The country the first usable edge header names, read in order of trust.
    static method FromEdge(edge: seq<string>) returns (country: Option<string>)
      ensures country == CountryDetection.FirstSome(CountryDetection.EdgeCountries(edge))
    {
      ghost var countries := CountryDetection.EdgeCountries(edge);
      for i := 0 to |edge|
        invariant forall k :: 0 <= k < i ==> countries[k].None?
      {
        country := CountryDetection.NormalizeCountry(edge[i]);
        assert country == countries[i];
        if country.Some? {
          CountryDetection.FirstSomeAt(countries, i);
          return;
        }
      }
      CountryDetection.FirstSomeAt(countries, |edge|);
      country := None;
    }
  }

  // ---------------------------------------------------------------------------------------
  // Every interleaving of callers, upstream answers and the clock
  // ---------------------------------------------------------------------------------------

  // What became of one upstream request.
  datatype Request = Request(ip: string, answer: Option<Option<string>>, answeredAt: Millis, settled: bool)

  // What one caller was given, and when.
  datatype Given = Given(ip: string, outcome: Outcome, at: Millis)

  datatype Machine = Machine(core: Core, requests: seq<Request>, given: seq<Given>, now: Millis)

  datatype Step =
    | Call(ip: string)
    | Answered(request: nat, country: Option<string>)
    | Settled(request: nat)
    | Tick(elapsed: nat)

  // Upstream answers each request once, and a request settles once, after its answer.
  predicate Enabled(m: Machine, step: Step) {
    match step
    case Answered(request, _) => request < |m.requests| && m.requests[request].answer.None?
    case Settled(request) => request < |m.requests| && m.requests[request].answer.Some? && !m.requests[request].settled
    case _ => true
  }

  function Next(m: Machine, step: Step): Machine
    requires Enabled(m, step)
  {
    match step
    case Call(ip) =>
      var (core, outcome) := Lookup(m.core, ip, m.now);
      m.(core := core,
         requests := if core.requests > m.core.requests then m.requests + [Request(NormalizeIp(ip), None, 0, false)]
                     else m.requests,
         given := m.given + [Given(ip, outcome, m.now)])
    case Answered(request, country) =>
      var r := m.requests[request];
      m.(core := Remember(m.core, r.ip, country, m.now),
         requests := m.requests[request := r.(answer := Some(country), answeredAt := m.now)])
    case Settled(request) =>
      var r := m.requests[request];
      m.(core := Settle(m.core, r.ip), requests := m.requests[request := r.(settled := true)])
    case Tick(elapsed) => m.(now := m.now + elapsed)
  }

  // The machine after `steps` from an empty cache; a step that is not enabled does nothing.
  function Run(start: Millis, steps: seq<Step>): Machine {
    if steps == [] then Machine(EMPTY, [], [], start)
    else
      var before := Run(start, steps[..|steps| - 1]);
      var step := steps[|steps| - 1];
      if Enabled(before, step) then Next(before, step) else before
  }

  // `country` was upstream's answer about `ip`, not yet older than answers of its kind are kept.
  ghost predicate Backed(m: Machine, ip: string, country: Option<string>, at: Millis) {
    exists r :: 0 <= r < |m.requests| && m.requests[r].ip == ip && m.requests[r].answer == Some(country)
                && m.requests[r].answeredAt <= at < m.requests[r].answeredAt + Ttl(country)
  }

  // `order` lists the keys of a cache, each once.
  ghost predicate Lists(order: seq<string>, keys: set<string>) {
    && |order| == |keys|
    && (forall i, j :: 0 <= i < j < |order| ==> order[i] != order[j])
    && (forall ip :: ip in order <==> ip in keys)
  }

  // The iteration order lists the cached addresses, each once, and there are not too many.
  ghost predicate CacheOk(core: Core) {
    Lists(core.order, core.cache.Keys) && |core.order| <= CACHE_MAX_ENTRIES
  }

  ghost predicate EntriesOk(m: Machine) {
    forall ip :: ip in m.core.cache ==> EntryOk(m, ip, m.core.cache[ip])
  }

  ghost predicate InFlightOk(m: Machine) {
    && m.core.requests == |m.requests|
    && (forall ip :: ip in m.core.inFlight ==>
          m.core.inFlight[ip] < |m.requests| && m.requests[m.core.inFlight[ip]].ip == ip
          && !m.requests[m.core.inFlight[ip]].settled)
    && (forall r :: 0 <= r < |m.requests| && !m.requests[r].settled ==>
          m.requests[r].ip in m.core.inFlight && m.core.inFlight[m.requests[r].ip] == r)
    && (forall r :: 0 <= r < |m.requests| && m.requests[r].settled ==> m.requests[r].answer.Some?)
  }

  ghost predicate GivenOk(m: Machine) {
    forall g :: 0 <= g < |m.given| ==> GivenRight(m, m.given[g])
  }

  ghost predicate GivenRight(m: Machine, given: Given) {
    match given.outcome
    case NoLookup => LookupKey(given.ip).None?
    case FromCache(country) =>
      given.at <= m.now && LookupKey(given.ip) == Some(NormalizeIp(given.ip))
      && Backed(m, NormalizeIp(given.ip), country, given.at)
    case Waits(request) =>
      request < |m.requests| && LookupKey(given.ip) == Some(m.requests[request].ip)
  }

  ghost predicate Inv(m: Machine) {
    CacheOk(m.core) && EntriesOk(m) && InFlightOk(m) && GivenOk(m)
  }

  lemma OldestDropped(order: seq<string>, keys: set<string>)
    requires Lists(order, keys) && order != []
    ensures Lists(order[1..], keys - {order[0]})
  {
    assert order == [order[0]] + order[1..];
  }

  lemma NewestAdded(order: seq<string>, keys: set<string>, ip: string)
    requires Lists(order, keys) && ip !in keys
    ensures Lists(order + [ip], keys + {ip})
  {
  }

  lemma EvictKeepsCache(core: Core)
    requires CacheOk(core)
    ensures CacheOk(Evict(core)) && |Evict(core).cache| < CACHE_MAX_ENTRIES
    ensures forall ip :: ip in Evict(core).cache ==> ip in core.cache && Evict(core).cache[ip] == core.cache[ip]
  {
    if |core.cache| >= CACHE_MAX_ENTRIES {
      OldestDropped(core.order, core.cache.Keys);
      assert (core.cache - {core.order[0]}).Keys == core.cache.Keys - {core.order[0]};
    }
  }

  lemma InsertKeepsCache(c: Core, ip: string, entry: CacheEntry)
    requires CacheOk(c) && |c.cache| < CACHE_MAX_ENTRIES
    ensures CacheOk(c.(cache := c.cache[ip := entry], order := if ip in c.cache then c.order else c.order + [ip]))
  {
    assert c.cache[ip := entry].Keys == c.cache.Keys + {ip};
    if ip in c.cache {
      assert c.cache.Keys + {ip} == c.cache.Keys;
    } else {
      NewestAdded(c.order, c.cache.Keys, ip);
    }
  }

  lemma RememberKeepsCache(core: Core, ip: string, country: Option<string>, now: Millis)
    requires CacheOk(core)
    ensures CacheOk(Remember(core, ip, country, now))
  {
    EvictKeepsCache(core);
    InsertKeepsCache(Evict(core), ip, CacheEntry(country, now + Ttl(country)));
  }

  // Remembering adds or replaces one entry and may drop another; it changes no third one.
  lemma RememberedValues(core: Core, ip: string, country: Option<string>, now: Millis)
    ensures var after := Remember(core, ip, country, now).cache;
            && ip in after && after[ip] == CacheEntry(country, now + Ttl(country))
            && forall k :: k in after && k != ip ==> k in core.cache && after[k] == core.cache[k]
  {
  }

  // Requests are only ever added, answered once, and settled.
  ghost predicate Extends(m: Machine, after: Machine) {
    && |m.requests| <= |after.requests| && m.now <= after.now
    && forall r :: 0 <= r < |m.requests| ==>
         after.requests[r].ip == m.requests[r].ip
         && (m.requests[r].answer.Some? ==>
               after.requests[r].answer == m.requests[r].answer
               && after.requests[r].answeredAt == m.requests[r].answeredAt)
  }

  lemma NextExtends(m: Machine, step: Step)
    requires Enabled(m, step)
    ensures Extends(m, Next(m, step))
  {
  }

  lemma GivenStaysRight(m: Machine, after: Machine, given: Given)
    requires Extends(m, after) && GivenRight(m, given)
    ensures GivenRight(after, given)
  {
    if given.outcome.FromCache? {
      var country := given.outcome.country;
      var r :| 0 <= r < |m.requests| && m.requests[r].ip == NormalizeIp(given.ip)
          && m.requests[r].answer == Some(country)
               && m.requests[r].answeredAt <= given.at < m.requests[r].answeredAt + Ttl(country);
      assert after.requests[r].answer == Some(country);
    }
  }

  // A cache entry is an answer upstream gave, at a time its expiry is counted from.
  ghost predicate EntryOk(m: Machine, ip: string, entry: CacheEntry) {
    exists r :: 0 <= r < |m.requests| && m.requests[r].ip == ip
                && m.requests[r].answer == Some(entry.country)
                && m.requests[r].answeredAt <= m.now
                && entry.expiresAt == m.requests[r].answeredAt + Ttl(entry.country)
  }

  lemma EntryStaysOk(m: Machine, after: Machine, ip: string, entry: CacheEntry)
    requires EntryOk(m, ip, entry) && Extends(m, after)
    ensures EntryOk(after, ip, entry)
  {
    var r :| 0 <= r < |m.requests| && m.requests[r].ip == ip
             && m.requests[r].answer == Some(entry.country)
             && m.requests[r].answeredAt <= m.now
             && entry.expiresAt == m.requests[r].answeredAt + Ttl(entry.country);
    assert after.requests[r].ip == ip;
  }

  lemma CallIsGivenRight(m: Machine, ip: string)
    requires Inv(m)
    ensures GivenRight(Next(m, Call(ip)), Given(ip, Lookup(m.core, ip, m.now).1, m.now))
  {
    var outcome := Lookup(m.core, ip, m.now).1;
    if outcome.FromCache? {
      var key := LookupKey(ip).value;
      var entry := m.core.cache[key];
      assert EntryOk(m, key, entry);
      var r :| 0 <= r < |m.requests| && m.requests[r].ip == key
               && m.requests[r].answer == Some(entry.country)
               && m.requests[r].answeredAt <= m.now
               && entry.expiresAt == m.requests[r].answeredAt + Ttl(entry.country);
      assert Next(m, Call(ip)).requests[r] == m.requests[r];
      assert Backed(Next(m, Call(ip)), key, outcome.country, m.now);
    }
  }

  lemma SettleKeepsInFlight(m: Machine, request: nat)
    requires InFlightOk(m) && Enabled(m, Settled(request))
    ensures InFlightOk(Next(m, Settled(request)))
  {
    assert m.core.inFlight[m.requests[request].ip] == request;
  }

  lemma CallKeepsInFlight(m: Machine, ip: string)
    requires InFlightOk(m)
    ensures InFlightOk(Next(m, Call(ip)))
  {
  }

  lemma AnswerKeepsInFlight(m: Machine, request: nat, country: Option<string>)
    requires InFlightOk(m) && Enabled(m, Answered(request, country))
    ensures InFlightOk(Next(m, Answered(request, country)))
  {
    var after := Remember(m.core, m.requests[request].ip, country, m.now);
    assert after.inFlight == m.core.inFlight && after.requests == m.core.requests;
  }

  lemma NextKeepsInFlight(m: Machine, step: Step)
    requires InFlightOk(m) && Enabled(m, step)
    ensures InFlightOk(Next(m, step))
  {
    match step
    case Call(ip) => CallKeepsInFlight(m, ip);
    case Answered(request, country) => AnswerKeepsInFlight(m, request, country);
    case Settled(request) => SettleKeepsInFlight(m, request);
    case Tick(_) =>
  }

  lemma EntriesStayOk(m: Machine, after: Machine)
    requires EntriesOk(m) && Extends(m, after) && after.core.cache == m.core.cache
    ensures EntriesOk(after)
  {
    forall ip | ip in after.core.cache
      ensures EntryOk(after, ip, after.core.cache[ip])
    {
      EntryStaysOk(m, after, ip, m.core.cache[ip]);
    }
  }

  // `after` caches `entry` for `key` and nothing else that `m` did not.
  lemma EntriesWithOneNew(m: Machine, after: Machine, key: string, entry: CacheEntry)
    requires EntriesOk(m) && Extends(m, after) && EntryOk(after, key, entry)
    requires key in after.core.cache && after.core.cache[key] == entry
    requires forall k :: k in after.core.cache && k != key ==>
               k in m.core.cache && after.core.cache[k] == m.core.cache[k]
    ensures EntriesOk(after)
  {
    forall ip | ip in after.core.cache
      ensures EntryOk(after, ip, after.core.cache[ip])
    {
      if ip != key {
        EntryStaysOk(m, after, ip, m.core.cache[ip]);
      }
    }
  }

  lemma NextKeepsEntries(m: Machine, step: Step)
    requires EntriesOk(m) && Enabled(m, step)
    ensures EntriesOk(Next(m, step))
  {
    var after := Next(m, step);
    NextExtends(m, step);
    if step.Answered? {
      var key := m.requests[step.request].ip;
      RememberedValues(m.core, key, step.country, m.now);
      assert after.requests[step.request].answer == Some(step.country);
      EntriesWithOneNew(m, after, key, CacheEntry(step.country, m.now + Ttl(step.country)));
    } else {
      EntriesStayOk(m, after);
    }
  }

  lemma NextKeepsCache(m: Machine, step: Step)
    requires CacheOk(m.core) && Enabled(m, step)
    ensures CacheOk(Next(m, step).core)
  {
    if step.Answered? {
      RememberKeepsCache(m.core, m.requests[step.request].ip, step.country, m.now);
    }
  }

  lemma NextKeepsGiven(m: Machine, step: Step)
    requires Inv(m) && Enabled(m, step)
    ensures GivenOk(Next(m, step))
  {
    var after := Next(m, step);
    NextExtends(m, step);
    forall g | 0 <= g < |after.given|
      ensures GivenRight(after, after.given[g])
    {
      if g < |m.given| {
        GivenStaysRight(m, after, m.given[g]);
      } else {
        CallIsGivenRight(m, step.ip);
      }
    }
  }

  lemma {:induction false} RunInv(start: Millis, steps: seq<Step>)
    ensures Inv(Run(start, steps))
  {
    if steps != [] {
      var before := Run(start, steps[..|steps| - 1]);
      RunInv(start, steps[..|steps| - 1]);
      if Enabled(before, steps[|steps| - 1]) {
        NextKeepsInFlight(before, steps[|steps| - 1]);
        NextKeepsCache(before, steps[|steps| - 1]);
        NextKeepsEntries(before, steps[|steps| - 1]);
        NextKeepsGiven(before, steps[|steps| - 1]);
      }
    }
  }

  // An earlier request for the same address has settled.
  ghost predicate OneAtATime(m: Machine) {
    forall r, q :: 0 <= r < q < |m.requests| && m.requests[r].ip == m.requests[q].ip ==> m.requests[r].settled
  }

  lemma NextKeepsOneAtATime(m: Machine, step: Step)
    requires InFlightOk(m) && OneAtATime(m) && Enabled(m, step)
    ensures OneAtATime(Next(m, step))
  {
  }

  lemma {:induction false} RunOneAtATime(start: Millis, steps: seq<Step>)
    ensures OneAtATime(Run(start, steps))
  {
    if steps != [] {
      var front := steps[..|steps| - 1];
      RunOneAtATime(start, front);
      RunInv(start, front);
      if Enabled(Run(start, front), steps[|steps| - 1]) {
        NextKeepsOneAtATime(Run(start, front), steps[|steps| - 1]);
      }
    }
  }

  // Six hours for a country, a minute for none.
  function Lifetime(country: Option<string>): Millis {
    if country.Some? then 21_600_000 else 60_000
  }

  // `country` was upstream's answer about `ip`, given less than `age` before.
  ghost predicate AnsweredWithin(m: Machine, ip: string, country: Option<string>, at: Millis, age: Millis) {
    exists r :: 0 <= r < |m.requests| && m.requests[r].ip == ip && m.requests[r].answer == Some(country)
                && m.requests[r].answeredAt <= at < m.requests[r].answeredAt + age
  }

  // In every interleaving: the cache holds at most 10,000 entries; two requests for one address
  // are never outstanding together; a caller told to wait waits for a request about its own
  // address; and a caller answered from the cache gets upstream's own answer about its address,
  // given less than six hours ago if it was a country and less than a minute ago if it was not.
  lemma CacheSafety(start: Millis, steps: seq<Step>)
    ensures var m := Run(start, steps);
            && |m.core.cache| <= 10_000
            && OneAtATime(m)
            && (forall g :: 0 <= g < |m.given| && m.given[g].outcome.Waits? ==>
                  m.given[g].outcome.request < |m.requests|
                  && LookupKey(m.given[g].ip) == Some(m.requests[m.given[g].outcome.request].ip))
            && (forall g :: 0 <= g < |m.given| && m.given[g].outcome.FromCache? ==>
                  AnsweredWithin(m, NormalizeIp(m.given[g].ip), m.given[g].outcome.country, m.given[g].at,
                                 Lifetime(m.given[g].outcome.country)))
  {
    var m := Run(start, steps);
    RunInv(start, steps);
    RunOneAtATime(start, steps);
    forall g | 0 <= g < |m.given| && m.given[g].outcome.FromCache?
      ensures AnsweredWithin(m, NormalizeIp(m.given[g].ip), m.given[g].outcome.country, m.given[g].at,
                             Lifetime(m.given[g].outcome.country))
    {
      BackedIsWithin(m, m.given[g]);
    }
    assert forall g :: 0 <= g < |m.given| ==> GivenRight(m, m.given[g]);
  }

  lemma BackedIsWithin(m: Machine, given: Given)
    requires given.outcome.FromCache? && GivenRight(m, given)
    ensures AnsweredWithin(m, NormalizeIp(given.ip), given.outcome.country, given.at, Lifetime(given.outcome.country))
  {
    assert Backed(m, NormalizeIp(given.ip), given.outcome.country, given.at);
    assert Ttl(given.outcome.country) == Lifetime(given.outcome.country);
  }

  // An answer once remembered is given to every caller of its address, without asking again, for its
  // whole lifetime and no longer.
  lemma ServedForItsLifetime(core: Core, key: string, country: Option<string>, now: Millis, ip: string, later: Millis)
    requires LookupKey(ip) == Some(key)
    ensures Lookup(Remember(core, key, country, now), ip, later)
         == (Remember(core, key, country, now), FromCache(country))
       <==> later < now + Lifetime(country)
  {
  }

  // ---------------------------------------------------------------------------------------
  // Which entry goes
  // ---------------------------------------------------------------------------------------

  datatype Remembered = Remembered(ip: string, country: Option<string>, at: Millis)

  function RememberAll(core: Core, later: seq<Remembered>): Core {
    if later == [] then core
    else
      var last := later[|later| - 1];
      Remember(RememberAll(core, later[..|later| - 1]), last.ip, last.country, last.at)
  }

  // The entry for `ip` stands at place `p`, and `room` others can be remembered before it goes.
  ghost predicate Safe(core: Core, ip: string, entry: CacheEntry, p: nat, room: int) {
    && CacheOk(core) && p < |core.order| && core.order[p] == ip && ip in core.cache && core.cache[ip] == entry
    && p + CACHE_MAX_ENTRIES - |core.order| >= room
  }

  lemma PlaceAfterEvict(core: Core, ip: string, entry: CacheEntry, p: nat, room: int) returns (q: nat)
    requires Safe(core, ip, entry, p, room) && room > 0
    ensures Safe(Evict(core), ip, entry, q, room) && |Evict(core).order| < CACHE_MAX_ENTRIES
  {
    EvictKeepsCache(core);
    if |core.cache| >= CACHE_MAX_ENTRIES {
      assert core.order[0] != core.order[p];
      q := p - 1;
    } else {
      q := p;
    }
  }

  lemma PlaceAfterRemember(core: Core, ip: string, entry: CacheEntry, p: nat, room: int, r: Remembered) returns (q: nat)
    requires Safe(core, ip, entry, p, room) && room > 0 && r.ip != ip
    ensures Safe(Remember(core, r.ip, r.country, r.at), ip, entry, q, room - 1)
  {
    q := PlaceAfterEvict(core, ip, entry, p, room);
    RememberKeepsCache(core, r.ip, r.country, r.at);
  }

  lemma {:induction false} NewestIsSafe(core: Core, r: Remembered, later: seq<Remembered>) returns (q: nat)
    requires CacheOk(core) && r.ip !in core.cache && |later| < CACHE_MAX_ENTRIES
    requires forall i :: 0 <= i < |later| ==> later[i].ip != r.ip
    ensures Safe(RememberAll(Remember(core, r.ip, r.country, r.at), later), r.ip,
                 CacheEntry(r.country, r.at + Ttl(r.country)), q, CACHE_MAX_ENTRIES - 1 - |later|)
  {
    if later == [] {
      EvictKeepsCache(core);
      RememberKeepsCache(core, r.ip, r.country, r.at);
      q := |Evict(core).order|;
    } else {
      var front := later[..|later| - 1];
      q := NewestIsSafe(core, r, front);
      q := PlaceAfterRemember(RememberAll(Remember(core, r.ip, r.country, r.at), front), r.ip,
                              CacheEntry(r.country, r.at + Ttl(r.country)), q, CACHE_MAX_ENTRIES - |later|,
                              later[|later| - 1]);
    }
  }

  // It is the oldest address that goes: one that is new to the cache is still there, answer and
  // lifetime unchanged, after any 9,999 further answers about others.
  lemma NewestStays(core: Core, r: Remembered, later: seq<Remembered>)
    requires CacheOk(core) && r.ip !in core.cache && |later| < 10_000
    requires forall i :: 0 <= i < |later| ==> later[i].ip != r.ip
    ensures var after := RememberAll(Remember(core, r.ip, r.country, r.at), later);
            r.ip in after.cache && after.cache[r.ip] == CacheEntry(r.country, r.at + Lifetime(r.country))
  {
    var q := NewestIsSafe(core, r, later);
  }

  // ---------------------------------------------------------------------------------------
  // Addresses
  // ---------------------------------------------------------------------------------------

  // An IPv4 address is looked up as itself, and as the same one when it comes mapped into IPv6.
  lemma MappedIsTheSame(ip: string)
    ensures LookupKey("::ffff:" + ip) == if IsPrivateIp(ip) then None else Some(ip)
    ensures ip != "" && !StartsWith(ip, "::ffff:") ==>
              LookupKey(ip) == if IsPrivateIp(ip) then None else Some(ip)
  {
    assert ("::ffff:" + ip)[..7] == "::ffff:";
  }

  // The other private ranges...
  lemma PrivateStarts(ip: string)
    ensures IsPrivateIp("10." + ip) && IsPrivateIp("192.168." + ip) && IsPrivateIp("169.254." + ip)
    ensures IsPrivateIp("fc" + ip) && IsPrivateIp("fd" + ip) && IsPrivateIp("127.0.0.1") && IsPrivateIp("::1")
  {
    assert ("10." + ip)[..3] == "10." && ("192.168." + ip)[..8] == "192.168." && ("169.254." + ip)[..8] == "169.254.";
    assert ("fc" + ip)[..2] == "fc" && ("fd" + ip)[..2] == "fd";
  }

  // ... and how no private address starts.
  lemma PublicStarts(ip: string)
    requires ip != "" && ip[0] != '1' && ip[0] != 'f' && ip[0] != ':'
    ensures !IsPrivateIp(ip)
  {
    assert forall prefix :: StartsWith(ip, prefix) && prefix != "" ==> ip[..|prefix|][0] == prefix[0];
  }

  // The block 172.16.0.0/12, by its second number, and nothing beside it.
  lemma PrivateBlock(tens: char, units: char, rest: string)
    requires '0' <= tens <= '9' && '0' <= units <= '9'
    ensures var second := (tens as int - '0' as int) * 10 + (units as int - '0' as int);
            IsPrivateIp("172." + [tens, units] + "." + rest) <==> 16 <= second <= 31
  {
    var ip := "172." + [tens, units] + "." + rest;
    assert ip[0] == '1' && ip[1] == '7' && ip[2] == '2' && ip[4] == tens && ip[5] == units && ip[6] == '.';
    assert ip[..4] == "172.";
  }

  lemma ExtendsFurther(m: Machine, between: Machine, after: Machine)
    requires Extends(m, between) && Extends(between, after)
    ensures Extends(m, after)
  {
  }

  // The answer a waiting caller will get never changes once it is there: a request is answered
  // once, whatever else happens.
  lemma {:induction false} AnswersAreFinal(start: Millis, steps: seq<Step>, more: seq<Step>)
    ensures Extends(Run(start, steps), Run(start, steps + more))
    decreases |more|
  {
    if more == [] {
      assert steps + more == steps;
    } else {
      var all := steps + more;
      var front := more[..|more| - 1];
      assert all[..|all| - 1] == steps + front;
      AnswersAreFinal(start, steps, front);
      var before := Run(start, all[..|all| - 1]);
      if Enabled(before, all[|all| - 1]) {
        NextExtends(before, all[|all| - 1]);
        ExtendsFurther(Run(start, steps), before, Next(before, all[|all| - 1]));
      }
    }
  }

  // An upstream request is made exactly when the address is public, nothing fresh is cached for
  // it, and no request for it is still unsettled.
  lemma RequestMadeIff(start: Millis, steps: seq<Step>, ip: string)
    ensures var m := Run(start, steps);
            |Next(m, Call(ip)).requests| > |m.requests|
            <==> && LookupKey(ip).Some? && !Fresh(m.core, LookupKey(ip).value, m.now)
                 && forall r :: 0 <= r < |m.requests| && m.requests[r].ip == LookupKey(ip).value ==>
                      m.requests[r].settled
  {
    RunInv(start, steps);
  }
}
