/**
 * The cache of successful logins (src/auth/guards/basic-auth/basic-auth.strategy.ts): a map in
 * insertion order with a time to live and a bounded size, used by overlapping requests.
 */
module LoginCache {
  import opened Wrappers
  import opened JsObject

  const LOGIN_CACHE_TTL_MS := 60_000
  const LOGIN_CACHE_MAX_ENTRIES := 1000

  datatype Credentials = Credentials(username: string, password: string)

  datatype CachedLogin = CachedLogin(user: string, expiresAtMs: nat)

  type Cache = seq<Entry<CachedLogin>>

  /** The text the key is hashed from; the hash counts as injective. */
  function CacheKey(c: Credentials): string {
    c.username + ":" + c.password
  }

  predicate NoColon(c: Credentials) {
    ':' !in c.username
  }

  /** Usernames have no colon, so a key belongs to one pair of credentials. */
  lemma KeysDistinguishCredentials(a: Credentials, b: Credentials)
    requires NoColon(a) && NoColon(b) && CacheKey(a) == CacheKey(b)
    ensures a == b
  {
    FirstColon(a);
    FirstColon(b);
    var m := |a.username|;
    assert a.username == CacheKey(a)[..m] == CacheKey(b)[..m] == b.username;
    assert a.password == CacheKey(a)[m + 1..] == CacheKey(b)[m + 1..] == b.password;
  }

  lemma FirstColon(c: Credentials)
    requires NoColon(c)
    ensures |c.username| < |CacheKey(c)| && CacheKey(c)[|c.username|] == ':'
    ensures forall k :: 0 <= k < |c.username| ==> CacheKey(c)[k] != ':'
  {
    assert forall k :: 0 <= k < |c.username| ==> CacheKey(c)[k] == c.username[k];
  }

  // ---------------------------------------------------------------- the steps of a login

  predicate IsLive(e: Entry<CachedLogin>, nowMs: nat) {
    e.value.expiresAtMs > nowMs
  }

  function Live(cache: Cache, nowMs: nat): Cache {
    if cache == [] then []
    else Live(cache[..|cache| - 1], nowMs) + (if IsLive(cache[|cache| - 1], nowMs) then [cache[|cache| - 1]] else [])
  }

  /** The cache with room for one more entry. */
  function Evicted(cache: Cache, nowMs: nat): Cache {
    if |cache| < LOGIN_CACHE_MAX_ENTRIES then cache
    else
      var live := Live(cache, nowMs);
      if |live| < LOGIN_CACHE_MAX_ENTRIES then live else live[|live| - (LOGIN_CACHE_MAX_ENTRIES - 1)..]
  }

  /** What a request finds under its key. */
  function Found(cache: Cache, key: string, nowMs: nat): Option<string> {
    var cached := Get(cache, key);
    if cached.Some? && cached.value.expiresAtMs > nowMs then Some(cached.value.user) else None
  }

  function AfterLookup(cache: Cache, key: string, nowMs: nat): Cache {
    if Get(cache, key).Some? && Found(cache, key, nowMs).None? then Remove(cache, key) else cache
  }

  function AfterLogin(cache: Cache, key: string, user: string, evictMs: nat, setMs: nat): Cache {
    Put(Evicted(cache, evictMs), key, CachedLogin(user, setMs + LOGIN_CACHE_TTL_MS))
  }

  /** The steps that requests take between their waits, in the order they happen. */
  datatype Event =
    | LookedUp(who: Credentials, atMs: nat)
    | LoggedIn(who: Credentials, user: string, evictMs: nat, setMs: nat)

  function After(cache: Cache, event: Event): Cache {
    match event
    case LookedUp(who, atMs) => AfterLookup(cache, CacheKey(who), atMs)
    case LoggedIn(who, user, evictMs, setMs) => AfterLogin(cache, CacheKey(who), user, evictMs, setMs)
  }

  function Run(events: seq<Event>): Cache {
    if events == [] then [] else After(Run(events[..|events| - 1]), events[|events| - 1])
  }

  /** The login an event adds for these credentials. */
  function NewLogin(event: Event, who: Credentials): Option<CachedLogin> {
    if event.LoggedIn? && event.who == who then Some(CachedLogin(event.user, event.setMs + LOGIN_CACHE_TTL_MS))
      else None
  }

  /** The latest successful login with these credentials. */
  function LastLogin(events: seq<Event>, who: Credentials): Option<CachedLogin> {
    if events == [] then None
    else
      var login := NewLogin(events[|events| - 1], who);
      if login.Some? then login else LastLogin(events[..|events| - 1], who)
  }

  ghost predicate NoColons(events: seq<Event>) {
    forall i :: 0 <= i < |events| ==> NoColon(events[i].who)
  }

  // ---------------------------------------------------------------- distinct keys

  predicate Distinct(cache: Cache) {
    forall i, j :: 0 <= i < j < |cache| ==> cache[i].key != cache[j].key
  }

  /** With distinct keys, a lookup finds an entry wherever it is. */
  lemma {:induction false} GetAt(cache: Cache, key: string)
    requires Distinct(cache)
    ensures Get(cache, key).None? <==> forall i :: 0 <= i < |cache| ==> cache[i].key != key
    ensures forall i :: 0 <= i < |cache| && cache[i].key == key ==> Get(cache, key) == Some(cache[i].value)
  {
    if cache != [] {
      GetAt(cache[1..], key);
      assert forall i :: 1 <= i < |cache| ==> cache[i] == cache[1..][i - 1];
    }
  }

  /** Dropping entries makes keys absent, and changes no other. */
  lemma GetPart(cache: Cache, part: Cache, key: string)
    requires Distinct(cache) && Distinct(part) && forall e :: e in part ==> e in cache
    ensures Get(part, key).Some? ==> Get(part, key) == Get(cache, key)
    ensures Get(cache, key).Some? && Entry(key, Get(cache, key).value) in part ==> Get(part, key) == Get(cache, key)
  {
    GetAt(cache, key);
    GetAt(part, key);
    if Get(part, key).Some? {
      var i :| 0 <= i < |part| && part[i].key == key;
      assert part[i] in part;
    }
  }

  lemma {:induction false} LiveMember(cache: Cache, nowMs: nat, e: Entry<CachedLogin>)
    ensures e in Live(cache, nowMs) <==> e in cache && IsLive(e, nowMs)
  {
    if cache != [] {
      LiveMember(cache[..|cache| - 1], nowMs, e);
      assert cache == cache[..|cache| - 1] + [cache[|cache| - 1]];
    }
  }

  lemma {:induction false} LiveDistinct(cache: Cache, nowMs: nat)
    requires Distinct(cache)
    ensures Distinct(Live(cache, nowMs))
  {
    if cache != [] {
      var init, last := cache[..|cache| - 1], cache[|cache| - 1];
      var live := Live(init, nowMs);
      LiveDistinct(init, nowMs);
      forall i | 0 <= i < |live| ensures live[i].key != last.key {
        LiveMember(init, nowMs, live[i]);
        assert live[i] in init;
      }
    }
  }

  lemma {:induction false} LiveLength(cache: Cache, nowMs: nat)
    ensures |Live(cache, nowMs)| <= |cache|
  {
    if cache != [] {
      LiveLength(cache[..|cache| - 1], nowMs);
    }
  }

  lemma LivePart(cache: Cache, nowMs: nat)
    ensures forall e :: e in Live(cache, nowMs) <==> e in cache && IsLive(e, nowMs)
    ensures Distinct(cache) ==> Distinct(Live(cache, nowMs))
  {
    forall e ensures e in Live(cache, nowMs) <==> e in cache && IsLive(e, nowMs) {
      LiveMember(cache, nowMs, e);
    }
    if Distinct(cache) {
      LiveDistinct(cache, nowMs);
    }
  }

  lemma EvictedPart(cache: Cache, nowMs: nat)
    ensures |Evicted(cache, nowMs)| < LOGIN_CACHE_MAX_ENTRIES
    ensures forall e :: e in Evicted(cache, nowMs) ==> e in cache
    ensures Distinct(cache) ==> Distinct(Evicted(cache, nowMs))
  {
    LivePart(cache, nowMs);
  }

  // ---------------------------------------------------------------- what is evicted

  /** Nothing live goes while dropping the expired entries makes enough room. */
  lemma LiveStays(cache: Cache, nowMs: nat, e: Entry<CachedLogin>)
    requires |Live(cache, nowMs)| < LOGIN_CACHE_MAX_ENTRIES && e in cache && IsLive(e, nowMs)
    ensures e in Evicted(cache, nowMs)
  {
    LivePart(cache, nowMs);
  }

  /** Otherwise exactly one place is made and the oldest go: what was inserted after a survivor survives. */
  lemma SurvivorsAreLatest(cache: Cache, nowMs: nat, i: nat, j: nat)
    requires Distinct(cache) && |Live(cache, nowMs)| >= LOGIN_CACHE_MAX_ENTRIES
    requires i < j < |cache| && IsLive(cache[j], nowMs) && cache[i] in Evicted(cache, nowMs)
    ensures cache[j] in Evicted(cache, nowMs) && |Evicted(cache, nowMs)| == LOGIN_CACHE_MAX_ENTRIES - 1
  {
    LiveLength(cache, nowMs);
    var live, cut := Live(cache, nowMs), |Live(cache, nowMs)| - (LOGIN_CACHE_MAX_ENTRIES - 1);
    var a :| 0 <= a < |live[cut..]| && live[cut..][a] == cache[i];
    assert live[cut + a] == cache[i];
    var b := LiveOrder(cache, nowMs, i, j, cut + a);
    assert live[cut..][b - cut] == cache[j];
  }

  /** The live entries stand in the order of the cache. */
  lemma {:induction false} LiveOrder(cache: Cache, nowMs: nat, i: nat, j: nat, a: nat) returns (b: nat)
    requires Distinct(cache) && i < j < |cache| && IsLive(cache[j], nowMs)
    requires a < |Live(cache, nowMs)| && Live(cache, nowMs)[a] == cache[i]
    ensures a < b < |Live(cache, nowMs)| && Live(cache, nowMs)[b] == cache[j]
    decreases |cache|
  {
    var init, n := cache[..|cache| - 1], |cache| - 1;
    if a < |Live(init, nowMs)| {
      if j < n {
        b := LiveOrder(init, nowMs, i, j, a);
      } else {
        b := |Live(init, nowMs)|;
      }
    } else {
      assert false;
    }
  }

  // ---------------------------------------------------------------- all runs

  lemma {:induction false} PutShape(cache: Cache, key: string, value: CachedLogin)
    ensures Distinct(cache) ==> Distinct(Put(cache, key, value))
    ensures |Put(cache, key, value)| <= |cache| + 1
    ensures forall e :: e in Put(cache, key, value) ==> e in cache || e == Entry(key, value)
  {
    if cache != [] && cache[0].key != key {
      PutShape(cache[1..], key, value);
      var rest := Put(cache[1..], key, value);
      if Distinct(cache) {
        forall i | 0 <= i < |rest| ensures rest[i].key != cache[0].key {
          assert rest[i] in rest;
        }
      }
    }
  }

  lemma {:induction false} RemoveShape(cache: Cache, key: string)
    ensures Distinct(cache) ==> Distinct(Remove(cache, key))
    ensures |Remove(cache, key)| <= |cache|
    ensures forall e :: e in Remove(cache, key) <==> e in cache && e.key != key
  {
    if cache != [] {
      RemoveShape(cache[1..], key);
      var rest := Remove(cache[1..], key);
      if Distinct(cache) && cache[0].key != key {
        forall i | 0 <= i < |rest| ensures rest[i].key != cache[0].key {
          assert rest[i] in rest && rest[i] in cache[1..];
        }
      }
    }
  }

  /** Over every run the keys are distinct and there are never more than 1000 entries. */
  lemma {:induction false} RunBounded(events: seq<Event>)
    ensures Distinct(Run(events)) && |Run(events)| <= 1000
  {
    if events != [] {
      var before, last := Run(events[..|events| - 1]), events[|events| - 1];
      RunBounded(events[..|events| - 1]);
      if last.LookedUp? {
        RemoveShape(before, CacheKey(last.who));
      } else {
        EvictedPart(before, last.evictMs);
        PutShape(Evicted(before, last.evictMs), CacheKey(last.who),
          CachedLogin(last.user, last.setMs + LOGIN_CACHE_TTL_MS));
      }
    }
  }

  /** What is cached for a pair of credentials is their latest login. */
  lemma {:induction false} RunSound(events: seq<Event>, who: Credentials)
    requires NoColons(events) && NoColon(who)
    ensures Get(Run(events), CacheKey(who)).Some? ==> Get(Run(events), CacheKey(who)) == LastLogin(events, who)
  {
    if events != [] {
      var init := events[..|events| - 1];
      RunSound(init, who);
      RunBounded(init);
      AfterSound(Run(init), events[|events| - 1], who);
    }
  }

  /** A step caches its own login, if it is one, and keeps or drops every other one. */
  lemma AfterSound(cache: Cache, event: Event, who: Credentials)
    requires Distinct(cache) && NoColon(event.who) && NoColon(who)
    ensures var key, added := CacheKey(who), NewLogin(event, who);
            && (added.Some? ==> Get(After(cache, event), key) == added)
            && (added.None? && Get(After(cache, event), key).Some? ==> Get(After(cache, event), key) == Get(cache, key))
  {
    var key := CacheKey(who);
    KeyOfEvent(event, who);
    if event.LookedUp? {
      GetRemove(cache, CacheKey(event.who), key);
    } else {
      EvictedPart(cache, event.evictMs);
      GetPut(Evicted(cache, event.evictMs), CacheKey(event.who),
        CachedLogin(event.user, event.setMs + LOGIN_CACHE_TTL_MS), key);
      GetPart(cache, Evicted(cache, event.evictMs), key);
    }
  }

  lemma KeyOfEvent(event: Event, who: Credentials)
    requires NoColon(event.who) && NoColon(who)
    ensures CacheKey(event.who) == CacheKey(who) <==> event.who == who
  {
    if CacheKey(event.who) == CacheKey(who) {
      KeysDistinguishCredentials(event.who, who);
    }
  }

  /** Event `i` is the latest login with these credentials. */
  ghost predicate IsLastLogin(events: seq<Event>, who: Credentials, i: nat) {
    && i < |events| && events[i].LoggedIn? && events[i].who == who
    && forall j :: i < j < |events| ==> !(events[j].LoggedIn? && events[j].who == who)
  }

  lemma {:induction false} LastLoginAt(events: seq<Event>, who: Credentials) returns (i: nat)
    requires LastLogin(events, who).Some?
    ensures IsLastLogin(events, who, i)
    ensures LastLogin(events, who).value == CachedLogin(events[i].user, events[i].setMs + LOGIN_CACHE_TTL_MS)
  {
    i := |events| - 1;
    if !(events[i].LoggedIn? && events[i].who == who) {
      i := LastLoginAt(events[..i], who);
    }
  }

  /**
   * Over every run of overlapping requests: a cached answer is the user of the latest successful
   * login with the same credentials, cached less than 60 seconds ago.
   */
  lemma CachedAnswer(events: seq<Event>, who: Credentials, nowMs: nat) returns (i: nat)
    requires NoColons(events) && NoColon(who) && Found(Run(events), CacheKey(who), nowMs).Some?
    ensures IsLastLogin(events, who, i) && nowMs < events[i].setMs + 60_000
    ensures Found(Run(events), CacheKey(who), nowMs) == Some(events[i].user)
  {
    RunSound(events, who);
    i := LastLoginAt(events, who);
  }

  // ---------------------------------------------------------------- runs without pressure

  /** The logins of a run that have not expired. */
  function Recent(events: seq<Event>, nowMs: nat): nat {
    if events == [] then 0
    else
      var last := events[|events| - 1];
      Recent(events[..|events| - 1], nowMs)
        + (if last.LoggedIn? && last.setMs + LOGIN_CACHE_TTL_MS > nowMs then 1 else 0)
  }

  /** Fewer than 1000 unexpired logins whenever one more is cached. */
  predicate Calm(events: seq<Event>) {
    events == [] ||
    var last := events[|events| - 1];
    Calm(events[..|events| - 1])
      && (last.LoggedIn? ==> Recent(events[..|events| - 1], last.evictMs) < LOGIN_CACHE_MAX_ENTRIES)
  }

  /** The clock never goes back, and now is not before any event. */
  predicate Clock(events: seq<Event>, nowMs: nat) {
    events == [] ||
    match events[|events| - 1]
    case LookedUp(_, atMs) => atMs <= nowMs && Clock(events[..|events| - 1], atMs)
    case LoggedIn(_, _, evictMs, setMs) => evictMs <= setMs <= nowMs && Clock(events[..|events| - 1], evictMs)
  }

  /** The number of live entries with one of them more, or some fewer. */
  lemma {:induction false} CountLive(cache: Cache, part: Cache, nowMs: nat)
    requires Distinct(part) && forall e :: e in part ==> e in cache
    ensures |Live(part, nowMs)| <= |Live(cache, nowMs)|
  {
    LivePart(part, nowMs);
    LivePart(cache, nowMs);
    PigeonHole(Live(part, nowMs), Live(cache, nowMs));
  }

  lemma {:induction false} PigeonHole(a: Cache, b: Cache)
    requires Distinct(a) && forall e :: e in a ==> e in b
    ensures |a| <= |b|
  {
    if a != [] {
      assert a[0] in b;
      var i :| 0 <= i < |b| && b[i] == a[0];
      var rest := b[..i] + b[i + 1..];
      forall e | e in a[1..] ensures e in rest {
        assert e in b && e != a[0];
        assert b == b[..i] + [b[i]] + b[i + 1..];
      }
      PigeonHole(a[1..], rest);
    }
  }

  lemma {:induction false} LiveAtMostRecent(events: seq<Event>, nowMs: nat)
    ensures |Live(Run(events), nowMs)| <= Recent(events, nowMs)
  {
    if events != [] {
      var init, last := events[..|events| - 1], events[|events| - 1];
      var before := Run(init);
      LiveAtMostRecent(init, nowMs);
      RunBounded(init);
      if last.LookedUp? {
        RemoveShape(before, CacheKey(last.who));
        CountLive(before, Run(events), nowMs);
      } else {
        CountPut(before, last, nowMs);
      }
    }
  }

  lemma CountPut(before: Cache, last: Event, nowMs: nat)
    requires last.LoggedIn? && Distinct(before)
    ensures |Live(AfterLogin(before, CacheKey(last.who), last.user, last.evictMs, last.setMs), nowMs)|
         <= |Live(before, nowMs)| + (if last.setMs + LOGIN_CACHE_TTL_MS > nowMs then 1 else 0)
  {
    var room, added :=
      Evicted(before, last.evictMs), Entry(CacheKey(last.who), CachedLogin(last.user, last.setMs + LOGIN_CACHE_TTL_MS));
    EvictedPart(before, last.evictMs);
    PutShape(room, added.key, added.value);
    CountAdded(before, Put(room, added.key, added.value), added, nowMs);
  }

  /** With at most one entry more there is at most one live entry more. */
  lemma CountAdded(before: Cache, after: Cache, added: Entry<CachedLogin>, nowMs: nat)
    requires Distinct(after) && forall e :: e in after ==> e in before || e == added
    ensures |Live(after, nowMs)| <= |Live(before, nowMs)| + (if IsLive(added, nowMs) then 1 else 0)
  {
    var extra := if IsLive(added, nowMs) then [added] else [];
    var all := Live(before, nowMs) + extra;
    LiveDistinct(after, nowMs);
    forall e | e in Live(after, nowMs) ensures e in all {
      LiveMember(after, nowMs, e);
      LiveMember(before, nowMs, e);
    }
    PigeonHole(Live(after, nowMs), all);
  }

  /**
   * While fewer than 1000 logins are unexpired the cache is exact: an answer comes from the cache if
   * and only if the latest login with these credentials was cached less than 60 seconds ago.
   */
  lemma {:induction false} CalmCacheExact(events: seq<Event>, who: Credentials, nowMs: nat)
    requires NoColons(events) && NoColon(who) && Calm(events) && Clock(events, nowMs)
    ensures Found(Run(events), CacheKey(who), nowMs)
         == if LastLogin(events, who).Some? && LastLogin(events, who).value.expiresAtMs > nowMs
           then Some(LastLogin(events, who).value.user) else None
  {
    RunSound(events, who);
    if LastLogin(events, who).Some? && LastLogin(events, who).value.expiresAtMs > nowMs {
      CalmKeeps(events, who, nowMs);
    }
  }

  /** When an event begins. */
  function Began(event: Event): nat {
    if event.LookedUp? then event.atMs else event.evictMs
  }

  lemma {:induction false} CalmKeeps(events: seq<Event>, who: Credentials, nowMs: nat)
    requires NoColons(events) && NoColon(who) && Calm(events) && Clock(events, nowMs)
    requires LastLogin(events, who).Some? && LastLogin(events, who).value.expiresAtMs > nowMs
    ensures Get(Run(events), CacheKey(who)) == LastLogin(events, who)
  {
    var init, last := events[..|events| - 1], events[|events| - 1];
    RunBounded(init);
    if NewLogin(last, who).Some? {
      AfterSound(Run(init), last, who);
    } else {
      CalmKeeps(init, who, Began(last));
      if last.LoggedIn? {
        LiveAtMostRecent(init, last.evictMs);
      }
      AfterKeeps(Run(init), last, who);
    }
  }

  lemma AfterKeeps(cache: Cache, event: Event, who: Credentials)
    requires Distinct(cache) && NoColon(event.who) && NoColon(who) && NewLogin(event, who).None?
    requires event.LoggedIn? ==> |Live(cache, event.evictMs)| < LOGIN_CACHE_MAX_ENTRIES
    requires Get(cache, CacheKey(who)).Some? && Get(cache, CacheKey(who)).value.expiresAtMs > Began(event)
    ensures Get(After(cache, event), CacheKey(who)) == Get(cache, CacheKey(who))
  {
    var key := CacheKey(who);
    KeyOfEvent(event, who);
    if event.LookedUp? {
      GetRemove(cache, CacheKey(event.who), key);
    } else {
      KeepsLive(cache, event.evictMs, key);
      GetPut(Evicted(cache, event.evictMs), CacheKey(event.who),
        CachedLogin(event.user, event.setMs + LOGIN_CACHE_TTL_MS), key);
    }
  }

  lemma KeepsLive(cache: Cache, nowMs: nat, key: string)
    requires Distinct(cache) && |Live(cache, nowMs)| < LOGIN_CACHE_MAX_ENTRIES
    requires Get(cache, key).Some? && Get(cache, key).value.expiresAtMs > nowMs
    ensures Get(Evicted(cache, nowMs), key) == Get(cache, key)
  {
    GetAt(cache, key);
    var i :| 0 <= i < |cache| && cache[i].key == key;
    LiveStays(cache, nowMs, cache[i]);
    EvictedPart(cache, nowMs);
    GetPart(cache, Evicted(cache, nowMs), key);
  }

  // ---------------------------------------------------------------- the strategy

  class BasicAuthStrategy {
    var loginCache: Cache

    constructor ()
      ensures loginCache == []
    {
      loginCache := [];
    }

    /** The part of a validation before the wait for CouchDB. */
    method LookUp(who: Credentials, nowMs: nat) returns (user: Option<string>)
      modifies this
      ensures user == Found(old(loginCache), CacheKey(who), nowMs)
      ensures loginCache == AfterLookup(old(loginCache), CacheKey(who), nowMs)
    {
      var key := CacheKey(who);
      var cached: Option<CachedLogin> := Get(loginCache, key);
      if cached.Some? {
        if cached.value.expiresAtMs > nowMs {
          return Some(cached.value.user);
        }
        loginCache := Remove(loginCache, key);
      }
      return None;
    }

    /** The part after a successful login; a failed one never gets here. */
    method CacheLogin(who: Credentials, user: string, evictMs: nat, setMs: nat)
      modifies this
      ensures loginCache == AfterLogin(old(loginCache), CacheKey(who), user, evictMs, setMs)
    {
      EvictIfNeeded(evictMs);
      loginCache := Put(loginCache, CacheKey(who), CachedLogin(user, setMs + LOGIN_CACHE_TTL_MS));
    }

    /** Drop the expired entries in place, then the oldest ones. */
    method EvictIfNeeded(nowMs: nat)
      modifies this
      ensures loginCache == Evicted(old(loginCache), nowMs)
    {
      if |loginCache| < LOGIN_CACHE_MAX_ENTRIES {
        return;
      }
      DropExpired(nowMs);
      ghost var live := loginCache;
      ghost var dropped := 0;
      while |loginCache| >= LOGIN_CACHE_MAX_ENTRIES
        invariant 0 <= dropped <= |live| && loginCache == live[dropped..]
        invariant dropped == 0 || |loginCache| >= LOGIN_CACHE_MAX_ENTRIES - 1
      {
        loginCache := loginCache[1..];
        dropped := dropped + 1;
      }
    }

    method DropExpired(nowMs: nat)
      modifies this
      ensures loginCache == Live(old(loginCache), nowMs)
    {
      ghost var cache := loginCache;
      ghost var seen := 0;
      var i := 0;
      while i < |loginCache|
        invariant 0 <= i && 0 <= seen <= |cache|
        invariant loginCache == Live(cache[..seen], nowMs) + cache[seen..]
        invariant i == |Live(cache[..seen], nowMs)|
        decreases |cache| - seen
      {
        TakeOne(cache, seen, nowMs);
        if loginCache[i].value.expiresAtMs <= nowMs {
          loginCache := WithoutAt(loginCache, i);
        } else {
          i := i + 1;
        }
        seen := seen + 1;
      }
      assert cache[..seen] == cache;
    }
  }

  function WithoutAt<T>(s: seq<T>, i: nat): seq<T>
    requires i < |s|
  {
    s[..i] + s[i + 1..]
  }

  lemma TakeOne(cache: Cache, seen: nat, nowMs: nat)
    requires seen < |cache|
    ensures var now, rest := Live(cache[..seen], nowMs), cache[seen..];
            && (now + rest)[|now|] == cache[seen]
            && WithoutAt(now + rest, |now|) == now + cache[seen + 1..]
            && now + rest == now + [cache[seen]] + cache[seen + 1..]
            && Live(cache[..seen + 1], nowMs) == if IsLive(cache[seen], nowMs) then now + [cache[seen]] else now
  {
    assert cache[..seen + 1][..seen] == cache[..seen];
  }
}
