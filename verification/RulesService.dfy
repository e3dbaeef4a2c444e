/**
 * The rules service as objects (src/permissions/rules/rules.service.ts): the configuration in memory,
 * the startup load with retries, the feed handlers, and the write-back loop against a store that other
 * clients change at any time. Feed handlers are tied to the steps of the protocol.
 */
module RulesService {
  import opened Wrappers
  import opened JsObject
  import opened Backoff
  import opened RulesConfig
  import opened AbilityCache
  import opened ConfigText
  import opened PermissionProtocol
  import opened WriteBackRuns

  const INIT_MAX_TOTAL_MS := 60000
  const INIT_MAX_DELAY_MS := 10000
  const INIT_BACKOFF := DEFAULT_BACKOFF_OPTIONS.(maxMs := INIT_MAX_DELAY_MS)

  // ---------------------------------------------------------------- startup timing

  datatype LoadResponse = Found(payload: Payload) | NotFound | Failed

  /**
   * One attempt of the initial load, and what the live feed installs during the request and during the
   * wait behind it, for the write-back or for the next attempt.
   */
  datatype Attempt = Attempt(duration: nat, response: LoadResponse, during: Option<Config>, waiting: Option<Config>)

  /** Time from the start of the load to the start of attempt `n`, when all attempts before it failed. */
  function Elapsed(script: nat -> Attempt, n: nat): nat {
    if n == 0 then 0 else Elapsed(script, n - 1) + script(n - 1).duration + DelayAfter(n, INIT_BACKOFF)
  }

  /** Waiting time alone. */
  function TotalDelay(n: nat): nat {
    if n == 0 then 0 else TotalDelay(n - 1) + DelayAfter(n, INIT_BACKOFF)
  }

  lemma {:induction false} ElapsedAtLeastDelay(script: nat -> Attempt, n: nat)
    ensures Elapsed(script, n) >= TotalDelay(n)
    ensures (forall i :: 0 <= i < n ==> script(i).duration == 0) ==> Elapsed(script, n) == TotalDelay(n)
  {
    if n > 0 {
      ElapsedAtLeastDelay(script, n - 1);
    }
  }

  lemma Powers()
    ensures Pow2(0) == 1 && Pow2(1) == 2 && Pow2(2) == 4 && Pow2(3) == 8 && Pow2(4) == 16
  {
    assert Pow2(3) == 2 * Pow2(2);
  }

  lemma LongDelay(n: nat)
    requires n >= 5
    ensures DelayAfter(n, INIT_BACKOFF) == 10000
  {
    Powers();
    DelayMonotone(4, n - 1, INIT_BACKOFF);
  }

  /** The delays are 1, 2, 4, 8, then 10 seconds, so the budget holds nine attempts and no more. */
  lemma NineAttempts()
    ensures TotalDelay(8) == 55000 && TotalDelay(9) == 65000
  {
    Powers();
    assert DelayAfter(1, INIT_BACKOFF) == 1000 && DelayAfter(2, INIT_BACKOFF) == 2000;
    assert DelayAfter(3, INIT_BACKOFF) == 4000 && DelayAfter(4, INIT_BACKOFF) == 8000;
    LongDelay(5);
    LongDelay(6);
    LongDelay(7);
    LongDelay(8);
    LongDelay(9);
    assert TotalDelay(2) == 3000;
    assert TotalDelay(4) == 15000;
    assert TotalDelay(6) == 35000;
  }

  lemma {:induction false} DelaysGrow(n: nat, m: nat)
    requires n <= m
    ensures TotalDelay(n) <= TotalDelay(m)
    decreases m
  {
    if n < m {
      DelaysGrow(n, m - 1);
      assert TotalDelay(m) == TotalDelay(m - 1) + DelayAfter(m, INIT_BACKOFF);
    }
  }

  /** For all durations: an attempt that starts within the budget is one of the first nine. */
  lemma AtMostNine(script: nat -> Attempt, n: nat)
    requires Elapsed(script, n) < INIT_MAX_TOTAL_MS
    ensures n < 9
  {
    NineAttempts();
    ElapsedAtLeastDelay(script, n);
    if n >= 9 {
      DelaysGrow(9, n);
    }
  }

  /** With instant failures all nine attempts are made. */
  lemma AllNine(script: nat -> Attempt, n: nat)
    requires n < 9 && forall i :: 0 <= i < n ==> script(i).duration == 0
    ensures Elapsed(script, n) < INIT_MAX_TOTAL_MS
  {
    NineAttempts();
    ElapsedAtLeastDelay(script, n);
    DelaysGrow(n, 8);
  }

  /** The configuration the feed installed last in the first `n` attempts. */
  function Installed(script: nat -> Attempt, n: nat): Option<Config> {
    if n == 0 then None else Latest(Latest(Installed(script, n - 1), script(n - 1).during), script(n - 1).waiting)
  }

  function Latest(earlier: Option<Config>, later: Option<Config>): Option<Config> {
    if later.Some? then later else earlier
  }

  /** The first `n` attempts all started within the budget and failed. */
  predicate FailedInTime(script: nat -> Attempt, n: nat) {
    n == 0 || (FailedInTime(script, n - 1) && Elapsed(script, n - 1) < INIT_MAX_TOTAL_MS
      && !Succeeds(script(n - 1).response))
  }

  /** The first `n` attempts failed in time, and the feed brought nothing meanwhile. */
  predicate StillEmpty(script: nat -> Attempt, n: nat) {
    FailedInTime(script, n) && Installed(script, n) == None
  }

  /** The loop after `n` failures, with the time they took. */
  predicate Failing(script: nat -> Attempt, n: nat, elapsed: nat) {
    StillEmpty(script, n) && elapsed == Elapsed(script, n)
  }

  /** A turn of the loop: one of the first nine, and one failure more if it fails. */
  lemma FailingTurn(script: nat -> Attempt, n: nat, elapsed: nat)
    requires Failing(script, n, elapsed) && elapsed < INIT_MAX_TOTAL_MS
    ensures n < 9
    ensures !Succeeds(script(n).response) && script(n).during == None && script(n).waiting == None ==>
              Failing(script, n + 1, elapsed + script(n).duration + DelayAfter(n + 1, INIT_BACKOFF))
  {
    AtMostNine(script, n);
  }

  lemma FailedBefore(script: nat -> Attempt, n: nat, elapsed: nat)
    requires Failing(script, n, elapsed) && elapsed >= INIT_MAX_TOTAL_MS
    ensures n > 0 && StillEmpty(script, n - 1) && Elapsed(script, n - 1) < INIT_MAX_TOTAL_MS
    ensures !Succeeds(script(n - 1).response)
  {
  }

  /**
   * What ends up in memory: what the feed brought before the response, else the response; and later
   * what it brings then.
   */
  function FirstInstalled(attempt: Attempt): Option<Config> {
    var feed := attempt.during;
    match attempt.response
    case Found(payload) =>
      if payload.Data? then Latest(if feed.Some? then feed else Some(Normalize(payload.config)), attempt.waiting)
      else if feed.Some? then feed
      else attempt.waiting
    case NotFound => if feed.Some? then feed else Some(BOOTSTRAP_PERMISSIONS)
    case Failed => if feed.Some? then feed else attempt.waiting
  }

  predicate Succeeds(r: LoadResponse) {
    r.NotFound? || (r.Found? && r.payload.Data?)
  }

  // ---------------------------------------------------------------- the service

  class RulesService {
    const managed: seq<Rule>
    const consumer: PermissionService
    var permission: Option<Config>
    /** write-backs the feed handler has started and nobody waits for */
    var started: seq<Writer>

    constructor (managed: seq<Rule>, consumer: PermissionService)
      ensures this.managed == managed && this.consumer == consumer && permission == None && started == []
    {
      this.managed, this.consumer, permission, started := managed, consumer, None, [];
    }

    ghost function ProtocolParams(): Params
    {
      Params(managed, consumer.inject)
    }

    method SetPermission(config: Config)
      modifies this`permission
      ensures permission == Some(Normalize(config))
    {
      var normalized := NormalizeSectionKeys(config);
      permission := Some(normalized);
    }

    /** Tell the consumers, unless nothing was loaded before or both serialize alike. */
    method OnPermissionsChanged(previous: Option<Config>, current: Config)
      modifies consumer
      ensures consumer.abilityCache ==
              if previous.None? || Serialized(previous.value) == Serialized(current) then old(consumer.abilityCache)
                else map[]
    {
      if previous.None? || Serialized(previous.value) == Serialized(current) {
        return;
      }
      consumer.OnPermissionsChanged();
    }

    /** An instance of the protocol with this object's memory, cache and write-backs. */
    ghost function AsBackend(handler: Handler, queue: seq<bool>): Backend
      reads this, consumer
    {
      NEW_BACKEND.(memory := permission, cache := consumer.abilityCache, writers := started, handler :=
        handler, queue := queue)
    }

    /**
     * A fetched document replaces the configuration and starts a write-back, or is ignored when it
     * holds no valid one.
     */
    method ApplyUpdatedPermission(doc: PermissionDoc)
      requires permission.None? ==> consumer.abilityCache == map[]
      requires Coherent(consumer.inject, permission, consumer.abilityCache)
      modifies this`permission, this`started, consumer
      ensures var after := LocalStep(ProtocolParams(), Store([]), old(AsBackend(Fetched(doc), [])), ApplyFetched);
              permission == after.memory && consumer.abilityCache == after.cache && started == after.writers
      ensures Coherent(consumer.inject, permission, consumer.abilityCache)
    {
      var previous := permission;
      if doc.payload.NoConfig? {
        return;
      }
      SetPermission(doc.payload.config);
      OnPermissionsChanged(previous, permission.value);
      ReplacedCoherent(consumer.inject, previous, permission.value, old(consumer.abilityCache));
      started := started + [Putting(0, doc)];
    }

    /** A deleted document: fall back to the bootstrap configuration. */
    method ApplyPermissionDeletion()
      requires permission.None? ==> consumer.abilityCache == map[]
      requires Coherent(consumer.inject, permission, consumer.abilityCache)
      modifies this`permission, consumer
      ensures var after := LocalStep(ProtocolParams(), Store([]), old(AsBackend(Idle, [true])), TakeEvent);
              permission == after.memory && consumer.abilityCache == after.cache && started == after.writers
      ensures Coherent(consumer.inject, permission, consumer.abilityCache)
    {
      var previous := permission;
      NormalizeIdempotent(BOOTSTRAP_PERMISSIONS);
      BootstrapHasNoLegacyKeys();
      SetPermission(BOOTSTRAP_PERMISSIONS);
      OnPermissionsChanged(previous, BOOTSTRAP_PERMISSIONS);
      ReplacedCoherent(consumer.inject, previous, BOOTSTRAP_PERMISSIONS, old(consumer.abilityCache));
    }

    method EnterBootstrapMode()
      modifies this`permission
      ensures permission == if old(permission).None? then Some(BOOTSTRAP_PERMISSIONS) else old(permission)
    {
      if permission.None? {
        NormalizeIdempotent(BOOTSTRAP_PERMISSIONS);
        BootstrapHasNoLegacyKeys();
        SetPermission(BOOTSTRAP_PERMISSIONS);
      }
    }

    /** What the live feed does while the load is waiting. */
    method FeedInstalls(config: Option<Config>)
      modifies this`permission
      ensures permission == Latest(old(permission), config)
    {
      if config.Some? {
        permission := config;
      }
    }

    /**
     * The startup load. It makes at most nine attempts, each started within the budget; it returns
     * normally exactly when a configuration is in memory; what it loads never replaces a configuration
     * the feed installed; and after a valid document it has waited for that document's write-back.
     */
    method LoadInitialPermissions(db: PermissionDb, script: nat -> Attempt)
      returns (r: Result<()>, attempts: nat, ghost writeBack: Option<FinishedWriteBack>)
      requires permission == None
      modifies this`permission, db
      ensures 1 <= attempts <= 9 && StillEmpty(script, attempts - 1)
              && Elapsed(script, attempts - 1) < INIT_MAX_TOTAL_MS
      ensures r.Ok? <==> permission.Some?
      ensures r.Ok? ==> permission == FirstInstalled(script(attempts - 1))
      ensures r.Err? ==> StillEmpty(script, attempts) && Elapsed(script, attempts) >= INIT_MAX_TOTAL_MS
      ensures Grown(old(db.store), db.store)
      ensures writeBack.Some? <==> FoundConfig(script(attempts - 1).response)
      ensures writeBack.Some? ==>
              WroteBack(writeBack.value, script(attempts - 1).response.payload, db.store, old(db.failures), db.failures)
    {
      var backoff := new ExponentialBackoff(INIT_BACKOFF);
      var elapsed: nat := 0;
      ghost var start := db.store;
      attempts, writeBack := 0, None;
      while elapsed < INIT_MAX_TOTAL_MS
        invariant Failing(script, attempts, elapsed) && permission == None && writeBack == None
        invariant backoff.options == INIT_BACKOFF && backoff.failureCount == attempts <= 9
        invariant Grown(start, db.store) && db.failures == old(db.failures)
        decreases 9 - attempts
      {
        FailingTurn(script, attempts, elapsed);
        ghost var before := db.store;
        var attempt := script(attempts);
        var over, delay;
        over, delay, writeBack := NextLoad(db, attempt, backoff);
        GrownTwice(start, before, db.store);
        attempts := attempts + 1;
        if over {
          return Ok(()), attempts, writeBack;
        }
        elapsed := elapsed + attempt.duration + delay;
      }
      FailedBefore(script, attempts, elapsed);
      return Err("failed to load initial permissions"), attempts, writeBack;
    }

    /** One turn of the loop: a request, and if that does not end the load, the wait for the next. */
    method NextLoad(db: PermissionDb, attempt: Attempt, backoff: ExponentialBackoff)
      returns (over: bool, delay: nat, ghost writeBack: Option<FinishedWriteBack>)
      requires permission == None
      modifies this`permission, db, backoff
      ensures over <==> permission.Some?
      ensures over ==> permission == FirstInstalled(attempt)
      ensures !over ==> !Succeeds(attempt.response) && attempt.during == None && attempt.waiting == None
      ensures !over ==>
              backoff.failureCount == old(backoff.failureCount) + 1
                && delay == DelayAfter(backoff.failureCount, backoff.options)
      ensures Grown(old(db.store), db.store)
      ensures writeBack.Some? <==> FoundConfig(attempt.response)
      ensures writeBack.None? ==> db.failures == old(db.failures)
      ensures writeBack.Some? ==>
              WroteBack(writeBack.value, attempt.response.payload, db.store, old(db.failures), db.failures)
    {
      over, writeBack := TryLoad(db, attempt);
      delay := 0;
      if !over {
        delay := backoff.RecordFailure();
        over := WaitForNextRetry(attempt.waiting);
      }
    }

    /** A write-back of a document with this payload, fetched as the current one, has come to its end. */
    ghost predicate WroteBack(
      w: FinishedWriteBack, payload: Payload, after: Store, failuresBefore: nat, failures: nat)
    {
      && w.before.Content() == Some(payload) && w.before.versions <= after.versions
      && EndsAs(managed, w.before, PermissionDoc(w.before.Rev(), payload), w.end, w.puts, w.at, after)
      && (w.end.Broken? <==> failures > failuresBefore)
    }

    /** The load of a protocol instance after this response of the database. */
    ghost function AsLoading(memory: Option<Config>, response: LoadResponse): Backend
    {
      NEW_BACKEND.(memory := memory,
                   load := match response
                           case Found(payload) => Loaded(PermissionDoc(0, payload))
                           case NotFound => Missing
                           case Failed => Loading)
    }

    /**
     * One request of the startup load: true when the load is over. Up to the write-back it is the
     * protocol's step.
     */
    method TryLoad(
      db: PermissionDb, attempt: Attempt)
      returns (loaded: bool, ghost writeBack: Option<FinishedWriteBack>)
      requires permission == None
      modifies this`permission, db
      ensures loaded == Succeeds(attempt.response)
      ensures permission == if loaded then FirstInstalled(attempt) else attempt.during
      ensures var after :=
              LocalStep(ProtocolParams(), Store([]), AsLoading(attempt.during, attempt.response), LoadApply);
              && (loaded <==> after.load.Finished?)
              && permission
                 == (if FoundConfig(attempt.response) then Latest(after.memory, attempt.waiting) else after.memory)
      ensures old(db.store.versions) <= db.store.versions
      ensures writeBack.Some? <==> FoundConfig(attempt.response)
      ensures writeBack.None? ==> db.failures == old(db.failures)
      ensures writeBack.Some? ==>
              WroteBack(writeBack.value, attempt.response.payload, db.store, old(db.failures), db.failures)
    {
      FeedInstalls(attempt.during);
      writeBack := None;
      var answered := ServeLoad(db, attempt.response);
      if attempt.response.NotFound? {
        EnterBootstrapMode();
        return true, writeBack;
      }
      if attempt.response.Failed? || attempt.response.payload.NoConfig? {
        return false, writeBack;
      }
      if permission.None? {
        SetPermission(attempt.response.payload.config);
      }
      ghost var before := db.store;
      var end, puts;
      ghost var at, requests;
      end, puts, at, requests := EnsureManagedDefaults(db, answered.value);
      FeedInstalls(attempt.waiting);
      return true, Some(FinishedWriteBack(before, end, puts, at));
    }

    /** The database answers the load: others have changed the document until it is as the response says. */
    method ServeLoad(db: PermissionDb, response: LoadResponse) returns (doc: Option<PermissionDoc>)
      modifies db`store
      ensures old(db.store.versions) <= db.store.versions
      ensures response.Found? ==>
              db.store.Content() == Some(response.payload)
                && doc == Some(PermissionDoc(db.store.Rev(), response.payload))
      ensures response.NotFound? ==> db.store.Content() == None && doc == None
    {
      ghost var others := db.Interfere();
      doc := None;
      if response.Found? {
        if db.store.Content() != Some(response.payload) {
          db.store := db.store.Changed(Some(response.payload));
        }
        doc := Some(PermissionDoc(db.store.Rev(), response.payload));
      } else if response.NotFound? && db.store.Content().Some? {
        db.store := db.store.Changed(None);
      }
    }

    /** Wait for the delay, unless the feed has brought a configuration before or brings one meanwhile. */
    method WaitForNextRetry(waiting: Option<Config>) returns (arrived: bool)
      modifies this`permission
      ensures permission == if old(permission).Some? then old(permission) else waiting
      ensures arrived
              <==> LocalStep(ProtocolParams(), Store([]), AsLoading(permission, Failed), LoadNoticed).load.Finished?
      ensures arrived <==> permission.Some?
    {
      if permission.Some? {
        return true;
      }
      FeedInstalls(waiting);
      return permission.Some?;
    }

    /** The write-back loop: it ends as specified, and its requests take the store to where it is then. */
    method EnsureManagedDefaults(db: PermissionDb, fetched: PermissionDoc)
      returns (end: WriteBackEnd, puts: nat, ghost at: nat, ghost requests: seq<Request>)
      requires IsVersion(db.store, fetched)
      modifies db
      ensures EndsAs(managed, old(db.store), fetched, end, puts, at, db.store)
      ensures managed != [] && (end.Written? || end.UpToDate?) ==> ManagedAt(managed, end, at, db.store)
      ensures end.Broken? <==> db.failures > old(db.failures)
      ensures AfterRequests(managed, WriteState(old(db.store), Some(Putting(0, fetched))), requests)
              == WriteState(db.store, None)
    {
      var doc := fetched;
      var attempt := 0;
      ghost var start := WriteState(db.store, Some(Putting(0, fetched)));
      puts, at, requests := 0, fetched.rev, [];
      while attempt < 3
        invariant attempt <= 2 && puts == attempt && at == doc.rev && db.failures == old(db.failures)
        invariant old(db.store.versions) <= db.store.versions && IsVersion(db.store, doc)
        invariant attempt == 0 ==> doc == fetched && db.store == old(db.store)
        invariant attempt > 0 ==> !NeedsNone(managed, Some(fetched.payload))
        invariant AfterRequests(managed, start, requests) == WriteState(db.store, Some(Putting(attempt, doc)))
      {
        var attempted: Option<WriteBackEnd>;
        var next: PermissionDoc;
        attempted, next, requests := WriteOrRefetch(db, doc, attempt, start, requests);
        if attempted != Some(UpToDate) {
          puts := puts + 1;
        }
        if attempted.Some? {
          return attempted.value, puts, at, requests;
        }
        doc, at := next, next.rev;
        attempt := attempt + 1;
      }
      assert false;
    }

    /** One turn of the loop: it ends the write-back, or brings the document for the next attempt. */
    method WriteOrRefetch(
      db: PermissionDb, doc: PermissionDoc, attempt: nat, ghost start: WriteState, ghost requests: seq<Request>)
      returns (end: Option<WriteBackEnd>, next: PermissionDoc, ghost more: seq<Request>)
      requires IsVersion(db.store, doc) && attempt <= 2
      requires AfterRequests(managed, start, requests) == WriteState(db.store, Some(Putting(attempt, doc)))
      modifies db
      ensures old(db.store.versions) <= db.store.versions
      ensures end == Some(UpToDate) <==> NeedsNone(managed, Some(doc.payload))
      ensures end == Some(UpToDate) ==> db.store == old(db.store)
      ensures end == Some(Written) ==>
                doc.rev < |db.store.versions|
                  && IsWriteBack(managed, db.store.versions[doc.rev - 1], db.store.versions[doc.rev])
      ensures managed != [] && (end == Some(Written) || end == Some(UpToDate)) ==>
                ManagedAt(managed, end.value, doc.rev, db.store)
      ensures end == Some(GaveUp) ==> attempt == 2
      ensures db.failures == old(db.failures) + (if end == Some(Broken) then 1 else 0)
      ensures end.None? ==> attempt < 2 && IsVersion(db.store, next)
      ensures AfterRequests(managed, start, more)
              == WriteState(db.store, if end.None? then Some(Putting(attempt + 1, next)) else None)
    {
      next := doc;
      var attempted: AttemptEnd;
      attempted, more := WriteManagedDefaults(db, doc, attempt, start, requests);
      if attempted.Needless? {
        if managed != [] {
          EndIsManaged(managed, UpToDate, doc.rev, db.store);
        }
        return Some(UpToDate), next, more;
      }
      if attempted.outcome.Accepted? {
        EndIsManaged(managed, Written, doc.rev, db.store);
        return Some(Written), next, more;
      }
      if attempted.outcome.Unavailable? {
        return Some(Broken), next, more;
      }
      if attempt == 2 {
        return Some(GaveUp), next, more;
      }
      var again: Option<PermissionDoc>;
      again, more := RefetchDoc(db, attempt + 1, start, more);
      if again.None? {
        return Some(Broken), next, more;
      }
      return None, again.value, more;
    }

    /** The document for the next attempt, if it can be fetched. */
    method RefetchDoc(db: PermissionDb, attempt: nat, ghost start: WriteState, ghost requests: seq<Request>)
      returns (again: Option<PermissionDoc>, ghost more: seq<Request>)
      requires AfterRequests(managed, start, requests) == WriteState(db.store, Some(Refetching(attempt)))
      modifies db
      ensures old(db.store.versions) <= db.store.versions
      ensures again.Some? ==> IsVersion(db.store, again.value)
      ensures db.failures == old(db.failures) + (if again.None? then 1 else 0)
      ensures AfterRequests(managed, start, more)
              == WriteState(db.store, if again.Some? then Some(Putting(attempt, again.value)) else None)
    {
      ghost var others;
      again, others := db.Fetch();
      more := FetchRun(managed, start, requests, attempt, others, again);
    }

    /** One attempt: nothing to write, or a PUT of the merge with its outcome. */
    method WriteManagedDefaults(
      db: PermissionDb, doc: PermissionDoc, attempt: nat, ghost start: WriteState, ghost requests: seq<Request>)
      returns (end: AttemptEnd, ghost more: seq<Request>)
      requires IsVersion(db.store, doc)
      requires AfterRequests(managed, start, requests) == WriteState(db.store, Some(Putting(attempt, doc)))
      modifies db
      ensures old(db.store.versions) <= db.store.versions
      ensures end.Needless? <==> NeedsNone(managed, Some(doc.payload))
      ensures end.Needless? ==> db.store == old(db.store)
      ensures end.Tried? && end.outcome.Accepted? ==>
                doc.rev < |db.store.versions|
                  && IsWriteBack(managed, db.store.versions[doc.rev - 1], db.store.versions[doc.rev])
      ensures db.failures == old(db.failures) + (if end.Tried? && end.outcome.Unavailable? then 1 else 0)
      ensures AfterRequests(managed, start, more)
           == WriteState(db.store, if end.Tried? && end.outcome.Conflict? && attempt < 2
             then Some(Refetching(attempt + 1)) else None)
    {
      if doc.payload.NoConfig? || WriteBack(managed, doc.payload.config).None? {
        RequestsSnoc(managed, start, requests, Request.Attempt);
        return Needless, requests + [Request.Attempt];
      }
      var outcome: PutOutcome;
      ghost var others;
      outcome, others := db.Write(PermissionDoc(doc.rev, Data(WriteBack(managed, doc.payload.config).value)));
      more := PutRun(managed, start, requests, attempt, doc, others, outcome, db.store);
      assert old(db.store.versions)[doc.rev - 1] == Some(doc.payload);
      return Tried(outcome), more;
    }
  }

  datatype AttemptEnd = Needless | Tried(outcome: PutOutcome)

  /** What is known of a write-back that was waited for. */
  datatype FinishedWriteBack = FinishedWriteBack(before: Store, end: WriteBackEnd, puts: nat, at: nat)

  /** A response with a valid configuration. */
  predicate FoundConfig(r: LoadResponse) {
    r.Found? && r.payload.Data?
  }

  /** A cache that is kept because the texts are the same stays coherent: the configurations are the same. */
  lemma ReplacedCoherent(inject: (Rule, User) -> Rule, previous: Option<Config>, current: Config, cache: Cache)
    requires previous.None? ==> cache == map[]
    requires Coherent(inject, previous, cache)
    ensures Coherent(inject, Some(current), if previous.None? || Serialized(previous.value) == Serialized(current)
            then cache else map[])
  {
    if previous.Some? && Serialized(previous.value) == Serialized(current) {
      SerializedInjective(previous.value, current);
    }
  }

  lemma BootstrapHasNoLegacyKeys()
    ensures Get(BOOTSTRAP_PERMISSIONS, LEGACY_DEFAULT_KEY).None? && Get(BOOTSTRAP_PERMISSIONS, LEGACY_PUBLIC_KEY).None?
  {
    assert BOOTSTRAP_PERMISSIONS[1..] == [];
  }
}
