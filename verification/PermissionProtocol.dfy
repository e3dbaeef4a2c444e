/**
 * The permission configuration as a distributed protocol (src/permissions/rules/rules.service.ts):
 * any number of backend instances share one stored document, load it, follow its changes, write the
 * managed defaults back with compare-and-swap, and serve requests from a derived ability cache. Every
 * asynchronous step is an event of its own, so all interleavings are runs.
 */
module PermissionProtocol {
  import opened Wrappers
  import opened JsObject
  import opened RulesConfig
  import opened ConfigText
  import opened AbilityCache

  /** `doc.data`: a configuration object, or something that does not validate as one. */
  datatype Payload = NoConfig | Data(config: Config)

  datatype PermissionDoc = PermissionDoc(rev: nat, payload: Payload)

  /** Every version the document ever had, deletions included; the last one is stored now. */
  datatype Store = Store(versions: seq<Option<Payload>>) {
    function Rev(): nat {
      |versions|
    }

    function Content(): Option<Payload> {
      if versions == [] then None else versions[|versions| - 1]
    }

    function Changed(content: Option<Payload>): Store {
      Store(versions + [content])
    }
  }

  /** One running `ensureManagedDefaults`: about to PUT, or about to fetch again after a conflict. */
  datatype Writer = Putting(attempt: nat, doc: PermissionDoc) | Refetching(attempt: nat)

  /** The serialized handler of the changes feed. */
  datatype Handler = Idle | Fetching | Fetched(doc: PermissionDoc)

  /** The initial load. */
  datatype Load = Loading | Loaded(doc: PermissionDoc) | Missing | Finished

  /** How the last processed permission event ended. */
  datatype Outcome = Nothing | Applied | Removed | Kept

  datatype Backend = Backend(
    memory: Option<Config>,
    load: Load,
    /** the feed has fixed its start; earlier changes of the document cause no event */
    connected: bool,
    /** the feed was connected when the load last fetched */
    covered: bool,
    /** the document changed since the feed last reported it */
    changed: bool,
    /** reported events not yet handled; true for a deletion */
    queue: seq<bool>,
    handler: Handler,
    writers: seq<Writer>,
    cache: Cache,
    last: Outcome,
    /** a deletion was processed and no update has succeeded since */
    closed: bool)

  datatype System = System(store: Store, backends: seq<Backend>, edits: nat, puts: nat, putsSinceEdit: nat)

  datatype Params = Params(managed: seq<Rule>, inject: (Rule, User) -> Rule)

  datatype Action =
    | Connect | Deliver | TakeEvent | FetchDoc(ok: bool) | ApplyFetched
    | LoadFetch | LoadApply | LoadNoticed
    | Drop(w: nat) | Refetch(w: nat)
    | Serve(user: Option<User>)

  datatype Event = Edit(content: Option<Payload>) | Put(i: nat, w: nat) | Local(i: nat, action: Action)

  // ---------------------------------------------------------------- steps

  /** The cache after the configuration in memory is replaced: kept when there was none or its JSON text is the same. */
  function Invalidated(b: Backend, config: Config): Cache {
    if b.memory.None? || Serialized(b.memory.value) == Serialized(config) then b.cache else map[]
  }

  function WithoutWriter(b: Backend, w: nat): Backend
    requires w < |b.writers|
  {
    b.(writers := b.writers[..w] + b.writers[w + 1..])
  }

  function Install(b: Backend, doc: PermissionDoc): Backend
    requires doc.payload.Data?
  {
    b.(writers := b.writers + [Putting(0, doc)])
  }

  /** The feed reports that the document changed, and whether it is gone. */
  function AfterDeliver(store: Store, b: Backend): Backend {
    if b.connected && b.changed then b.(changed := false, queue := b.queue + [store.Content().None?]) else b
  }

  /** The handler takes a reported event: a deletion is applied at once, anything else is fetched. */
  function AfterTakeEvent(b: Backend): Backend {
    if !b.handler.Idle? || b.queue == [] then b
    else if b.queue[0] then
      b.(queue := b.queue[1..], memory := Some(BOOTSTRAP_PERMISSIONS), cache := Invalidated(b, BOOTSTRAP_PERMISSIONS),
         last := Removed, closed := true)
    else b.(queue := b.queue[1..], handler := Fetching)
  }

  function AfterFetchDoc(store: Store, b: Backend, ok: bool): Backend {
    if !b.handler.Fetching? then b
    else if ok && store.Content().Some? then b.(handler := Fetched(PermissionDoc(store.Rev(), store.Content().value)))
    else b.(handler := Idle, last := Kept)
  }

  /** The fetched document replaces the configuration, and its write-back starts. */
  function AfterApplyFetched(b: Backend): Backend {
    if !b.handler.Fetched? then b
    else if b.handler.doc.payload.NoConfig? then b.(handler := Idle, last := Kept)
    else
      var config := Normalize(b.handler.doc.payload.config);
      Install(b.(handler := Idle, last := Applied, closed := false, memory := Some(config), cache :=
        Invalidated(b, config)),
              b.handler.doc)
  }

  function AfterLoadFetch(store: Store, b: Backend): Backend {
    if !b.load.Loading? then b
    else if store.Content().Some? then
      b.(load := Loaded(PermissionDoc(store.Rev(), store.Content().value)), covered := b.connected)
    else b.(load := Missing, covered := b.connected)
  }

  /** The loaded document is used unless the feed was faster; an invalid one is loaded again. */
  function AfterLoadApply(b: Backend): Backend {
    match b.load
    case Loaded(doc) =>
      if doc.payload.NoConfig? then b.(load := Loading)
      else Install(b.(load := Finished, memory := if b.memory.None? then Some(Normalize(doc.payload.config))
        else b.memory), doc)
    case Missing => b.(load := Finished, memory := if b.memory.None? then Some(BOOTSTRAP_PERMISSIONS) else b.memory)
    case _ => b
  }

  function AfterLoadNoticed(b: Backend): Backend {
    if b.load.Loading? && b.memory.Some? then b.(load := Finished) else b
  }

  function AfterDrop(b: Backend, w: nat): Backend {
    if w < |b.writers| then WithoutWriter(b, w) else b
  }

  function AfterRefetch(store: Store, b: Backend, w: nat): Backend {
    if w >= |b.writers| || !b.writers[w].Refetching? then b
    else if store.Content().None? then WithoutWriter(b, w)
    else b.(writers := b.writers[w := Putting(b.writers[w].attempt, PermissionDoc(store.Rev(), store.Content().value))])
  }

  function AfterServe(p: Params, b: Backend, user: Option<User>): Backend {
    if b.load.Finished? then b.(cache := Served(p.inject, b.memory, b.cache, user)) else b
  }

  function LocalStep(p: Params, store: Store, b: Backend, a: Action): Backend {
    match a
    case Connect => b.(connected := true)
    case Deliver => AfterDeliver(store, b)
    case TakeEvent => AfterTakeEvent(b)
    case FetchDoc(ok) => AfterFetchDoc(store, b, ok)
    case ApplyFetched => AfterApplyFetched(b)
    case LoadFetch => AfterLoadFetch(store, b)
    case LoadApply => AfterLoadApply(b)
    case LoadNoticed => AfterLoadNoticed(b)
    case Drop(w) => AfterDrop(b, w)
    case Refetch(w) => AfterRefetch(store, b, w)
    case Serve(user) => AfterServe(p, b, user)
  }

  function Notice(b: Backend): Backend {
    if b.connected then b.(changed := true) else b
  }

  function NoticeAll(backends: seq<Backend>): (r: seq<Backend>)
    ensures |r| == |backends| && forall i :: 0 <= i < |r| ==> r[i] == Notice(backends[i])
  {
    if backends == [] then [] else [Notice(backends[0])] + NoticeAll(backends[1..])
  }

  /** One PUT attempt: nothing to write, accepted on the current revision, or a conflict. */
  function PutStep(p: Params, s: System, i: nat, w: nat): System
    requires i < |s.backends| && w < |s.backends[i].writers| && s.backends[i].writers[w].Putting?
  {
    var b := s.backends[i];
    var Putting(attempt, doc) := b.writers[w];
    var data := if doc.payload.NoConfig? then None else WriteBack(p.managed, doc.payload.config);
    var done := s.backends[i := WithoutWriter(b, w)];
    if data.None? then s.(backends := done)
    else if s.store.Content().Some? && s.store.Rev() == doc.rev then
      System(s.store.Changed(Some(Data(data.value))), NoticeAll(done), s.edits, s.puts + 1, s.putsSinceEdit + 1)
    else if attempt < 2 then
      s.(backends := s.backends[i := b.(writers := b.writers[w := Refetching(attempt + 1)])])
    else s.(backends := done)
  }

  function Step(p: Params, s: System, e: Event): System {
    match e
    case Edit(content) => System(s.store.Changed(content), NoticeAll(s.backends), s.edits + 1, s.puts, 0)
    case Put(i, w) =>
      if i < |s.backends| && w < |s.backends[i].writers| && s.backends[i].writers[w].Putting? then PutStep(p, s, i, w)
        else s
    case Local(i, a) =>
      if i < |s.backends| then s.(backends := s.backends[i := LocalStep(p, s.store, s.backends[i], a)]) else s
  }

  function Run(p: Params, s: System, events: seq<Event>): System {
    if events == [] then s else Step(p, Run(p, s, events[..|events| - 1]), events[|events| - 1])
  }

  const NEW_BACKEND := Backend(None, Loading, false, false, false, [], Idle, [], map[], Nothing, false)

  /** Instances that start together on any stored document. */
  ghost predicate Initial(s: System) {
    s.edits == 0 && s.puts == 0 && s.putsSinceEdit == 0 && forall i :: 0 <= i < |s.backends| ==>
      s.backends[i] == NEW_BACKEND
  }

  // ---------------------------------------------------------------- invariants

  /** A held copy is the version its revision names; so a copy of the current revision is the stored content. */
  predicate IsVersion(store: Store, doc: PermissionDoc) {
    1 <= doc.rev <= |store.versions| && store.versions[doc.rev - 1] == Some(doc.payload)
  }

  /** `config` is the normalization of a configuration that was stored at some time. */
  ghost predicate FromStore(store: Store, config: Config) {
    exists k, c :: 0 <= k < |store.versions| && store.versions[k] == Some(Data(c)) && config == Normalize(c)
  }

  predicate WriterOk(store: Store, w: Writer) {
    w.attempt <= 2 && (w.Putting? ==> IsVersion(store, w.doc))
  }

  /** Copies of the document held by an instance. */
  ghost predicate HeldOk(store: Store, b: Backend) {
    && (b.load.Loaded? ==> IsVersion(store, b.load.doc))
    && (b.handler.Fetched? ==> IsVersion(store, b.handler.doc))
    && (forall i :: 0 <= i < |b.writers| ==> WriterOk(store, b.writers[i]))
  }

  /** Every change of the document has been reported and taken from the queue. */
  predicate CaughtUp(b: Backend) {
    b.connected && !b.changed && b.queue == []
  }

  /** `memory` is what the stored document says. */
  predicate Agrees(store: Store, memory: Option<Config>) {
    match store.Content()
    case None => memory == Some(BOOTSTRAP_PERMISSIONS)
    case Some(payload) => payload.Data? && memory == Some(Normalize(payload.config))
  }

  /** Nothing has happened to the document since the load fetched it. */
  predicate LoadUpToDate(store: Store, b: Backend) {
    && (b.load.Loaded? ==> b.load.doc.rev == store.Rev())
    && (b.load.Missing? ==> store.Content().None?)
    && (b.load.Finished? ==> Agrees(store, b.memory))
  }

  /** The load is all this instance goes by, and the feed would have reported any change since. */
  predicate OnlyLoaded(b: Backend) {
    CaughtUp(b) && b.handler.Idle? && b.last.Nothing? && b.covered
  }

  /** What the feed has brought, once it has caught up. */
  ghost predicate FeedOk(store: Store, b: Backend) {
    && (!b.connected ==> !b.changed && b.queue == [] && b.handler.Idle? && b.last.Nothing?)
    && (b.connected && !b.changed && b.queue != [] ==> b.queue[|b.queue| - 1] == store.Content().None?)
    && (CaughtUp(b) && b.handler.Fetched? ==> b.handler.doc.rev == store.Rev())
    && (CaughtUp(b) && b.handler.Idle? && b.last.Applied? ==>
          store.Content().Some? && store.Content().value.Data?
            && b.memory == Some(Normalize(store.Content().value.config)))
    && (CaughtUp(b) && b.handler.Idle? && b.last.Removed? ==>
       store.Content().None? && b.memory == Some(BOOTSTRAP_PERMISSIONS))
    && (OnlyLoaded(b) ==> LoadUpToDate(store, b))
    && (b.covered ==> b.connected)
  }

  /** Where the configuration in memory comes from. */
  ghost predicate MemoryOk(store: Store, b: Backend) {
    && (b.memory.None? || b.memory == Some(BOOTSTRAP_PERMISSIONS) || FromStore(store, b.memory.value))
    && (b.closed ==> b.memory == Some(BOOTSTRAP_PERMISSIONS))
    && (b.last.Removed? ==> b.closed)
    && (b.last.Applied? ==> b.memory.Some?)
    && (b.load.Finished? ==> b.memory.Some?)
    && (b.last.Nothing? && !b.load.Finished? ==> b.memory.None?)
  }

  ghost predicate CacheOk(p: Params, b: Backend) {
    && (!b.load.Finished? ==> b.cache == map[])
    && Coherent(p.inject, b.memory, b.cache)
    && |b.cache| <= ABILITY_CACHE_MAX_ENTRIES
  }

  ghost predicate BackendOk(p: Params, store: Store, b: Backend) {
    HeldOk(store, b) && FeedOk(store, b) && MemoryOk(store, b) && CacheOk(p, b)
  }

  ghost predicate SystemOk(p: Params, s: System) {
    && (forall i :: 0 <= i < |s.backends| ==> BackendOk(p, s.store, s.backends[i]))
    && s.putsSinceEdit <= 1 && s.puts <= s.edits + s.putsSinceEdit
    && (s.putsSinceEdit == 1 ==>
          s.store.Content().Some? && s.store.Content().value.Data?
            && WriteBack(p.managed, s.store.Content().value.config) == None)
  }

  // ---------------------------------------------------------------- every step keeps them

  /** Equal texts mean equal configurations, so a cache that is kept stays coherent. */
  lemma InvalidatedOk(p: Params, b: Backend, config: Config)
    requires CacheOk(p, b) && (b.memory.None? ==> b.cache == map[])
    ensures CacheOk(p, b.(memory := Some(config), cache := Invalidated(b, config)))
  {
    if b.memory.Some? && Serialized(b.memory.value) == Serialized(config) {
      SerializedInjective(b.memory.value, config);
    }
  }

  /** What depends on the configuration in memory only through fields that stay. */
  lemma CacheSame(p: Params, b: Backend, after: Backend)
    requires CacheOk(p, b) && after.memory == b.memory && after.cache == b.cache
            && (b.load.Finished? ==> after.load.Finished?)
    ensures CacheOk(p, after)
  {
  }

  lemma MemorySame(store: Store, b: Backend, after: Backend)
    requires MemoryOk(store, b)
    requires after.memory == b.memory && after.closed == b.closed && after.last == b.last
            && after.load.Finished? == b.load.Finished?
    ensures MemoryOk(store, after)
  {
  }

  lemma DeliverOk(p: Params, store: Store, b: Backend)
    requires BackendOk(p, store, b)
    ensures BackendOk(p, store, AfterDeliver(store, b))
  {
    CacheSame(p, b, AfterDeliver(store, b));
    MemorySame(store, b, AfterDeliver(store, b));
  }

  lemma ConnectOk(p: Params, store: Store, b: Backend)
    requires BackendOk(p, store, b)
    ensures BackendOk(p, store, b.(connected := true))
  {
    CacheSame(p, b, b.(connected := true));
    MemorySame(store, b, b.(connected := true));
  }

  lemma FetchDocOk(p: Params, store: Store, b: Backend, ok: bool)
    requires BackendOk(p, store, b)
    ensures BackendOk(p, store, AfterFetchDoc(store, b, ok))
  {
    CacheSame(p, b, AfterFetchDoc(store, b, ok));
  }

  lemma TakeEventFeed(store: Store, b: Backend)
    requires FeedOk(store, b) && MemoryOk(store, b)
    ensures FeedOk(store, AfterTakeEvent(b))
  {
    if b.handler.Idle? && b.queue != [] {
      var rest := b.queue[1..];
      assert rest == [] ==> b.queue[0] == b.queue[|b.queue| - 1];
      assert rest != [] ==> rest[|rest| - 1] == b.queue[|b.queue| - 1];
    }
  }

  lemma TakeEventHeld(store: Store, b: Backend)
    requires HeldOk(store, b)
    ensures HeldOk(store, AfterTakeEvent(b))
  {
  }

  lemma TakeEventMemory(store: Store, b: Backend)
    requires FeedOk(store, b) && MemoryOk(store, b)
    ensures MemoryOk(store, AfterTakeEvent(b))
  {
  }

  lemma TakeEventCache(p: Params, store: Store, b: Backend)
    requires CacheOk(p, b) && MemoryOk(store, b)
    ensures CacheOk(p, AfterTakeEvent(b))
  {
    if b.handler.Idle? && b.queue != [] && b.queue[0] {
      InvalidatedOk(p, b, BOOTSTRAP_PERMISSIONS);
      CacheSame(p, b.(memory := Some(BOOTSTRAP_PERMISSIONS), cache := Invalidated(b, BOOTSTRAP_PERMISSIONS)),
        AfterTakeEvent(b));
    } else {
      CacheSame(p, b, AfterTakeEvent(b));
    }
  }

  lemma TakeEventOk(p: Params, store: Store, b: Backend)
    requires BackendOk(p, store, b)
    ensures BackendOk(p, store, AfterTakeEvent(b))
  {
    TakeEventHeld(store, b);
    TakeEventFeed(store, b);
    TakeEventMemory(store, b);
    TakeEventCache(p, store, b);
  }

  lemma ApplyFetchedFeed(store: Store, b: Backend)
    requires HeldOk(store, b) && FeedOk(store, b)
    ensures HeldOk(store, AfterApplyFetched(b)) && FeedOk(store, AfterApplyFetched(b))
  {
  }

  lemma ApplyFetchedMemory(store: Store, b: Backend)
    requires HeldOk(store, b) && MemoryOk(store, b)
    ensures MemoryOk(store, AfterApplyFetched(b))
  {
    if b.handler.Fetched? && b.handler.doc.payload.Data? {
      assert store.versions[b.handler.doc.rev - 1] == Some(Data(b.handler.doc.payload.config));
    }
  }

  lemma ApplyFetchedCache(p: Params, store: Store, b: Backend)
    requires CacheOk(p, b) && MemoryOk(store, b)
    ensures CacheOk(p, AfterApplyFetched(b))
  {
    var after := AfterApplyFetched(b);
    if b.handler.Fetched? && b.handler.doc.payload.Data? {
      var config := Normalize(b.handler.doc.payload.config);
      InvalidatedOk(p, b, config);
      CacheSame(p, b.(memory := Some(config), cache := Invalidated(b, config)), after);
    } else {
      CacheSame(p, b, after);
    }
  }

  lemma ApplyFetchedOk(p: Params, store: Store, b: Backend)
    requires BackendOk(p, store, b)
    ensures BackendOk(p, store, AfterApplyFetched(b))
  {
    ApplyFetchedFeed(store, b);
    ApplyFetchedMemory(store, b);
    ApplyFetchedCache(p, store, b);
  }

  lemma LoadFetchOk(p: Params, store: Store, b: Backend)
    requires BackendOk(p, store, b)
    ensures BackendOk(p, store, AfterLoadFetch(store, b))
  {
    CacheSame(p, b, AfterLoadFetch(store, b));
    MemorySame(store, b, AfterLoadFetch(store, b));
  }

  lemma LoadApplyHeld(store: Store, b: Backend)
    requires HeldOk(store, b)
    ensures HeldOk(store, AfterLoadApply(b))
  {
  }

  lemma LoadApplyFeed(store: Store, b: Backend)
    requires HeldOk(store, b) && FeedOk(store, b) && MemoryOk(store, b)
    ensures FeedOk(store, AfterLoadApply(b))
  {
  }

  lemma LoadApplyMemory(store: Store, b: Backend)
    requires HeldOk(store, b) && MemoryOk(store, b)
    ensures MemoryOk(store, AfterLoadApply(b))
  {
    if b.load.Loaded? && b.load.doc.payload.Data? {
      assert store.versions[b.load.doc.rev - 1] == Some(Data(b.load.doc.payload.config));
    }
  }

  lemma LoadApplyCache(p: Params, b: Backend)
    requires CacheOk(p, b)
    ensures CacheOk(p, AfterLoadApply(b))
  {
    if b.load.Finished? || !AfterLoadApply(b).load.Finished? {
      CacheSame(p, b, AfterLoadApply(b));
    }
  }

  lemma LoadApplyOk(p: Params, store: Store, b: Backend)
    requires BackendOk(p, store, b)
    ensures BackendOk(p, store, AfterLoadApply(b))
  {
    LoadApplyHeld(store, b);
    LoadApplyFeed(store, b);
    LoadApplyMemory(store, b);
    LoadApplyCache(p, b);
  }

  lemma LoadNoticedOk(p: Params, store: Store, b: Backend)
    requires BackendOk(p, store, b)
    ensures BackendOk(p, store, AfterLoadNoticed(b))
  {
    CacheSame(p, b, AfterLoadNoticed(b));
  }

  /** A step of a write-back touches nothing but the write-backs. */
  lemma WritersOnly(p: Params, store: Store, b: Backend, writers: seq<Writer>)
    requires BackendOk(p, store, b) && forall i :: 0 <= i < |writers| ==> WriterOk(store, writers[i])
    ensures BackendOk(p, store, b.(writers := writers))
  {
    CacheSame(p, b, b.(writers := writers));
    MemorySame(store, b, b.(writers := writers));
  }

  lemma DropOk(p: Params, store: Store, b: Backend, w: nat)
    requires BackendOk(p, store, b)
    ensures BackendOk(p, store, AfterDrop(b, w))
  {
    DropHeld(store, b, w);
    WritersOnly(p, store, b, AfterDrop(b, w).writers);
  }

  lemma DropHeld(store: Store, b: Backend, w: nat)
    requires HeldOk(store, b)
    ensures HeldOk(store, AfterDrop(b, w)) && AfterDrop(b, w) == b.(writers := AfterDrop(b, w).writers)
  {
  }

  lemma RefetchOk(p: Params, store: Store, b: Backend, w: nat)
    requires BackendOk(p, store, b)
    ensures BackendOk(p, store, AfterRefetch(store, b, w))
  {
    RefetchHeld(store, b, w);
    WritersOnly(p, store, b, AfterRefetch(store, b, w).writers);
  }

  lemma RefetchHeld(store: Store, b: Backend, w: nat)
    requires HeldOk(store, b)
    ensures HeldOk(store, AfterRefetch(store, b, w))
            && AfterRefetch(store, b, w) == b.(writers := AfterRefetch(store, b, w).writers)
  {
    DropHeld(store, b, w);
    assert w < |b.writers| ==> WriterOk(store, b.writers[w]);
  }

  lemma ServeOk(p: Params, store: Store, b: Backend, user: Option<User>)
    requires BackendOk(p, store, b)
    ensures BackendOk(p, store, AfterServe(p, b, user))
  {
    MemorySame(store, b, AfterServe(p, b, user));
    ServedCoherent(p.inject, b.memory, b.cache, user);
  }

  lemma LocalStepOk(p: Params, store: Store, b: Backend, a: Action)
    requires BackendOk(p, store, b)
    ensures BackendOk(p, store, LocalStep(p, store, b, a))
  {
    match a
    case Connect => ConnectOk(p, store, b);
    case Deliver => DeliverOk(p, store, b);
    case TakeEvent => TakeEventOk(p, store, b);
    case FetchDoc(ok) => FetchDocOk(p, store, b, ok);
    case ApplyFetched => ApplyFetchedOk(p, store, b);
    case LoadFetch => LoadFetchOk(p, store, b);
    case LoadApply => LoadApplyOk(p, store, b);
    case LoadNoticed => LoadNoticedOk(p, store, b);
    case Drop(w) => DropOk(p, store, b, w);
    case Refetch(w) => RefetchOk(p, store, b, w);
    case Serve(user) => ServeOk(p, store, b, user);
  }

  /** A change of the store leaves every instance with outdated copies and an unreported change. */
  lemma NoticeOk(p: Params, store: Store, b: Backend, content: Option<Payload>)
    requires BackendOk(p, store, b)
    ensures BackendOk(p, store.Changed(content), Notice(b))
  {
    var after, now := Notice(b), store.Changed(content);
    assert forall k :: 0 <= k < |store.versions| ==> now.versions[k] == store.versions[k];
    if b.memory.Some? && FromStore(store, b.memory.value) {
      var k, c :| 0 <= k < |store.versions| && store.versions[k] == Some(Data(c)) && b.memory.value == Normalize(c);
      assert now.versions[k] == Some(Data(c));
    }
    assert HeldOk(now, after);
    assert FeedOk(now, after);
    assert MemoryOk(now, after);
  }

  lemma PutAcceptedOk(p: Params, s: System, i: nat, w: nat)
    requires AllMarked(p.managed) && SystemOk(p, s)
    requires i < |s.backends| && w < |s.backends[i].writers| && s.backends[i].writers[w].Putting?
    requires PutStep(p, s, i, w).puts > s.puts
    ensures SystemOk(p, PutStep(p, s, i, w)) && SafePut(p, s.store, PutStep(p, s, i, w).store)
  {
    var b := s.backends[i];
    var doc, content := b.writers[w].doc, PutStep(p, s, i, w).store.Content();
    assert WriterOk(s.store, b.writers[w]);
    assert s.store.Content() == Some(doc.payload);
    WriteBackSafe(p.managed, doc.payload.config);
    DropOk(p, s.store, b, w);
    var done := s.backends[i := WithoutWriter(b, w)];
    forall k | 0 <= k < |done| ensures BackendOk(p, s.store.Changed(content), Notice(done[k])) {
      NoticeOk(p, s.store, done[k], content);
    }
  }

  lemma PutRefusedOk(p: Params, s: System, i: nat, w: nat)
    requires SystemOk(p, s)
    requires i < |s.backends| && w < |s.backends[i].writers| && s.backends[i].writers[w].Putting?
    requires PutStep(p, s, i, w).puts == s.puts
    ensures SystemOk(p, PutStep(p, s, i, w))
  {
    var b := s.backends[i];
    DropOk(p, s.store, b, w);
    var after := PutStep(p, s, i, w);
    var again := b.(writers := b.writers[w := Refetching(b.writers[w].attempt + 1)]);
    assert WriterOk(s.store, b.writers[w]);
    assert b.writers[w].attempt < 2 ==> HeldOk(s.store, again);
    assert after.store == s.store && after.puts == s.puts && after.edits == s.edits
      && after.putsSinceEdit == s.putsSinceEdit;
    assert after.backends[i] == WithoutWriter(b, w) || (b.writers[w].attempt < 2 && after.backends[i] == again);
    assert BackendOk(p, s.store, after.backends[i]);
  }

  lemma PutStepOk(p: Params, s: System, i: nat, w: nat)
    requires AllMarked(p.managed) && SystemOk(p, s)
    requires i < |s.backends| && w < |s.backends[i].writers| && s.backends[i].writers[w].Putting?
    ensures SystemOk(p, PutStep(p, s, i, w))
    ensures PutStep(p, s, i, w).puts > s.puts ==> SafePut(p, s.store, PutStep(p, s, i, w).store)
  {
    if PutStep(p, s, i, w).puts > s.puts {
      PutAcceptedOk(p, s, i, w);
    } else {
      PutRefusedOk(p, s, i, w);
    }
  }

  /**
   * A successful write-back: it replaces the stored configuration by one with the managed rules in
   * front and the same unmarked default rules and other sections, where no further write-back applies.
   */
  ghost predicate SafePut(p: Params, before: Store, after: Store) {
    && before.Content().Some? && before.Content().value.Data? && after.Content().Some? && after.Content().value.Data?
    && var data, w := before.Content().value.config, after.Content().value.config;
       && (forall key :: key != DEFAULT_SECTION_KEY && key != LEGACY_DEFAULT_KEY ==> Get(w, key) == Get(data, key))
       && Get(w, LEGACY_DEFAULT_KEY).None?
       && p.managed <= RulesOf(Get(w, DEFAULT_SECTION_KEY))
       && Unmarked(RulesOf(Get(w, DEFAULT_SECTION_KEY))) == Unmarked(RulesOf(EffectiveDefault(data)))
       && WriteBack(p.managed, w) == None
  }

  lemma StepOk(p: Params, s: System, e: Event)
    requires AllMarked(p.managed) && SystemOk(p, s)
    ensures SystemOk(p, Step(p, s, e))
    ensures Step(p, s, e).puts > s.puts ==> SafePut(p, s.store, Step(p, s, e).store)
  {
    match e
    case Edit(content) =>
      forall k | 0 <= k < |s.backends| ensures BackendOk(p, s.store.Changed(content), Notice(s.backends[k])) {
        NoticeOk(p, s.store, s.backends[k], content);
      }
    case Put(i, w) =>
      if i < |s.backends| && w < |s.backends[i].writers| && s.backends[i].writers[w].Putting? {
        PutStepOk(p, s, i, w);
      }
    case Local(i, a) =>
      if i < |s.backends| {
        LocalStepOk(p, s.store, s.backends[i], a);
      }
  }

  lemma {:induction false} ReachableOk(p: Params, s: System, events: seq<Event>)
    requires AllMarked(p.managed) && Initial(s)
    ensures SystemOk(p, Run(p, s, events))
  {
    if events != [] {
      ReachableOk(p, s, events[..|events| - 1]);
      StepOk(p, Run(p, s, events[..|events| - 1]), events[|events| - 1]);
    }
  }

  // ---------------------------------------------------------------- what every run guarantees

  /**
   * Write-back convergence: under every interleaving of any number of instances at most one write-back
   * succeeds between two external edits, and each one that succeeds is safe and leaves nothing to write.
   */
  lemma WriteBackConverges(p: Params, s: System, events: seq<Event>, e: Event)
    requires AllMarked(p.managed) && Initial(s)
    ensures var now := Run(p, s, events);
            && now.putsSinceEdit <= 1 && now.puts <= now.edits + 1
            && (Step(p, now, e).puts > now.puts ==>
               now.putsSinceEdit == 0 && SafePut(p, now.store, Step(p, now, e).store))
  {
    var now := Run(p, s, events);
    ReachableOk(p, s, events);
    StepOk(p, now, e);
    if Step(p, now, e).puts > now.puts {
      PutCounts(p, now, e);
    }
  }

  lemma PutCounts(p: Params, s: System, e: Event)
    requires Step(p, s, e).puts > s.puts
    ensures Step(p, s, e).putsSinceEdit == s.putsSinceEdit + 1
  {
  }

  /**
   * Agreement: the configuration in memory is unset, bootstrap, or the normalization of a stored one.
   * An instance that has handled every reported change agrees with the stored document when the last
   * change was applied, when it was a deletion, and when there was none but the feed was connected
   * before the load fetched.
   */
  lemma ConfigAgreement(p: Params, s: System, events: seq<Event>, i: nat)
    requires AllMarked(p.managed) && Initial(s) && i < |Run(p, s, events).backends|
    ensures var now := Run(p, s, events);
            var b := now.backends[i];
            && (b.memory.None? || b.memory == Some(BOOTSTRAP_PERMISSIONS) || FromStore(now.store, b.memory.value))
            && (CaughtUp(b) && b.handler.Idle? && (b.last.Applied? || b.last.Removed?) ==> Agrees(now.store, b.memory))
            && (OnlyLoaded(b) && b.load.Finished? ==> Agrees(now.store, b.memory))
  {
    ReachableOk(p, s, events);
    assert BackendOk(p, Run(p, s, events).store, Run(p, s, events).backends[i]);
  }

  /** An instance that hears of a change and can fetch it agrees, and has started that document's write-back. */
  lemma UpdateArrives(store: Store, b: Backend, config: Config)
    requires b.connected && b.changed && b.queue == [] && b.handler.Idle? && store.Content() == Some(Data(config))
    ensures var after := AfterApplyFetched(AfterFetchDoc(store, AfterTakeEvent(AfterDeliver(store, b)), true));
            && CaughtUp(after) && after.handler.Idle? && after.last.Applied? && Agrees(store, after.memory)
            && after.writers == b.writers + [Putting(0, PermissionDoc(store.Rev(), Data(config)))]
  {
    var delivered := b.(changed := false, queue := [false]);
    assert AfterDeliver(store, b) == delivered;
    var fetching := delivered.(queue := [], handler := Fetching);
    assert AfterTakeEvent(delivered) == fetching;
    var fetched := fetching.(handler := Fetched(PermissionDoc(store.Rev(), Data(config))));
    assert AfterFetchDoc(store, fetching, true) == fetched;
  }

  /** One that hears of a deletion falls back to the bootstrap configuration at once. */
  lemma DeletionArrives(store: Store, b: Backend)
    requires b.connected && b.changed && b.queue == [] && b.handler.Idle? && store.Content().None?
    ensures var after := AfterTakeEvent(AfterDeliver(store, b));
            CaughtUp(after) && after.handler.Idle? && after.closed && Agrees(store, after.memory)
  {
  }

  /** A write-back that holds the stored version and is not interfered with is stored. */
  lemma PutArrives(p: Params, s: System, i: nat, w: nat, config: Config)
    requires i < |s.backends| && w < |s.backends[i].writers| && s.backends[i].writers[w].Putting?
    requires s.store.Content() == Some(Data(config)) && WriteBack(p.managed, config).Some?
    requires s.backends[i].writers[w].doc == PermissionDoc(s.store.Rev(), Data(config))
    ensures var after := Step(p, s, Put(i, w));
            after.puts == s.puts + 1 && after.store == s.store.Changed(Some(Data(WriteBack(p.managed, config).value)))
  {
  }

  /**
   * Without the last condition agreement can fail, in any system: an instance that has loaded without
   * its feed, and is then connected behind a change of the document, looks caught up and agrees only if
   * the change makes no difference to it.
   */
  lemma MissedChangeStaleIff(p: Params, s: System, i: nat, content: Option<Payload>)
    requires i < |s.backends|
    requires var b := s.backends[i];
             && b.load.Finished? && !b.connected && !b.covered && !b.changed && b.queue == []
             && b.handler.Idle? && b.last.Nothing?
    ensures var now := Step(p, Step(p, s, Edit(content)), Local(i, Connect));
            && |now.backends| == |s.backends| && now.store.Content() == content
            && var b := now.backends[i];
               && b.load.Finished? && CaughtUp(b) && b.handler.Idle? && b.last.Nothing? && !b.covered
               && b.memory == s.backends[i].memory
               && (Agrees(now.store, b.memory) <==> Agrees(Store([content]), s.backends[i].memory))
  {
    assert Step(p, s, Edit(content)).backends[i] == Notice(s.backends[i]);
  }

  /** The run of one instance whose load fetches before an edit and whose feed connects after it. */
  function LateFeed(edit: Config): seq<Event> {
    [Local(0, LoadFetch)] + [Local(0, LoadApply)] + [Edit(Some(Data(edit)))] + [Local(0, Connect)]
  }

  function Alone(versions: seq<Option<Payload>>, b: Backend, edits: nat): System {
    System(Store(versions), [b], edits, 0, 0)
  }

  /** An instance that has fetched this configuration, and one that has installed it. */
  function HavingFetched(loaded: Config): Backend {
    NEW_BACKEND.(load := Loaded(PermissionDoc(1, Data(loaded))))
  }

  function HavingLoaded(loaded: Config): Backend {
    AfterLoadApply(HavingFetched(loaded))
  }

  /** A run in which that happens: it ends finished, caught up and idle on the old configuration. */
  lemma LateFeedStaleIff(p: Params, loaded: Config, edit: Config)
    ensures var now := Run(p, Alone([Some(Data(loaded))], NEW_BACKEND, 0), LateFeed(edit));
            && |now.backends| == 1
            && var b := now.backends[0];
               && b.load.Finished? && CaughtUp(b) && b.handler.Idle? && b.last.Nothing? && !b.covered
               && b.memory == Some(Normalize(loaded)) && now.store.Content() == Some(Data(edit))
               && (Agrees(now.store, b.memory) <==> Normalize(loaded) == Normalize(edit))
  {
    LateFeedRun(p, loaded, edit);
  }

  lemma LateFeedRun(p: Params, loaded: Config, edit: Config)
    ensures Run(p, Alone([Some(Data(loaded))], NEW_BACKEND, 0), LateFeed(edit))
         == Alone([Some(Data(loaded)), Some(Data(edit))], HavingLoaded(loaded).(connected := true), 1)
  {
    var first, both := [Some(Data(loaded))], [Some(Data(loaded)), Some(Data(edit))];
    var b := HavingLoaded(loaded);
    LateSteps(p, loaded, edit);
    FourSteps(
      p, Alone(first, NEW_BACKEND, 0), Local(0, LoadFetch), Alone(first, HavingFetched(loaded), 0), Local(0, LoadApply),
        Alone(first, b, 0),
      Edit(Some(Data(edit))), Alone(both, b, 1), Local(0, Connect), Alone(both, b.(connected := true), 1));
  }

  lemma FourSteps(
    p: Params, s0: System, e1: Event, s1: System, e2: Event, s2: System, e3: Event, s3: System, e4: Event, s4: System)
    requires Step(p, s0, e1) == s1 && Step(p, s1, e2) == s2 && Step(p, s2, e3) == s3 && Step(p, s3, e4) == s4
    ensures Run(p, s0, [e1] + [e2] + [e3] + [e4]) == s4
  {
    assert [] + [e1] == [e1];
    RunNext(p, s0, [], s0, e1, s1);
    RunNext(p, s0, [e1], s1, e2, s2);
    RunNext(p, s0, [e1] + [e2], s2, e3, s3);
    RunNext(p, s0, [e1] + [e2] + [e3], s3, e4, s4);
  }

  lemma LateSteps(p: Params, loaded: Config, edit: Config)
    ensures var first, both, b := [Some(Data(loaded))], [Some(Data(loaded)), Some(Data(edit))], HavingLoaded(loaded);
            && Step(p, Alone(first, NEW_BACKEND, 0), Local(0, LoadFetch)) == Alone(first, HavingFetched(loaded), 0)
            && Step(p, Alone(first, HavingFetched(loaded), 0), Local(0, LoadApply)) == Alone(first, b, 0)
            && Step(p, Alone(first, b, 0), Edit(Some(Data(edit)))) == Alone(both, b, 1)
            && Step(p, Alone(both, b, 1), Local(0, Connect)) == Alone(both, b.(connected := true), 1)
  {
    assert [HavingLoaded(loaded)][1..] == [];
  }

  lemma RunNext(p: Params, s: System, events: seq<Event>, mid: System, e: Event, next: System)
    requires Run(p, s, events) == mid && Step(p, mid, e) == next
    ensures Run(p, s, events + [e]) == next
  {
    assert (events + [e])[..|events|] == events;
  }

  /**
   * Fail closed: from a processed deletion until the next successful update, whatever else happens,
   * exactly the users holding `admin_app` get any rule.
   */
  lemma DeletionFailsClosed(p: Params, s: System, events: seq<Event>, i: nat, user: Option<User>)
    requires AllMarked(p.managed) && Initial(s) && i < |Run(p, s, events).backends|
            && Run(p, s, events).backends[i].closed
    ensures var rules := RulesForUser(p.inject, Run(p, s, events).backends[i].memory, user);
            rules.Ok? && (rules.value != [] <==> user.Some? && ADMIN_APP_ROLE in user.value.roles)
  {
    ReachableOk(p, s, events);
    assert BackendOk(p, Run(p, s, events).store, Run(p, s, events).backends[i]);
    FailClosed(p.inject, user);
  }

  /**
   * Cache coherence: in every reachable state every cached ability is the one built from the current
   * configuration, nothing is cached without one, and the cache holds at most 1000 entries.
   */
  lemma CacheAlwaysCoherent(p: Params, s: System, events: seq<Event>, i: nat)
    requires AllMarked(p.managed) && Initial(s) && i < |Run(p, s, events).backends|
    ensures var b := Run(p, s, events).backends[i];
            && Coherent(p.inject, b.memory, b.cache)
            && (b.memory.None? ==> b.cache == map[])
            && |b.cache| <= 1000
  {
    ReachableOk(p, s, events);
    assert BackendOk(p, Run(p, s, events).store, Run(p, s, events).backends[i]);
  }

  /**
   * Serving before a configuration is loaded would break this: the first load clears nothing, so the
   * cached denial stays right only for a user the new configuration denies everything as well.
   */
  lemma EarlyRequestStaleIff(inject: (Rule, User) -> Rule, config: Config, user: Option<User>)
    ensures Coherent(inject, Some(config), Served(inject, None, map[], user))
       <==> RulesForUser(inject, Some(config), user) == Ok([])
  {
    var cache := Served(inject, None, map[], user);
    var key := AbilityCacheKey(user);
    assert cache == map[key := []];
    if RulesForUser(inject, Some(config), user) == Ok([]) {
      forall other: Option<User> | AbilityCacheKey(other) in cache
        ensures RulesForUser(inject, Some(config), other) == Ok(cache[AbilityCacheKey(other)])
      {
        KeysDistinguishUsers(other, user);
      }
    } else {
      assert key in cache && cache[key] == [];
    }
  }
}
