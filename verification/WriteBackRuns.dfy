/**
 * The permission database a write-back talks to, and what the requests of one write-back are as events
 * of the protocol (src/permissions/rules/rules.service.ts:379-455).
 */
module WriteBackRuns {
  import opened Wrappers
  import opened Sequences
  import opened JsObject
  import opened RulesConfig
  import opened PermissionProtocol

  // ---------------------------------------------------------------- the store

  datatype PutOutcome = Accepted | Conflict | Unavailable

  /** The store after others have added versions. */
  function Extended(store: Store, others: seq<Option<Payload>>): Store {
    Store(store.versions + others)
  }

  /** Versions are only ever added. */
  predicate Grown(before: Store, after: Store) {
    before.versions <= after.versions
  }

  lemma GrownTwice(a: Store, b: Store, c: Store)
    requires Grown(a, b) && Grown(b, c)
    ensures Grown(a, c)
  {
  }

  /** What becomes of a PUT that arrives after these versions: accepted on the current revision only. */
  predicate Answered(
    before: Store, others: seq<Option<Payload>>, doc: PermissionDoc, outcome: PutOutcome, after: Store)
  {
    var found := Extended(before, others);
    match outcome
    case Accepted => found.Content().Some? && found.Rev() == doc.rev && after == found.Changed(Some(doc.payload))
    case Conflict => (found.Content().None? || found.Rev() != doc.rev) && after == found
    case Unavailable => after == found
  }

  /** The permission database: other clients may add versions before each request is served. */
  class PermissionDb {
    var store: Store
    /** requests that failed for another reason than a conflict */
    var failures: nat

    constructor (store: Store)
      ensures this.store == store && failures == 0
    {
      this.store, failures := store, 0;
    }

    method Interfere() returns (ghost others: seq<Option<Payload>>)
      modifies this`store
      ensures store == Extended(old(store), others)
    {
      var more: seq<Option<Payload>> := *;
      others := more;
      store := Store(store.versions + more);
    }

    /** GET the document; None stands for a 404 or a failed request. */
    method Fetch() returns (doc: Option<PermissionDoc>, ghost others: seq<Option<Payload>>)
      modifies this
      ensures store == Extended(old(store), others)
      ensures doc.Some? ==> store.Content().Some? && doc.value == PermissionDoc(store.Rev(), store.Content().value)
      ensures failures == old(failures) + (if doc.None? then 1 else 0)
    {
      others := Interfere();
      var reachable: bool := *;
      if reachable && store.Content().Some? {
        doc := Some(PermissionDoc(store.Rev(), store.Content().value));
      } else {
        doc, failures := None, failures + 1;
      }
    }

    /** PUT a document. */
    method Write(doc: PermissionDoc) returns (outcome: PutOutcome, ghost others: seq<Option<Payload>>)
      modifies this
      ensures Answered(old(store), others, doc, outcome, store)
      ensures failures == old(failures) + (if outcome.Unavailable? then 1 else 0)
    {
      others := Interfere();
      var reachable: bool := *;
      if !reachable {
        failures := failures + 1;
        return Unavailable, others;
      }
      if store.Content().None? || store.Rev() != doc.rev {
        return Conflict, others;
      }
      store := store.Changed(Some(doc.payload));
      return Accepted, others;
    }
  }

  // ---------------------------------------------------------------- how a write-back ends

  datatype WriteBackEnd = Written | UpToDate | GaveUp | Broken

  /** `after` is the write-back computed from `before`. */
  predicate IsWriteBack(managed: seq<Rule>, before: Option<Payload>, after: Option<Payload>) {
    && before.Some? && before.value.Data? && after.Some? && after.value.Data?
    && WriteBack(managed, before.value.config) == Some(after.value.config)
  }

  /** No valid configuration, or one that already is as a write-back would leave it. */
  predicate NeedsNone(managed: seq<Rule>, content: Option<Payload>) {
    content.Some? && (content.value.NoConfig? || WriteBack(managed, content.value.config) == None)
  }

  /** A configuration whose default section begins with the managed rules, and without a legacy one. */
  predicate ManagedFirst(managed: seq<Rule>, config: Config) {
    var section: Option<Section> := Get(config, "_default");
    section.Some? && section.value.Rules? && managed <= section.value.rules && Get(config, "default").None?
  }

  /** The version a write-back ended with has the managed rules, if it is a valid configuration at all. */
  predicate ManagedAt(managed: seq<Rule>, end: WriteBackEnd, at: nat, store: Store) {
    var i := if end.Written? then at else at - 1;
    && 0 <= i < |store.versions| && store.versions[i].Some?
    && (end.Written? ==> store.versions[i].value.Data?)
    && (store.versions[i].value.Data? ==> ManagedFirst(managed, store.versions[i].value.config))
  }

  /** A merge begins with the managed rules. */
  lemma WrittenIsManaged(managed: seq<Rule>, before: Option<Payload>, after: Option<Payload>)
    requires IsWriteBack(managed, before, after)
    ensures ManagedFirst(managed, after.value.config)
  {
    WriteBackTells(managed, before.value.config);
  }

  /** So does a configuration that needs no write-back. */
  lemma UpToDateIsManaged(managed: seq<Rule>, content: Option<Payload>)
    requires managed != [] && NeedsNone(managed, content) && content.value.Data?
    ensures ManagedFirst(managed, content.value.config)
  {
    var section := Get(content.value.config, "_default");
    assert section == Some(Rules(managed + Unmarked(RulesOf(section))));
  }

  lemma EndIsManaged(managed: seq<Rule>, end: WriteBackEnd, at: nat, store: Store)
    requires (end.Written? || (end.UpToDate? && managed != [])) && 1 <= at <= |store.versions|
    requires end.Written? ==> at < |store.versions| && IsWriteBack(managed, store.versions[at - 1], store.versions[at])
    requires end.UpToDate? ==> NeedsNone(managed, store.versions[at - 1])
    ensures ManagedAt(managed, end, at, store)
  {
    if end.Written? {
      WrittenIsManaged(managed, store.versions[at - 1], store.versions[at]);
    } else if store.versions[at - 1].value.Data? {
      UpToDateIsManaged(managed, store.versions[at - 1]);
    }
  }

  /**
   * A write-back of the fetched document ended with a merge stored directly behind the version it was
   * computed from, so nobody else's edit is overwritten; or at a version that needs none; or after three
   * conflicts; or at a request that failed.
   */
  predicate EndsAs(
    managed: seq<Rule>, before: Store, fetched: PermissionDoc, end: WriteBackEnd, puts: nat, at: nat, after: Store)
  {
    && puts <= 3 && before.versions <= after.versions && at <= |after.versions|
    && (end.Written? ==> 1 <= at < |after.versions| && IsWriteBack(managed, after.versions[at - 1], after.versions[at]))
    && (end.UpToDate? ==> 1 <= at && NeedsNone(managed, after.versions[at - 1]))
    && (end.GaveUp? ==> puts == 3)
    && (NeedsNone(managed, Some(fetched.payload)) ==> end.UpToDate? && puts == 0 && after == before)
  }

  // ---------------------------------------------------------------- one write-back on its own

  /** The store, and the write-back until it ends. */
  datatype WriteState = WriteState(store: Store, writer: Option<Writer>)

  /** Someone else changes the document; a PUT arrives; the GET after a conflict arrives; a request is lost. */
  datatype Request = Others(content: Option<Payload>) | Attempt | Again | Lost

  function AfterRequest(managed: seq<Rule>, w: WriteState, q: Request): WriteState {
    match q
    case Others(content) => w.(store := w.store.Changed(content))
    case Attempt => if w.writer.Some? && w.writer.value.Putting? then AfterAttempt(managed, w.store, w.writer.value)
      else w
    case Again => if w.writer.Some? && w.writer.value.Refetching? then AfterAgain(w.store, w.writer.value) else w
    case Lost => w.(writer := None)
  }

  function AfterAttempt(managed: seq<Rule>, store: Store, writer: Writer): WriteState
    requires writer.Putting?
  {
    var doc := writer.doc;
    if NeedsNone(managed, Some(doc.payload)) then WriteState(store, None)
    else if store.Content().Some? && store.Rev() == doc.rev then
      WriteState(store.Changed(Some(Data(WriteBack(managed, doc.payload.config).value))), None)
    else WriteState(store, if writer.attempt < 2 then Some(Refetching(writer.attempt + 1)) else None)
  }

  function AfterAgain(store: Store, writer: Writer): WriteState
    requires writer.Refetching?
  {
    if store.Content().None? then WriteState(store, None)
    else WriteState(store, Some(Putting(writer.attempt, PermissionDoc(store.Rev(), store.Content().value))))
  }

  function AfterRequests(managed: seq<Rule>, w: WriteState, qs: seq<Request>): WriteState {
    if qs == [] then w else AfterRequest(managed, AfterRequests(managed, w, qs[..|qs| - 1]), qs[|qs| - 1])
  }

  lemma RequestsSnoc(managed: seq<Rule>, w: WriteState, qs: seq<Request>, q: Request)
    ensures AfterRequests(managed, w, qs + [q]) == AfterRequest(managed, AfterRequests(managed, w, qs), q)
  {
    assert (qs + [q])[..|qs|] == qs;
  }

  function AllOthers(others: seq<Option<Payload>>): seq<Request> {
    if others == [] then [] else AllOthers(others[..|others| - 1]) + [Others(others[|others| - 1])]
  }

  lemma {:induction false} OthersRun(managed: seq<Rule>, w: WriteState, qs: seq<Request>, others: seq<Option<Payload>>)
    ensures var before := AfterRequests(managed, w, qs);
            AfterRequests(managed, w, qs + AllOthers(others)) == before.(store := Extended(before.store, others))
  {
    if others == [] {
      assert qs + [] == qs;
    } else {
      var init, last := others[..|others| - 1], others[|others| - 1];
      OthersRun(managed, w, qs, init);
      RequestsSnoc(managed, w, qs + AllOthers(init), Others(last));
      Associate(qs, AllOthers(init), [Others(last)]);
      ExtendedSnoc(AfterRequests(managed, w, qs).store, others);
    }
  }

  lemma ExtendedSnoc(store: Store, others: seq<Option<Payload>>)
    requires others != []
    ensures Extended(store, others) == Extended(store, others[..|others| - 1]).Changed(others[|others| - 1])
  {
    assert others == others[..|others| - 1] + [others[|others| - 1]];
    Associate(store.versions, others[..|others| - 1], [others[|others| - 1]]);
  }

  /** A PUT of the loop is the changes of others and then the attempt, or its loss. */
  lemma PutRun(
    managed: seq<Rule>, w: WriteState, qs: seq<Request>, attempt: nat, doc: PermissionDoc, others: seq<Option<Payload>>,
    outcome: PutOutcome,
    after: Store)
    returns (more: seq<Request>)
    requires AfterRequests(managed, w, qs).writer == Some(Putting(attempt, doc))
    requires doc.payload.Data? && WriteBack(managed, doc.payload.config).Some?
    requires Answered(AfterRequests(managed, w, qs).store, others,
                      PermissionDoc(doc.rev, Data(WriteBack(managed, doc.payload.config).value)), outcome, after)
    ensures AfterRequests(managed, w, more)
            == WriteState(after, if outcome.Conflict? && attempt < 2 then Some(Refetching(attempt + 1)) else None)
  {
    var q := if outcome.Unavailable? then Lost else Attempt;
    OthersRun(managed, w, qs, others);
    RequestsSnoc(managed, w, qs + AllOthers(others), q);
    more := qs + AllOthers(others) + [q];
  }

  /** Likewise for the GET after a conflict. */
  lemma FetchRun(
    managed: seq<Rule>, w: WriteState, qs: seq<Request>, attempt: nat, others: seq<Option<Payload>>,
    found: Option<PermissionDoc>)
    returns (more: seq<Request>)
    requires AfterRequests(managed, w, qs).writer == Some(Refetching(attempt))
    requires var now := Extended(AfterRequests(managed, w, qs).store, others);
             found.Some? ==> now.Content().Some? && found.value == PermissionDoc(now.Rev(), now.Content().value)
    ensures AfterRequests(managed, w, more)
         == WriteState(Extended(AfterRequests(managed, w, qs).store, others), if found.Some?
           then Some(Putting(attempt, found.value)) else None)
  {
    var q := if found.Some? then Again else Lost;
    OthersRun(managed, w, qs, others);
    RequestsSnoc(managed, w, qs + AllOthers(others), q);
    more := qs + AllOthers(others) + [q];
  }

  // ---------------------------------------------------------------- as a run of the protocol

  /** An instance with nothing but this write-back going on. */
  predicate IsAt(s: System, w: WriteState) {
    s.store == w.store && s.backends == [NEW_BACKEND.(writers := if w.writer.Some? then [w.writer.value] else [])]
  }

  function AsEvent(q: Request): Event {
    match q
    case Others(content) => Edit(content)
    case Attempt => Event.Put(0, 0)
    case Again => Local(0, Refetch(0))
    case Lost => Local(0, Drop(0))
  }

  function AsEvents(qs: seq<Request>): seq<Event> {
    if qs == [] then [] else AsEvents(qs[..|qs| - 1]) + [AsEvent(qs[|qs| - 1])]
  }

  lemma OneRequest(p: Params, s: System, w: WriteState, q: Request)
    requires IsAt(s, w)
    ensures IsAt(Step(p, s, AsEvent(q)), AfterRequest(p.managed, w, q))
  {
    var b := s.backends[0];
    match q
    case Others(content) => assert NoticeAll(s.backends)[0] == Notice(b);
    case Attempt => OneAttempt(p, s, w);
    case Again => OneRefetch(p, s, w);
    case Lost => assert |b.writers| > 0 ==> WithoutWriter(b, 0).writers == [];
  }

  lemma OneAttempt(p: Params, s: System, w: WriteState)
    requires IsAt(s, w)
    ensures IsAt(Step(p, s, AsEvent(Attempt)), AfterRequest(p.managed, w, Attempt))
  {
    var b := s.backends[0];
    if w.writer.Some? && w.writer.value.Putting? {
      var again := Refetching(w.writer.value.attempt + 1);
      assert WithoutWriter(b, 0).writers == [];
      assert NoticeAll([WithoutWriter(b, 0)])[0] == Notice(WithoutWriter(b, 0));
      assert b.writers[0 := again] == [again];
    }
  }

  lemma OneRefetch(p: Params, s: System, w: WriteState)
    requires IsAt(s, w)
    ensures IsAt(Step(p, s, AsEvent(Again)), AfterRequest(p.managed, w, Again))
  {
    var b := s.backends[0];
    if w.writer.Some? && w.writer.value.Refetching? && w.store.Content().Some? {
      var put := Putting(w.writer.value.attempt, PermissionDoc(w.store.Rev(), w.store.Content().value));
      assert b.writers[0 := put] == [put];
    } else if w.writer.Some? {
      assert WithoutWriter(b, 0).writers == [];
    }
  }

  /** The requests of a write-back are events of the protocol: same stores, same attempts, same end. */
  lemma {:induction false} RequestsRun(p: Params, s: System, w: WriteState, qs: seq<Request>)
    requires IsAt(s, w)
    ensures IsAt(Run(p, s, AsEvents(qs)), AfterRequests(p.managed, w, qs))
  {
    if qs != [] {
      var init, q := qs[..|qs| - 1], qs[|qs| - 1];
      var mid := Run(p, s, AsEvents(init));
      RequestsRun(p, s, w, init);
      OneRequest(p, mid, AfterRequests(p.managed, w, init), q);
      RunNext(p, s, AsEvents(init), mid, AsEvent(q), Step(p, mid, AsEvent(q)));
    }
  }
}
