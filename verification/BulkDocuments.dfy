/**
 * Bulk writes (src/restricted-endpoints/replication/bulk-document/bulk-document.service.ts) and the
 * audit entries derived from their responses (src/audit/audit.service.ts): which submitted documents
 * are posted, and which writes are reported to the audit log.
 */
module BulkDocuments {
  import opened Wrappers
  import opened Sequences
  import Json
  import opened Documents
  import opened DocumentFilter
  import opened Audit

  /** A bulk request; `new_edits` may be absent. */
  datatype BulkDocsRequest = BulkDocsRequest(newEdits: Option<bool>, docs: seq<Document>)

  datatype Action = MayCreate | MayUpdate | MayDelete

  type Ability = (Action, Document) -> bool

  // ---------------------------------------------------------------- which documents are posted

  predicate HasPermissionsForDoc(updated: Document, existing: Option<Document>, can: Ability) {
    if existing.Some? then can(if Deleted(updated) then MayDelete else MayUpdate, existing.value)
    else can(MayCreate, updated)
  }

  /** A replicable document, allowed on the stored version if there is one and else on the submitted one. */
  predicate Permitted(store: DocumentStore, can: Ability, ignoredPrefixes: seq<string>, doc: Document) {
    && IdOf(doc).Some? && IsReplicable(ignoredPrefixes, IdOf(doc).value)
    && if IdOf(doc).value !in store then can(MayCreate, doc)
       else if Deleted(doc) then can(MayDelete, store[IdOf(doc).value])
       else can(MayUpdate, store[IdOf(doc).value])
  }

  function PermittedDocs(
    store: DocumentStore, can: Ability, ignoredPrefixes: seq<string>, docs: seq<Document>)
    : seq<Document>
  {
    Filter(docs, doc => Permitted(store, can, ignoredPrefixes, doc))
  }

  // ---------------------------------------------------------------- what the response says

  /** The last revision reported for an id. */
  function LastRev(response: seq<BulkResult>, id: string): Option<string> {
    if response == [] then None
    else
      var last := response[|response| - 1];
      if last.Accepted? && last.id == id then Some(last.rev) else LastRev(response[..|response| - 1], id)
  }

  predicate HasError(response: seq<BulkResult>, id: string) {
    exists i :: 0 <= i < |response| && response[i].Rejected? && response[i].id == id
  }

  function OperationOf(doc: Document, existing: Option<Document>): Operation {
    if Deleted(doc) then Operation.Delete else if existing.Some? then Operation.Update else Operation.Create
  }

  /** The entry for one posted document, or none if the response does not report it as written. */
  function ToAuditEntry(
    doc: Document, existingDocs: map<string, Document>, errorIds: set<string>, revById: map<string, string>,
    newEditsFalse: bool)
    : Option<AuditEntry>
  {
    var id := IdOf(doc);
    if id.None? then None
    else if !(if newEditsFalse then id.value !in errorIds else id.value in revById) then None
    else
      var existing := Lookup(existingDocs, id.value);
      Some(AuditEntry(existing, doc, if newEditsFalse then RevOf(doc)
        else Some(revById[id.value]), OperationOf(doc, existing)))
  }

  function Collected(docs: seq<Document>, entryOf: Document -> Option<AuditEntry>): seq<AuditEntry> {
    if docs == [] then []
    else
      var n := |docs| - 1;
      Collected(docs[..n], entryOf) + (if entryOf(docs[n]).Some? then [entryOf(docs[n]).value] else [])
  }

  /** The entry a document should get, going by what the database really did. */
  function TrueEntry(store: DocumentStore, doc: Document, outcome: Outcome): Option<AuditEntry> {
    if outcome.Failed? then None
    else
      var existing := Lookup(store, IdText(doc));
      Some(AuditEntry(existing, doc, Some(outcome.rev), OperationOf(doc, existing)))
  }

  /** The writes that happened, in order. */
  function TrueEntries(store: DocumentStore, docs: seq<Document>, decide: nat -> Outcome): seq<AuditEntry> {
    if docs == [] then []
    else
      var n := |docs| - 1;
      var entry := TrueEntry(store, docs[n], decide(n));
      TrueEntries(store, docs[..n], decide) + (if entry.Some? then [entry.value] else [])
  }

  predicate AllNamed(docs: seq<Document>) {
    forall i :: 0 <= i < |docs| ==> IdOf(docs[i]).Some?
  }

  predicate DistinctIds(docs: seq<Document>) {
    forall i, j :: 0 <= i < j < |docs| ==> IdText(docs[i]) != IdText(docs[j])
  }

  /** Some document of this id was written, or failed. */
  predicate SomeWritten(docs: seq<Document>, decide: nat -> Outcome, id: string) {
    exists i :: 0 <= i < |docs| && IdText(docs[i]) == id && decide(i).Written?
  }

  predicate SomeFailed(docs: seq<Document>, decide: nat -> Outcome, id: string) {
    exists i :: 0 <= i < |docs| && IdText(docs[i]) == id && decide(i).Failed?
  }

  /** What both response shapes tell about an id. */
  lemma {:induction false} ResponseTells(newEditsFalse: bool, docs: seq<Document>, decide: nat -> Outcome, id: string)
    ensures HasError(BulkResponse(newEditsFalse, docs, decide), id) <==> SomeFailed(docs, decide, id)
    ensures !newEditsFalse ==>
            (LastRev(BulkResponse(newEditsFalse, docs, decide), id).Some? <==> SomeWritten(docs, decide, id))
  {
    if docs != [] {
      var n := |docs| - 1;
      var init := docs[..n];
      ResponseTells(newEditsFalse, init, decide, id);
      var before, response := BulkResponse(newEditsFalse, init, decide), BulkResponse(newEditsFalse, docs, decide);
      SplitLast(docs, decide, id);
      if response != before {
        assert response == before + [response[|response| - 1]];
        ErrorsLast(before, response[|response| - 1], id);
      }
    }
  }

  lemma SplitLast(docs: seq<Document>, decide: nat -> Outcome, id: string)
    requires docs != []
    ensures var n := |docs| - 1;
            && (SomeFailed(docs, decide, id)
               <==> SomeFailed(docs[..n], decide, id) || (IdText(docs[n]) == id && decide(n).Failed?))
            && (SomeWritten(docs, decide, id)
               <==> SomeWritten(docs[..n], decide, id) || (IdText(docs[n]) == id && decide(n).Written?))
  {
    var n := |docs| - 1;
    var init := docs[..n];
    assert forall i :: 0 <= i < n ==> init[i] == docs[i];
  }

  lemma ErrorsLast(before: seq<BulkResult>, last: BulkResult, id: string)
    ensures HasError(before + [last], id) <==> HasError(before, id) || (last.Rejected? && last.id == id)
    ensures LastRev(before + [last], id) == if last.Accepted? && last.id == id then Some(last.rev)
            else LastRev(before, id)
  {
    var all := before + [last];
    assert all[..|before|] == before && all[|before|] == last;
    assert forall i :: 0 <= i < |before| ==> all[i] == before[i];
  }

  /** The entry a posted document gets from the response. */
  function Reported(
    newEditsFalse: bool, store: DocumentStore, response: seq<BulkResult>, doc: Document)
    : Option<AuditEntry>
  {
    var existing := Lookup(store, IdText(doc));
    if IdOf(doc).None? then None
    else if newEditsFalse then
      if HasError(response, IdOf(doc).value) then None
        else Some(AuditEntry(existing, doc, RevOf(doc), OperationOf(doc, existing)))
    else
      var rev := LastRev(response, IdOf(doc).value);
      if rev.None? then None else Some(AuditEntry(existing, doc, rev, OperationOf(doc, existing)))
  }

  function ReportedEntries(
    newEditsFalse: bool, store: DocumentStore, response: seq<BulkResult>, docs: seq<Document>)
    : seq<AuditEntry>
  {
    Collected(docs, doc => Reported(newEditsFalse, store, response, doc))
  }

  /** No id is both written and refused in one request. */
  ghost predicate Consistent(docs: seq<Document>, decide: nat -> Outcome) {
    forall i, j :: 0 <= i < |docs| && 0 <= j < |docs| && IdText(docs[i]) == IdText(docs[j]) && decide(i).Written? ==>
      decide(j).Written?
  }

  /**
   * Under either response shape, the documents reported as written are those written exactly when
   * no id is both written and refused; a request with distinct ids never has one.
   */
  lemma ReportedIffWritten(newEditsFalse: bool, store: DocumentStore, docs: seq<Document>, decide: nat -> Outcome)
    requires AllNamed(docs)
    ensures var response := BulkResponse(newEditsFalse, docs, decide);
            (forall i :: 0 <= i < |docs| ==>
              (Reported(newEditsFalse, store, response, docs[i]).Some? <==> decide(i).Written?))
            <==> Consistent(docs, decide)
    ensures DistinctIds(docs) ==> Consistent(docs, decide)
  {
    var response := BulkResponse(newEditsFalse, docs, decide);
    forall i | 0 <= i < |docs|
      ensures Reported(newEditsFalse, store, response, docs[i]).Some?
         <==> if newEditsFalse then !SomeFailed(docs, decide, IdText(docs[i]))
           else SomeWritten(docs, decide, IdText(docs[i]))
    {
      ResponseTells(newEditsFalse, docs, decide, IdText(docs[i]));
    }
    if Consistent(docs, decide) {
      forall i | 0 <= i < |docs|
        ensures Reported(newEditsFalse, store, response, docs[i]).Some? <==> decide(i).Written? {
        assert decide(i).Written? <==> SomeWritten(docs, decide, IdText(docs[i]));
        assert decide(i).Failed? <==> SomeFailed(docs, decide, IdText(docs[i]));
      }
    } else {
      var i, j :| 0 <= i < |docs| && 0 <= j < |docs| && IdText(docs[i]) == IdText(docs[j]) && decide(i).Written?
        && decide(j).Failed?;
      assert SomeWritten(docs, decide, IdText(docs[j])) && SomeFailed(docs, decide, IdText(docs[i]));
    }
  }

  /** The documents reported as written are those written. */
  ghost predicate ReportsExactly(
    newEditsFalse: bool, store: DocumentStore, docs: seq<Document>, decide: nat -> Outcome)
  {
    forall i :: 0 <= i < |docs| ==>
      (Reported(newEditsFalse, store, BulkResponse(newEditsFalse, docs, decide), docs[i]).Some? <==> decide(i).Written?)
  }

  /**
   * What a caller can check: whatever the database makes of the documents, the right ones are reported,
   * exactly for the requests without a repeated id.
   */
  lemma ReportsExactlyIff(newEditsFalse: bool, store: DocumentStore, docs: seq<Document>)
    requires AllNamed(docs)
    ensures (forall decide: nat -> Outcome :: ReportsExactly(newEditsFalse, store, docs, decide)) <==> DistinctIds(docs)
  {
    forall decide: nat -> Outcome
      ensures ReportsExactly(newEditsFalse, store, docs, decide) <==> Consistent(docs, decide) {
      ReportedIffWritten(newEditsFalse, store, docs, decide);
    }
    if !DistinctIds(docs) {
      var i, j :| 0 <= i < j < |docs| && IdText(docs[i]) == IdText(docs[j]);
      var decide := (k: nat) => if k == i then Written("1-a") else Failed("conflict");
      assert decide(i).Written? && decide(j).Failed?;
      assert !Consistent(docs, decide);
    } else {
      forall decide: nat -> Outcome ensures Consistent(docs, decide) {
      }
    }
  }

  /** One id written and refused: each response shape misreports one of the two documents. */
  lemma Misreported(store: DocumentStore, docs: seq<Document>, decide: nat -> Outcome, i: nat, j: nat)
    requires AllNamed(docs) && i < |docs| && j < |docs| && IdText(docs[i]) == IdText(docs[j])
    requires decide(i).Written? && decide(j).Failed?
    ensures Reported(false, store, BulkResponse(false, docs, decide), docs[j]).Some?
    ensures Reported(true, store, BulkResponse(true, docs, decide), docs[i]).None?
  {
    ResponseTells(false, docs, decide, IdText(docs[i]));
    ResponseTells(true, docs, decide, IdText(docs[i]));
  }

  const REPEATED_ID: seq<Document> :=
    [map["_id" := Json.String("A:1"), "name" := Json.String("first")], map["_id" := Json.String("A:1")]]

  function OnlyFirst(k: nat): Outcome {
    if k == 0 then Written("1-a") else Failed("conflict")
  }

  /** A request that names `A:1` twice, of which CouchDB takes the first. */
  lemma RepeatedIdMisreported(store: DocumentStore)
    ensures Reported(false, store, BulkResponse(false, REPEATED_ID, OnlyFirst), REPEATED_ID[1]).Some?
            && OnlyFirst(1).Failed?
    ensures Reported(true, store, BulkResponse(true, REPEATED_ID, OnlyFirst), REPEATED_ID[0]).None?
            && OnlyFirst(0).Written?
  {
    assert IdOf(REPEATED_ID[0]) == Some("A:1") && IdOf(REPEATED_ID[1]) == Some("A:1");
    Misreported(store, REPEATED_ID, OnlyFirst, 0, 1);
  }

  lemma {:induction false} RevOfWritten(docs: seq<Document>, decide: nat -> Outcome, k: nat)
    requires DistinctIds(docs) && k < |docs| && decide(k).Written?
    ensures LastRev(BulkResponse(false, docs, decide), IdText(docs[k])) == Some(decide(k).rev)
    decreases |docs|
  {
    var n := |docs| - 1;
    var init, id := docs[..n], IdText(docs[n]);
    var before := BulkResponse(false, init, decide);
    if decide(n).Written? {
      ErrorsLast(before, Accepted(id, decide(n).rev), IdText(docs[k]));
    } else {
      ErrorsLast(before, Rejected(id, decide(n).error), IdText(docs[k]));
    }
    if k < n {
      assert init[k] == docs[k];
      RevOfWritten(init, decide, k);
    }
  }

  /** Each document of a request with distinct ids gets exactly the entry of what happened to it. */
  lemma ReportedExact(newEditsFalse: bool, store: DocumentStore, docs: seq<Document>, decide: nat -> Outcome, k: nat)
    requires AllNamed(docs) && DistinctIds(docs) && (newEditsFalse ==> KeepsRevisions(docs, decide)) && k < |docs|
    ensures Reported(newEditsFalse, store, BulkResponse(newEditsFalse, docs, decide), docs[k])
            == TrueEntry(store, docs[k], decide(k))
  {
    ReportedIffWritten(newEditsFalse, store, docs, decide);
    if decide(k).Written? && !newEditsFalse {
      RevOfWritten(docs, decide, k);
    }
  }

  lemma {:induction false} CollectedExact(
    store: DocumentStore, docs: seq<Document>, decide: nat -> Outcome, entryOf: Document -> Option<AuditEntry>)
    requires forall k :: 0 <= k < |docs| ==> entryOf(docs[k]) == TrueEntry(store, docs[k], decide(k))
    ensures Collected(docs, entryOf) == TrueEntries(store, docs, decide)
  {
    if docs != [] {
      var init := docs[..|docs| - 1];
      forall k | 0 <= k < |init| ensures entryOf(init[k]) == TrueEntry(store, init[k], decide(k)) {
        assert init[k] == docs[k];
      }
      CollectedExact(store, init, decide, entryOf);
    }
  }

  /** Bulk exactness: with distinct ids the derived entries are exactly the writes that happened, in order. */
  lemma BulkEntriesExact(newEditsFalse: bool, store: DocumentStore, docs: seq<Document>, decide: nat -> Outcome)
    requires AllNamed(docs) && DistinctIds(docs) && (newEditsFalse ==> KeepsRevisions(docs, decide))
    ensures ReportedEntries(newEditsFalse, store, BulkResponse(newEditsFalse, docs, decide), docs)
            == TrueEntries(store, docs, decide)
  {
    var response := BulkResponse(newEditsFalse, docs, decide);
    forall k | 0 <= k < |docs|
      ensures Reported(newEditsFalse, store, response, docs[k]) == TrueEntry(store, docs[k], decide(k)) {
      ReportedExact(newEditsFalse, store, docs, decide, k);
    }
    CollectedExact(store, docs, decide, doc => Reported(newEditsFalse, store, response, doc));
  }

  /** Every entry is that of a written document, and every written document has one. */
  lemma {:induction false} EntryPosition(
    store: DocumentStore, docs: seq<Document>, decide: nat -> Outcome, e: AuditEntry)
    returns (k: nat)
    requires e in TrueEntries(store, docs, decide)
    ensures k < |docs| && decide(k).Written? && e == TrueEntry(store, docs[k], decide(k)).value
  {
    var n := |docs| - 1;
    if e in TrueEntries(store, docs[..n], decide) {
      k := EntryPosition(store, docs[..n], decide, e);
    } else {
      k := n;
    }
  }

  lemma {:induction false} WrittenHasEntry(store: DocumentStore, docs: seq<Document>, decide: nat -> Outcome, k: nat)
    requires k < |docs| && decide(k).Written?
    ensures TrueEntry(store, docs[k], decide(k)).value in TrueEntries(store, docs, decide)
    decreases |docs|
  {
    if k < |docs| - 1 {
      WrittenHasEntry(store, docs[..|docs| - 1], decide, k);
    }
  }

  lemma {:induction false} TrueEntriesDistinct(store: DocumentStore, docs: seq<Document>, decide: nat -> Outcome)
    requires DistinctIds(docs)
    ensures forall i, j :: 0 <= i < j < |TrueEntries(store, docs, decide)| ==>
              IdText(TrueEntries(store, docs, decide)[i].newDoc) != IdText(TrueEntries(store, docs, decide)[j].newDoc)
  {
    if docs != [] {
      var init, last := docs[..|docs| - 1], docs[|docs| - 1];
      TrueEntriesDistinct(store, init, decide);
      var before := TrueEntries(store, init, decide);
      forall i | 0 <= i < |before| ensures IdText(before[i].newDoc) != IdText(last) {
        var k := EntryPosition(store, init, decide, before[i]);
        assert docs[k] == before[i].newDoc;
      }
    }
  }

  lemma PostedNamed(store: DocumentStore, docs: seq<Document>, can: Ability, ignoredPrefixes: seq<string>)
    ensures AllNamed(PermittedDocs(store, can, ignoredPrefixes, docs))
  {
    var posted := PermittedDocs(store, can, ignoredPrefixes, docs);
    var positions := FilterSelects(docs, doc => Permitted(store, can, ignoredPrefixes, doc));
    forall i | 0 <= i < |posted| ensures IdOf(posted[i]).Some? {
      assert positions[i] in positions;
    }
  }

  /** The posted part of a request with distinct ids is named and distinct too. */
  lemma PostedDistinct(store: DocumentStore, docs: seq<Document>, can: Ability, ignoredPrefixes: seq<string>)
    requires DistinctIds(docs)
    ensures var posted := PermittedDocs(store, can, ignoredPrefixes, docs); AllNamed(posted) && DistinctIds(posted)
  {
    PostedNamed(store, docs, can, ignoredPrefixes);
    var positions := FilterSelects(docs, doc => Permitted(store, can, ignoredPrefixes, doc));
  }

  /**
   * Bulk writes end to end: for any request with distinct ids, under both response shapes, the
   * derived entries are exactly the accepted ones of the posted documents, in order, each with the
   * stored document it replaced, its revision and its operation.
   */
  lemma BulkWriteExact(
    newEditsFalse: bool, store: DocumentStore, docs: seq<Document>, can: Ability, ignoredPrefixes: seq<string>,
    decide: nat -> Outcome)
    requires DistinctIds(docs)
    requires newEditsFalse ==> KeepsRevisions(PermittedDocs(store, can, ignoredPrefixes, docs), decide)
    ensures var posted := PermittedDocs(store, can, ignoredPrefixes, docs);
            ReportedEntries(newEditsFalse, store, BulkResponse(newEditsFalse, posted, decide), posted)
              == TrueEntries(store, posted, decide)
  {
    PostedDistinct(store, docs, can, ignoredPrefixes);
    BulkEntriesExact(newEditsFalse, store, PermittedDocs(store, can, ignoredPrefixes, docs), decide);
  }

  // ---------------------------------------------------------------- the store after a bulk write

  lemma StoredReflects(store: DocumentStore, id: string, d: Document, rev: string)
    ensures Reflects(Stored(store, id, d, rev), id, d)
    ensures forall other :: other != id ==> Lookup(Stored(store, id, d, rev), other) == Lookup(store, other)
  {
    assert Clean(d["_rev" := Json.String(rev)]) == Clean(d);
  }

  lemma {:induction false} AfterBulkUnwritten(
    store: DocumentStore, docs: seq<Document>, decide: nat -> Outcome, id: string)
    requires !SomeWritten(docs, decide, id)
    ensures Lookup(AfterBulk(store, docs, decide), id) == Lookup(store, id)
  {
    if docs != [] {
      var n := |docs| - 1;
      SplitLast(docs, decide, id);
      AfterBulkUnwritten(store, docs[..n], decide, id);
      if decide(n).Written? {
        StoredReflects(AfterBulk(store, docs[..n], decide), IdText(docs[n]), docs[n], decide(n).rev);
      }
    }
  }

  lemma {:induction false} AfterBulkWritten(store: DocumentStore, docs: seq<Document>, decide: nat -> Outcome, k: nat)
    requires DistinctIds(docs) && k < |docs| && decide(k).Written?
    ensures Reflects(AfterBulk(store, docs, decide), IdText(docs[k]), docs[k])
    decreases |docs|
  {
    var n := |docs| - 1;
    var before := AfterBulk(store, docs[..n], decide);
    if decide(n).Written? {
      StoredReflects(before, IdText(docs[n]), docs[n], decide(n).rev);
    }
    if k < n {
      assert docs[..n][k] == docs[k] && IdText(docs[k]) != IdText(docs[n]);
      AfterBulkWritten(store, docs[..n], decide, k);
      assert Lookup(AfterBulk(store, docs, decide), IdText(docs[k])) == Lookup(before, IdText(docs[k]));
    }
  }

  /**
   * A bulk write of distinct documents with nothing in between is a linear batch of the audit log; its
   * entries are those of the auditable documents.
   */
  lemma BulkIsLinear(store: DocumentStore, docs: seq<Document>, decide: nat -> Outcome, user: string, timestamp: string)
    requires AllNamed(docs) && DistinctIds(docs)
    ensures Linear(store,
            Batch(Relevant(TrueEntries(store, docs, decide)), AfterBulk(store, docs, decide), user, timestamp))
  {
    var entries, after := Relevant(TrueEntries(store, docs, decide)), AfterBulk(store, docs, decide);
    TrueEntriesDistinct(store, docs, decide);
    RelevantExact(TrueEntries(store, docs, decide));
    forall i | 0 <= i < |entries|
      ensures FitsStore(store, entries[i]) && Reflects(after, EntityOf(entries[i]), entries[i].newDoc)
    {
      assert entries[i] in entries;
      var k := EntryPosition(store, docs, decide, entries[i]);
      AfterBulkWritten(store, docs, decide, k);
    }
    forall id | IsReplicableId(Some(id)) && !Concerns(entries, id) ensures Lookup(after, id) == Lookup(store, id) {
      if SomeWritten(docs, decide, id) {
        WrittenIsConcerned(store, docs, decide, id);
        assert false;
      }
      AfterBulkUnwritten(store, docs, decide, id);
    }
  }

  lemma WrittenIsConcerned(store: DocumentStore, docs: seq<Document>, decide: nat -> Outcome, id: string)
    requires AllNamed(docs) && SomeWritten(docs, decide, id) && IsReplicableId(Some(id))
    ensures Concerns(Relevant(TrueEntries(store, docs, decide)), id)
  {
    var entries := Relevant(TrueEntries(store, docs, decide));
    var k :| 0 <= k < |docs| && IdText(docs[k]) == id && decide(k).Written?;
    var e := TrueEntry(store, docs[k], decide(k)).value;
    WrittenHasEntry(store, docs, decide, k);
    RelevantExact(TrueEntries(store, docs, decide));
    assert e in entries;
    var i :| 0 <= i < |entries| && entries[i] == e;
    assert EntityOf(entries[i]) == id;
  }

  lemma {:induction false} AfterBulkKeyed(store: DocumentStore, docs: seq<Document>, decide: nat -> Outcome)
    requires Keyed(store) && AllNamed(docs)
    ensures Keyed(AfterBulk(store, docs, decide))
  {
    if docs != [] {
      var n := |docs| - 1;
      AfterBulkKeyed(store, docs[..n], decide);
      assert IdOf(docs[n]).Some?;
    }
  }

  /** The lookup for earlier records is right about every submitted id that is stored. */
  ghost predicate LookupRightFor(log: seq<AuditRecord>, store: DocumentStore, docs: seq<Document>) {
    forall i :: 0 <= i < |docs| && IdText(docs[i]) in store ==> KnownOrFirst(log, IdText(docs[i]))
  }

  /** Every auditable document that was written replays to what was posted. */
  ghost predicate WrittenReplay(log: seq<AuditRecord>, posted: seq<Document>, decide: nat -> Outcome) {
    forall k :: 0 <= k < |posted| && decide(k).Written? && IsReplicableId(IdOf(posted[k])) ==>
      Replay(log, IdText(posted[k])) == Some(Clean(posted[k]))
  }

  /**
   * Audited bulk writes: for a request with distinct ids the log goes on explaining the store, and
   * replays to every document just written.
   */
  lemma BulkExplains(
    newEditsFalse: bool, store: DocumentStore, docs: seq<Document>, can: Ability, ignoredPrefixes: seq<string>,
    decide: nat -> Outcome,
    log: seq<AuditRecord>, db: string, user: string, timestamp: string)
    requires DistinctIds(docs) && Explains(log, store) && LookupRightFor(log, store, docs)
    requires newEditsFalse ==> KeepsRevisions(PermittedDocs(store, can, ignoredPrefixes, docs), decide)
    ensures var posted := PermittedDocs(store, can, ignoredPrefixes, docs);
            var entries := ReportedEntries(newEditsFalse, store, BulkResponse(newEditsFalse, posted, decide), posted);
            var more := log + BatchRecords(log, db, Relevant(entries), user, timestamp);
            Explains(more, AfterBulk(store, posted, decide)) && WrittenReplay(more, posted, decide)
  {
    var posted := PermittedDocs(store, can, ignoredPrefixes, docs);
    PostedDistinct(store, docs, can, ignoredPrefixes);
    BulkWriteExact(newEditsFalse, store, docs, can, ignoredPrefixes, decide);
    PostedLookupRight(store, docs, can, ignoredPrefixes, decide, log);
    TrueEntriesExplain(store, posted, decide, log, db, user, timestamp);
  }

  lemma PostedLookupRight(
    store: DocumentStore, docs: seq<Document>, can: Ability, ignoredPrefixes: seq<string>, decide: nat -> Outcome,
    log: seq<AuditRecord>)
    requires LookupRightFor(log, store, docs)
    ensures LookupRight(log, Relevant(TrueEntries(store, PermittedDocs(store, can, ignoredPrefixes, docs), decide)))
  {
    var posted := PermittedDocs(store, can, ignoredPrefixes, docs);
    var entries := Relevant(TrueEntries(store, posted, decide));
    var positions := FilterSelects(docs, doc => Permitted(store, can, ignoredPrefixes, doc));
    RelevantExact(TrueEntries(store, posted, decide));
    forall i | 0 <= i < |entries| && entries[i].existingDoc.Some? ensures KnownOrFirst(log, EntityOf(entries[i])) {
      assert entries[i] in entries;
      var k := EntryPosition(store, posted, decide, entries[i]);
      assert posted[k] == docs[positions[k]];
    }
  }

  lemma TrueEntriesExplain(
    store: DocumentStore, posted: seq<Document>, decide: nat -> Outcome, log: seq<AuditRecord>, db: string,
    user: string, timestamp: string)
    requires AllNamed(posted) && DistinctIds(posted) && Explains(log, store)
    requires LookupRight(log, Relevant(TrueEntries(store, posted, decide)))
    ensures var more := log + BatchRecords(log, db, Relevant(TrueEntries(store, posted, decide)), user, timestamp);
            Explains(more, AfterBulk(store, posted, decide)) && WrittenReplay(more, posted, decide)
  {
    var entries := Relevant(TrueEntries(store, posted, decide));
    BulkIsLinear(store, posted, decide, user, timestamp);
    BatchExplains(store, log, db, Batch(entries, AfterBulk(store, posted, decide), user, timestamp));
    EntriesReplay(store, posted, decide, log + BatchRecords(log, db, entries, user, timestamp));
  }

  lemma EntriesReplay(store: DocumentStore, posted: seq<Document>, decide: nat -> Outcome, log: seq<AuditRecord>)
    requires AllReplay(log, Relevant(TrueEntries(store, posted, decide)))
    ensures WrittenReplay(log, posted, decide)
  {
    RelevantExact(TrueEntries(store, posted, decide));
    forall k | 0 <= k < |posted| && decide(k).Written? && IsReplicableId(IdOf(posted[k]))
      ensures Replay(log, IdText(posted[k])) == Some(Clean(posted[k]))
    {
      WrittenHasEntry(store, posted, decide, k);
      assert Replays(log, TrueEntry(store, posted[k], decide(k)).value);
    }
  }

  /**
   * The operation of every entry is what the stores show: a delete left no document, a create found
   * none and left one, an update found one and left one; a delete is what the submitted mark asks for.
   */
  lemma OperationsTell(store: DocumentStore, docs: seq<Document>, decide: nat -> Outcome, e: AuditEntry)
    requires AllNamed(docs) && DistinctIds(docs) && e in TrueEntries(store, docs, decide)
    ensures var id, after := EntityOf(e), AfterBulk(store, docs, decide);
            && (e.operation == Operation.Delete <==> id !in after)
            && (e.operation == Operation.Create <==> id !in store && id in after)
            && (e.operation == Operation.Update <==> id in store && id in after)
    ensures e.operation == Operation.Delete <==> Lookup(e.newDoc, "_deleted") == Some(Json.Bool(true))
  {
    var k := EntryPosition(store, docs, decide, e);
    AfterBulkWritten(store, docs, decide, k);
  }

  // ---------------------------------------------------------------- the service

  /** The fetched documents are the stored ones, for every id in the request. */
  ghost predicate Fetched(existing: map<string, Document>, store: DocumentStore, docs: seq<Document>) {
    forall i :: 0 <= i < |docs| && IdOf(docs[i]).Some? ==>
      Lookup(existing, IdOf(docs[i]).value) == Lookup(store, IdOf(docs[i]).value)
  }

  lemma FetchedPermits(
    existing: map<string, Document>, store: DocumentStore, docs: seq<Document>, can: Ability,
    ignoredPrefixes: seq<string>)
    requires Fetched(existing, store, docs)
    ensures PermittedDocs(existing, can, ignoredPrefixes, docs) == PermittedDocs(store, can, ignoredPrefixes, docs)
  {
    forall i | 0 <= i < |docs|
      ensures Permitted(existing, can, ignoredPrefixes, docs[i]) == Permitted(store, can, ignoredPrefixes, docs[i])
    {
      if IdOf(docs[i]).Some? {
        var id := IdOf(docs[i]).value;
        assert Lookup(existing, id) == Lookup(store, id);
      }
    }
    FilterSame(docs, doc => Permitted(existing, can, ignoredPrefixes, doc),
      doc => Permitted(store, can, ignoredPrefixes, doc));
  }

  class BulkDocumentService {
    const database: DocumentDatabase
    const audit: DefaultAuditService
    const ignoredPrefixes: seq<string>

    constructor (database: DocumentDatabase, audit: DefaultAuditService, ignoredPrefixes: seq<string>)
      ensures this.database == database && this.audit == audit && this.ignoredPrefixes == ignoredPrefixes
    {
      this.database, this.audit, this.ignoredPrefixes := database, audit, ignoredPrefixes;
    }

    /**
     * Filter, write and audit one request: what is posted is the permitted part of the request, and
     * the audit log grows by the records of what the response reports as written. For distinct ids the
     * log goes on explaining the store, and replays to what was written.
     */
    method HandleBulkDocs(
      request: BulkDocsRequest, can: Ability, db: string, user: string, timestamp: string, decide: nat -> Outcome)
      returns (response: seq<BulkResult>)
      requires audit.Valid()
      requires request.newEdits == Some(false) ==>
              KeepsRevisions(PermittedDocs(database.store, can, ignoredPrefixes, request.docs), decide)
      modifies database, audit
      ensures audit.Valid()
      ensures var posted := PermittedDocs(old(database.store), can, ignoredPrefixes, request.docs);
              var log := old(audit.Log(AuditDbFor(db)));
              var entries := ReportedEntries(request.newEdits == Some(false), old(database.store), response, posted);
              && response == BulkResponse(request.newEdits == Some(false), posted, decide)
              && database.store == AfterBulk(old(database.store), posted, decide)
              && audit.Log(AuditDbFor(db)) == if IsAuditDb(db) then log
                 else log + BatchRecords(log, db, Relevant(entries), user, timestamp)
      ensures old(Keyed(database.store)) ==> Keyed(database.store)
      ensures var log := old(audit.Log(AuditDbFor(db)));
              DistinctIds(request.docs) && !IsAuditDb(db) && Explains(log, old(database.store))
                && LookupRightFor(log, old(database.store), request.docs) ==>
                && Explains(audit.Log(AuditDbFor(db)), database.store)
                && WrittenReplay(audit.Log(AuditDbFor(db)),
                   PermittedDocs(old(database.store), can, ignoredPrefixes, request.docs), decide)
    {
      ghost var log := audit.Log(AuditDbFor(db));
      var existing := FetchExistingDocs(request.docs);
      var filtered := FilterDocs(request, can, existing);
      FetchedPermits(existing, database.store, request.docs, can, ignoredPrefixes);
      ghost var store := database.store;
      PostedNamed(store, request.docs, can, ignoredPrefixes);
      if Keyed(store) {
        AfterBulkKeyed(store, filtered.docs, decide);
      }
      response := database.PostBulkDocs(filtered.docs, filtered.newEdits == Some(false), decide);
      var entries := BuildBulkEntries(filtered, existing, response);
      PostedFetched(existing, store, request.docs, can, ignoredPrefixes);
      FetchedReports(existing, store, filtered, response);
      audit.Record(db, entries, user, timestamp);
      if DistinctIds(request.docs) && Explains(log, store) && LookupRightFor(log, store, request.docs) {
        BulkExplains(request.newEdits
          == Some(false), store, request.docs, can, ignoredPrefixes, decide, log, db, user, timestamp);
      }
    }

    /** The stored version of every document named in the request. */
    method FetchExistingDocs(docs: seq<Document>) returns (existing: map<string, Document>)
      ensures Fetched(existing, database.store, docs)
    {
      var keys: seq<string> := [];
      for i := 0 to |docs|
        invariant forall k :: 0 <= k < i && IdOf(docs[k]).Some? ==> IdOf(docs[k]).value in keys
      {
        if IdOf(docs[i]).Some? {
          keys := keys + [IdOf(docs[i]).value];
        }
      }
      var rows := database.AllDocs(keys);
      existing := map[];
      for i := 0 to |rows|
        invariant forall id :: id in existing ==> Lookup(database.store, id) == Some(existing[id])
        invariant forall k :: 0 <= k < i && keys[k] in database.store ==> keys[k] in existing
      {
        if rows[i].doc.Some? {
          existing := existing[rows[i].id := rows[i].doc.value];
        }
      }
    }

    method FilterDocs(
      request: BulkDocsRequest, can: Ability, existing: map<string, Document>)
      returns (filtered: BulkDocsRequest)
      ensures filtered == BulkDocsRequest(request.newEdits, PermittedDocs(existing, can, ignoredPrefixes, request.docs))
    {
      var permitted: seq<Document> := [];
      for i := 0 to |request.docs|
        invariant permitted == PermittedDocs(existing, can, ignoredPrefixes, request.docs[..i])
      {
        var doc := request.docs[i];
        assert request.docs[..i + 1][..i] == request.docs[..i];
        if IdOf(doc).None? || !IsReplicable(ignoredPrefixes, IdOf(doc).value) {
          continue;
        }
        if HasPermissionsForDoc(doc, Lookup(existing, IdOf(doc).value), can) {
          permitted := permitted + [doc];
        }
      }
      assert request.docs[..|request.docs|] == request.docs;
      return BulkDocsRequest(request.newEdits, permitted);
    }

    /** Split a response into the refused ids and the revision last reported per id. */
    method IndexBulkResponse(response: seq<BulkResult>) returns (errorIds: set<string>, revById: map<string, string>)
      ensures forall id :: id in errorIds <==> HasError(response, id)
      ensures forall id :: Lookup(revById, id) == LastRev(response, id)
    {
      errorIds, revById := {}, map[];
      for i := 0 to |response|
        invariant forall id :: id in errorIds <==> HasError(response[..i], id)
        invariant forall id :: Lookup(revById, id) == LastRev(response[..i], id)
      {
        var result := response[i];
        assert response[..i + 1] == response[..i] + [result];
        forall id {
          ErrorsLast(response[..i], result, id);
        }
        match result
        case Rejected(id, _) => errorIds := errorIds + {id};
        case Accepted(id, rev) => revById := revById[id := rev];
      }
      assert response[..|response|] == response;
    }

    method BuildBulkEntries(written: BulkDocsRequest, existing: map<string, Document>, response: seq<BulkResult>)
      returns (entries: seq<AuditEntry>)
      ensures entries == ReportedEntries(written.newEdits == Some(false), existing, response, written.docs)
    {
      var errorIds, revById := IndexBulkResponse(response);
      var newEditsFalse := written.newEdits == Some(false);
      entries := [];
      for i := 0 to |written.docs|
        invariant entries == ReportedEntries(newEditsFalse, existing, response, written.docs[..i])
      {
        var doc := written.docs[i];
        assert written.docs[..i + 1][..i] == written.docs[..i];
        assert IdOf(doc).Some? ==> Lookup(revById, IdOf(doc).value) == LastRev(response, IdOf(doc).value);
        var entry := ToAuditEntry(doc, existing, errorIds, revById, newEditsFalse);
        if entry.Some? {
          entries := entries + [entry.value];
        }
      }
      assert written.docs[..|written.docs|] == written.docs;
    }
  }

  lemma {:induction false} CollectedSame(
    docs: seq<Document>, f: Document -> Option<AuditEntry>, g: Document -> Option<AuditEntry>)
    requires forall i :: 0 <= i < |docs| ==> f(docs[i]) == g(docs[i])
    ensures Collected(docs, f) == Collected(docs, g)
  {
    if docs != [] {
      var init := docs[..|docs| - 1];
      assert forall i :: 0 <= i < |init| ==> init[i] == docs[i];
      CollectedSame(init, f, g);
    }
  }

  lemma PostedFetched(
    existing: map<string, Document>, store: DocumentStore, docs: seq<Document>, can: Ability,
    ignoredPrefixes: seq<string>)
    requires Fetched(existing, store, docs)
    ensures Fetched(existing, store, PermittedDocs(existing, can, ignoredPrefixes, docs))
  {
    var positions := FilterSelects(docs, doc => Permitted(existing, can, ignoredPrefixes, doc));
  }

  lemma FetchedReports(
    existing: map<string, Document>, store: DocumentStore, posted: BulkDocsRequest, response: seq<BulkResult>)
    requires Fetched(existing, store, posted.docs)
    ensures forall newEditsFalse ::
              ReportedEntries(newEditsFalse, existing, response, posted.docs)
                == ReportedEntries(newEditsFalse, store, response, posted.docs)
  {
    forall newEditsFalse
      ensures ReportedEntries(newEditsFalse, existing, response, posted.docs)
              == ReportedEntries(newEditsFalse, store, response, posted.docs)
    {
      forall i | 0 <= i < |posted.docs|
        ensures Reported(newEditsFalse, existing, response, posted.docs[i])
                == Reported(newEditsFalse, store, response, posted.docs[i])
      {
        if IdOf(posted.docs[i]).Some? {
          assert Lookup(existing, IdOf(posted.docs[i]).value) == Lookup(store, IdOf(posted.docs[i]).value);
        }
      }
      CollectedSame(posted.docs, doc => Reported(newEditsFalse, existing, response, doc),
        doc => Reported(newEditsFalse, store, response, doc));
    }
  }
}
