/**
 * Writes of single documents (src/restricted-endpoints/document/document-write.service.ts): the
 * field-wise merge happens in place on the fetched object, and the audit entry has to be unaffected.
 */
module DocumentWrite {
  import opened Wrappers
  import Json
  import opened Documents
  import opened Audit
  import opened BulkDocuments

  /** The fields a user may update on a document; none listed means the whole document. */
  type PermittedFields = Document -> set<string>

  function Pick(d: Document, fields: set<string>): Document {
    map k | k in d && k in fields :: d[k]
  }

  /** The document put in place of `existing`. */
  function FinalDoc(existing: Document, submitted: Document, fields: set<string>, ifMatch: string): Document {
    if fields != {} then existing + Pick(submitted, fields)
    else if ifMatch != "" then submitted["_rev" := Json.String(ifMatch)]
    else submitted
  }

  function Named(d: Document, id: string): Document {
    d["_id" := Json.String(id)]
  }

  /** A field-wise update changes permitted fields and no others. */
  lemma OnlyPermittedFieldsChange(
    existing: Document, submitted: Document, fields: set<string>, ifMatch: string, k: string)
    requires fields != {}
    ensures Lookup(FinalDoc(existing, submitted, fields, ifMatch), k)
         == if k in fields && k in submitted then Some(submitted[k]) else Lookup(existing, k)
  {
  }

  /** The database takes a document only on the current revision of its id. */
  predicate Accepted(store: DocumentStore, body: Document) {
    RevOf(body) == CurrentRev(store, IdText(body))
  }

  /** What a put writes, and what it reports as the state before. */
  function PutEntry(
    existing: Option<Document>, submitted: Document, permitted: PermittedFields, ifMatch: string, newRev: string)
    : AuditEntry
  {
    if existing.None? then AuditEntry(None, submitted, Some(newRev), Operation.Create)
    else
      AuditEntry(existing, FinalDoc(existing.value, submitted, permitted(existing.value), ifMatch), Some(newRev),
        Operation.Update)
  }

  function DeleteEntry(existing: Document, newRev: string): AuditEntry {
    AuditEntry(Some(existing), existing["_deleted" := Json.Bool(true)], Some(newRev), Operation.Delete)
  }

  /** The version of a document a put works on: none when it is missing or could not be read. */
  function ReadFor(store: DocumentStore, docId: string, readable: bool): Option<Document> {
    if readable then Lookup(store, docId) else None
  }

  /** The user may do what the put amounts to, and the database takes the document. */
  predicate PutSucceeds(store: DocumentStore, can: Ability, entry: AuditEntry) {
    && (if entry.existingDoc.Some? then can(MayUpdate, entry.existingDoc.value) else can(MayCreate, entry.newDoc))
    && Accepted(store, entry.newDoc)
  }

  function AfterPut(store: DocumentStore, entry: AuditEntry, newRev: string, result: Result<string>): DocumentStore {
    if result.Ok? then Stored(store, IdText(entry.newDoc), entry.newDoc, newRev) else store
  }

  /** Whatever is submitted, a put with If-Match is taken on the revision it names and on no other. */
  ghost predicate IfMatchEnforced(
    store: DocumentStore, docId: string, existing: Option<Document>, permitted: PermittedFields)
  {
    forall submitted, ifMatch :: ifMatch != "" ==>
      (PutAccepted(store, docId, existing, permitted, submitted, ifMatch) <==>
       CurrentRev(store, docId) == Some(ifMatch))
  }

  predicate PutAccepted(
    store: DocumentStore, docId: string, existing: Option<Document>, permitted: PermittedFields, submitted: Document,
    ifMatch: string)
  {
    Accepted(store, PutEntry(existing, Named(submitted, docId), permitted, ifMatch, "").newDoc)
  }

  /**
   * If-Match is enforced exactly when the current version was read and the whole document is replaced;
   * not on a field-wise update, and not when the document is missing or could not be read.
   */
  lemma IfMatchEnforcedIff(store: DocumentStore, docId: string, readable: bool, permitted: PermittedFields)
    requires Keyed(store)
    ensures var existing := ReadFor(store, docId, readable);
            IfMatchEnforced(store, docId, existing, permitted) <==> existing.Some? && permitted(existing.value) == {}
  {
    var existing := ReadFor(store, docId, readable);
    if existing.Some? && permitted(existing.value) == {} {
      forall submitted, ifMatch | ifMatch != ""
        ensures PutAccepted(store, docId, existing, permitted, submitted, ifMatch)
                <==> CurrentRev(store, docId) == Some(ifMatch)
      {
      }
    } else {
      var stale := StaleIfMatch(store, docId);
      var submitted := Resubmitted(store, docId, existing);
      StaleAccepted(store, docId, existing, permitted);
      assert PutAccepted(store, docId, existing, permitted, submitted, stale);
    }
  }

  /** A header that names no current revision. */
  function StaleIfMatch(store: DocumentStore, docId: string): string {
    if CurrentRev(store, docId).Some? then CurrentRev(store, docId).value + "-stale" else "9-stale"
  }

  /** A body that the database takes when the header is ignored. */
  function Resubmitted(store: DocumentStore, docId: string, existing: Option<Document>): Document {
    if existing.Some? || CurrentRev(store, docId).None? then map[]
      else map["_rev" := Json.String(CurrentRev(store, docId).value)]
  }

  lemma StaleAccepted(store: DocumentStore, docId: string, existing: Option<Document>, permitted: PermittedFields)
    requires Keyed(store)
    requires existing.Some? ==> existing == Lookup(store, docId) && permitted(existing.value) != {}
    ensures PutAccepted(store, docId, existing, permitted, Resubmitted(store, docId, existing),
            StaleIfMatch(store, docId))
    ensures CurrentRev(store, docId) != Some(StaleIfMatch(store, docId)) && StaleIfMatch(store, docId) != ""
  {
    var submitted := Named(Resubmitted(store, docId, existing), docId);
    assert CurrentRev(store, docId).Some? ==> CurrentRev(store, docId).value != "";
    if existing.Some? {
      var body := existing.value + Pick(submitted, permitted(existing.value));
      assert RevOf(body) == RevOf(existing.value) && IdOf(body) == Some(docId);
      assert PutEntry(existing, submitted, permitted, StaleIfMatch(store, docId), "").newDoc == body;
      assert CurrentRev(store, docId) == RevOf(existing.value);
    } else {
      assert IdText(submitted) == docId;
    }
  }

  const STORED_EXAMPLE: DocumentStore :=
    map["A:1" := map["_id" := Json.String("A:1"), "_rev" := Json.String("2-b"), "name" := Json.String("old")]]

  /** Two concrete puts under a stale header: a field-wise one, and one whose current version could not be read. */
  lemma StaleIfMatchAccepted()
    ensures Keyed(STORED_EXAMPLE) && CurrentRev(STORED_EXAMPLE, "A:1") == Some("2-b")
    ensures PutAccepted(STORED_EXAMPLE, "A:1", ReadFor(STORED_EXAMPLE, "A:1", true), d => {"name"},
            map["name" := Json.String("new")], "1-a")
    ensures PutAccepted(STORED_EXAMPLE, "A:1", ReadFor(STORED_EXAMPLE, "A:1", false), d => {},
            map["_rev" := Json.String("2-b")], "1-a")
  {
    var existing := STORED_EXAMPLE["A:1"];
    var body := existing + Pick(Named(map["name" := Json.String("new")], "A:1"), {"name"});
    assert RevOf(body) == Some("2-b") && IdOf(body) == Some("A:1");
    assert "name" in Pick(Named(map["name" := Json.String("new")], "A:1"), {"name"});
  }

  /**
   * When a stored document is overwritten by a user who may not update it: never when the current
   * version was read, and otherwise when the user may create the submitted document and it carries the
   * current revision.
   */
  lemma OverwriteWithoutUpdateIff(
    store: DocumentStore, docId: string, readable: bool, submitted: Document, can: Ability, permitted: PermittedFields,
    ifMatch: string,
    newRev: string)
    requires docId in store && !can(MayUpdate, store[docId])
    ensures PutSucceeds(store, can,
            PutEntry(ReadFor(store, docId, readable), Named(submitted, docId), permitted, ifMatch, newRev))
       <==> !readable && can(MayCreate, Named(submitted, docId)) && RevOf(submitted) == CurrentRev(store, docId)
  {
    assert IdText(Named(submitted, docId)) == docId;
  }

  /** That user in a concrete store: allowed to create, not to update, and replacing a document anyway. */
  lemma UnreadableOverwritten()
    ensures var can := (action: Action, d: Document) => action.MayCreate?;
            var submitted: Document := map["_rev" := Json.String("2-b"), "name" := Json.String("new")];
            var entry := PutEntry(ReadFor(STORED_EXAMPLE, "A:1", false), Named(submitted, "A:1"), d => {}, "", "3-c");
            && !can(MayUpdate, STORED_EXAMPLE["A:1"]) && PutSucceeds(STORED_EXAMPLE, can, entry)
            && "name" in AfterPut(STORED_EXAMPLE, entry, "3-c", Ok("3-c"))["A:1"]
            && AfterPut(STORED_EXAMPLE, entry, "3-c", Ok("3-c"))["A:1"]["name"] == Json.String("new")
  {
    var submitted: Document := map["_rev" := Json.String("2-b"), "name" := Json.String("new")];
    assert RevOf(Named(submitted, "A:1")) == Some("2-b") && IdText(Named(submitted, "A:1")) == "A:1";
  }

  /**
   * When a put removes a document that was read: exactly when the user may update it, and what is put
   * is taken and marked as deleted. The right to delete is not asked for, as it is in a bulk write, and
   * the audit log gets an update.
   */
  lemma RemovedByPutIff(
    store: DocumentStore, docId: string, submitted: Document, can: Ability, permitted: PermittedFields, ifMatch: string,
    newRev: string)
    requires Keyed(store) && docId in store
    ensures var entry := PutEntry(ReadFor(store, docId, true), Named(submitted, docId), permitted, ifMatch, newRev);
            PutSucceeds(store, can, entry) && docId !in AfterPut(store, entry, newRev, Ok(newRev))
            <==> can(MayUpdate, store[docId]) && Accepted(store, entry.newDoc) && Deleted(entry.newDoc)
    ensures PutEntry(Some(store[docId]), Named(submitted, docId), permitted, ifMatch, newRev).operation
            == Operation.Update
  {
    var entry := PutEntry(ReadFor(store, docId, true), Named(submitted, docId), permitted, ifMatch, newRev);
    assert IdOf(store[docId]) == Some(docId);
    assert IdText(entry.newDoc) == docId;
  }

  /** A user who may update but not delete removes a document; in a bulk request it would not be posted. */
  lemma UpdateRemoves()
    ensures var can := (action: Action, d: Document) => action.MayUpdate?;
            var submitted: Document := map["_rev" := Json.String("2-b"), "_deleted" := Json.Bool(true)];
            var entry := PutEntry(ReadFor(STORED_EXAMPLE, "A:1", true), Named(submitted, "A:1"), d => {}, "", "3-c");
            && !can(MayDelete, STORED_EXAMPLE["A:1"]) && PutSucceeds(STORED_EXAMPLE, can, entry)
            && "A:1" !in AfterPut(STORED_EXAMPLE, entry, "3-c", Ok("3-c"))
            && !Permitted(STORED_EXAMPLE, can, [], Named(submitted, "A:1"))
  {
    var can := (action: Action, d: Document) => action.MayUpdate?;
    var submitted: Document := map["_rev" := Json.String("2-b"), "_deleted" := Json.Bool(true)];
    assert IdOf(STORED_EXAMPLE["A:1"]) == Some("A:1");
    assert RevOf(Named(submitted, "A:1")) == Some("2-b") && IdOf(Named(submitted, "A:1")) == Some("A:1");
    RemovedByPutIff(STORED_EXAMPLE, "A:1", submitted, can, d => {}, "", "3-c");
  }

  // ---------------------------------------------------------------- single writes and the audit log

  /** The audit log after the records of one entry. */
  function LogWith(
    log: seq<AuditRecord>, db: string, entry: AuditEntry, user: string, timestamp: string)
    : seq<AuditRecord>
  {
    if IsAuditDb(db) then log else log + BatchRecords(log, db, Relevant([entry]), user, timestamp)
  }

  /** A write of one document: its entry starts from the stored one or from none, and nothing else changes. */
  ghost predicate OneWrite(store: DocumentStore, entry: AuditEntry, after: DocumentStore) {
    && IdOf(entry.newDoc).Some?
    && (entry.existingDoc.Some? ==> entry.existingDoc == Lookup(store, EntityOf(entry)) && !entry.operation.Create?)
    && Reflects(after, EntityOf(entry), entry.newDoc)
    && forall id :: id != EntityOf(entry) ==> Lookup(after, id) == Lookup(store, id)
  }

  /** It is a linear batch of the audit log, which is empty for an id that is not audited. */
  lemma OneWriteLinear(store: DocumentStore, entry: AuditEntry, after: DocumentStore, user: string, timestamp: string)
    requires OneWrite(store, entry, after)
    ensures Linear(store, Batch(Relevant([entry]), after, user, timestamp))
    ensures Relevant([entry]) == if IsReplicableId(IdOf(entry.newDoc)) then [entry] else []
  {
    assert [entry][1..] == [];
    var entries := Relevant([entry]);
    if IsReplicableId(IdOf(entry.newDoc)) {
      assert forall id :: id == EntityOf(entries[0]) ==> Concerns(entries, id);
    }
  }

  /** A put, whichever way it merges and whether or not the current version was read, is one write. */
  lemma PutIsOneWrite(
    store: DocumentStore, docId: string, readable: bool, submitted: Document, permitted: PermittedFields,
    ifMatch: string, newRev: string)
    requires Keyed(store) && docId != ""
    ensures var entry := PutEntry(ReadFor(store, docId, readable), Named(submitted, docId), permitted, ifMatch, newRev);
            var after := Stored(store, docId, entry.newDoc, newRev);
            IdText(entry.newDoc) == docId && OneWrite(store, entry, after) && Keyed(after)
  {
    var entry := PutEntry(ReadFor(store, docId, readable), Named(submitted, docId), permitted, ifMatch, newRev);
    assert IdOf(entry.newDoc) == Some(docId);
    StoredReflects(store, docId, entry.newDoc, newRev);
  }

  lemma DeleteIsOneWrite(store: DocumentStore, docId: string, newRev: string)
    requires Keyed(store) && docId in store
    ensures OneWrite(store, DeleteEntry(store[docId], newRev), store - {docId}) && Keyed(store - {docId})
    ensures EntityOf(DeleteEntry(store[docId], newRev)) == docId
  {
    assert IdOf(store[docId]) == Some(docId);
  }

  /** The log explains the store, and replays to the document just written if its id is audited. */
  ghost predicate Audits(log: seq<AuditRecord>, store: DocumentStore, entry: AuditEntry) {
    Explains(log, store) && (IsReplicableId(IdOf(entry.newDoc)) ==> Replays(log, entry))
  }

  /** The lookup is right about an id that is stored. */
  predicate LookupRightAt(log: seq<AuditRecord>, store: DocumentStore, docId: string) {
    docId in store ==> KnownOrFirst(log, docId)
  }

  /** One audited write keeps the log explaining the store. */
  lemma OneWriteExplains(
    store: DocumentStore, entry: AuditEntry, after: DocumentStore, log: seq<AuditRecord>, db: string, user: string,
    timestamp: string)
    requires OneWrite(store, entry, after) && Explains(log, store) && LookupRight(log, [entry]) && !IsAuditDb(db)
    ensures Audits(LogWith(log, db, entry, user, timestamp), after, entry)
  {
    OneWriteLinear(store, entry, after, user, timestamp);
    var entries := Relevant([entry]);
    forall i | 0 <= i < |entries| && entries[i].existingDoc.Some? ensures KnownOrFirst(log, EntityOf(entries[i])) {
      assert entries[i] == [entry][0];
    }
    BatchExplains(store, log, db, Batch(entries, after, user, timestamp));
    assert IsReplicableId(IdOf(entry.newDoc)) ==> entry in entries;
  }

  lemma PutKeepsAudit(
    store: DocumentStore, docId: string, readable: bool, submitted: Document, permitted: PermittedFields,
    ifMatch: string, newRev: string,
    log: seq<AuditRecord>, db: string, user: string, timestamp: string)
    ensures var entry := PutEntry(ReadFor(store, docId, readable), Named(submitted, docId), permitted, ifMatch, newRev);
            var after := Stored(store, IdText(entry.newDoc), entry.newDoc, newRev);
            docId != "" && Keyed(store) && !IsAuditDb(db) && Explains(log, store) && LookupRight(log, [entry]) ==>
              Keyed(after) && Audits(LogWith(log, db, entry, user, timestamp), after, entry)
  {
    if docId != "" && Keyed(store) {
      PutIsOneWrite(store, docId, readable, submitted, permitted, ifMatch, newRev);
      var entry := PutEntry(ReadFor(store, docId, readable), Named(submitted, docId), permitted, ifMatch, newRev);
      if Explains(log, store) && LookupRight(log, [entry]) && !IsAuditDb(db) {
        OneWriteExplains(store, entry, Stored(store, docId, entry.newDoc, newRev), log, db, user, timestamp);
      }
    }
  }

  lemma DeleteKeepsAudit(
    store: DocumentStore, docId: string, newRev: string, log: seq<AuditRecord>, db: string, user: string,
    timestamp: string)
    requires docId in store
    ensures var entry := DeleteEntry(store[docId], newRev);
            Keyed(store) && !IsAuditDb(db) && Explains(log, store) && KnownOrFirst(log, docId) ==>
              Keyed(store - {docId}) && Audits(LogWith(log, db, entry, user, timestamp), store - {docId}, entry)
  {
    if Keyed(store) && !IsAuditDb(db) && Explains(log, store) && KnownOrFirst(log, docId) {
      DeleteIsOneWrite(store, docId, newRev);
      OneWriteExplains(store, DeleteEntry(store[docId], newRev), store - {docId}, log, db, user, timestamp);
    }
  }

  class DocumentWriteService {
    const database: DocumentDatabase
    const audit: DefaultAuditService

    constructor (database: DocumentDatabase, audit: DefaultAuditService)
      ensures this.database == database && this.audit == audit
    {
      this.database, this.audit := database, audit;
    }

    /** Assign the permitted fields to the old object, which then is the final one, or take the new object. */
    method ApplyPermissions(permitted: PermittedFields, oldDoc: DocObject, newDoc: DocObject) returns (final: DocObject)
      modifies oldDoc
      ensures var fields := permitted(old(oldDoc.fields));
              if fields != {}
                then final == oldDoc && oldDoc.fields == old(oldDoc.fields) + Pick(old(newDoc.fields), fields)
              else final == newDoc && oldDoc.fields == old(oldDoc.fields)
    {
      var fields := permitted(oldDoc.fields);
      if fields != {} {
        oldDoc.fields := oldDoc.fields + Pick(newDoc.fields, fields);
        return oldDoc;
      }
      return newDoc;
    }

    /**
     * Put a document. `readable` says whether the current version could be fetched; when it cannot,
     * for whatever reason, the put counts as a create.
     */
    method PutDocument(
      db: string, docId: string, document: DocObject, can: Ability, permitted: PermittedFields, ifMatch: string,
      readable: bool,
      newRev: string, user: string, timestamp: string)
      returns (result: Result<string>)
      requires audit.Valid()
      modifies document, database, audit
      ensures audit.Valid()
      ensures var store, log := old(database.store), old(audit.Log(AuditDbFor(db)));
              var entry :=
                PutEntry(ReadFor(store, docId, readable), Named(old(document.fields), docId), permitted, ifMatch,
                  newRev);
              && (result.Ok? <==> PutSucceeds(store, can, entry))
              && database.store == AfterPut(store, entry, newRev, result)
              && audit.Log(AuditDbFor(db)) == (if result.Ok? then LogWith(log, db, entry, user, timestamp) else log)
              && (docId != "" && Keyed(store) && !IsAuditDb(db) && Explains(log, store) && LookupRight(log, [entry]) ==>
                    && Keyed(database.store) && Explains(audit.Log(AuditDbFor(db)), database.store)
                    && (result.Ok? ==> Audits(audit.Log(AuditDbFor(db)), database.store, entry)))
      ensures result.Ok? ==> result.value == newRev
    {
      ghost var store, log := database.store, audit.Log(AuditDbFor(db));
      document.fields := Named(document.fields, docId);
      ghost var entry := PutEntry(ReadFor(store, docId, readable), document.fields, permitted, ifMatch, newRev);
      var existingDoc: Option<DocObject> := None;
      if readable {
        existingDoc := database.Get(docId, None);
      }
      if existingDoc.None? {
        result := CreateDocument(db, document, can, newRev, user, timestamp);
      } else {
        result := UpdateDocument(db, existingDoc.value, document, can, permitted, ifMatch, newRev, user, timestamp);
      }
      PutKeepsAudit(store, docId, readable, old(document.fields), permitted, ifMatch, newRev, log, db, user, timestamp);
    }

    method CreateDocument(
      db: string, document: DocObject, can: Ability, newRev: string, user: string, timestamp: string)
      returns (result: Result<string>)
      requires audit.Valid()
      modifies database, audit
      ensures audit.Valid()
      ensures var store, log := old(database.store), old(audit.Log(AuditDbFor(db)));
              var entry := AuditEntry(None, document.fields, Some(newRev), Operation.Create);
              && (result.Ok? <==> PutSucceeds(store, can, entry))
              && database.store == AfterPut(store, entry, newRev, result)
              && audit.Log(AuditDbFor(db)) == (if result.Ok? then LogWith(log, db, entry, user, timestamp) else log)
      ensures result.Ok? ==> result.value == newRev
    {
      if !can(MayCreate, document.fields) {
        return Err("unauthorized");
      }
      result := database.Put(document.fields, newRev);
      if result.Ok? {
        audit.Record(db, [AuditEntry(None, document.fields, Some(newRev), Operation.Create)], user, timestamp);
      }
    }

    /** The before-state is copied first: applying the permissions changes the fetched object. */
    method UpdateDocument(
      db: string, existingDoc: DocObject, document: DocObject, can: Ability, permitted: PermittedFields,
      ifMatch: string, newRev: string,
      user: string, timestamp: string)
      returns (result: Result<string>)
      requires audit.Valid() && existingDoc != document
      modifies existingDoc, document, database, audit
      ensures audit.Valid()
      ensures var store, log := old(database.store), old(audit.Log(AuditDbFor(db)));
              var entry := PutEntry(Some(old(existingDoc.fields)), old(document.fields), permitted, ifMatch, newRev);
              && (result.Ok? <==> PutSucceeds(store, can, entry))
              && database.store == AfterPut(store, entry, newRev, result)
              && audit.Log(AuditDbFor(db)) == (if result.Ok? then LogWith(log, db, entry, user, timestamp) else log)
      ensures result.Ok? ==> result.value == newRev
    {
      var beforeDoc := existingDoc.fields;
      if !can(MayUpdate, existingDoc.fields) {
        return Err("unauthorized");
      }
      var finalDoc := ApplyPermissions(permitted, existingDoc, document);
      if ifMatch != "" {
        document.fields := document.fields["_rev" := Json.String(ifMatch)];
      }
      result := database.Put(finalDoc.fields, newRev);
      if result.Ok? {
        audit.Record(db, [AuditEntry(Some(beforeDoc), finalDoc.fields, Some(newRev), Operation.Update)], user,
          timestamp);
      }
    }

    /** Delete a document, checking the version the query asks for. */
    method DeleteDocument(
      db: string, docId: string, can: Ability, rev: Option<string>, newRev: string, user: string, timestamp: string)
      returns (result: Result<string>)
      requires audit.Valid()
      modifies database, audit
      ensures audit.Valid()
      ensures var store, log, found :=
              old(database.store), old(audit.Log(AuditDbFor(db))), old(database.Read(docId, rev));
              && (result.Ok?
                 <==> found.Some? && can(MayDelete, found.value) && docId in store && rev == CurrentRev(store, docId))
              && (result.Ok? ==>
                    && result.value == newRev
                    && database.store == store - {docId}
                    && audit.Log(AuditDbFor(db))
                       == LogWith(log, db, DeleteEntry(store[docId], newRev), user, timestamp))
              && (result.Err? ==> database.store == store && audit.logs == old(audit.logs))
              && (Keyed(store) && !IsAuditDb(db) && Explains(log, store) && LookupRightAt(log, store, docId) ==>
                    && Keyed(database.store) && Explains(audit.Log(AuditDbFor(db)), database.store)
                    && (result.Ok? ==>
                       Audits(audit.Log(AuditDbFor(db)), database.store, DeleteEntry(store[docId], newRev))))
    {
      ghost var store, log := database.store, audit.Log(AuditDbFor(db));
      if docId in store {
        DeleteKeepsAudit(store, docId, newRev, log, db, user, timestamp);
      }
      var document := database.Get(docId, rev);
      if document.None? {
        return Err("not_found");
      }
      if !can(MayDelete, document.value.fields) {
        return Err("unauthorized");
      }
      result := database.Delete(docId, rev, newRev);
      if result.Ok? {
        var before := document.value.fields;
        audit.Record(
          db, [AuditEntry(Some(before), before["_deleted" := Json.Bool(true)], Some(newRev), Operation.Delete)], user,
            timestamp);
      }
    }
  }
}
