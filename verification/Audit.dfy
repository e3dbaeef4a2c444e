/**
 * The audit log (src/audit/audit.service.ts): every accepted write becomes a record with a diff, the
 * first record of an entity that existed before is preceded by a baseline, and replaying an entity's
 * records gives back every state that was written.
 */
module Audit {
  import opened Wrappers
  import opened Json
  import opened Sequences
  import opened Documents

  const IGNORED_DIFF_FIELDS: set<string> := {"_rev", "_revisions", "_conflicts", "_attachments"}
  const AUDIT_DB_SUFFIX := "-audit"
  const ENTITY_TYPE := "AuditRecord"

  datatype Operation = Create | Update | Delete | Baseline

  /** One write as a write path reports it. */
  datatype AuditEntry = AuditEntry(existingDoc: Option<Document>, newDoc: Document, newRev: Option<string>,
    operation: Operation)

  datatype FieldChange = FieldAdded(after: Json) | FieldChanged(before: Json, after: Json) | FieldRemoved(before: Json)

  /** The result of diffing two documents: nothing, a whole new document, or changes per field. */
  datatype Delta = Same | Whole(doc: Document) | Fields(changes: map<string, FieldChange>)

  datatype Diff = Snapshot(doc: Document) | Changes(delta: Delta)

  datatype AuditRecord = AuditRecord(
    id: string, entityId: string, database: string, operation: Operation, rev: Option<string>, timestamp: string,
    user: string, diff: Diff)

  // ---------------------------------------------------------------- diffing

  /** Strip CouchDB's own fields. */
  function Clean(d: Document): Document {
    d - IGNORED_DIFF_FIELDS
  }

  function CleanOption(d: Option<Document>): Option<Document> {
    if d.None? then None else Some(Clean(d.value))
  }

  /** Cleaning drops four fields and keeps every other one. */
  lemma CleanTells(d: Document, k: string)
    ensures Lookup(Clean(d), k)
            == if k in {"_rev", "_revisions", "_conflicts", "_attachments"} then None else Lookup(d, k)
  {
  }

  function DiffOf(before: Option<Document>, after: Document): Delta {
    if before.None? then Whole(after)
    else if before.value == after then Same
    else
      var b := before.value;
      Fields(
        map k | k in b.Keys + after.Keys && Lookup(b, k) != Lookup(after, k) ::
          if k !in b then FieldAdded(after[k]) else if k !in after then FieldRemoved(b[k])
            else FieldChanged(b[k], after[k]))
  }

  function Patch(state: Option<Document>, delta: Delta): Option<Document> {
    match delta
    case Same => state
    case Whole(doc) => Some(doc)
    case Fields(changes) =>
      var b := if state.None? then map[] else state.value;
      Some(map k | k in b.Keys + changes.Keys && !(k in changes && changes[k].FieldRemoved?) ::
             if k in changes then changes[k].after else b[k])
  }

  /** Patching with a diff gives the target. */
  lemma PatchDiff(before: Option<Document>, after: Document)
    ensures Patch(before, DiffOf(before, after)) == Some(after)
  {
    if before.Some? && before.value != after {
      var b, changes := before.value, DiffOf(before, after).changes;
      var patched := Patch(before, DiffOf(before, after)).value;
      forall k ensures Lookup(patched, k) == Lookup(after, k) {
        if Lookup(b, k) == Lookup(after, k) {
          assert k !in changes;
        } else {
          assert k in changes;
        }
      }
      SameLookups(patched, after);
    }
  }

  /** A diff names exactly the fields that differ, each with its value before and after. */
  lemma DiffTells(before: Document, after: Document, k: string)
    requires before != after
    ensures DiffOf(Some(before), after).Fields?
    ensures var changes := DiffOf(Some(before), after).changes;
            && (k in changes <==> Lookup(before, k) != Lookup(after, k))
            && (k in changes ==>
               ValueBefore(changes[k]) == Lookup(before, k) && ValueAfter(changes[k]) == Lookup(after, k))
  {
  }

  function ValueBefore(change: FieldChange): Option<Json> {
    match change
    case FieldAdded(_) => None
    case FieldChanged(before, _) => Some(before)
    case FieldRemoved(before) => Some(before)
  }

  function ValueAfter(change: FieldChange): Option<Json> {
    match change
    case FieldAdded(after) => Some(after)
    case FieldChanged(_, after) => Some(after)
    case FieldRemoved(_) => None
  }

  lemma SameLookups(a: Document, b: Document)
    requires forall k :: Lookup(a, k) == Lookup(b, k)
    ensures a == b
  {
    assert forall k :: k in a <==> Lookup(a, k).Some?;
    assert forall k :: k in b <==> Lookup(b, k).Some?;
  }

  // ---------------------------------------------------------------- record ids

  function AuditDbFor(db: string): string {
    db + AUDIT_DB_SUFFIX
  }

  predicate IsAuditDb(db: string) {
    |db| >= |AUDIT_DB_SUFFIX| && db[|db| - |AUDIT_DB_SUFFIX|..] == AUDIT_DB_SUFFIX
  }

  /** Every database has its own audit database, and that one is recognized. */
  lemma AuditDbTells(db: string, other: string)
    ensures IsAuditDb(AuditDbFor(db)) && AuditDbFor(db) == db + "-audit"
    ensures AuditDbFor(db) == AuditDbFor(other) ==> db == other
    ensures IsAuditDb(db) <==> exists source: string :: AuditDbFor(source) == db
  {
    var name := AuditDbFor(db);
    assert name[|name| - |AUDIT_DB_SUFFIX|..] == AUDIT_DB_SUFFIX;
    if AuditDbFor(db) == AuditDbFor(other) {
      assert db == name[..|name| - |AUDIT_DB_SUFFIX|] == other;
    }
    if IsAuditDb(db) {
      assert AuditDbFor(db[..|db| - |AUDIT_DB_SUFFIX|]) == db;
    }
    if source: string :| AuditDbFor(source) == db {
      assert db[|db| - |AUDIT_DB_SUFFIX|..] == AUDIT_DB_SUFFIX;
    }
  }

  /** Only real entity documents are audited. */
  predicate IsReplicableId(id: Option<string>) {
    id.Some? && id.value != "" && !("_design/" <= id.value) && !("_local/" <= id.value)
  }

  function AuditIdPrefix(entityId: string): string {
    ENTITY_TYPE + ":" + entityId
  }

  /** What a record id holds behind the entity. */
  function IdTail(timestamp: string, rev: Option<string>): string {
    timestamp + ":" + RevText(rev)
  }

  function RevText(rev: Option<string>): string {
    if rev.Some? then rev.value else "na"
  }

  function BuildAuditId(entityId: string, timestamp: string, rev: Option<string>): string {
    AuditIdPrefix(entityId) + ":" + IdTail(timestamp, rev)
  }

  /** The key range asked for when looking for earlier records of an entity. */
  predicate InRange(recordId: string, entityId: string) {
    AuditIdPrefix(entityId) + ":" <= recordId
  }

  /** `longer` is `id` followed by a colon and more. */
  predicate Extends(longer: string, id: string) {
    id + ":" <= longer
  }

  /** A record of `f` lies in the range of `e` although `e` is neither `f` nor an id that `f` extends. */
  predicate Overlaps(e: string, f: string, timestamp: string, rev: Option<string>) {
    Extends(e, f) && e[|f| + 1..] + ":" <= IdTail(timestamp, rev)
  }

  /**
   * The range query of `e` finds a record of `f` exactly when `f` is `e`, or extends `e` by a colon, or
   * `e` extends `f` by a colon and goes on the way the record's own timestamp and revision do.
   */
  lemma RangeExact(e: string, f: string, timestamp: string, rev: Option<string>)
    ensures InRange(BuildAuditId(f, timestamp, rev), e) <==> f == e || Extends(f, e) || Overlaps(e, f, timestamp, rev)
  {
    var head, tail := ENTITY_TYPE + ":", IdTail(timestamp, rev);
    assert BuildAuditId(f, timestamp, rev) == head + (f + ":" + tail);
    assert AuditIdPrefix(e) + ":" == head + (e + ":");
    StripPrefix(head, e + ":", f + ":" + tail);
    if |e| <= |f| {
      NotLonger(e, f, tail);
    } else {
      Longer(e, f, tail);
    }
  }

  lemma NotLonger(e: string, f: string, tail: string)
    requires |e| <= |f|
    ensures e + ":" <= f + ":" + tail <==> e == f || Extends(f, e)
  {
    if |e| == |f| {
      assert (f + ":" + tail)[..|e| + 1] == f + ":";
      assert e + ":" == f + ":" ==> e == (e + ":")[..|e|] == (f + ":")[..|e|] == f;
    } else {
      assert (f + ":" + tail)[..|e| + 1] == f[..|e| + 1];
    }
  }

  lemma Longer(e: string, f: string, tail: string)
    requires |e| > |f|
    ensures e + ":" <= f + ":" + tail <==> Extends(e, f) && e[|f| + 1..] + ":" <= tail
    ensures !Extends(f, e)
  {
    if e + ":" <= f + ":" + tail {
      LongerExtends(e, f, tail);
    }
    if Extends(e, f) {
      assert e == (f + ":") + e[|f| + 1..];
      assert e + ":" == (f + ":") + (e[|f| + 1..] + ":");
      StripPrefix(f + ":", e[|f| + 1..] + ":", tail);
    }
  }

  lemma LongerExtends(e: string, f: string, tail: string)
    requires |e| > |f| && e + ":" <= f + ":" + tail
    ensures Extends(e, f)
  {
    assert (e + ":")[..|f| + 1] == (f + ":" + tail)[..|f| + 1] == f + ":";
    assert (e + ":")[..|f| + 1] == e[..|f| + 1];
  }

  lemma StripPrefix(head: string, a: string, b: string)
    ensures head + a <= head + b <==> a <= b
  {
    if head + a <= head + b {
      assert a == (head + a)[|head|..] == (head + b)[..|head + a|][|head|..] == b[..|a|];
    }
    if a <= b {
      assert (head + b)[..|head + a|] == head + b[..|a|];
    }
  }

  // ---------------------------------------------------------------- building records

  function Rev(entry: AuditEntry): Option<string> {
    if entry.newRev.Some? then entry.newRev else RevOf(entry.newDoc)
  }

  function BuildBaseline(db: string, id: string, existing: Document, user: string, timestamp: string): AuditRecord {
    AuditRecord(BuildAuditId(id, timestamp, RevOf(existing)), id, db, Baseline, RevOf(existing), timestamp, user,
      Snapshot(Clean(existing)))
  }

  function BuildRecord(db: string, id: string, entry: AuditEntry, user: string, timestamp: string): AuditRecord {
    AuditRecord(
      BuildAuditId(id, timestamp, Rev(entry)), id, db, entry.operation, Rev(entry), timestamp, user,
      Changes(DiffOf(CleanOption(entry.existingDoc), Clean(entry.newDoc))))
  }

  /** No record in the range of the entity yet. */
  predicate IsFirstAuditFor(log: seq<AuditRecord>, id: string) {
    forall i :: 0 <= i < |log| ==> !InRange(log[i].id, id)
  }

  predicate NeedsBaseline(log: seq<AuditRecord>, id: string, entry: AuditEntry) {
    entry.existingDoc.Some? && !entry.operation.Create? && IsFirstAuditFor(log, id)
  }

  /** The entity an entry is about. */
  function EntityOf(entry: AuditEntry): string {
    if IdOf(entry.newDoc).Some? then IdOf(entry.newDoc).value else ""
  }

  /** The records one entry adds to a log. */
  function RecordsOf(
    log: seq<AuditRecord>, db: string, entry: AuditEntry, user: string, timestamp: string)
    : seq<AuditRecord>
  {
    var id := EntityOf(entry);
    (if NeedsBaseline(log, id, entry) then [BuildBaseline(db, id, entry.existingDoc.value, user, timestamp)] else [])
    + [BuildRecord(db, id, entry, user, timestamp)]
  }

  /**
   * What the records of an entry say: the entity, the database, the user and the time; a baseline with
   * the whole document as it was under its own revision; and the operation, the new revision and the
   * difference.
   */
  lemma RecordsTell(log: seq<AuditRecord>, db: string, entry: AuditEntry, user: string, timestamp: string)
    ensures var records := RecordsOf(log, db, entry, user, timestamp);
            && 1 <= |records| <= 2
            && (forall r :: r in records ==> r.entityId == EntityOf(entry) && IsSignedBy(r, db, user, timestamp))
            && RecordsWrite(records[|records| - 1], entry)
            && (|records| == 2 ==> entry.existingDoc.Some? && RecordsBaseline(records[0], entry.existingDoc.value))
  {
  }

  predicate IsSignedBy(record: AuditRecord, db: string, user: string, timestamp: string) {
    record.database == db && record.user == user && record.timestamp == timestamp
  }

  predicate RecordsWrite(record: AuditRecord, entry: AuditEntry) {
    && record.operation == entry.operation
    && record.rev == (if entry.newRev.Some? then entry.newRev else TextField(entry.newDoc, "_rev"))
    && record.diff == Changes(DiffOf(CleanOption(entry.existingDoc), Clean(entry.newDoc)))
  }

  predicate RecordsBaseline(record: AuditRecord, stored: Document) {
    record.operation.Baseline? && record.rev == TextField(stored, "_rev") && record.diff == Snapshot(Clean(stored))
  }

  /** The id of a record, spelled out. */
  lemma RecordIdTells(record: AuditRecord)
    requires NamedAsBuilt(record)
    ensures record.id == "AuditRecord:" + record.entityId + ":" + record.timestamp + ":"
                         + (if record.rev.Some? then record.rev.value else "na")
  {
    Regroup(AuditIdPrefix(record.entityId) + ":", record.timestamp, ":", RevText(record.rev));
    assert AuditIdPrefix(record.entityId) == "AuditRecord:" + record.entityId;
  }

  /** An entry is recorded unless its id is missing, a design document's or a local one's. */
  lemma {:induction false} RelevantTells(entries: seq<AuditEntry>)
    ensures Relevant(entries) == Filter(entries, (e: AuditEntry) => AuditedId(IdOf(e.newDoc)))
  {
    if entries != [] {
      var init, last := entries[..|entries| - 1], entries[|entries| - 1];
      RelevantTells(init);
      RelevantConcat(init, [last]);
      assert entries == init + [last] && [last][1..] == [];
    }
  }

  predicate AuditedId(id: Option<string>) {
    id.Some? && |id.value| > 0 && !("_design/" <= id.value || "_local/" <= id.value)
  }

  lemma {:induction false} RelevantConcat(a: seq<AuditEntry>, b: seq<AuditEntry>)
    ensures Relevant(a + b) == Relevant(a) + Relevant(b)
  {
    if a == [] {
      assert a + b == b;
    } else {
      assert (a + b)[1..] == a[1..] + b;
      RelevantConcat(a[1..], b);
    }
  }

  function Relevant(entries: seq<AuditEntry>): (r: seq<AuditEntry>)
    ensures forall i :: 0 <= i < |r| ==> IsReplicableId(IdOf(r[i].newDoc))
  {
    if entries == [] then []
    else (if IsReplicableId(IdOf(entries[0].newDoc)) then [entries[0]] else []) + Relevant(entries[1..])
  }

  /** The records of a batch; baselines are decided on the log as it was before the batch. */
  function BatchRecords(
    log: seq<AuditRecord>, db: string, entries: seq<AuditEntry>, user: string, timestamp: string)
    : seq<AuditRecord>
  {
    if entries == [] then []
    else
      BatchRecords(log, db, entries[..|entries| - 1], user, timestamp)
      + RecordsOf(log, db, entries[|entries| - 1], user, timestamp)
  }

  // ---------------------------------------------------------------- replay

  lemma BatchSnoc(log: seq<AuditRecord>, db: string, entries: seq<AuditEntry>, i: nat, user: string, timestamp: string)
    requires i < |entries|
    ensures BatchRecords(log, db, entries[..i + 1], user, timestamp)
         == BatchRecords(log, db, entries[..i], user, timestamp) + RecordsOf(log, db, entries[i], user, timestamp)
  {
    assert entries[..i + 1][..i] == entries[..i];
  }

  function ReplayDiff(before: Option<Document>, diff: Diff): Option<Document> {
    match diff
    case Snapshot(doc) => Some(doc)
    case Changes(delta) => Patch(before, delta)
  }

  /** The state of an entity after its records, in posting order. */
  function Replay(log: seq<AuditRecord>, id: string): Option<Document> {
    if log == [] then None
    else
      var before, last := Replay(log[..|log| - 1], id), log[|log| - 1];
      if last.entityId != id then before else ReplayDiff(before, last.diff)
  }

  predicate Audited(log: seq<AuditRecord>, id: string) {
    exists i :: 0 <= i < |log| && log[i].entityId == id
  }

  /** The record's id is built from what it records. */
  predicate NamedAsBuilt(record: AuditRecord) {
    record.id == BuildAuditId(record.entityId, record.timestamp, record.rev)
  }

  /** The record is of another entity, and still found when looking for one of `id`. */
  predicate Confused(record: AuditRecord, id: string) {
    Extends(record.entityId, id) || Overlaps(id, record.entityId, record.timestamp, record.rev)
  }

  /** The lookup answers "first" exactly when there is neither a record of the entity nor a confused one. */
  lemma LookupExact(log: seq<AuditRecord>, id: string)
    requires forall i :: 0 <= i < |log| ==> NamedAsBuilt(log[i])
    ensures IsFirstAuditFor(log, id) <==> !Audited(log, id) && forall i :: 0 <= i < |log| ==> !Confused(log[i], id)
  {
    forall i | 0 <= i < |log| ensures InRange(log[i].id, id) <==> log[i].entityId == id || Confused(log[i], id) {
      RangeExact(id, log[i].entityId, log[i].timestamp, log[i].rev);
    }
  }

  /** Replaying gives, for the entry's entity, the cleaned document the entry recorded as written. */
  ghost predicate Replays(log: seq<AuditRecord>, entry: AuditEntry) {
    Replay(log, EntityOf(entry)) == Some(Clean(entry.newDoc))
  }

  lemma {:induction false} ReplayConcat(log: seq<AuditRecord>, more: seq<AuditRecord>, id: string)
    requires forall i :: 0 <= i < |more| ==> more[i].entityId != id
    ensures Replay(log + more, id) == Replay(log, id)
  {
    if more == [] {
      assert log + more == log;
    } else {
      assert (log + more)[..|log + more| - 1] == log + more[..|more| - 1];
      ReplayConcat(log, more[..|more| - 1], id);
    }
  }

  /** The replayed state after one entry's records, whatever other records lie in between. */
  lemma ReplayEntry(
    log: seq<AuditRecord>, between: seq<AuditRecord>, db: string, entry: AuditEntry, user: string, timestamp: string)
    requires forall i :: 0 <= i < |between| ==> between[i].entityId != EntityOf(entry)
    requires entry.existingDoc.Some? && !NeedsBaseline(log, EntityOf(entry), entry) ==>
               Replay(log, EntityOf(entry)) == CleanOption(entry.existingDoc)
    ensures Replays(log + between + RecordsOf(log, db, entry, user, timestamp), entry)
  {
    ReplayConcat(log, between, EntityOf(entry));
    if NeedsBaseline(log, EntityOf(entry), entry) {
      ReplayWithBaseline(log, log + between, db, entry, user, timestamp);
    } else {
      OneRecord(log, db, entry, user, timestamp);
      ReplayLast(log + between, BuildRecord(db, EntityOf(entry), entry, user, timestamp));
      PatchDiff(CleanOption(entry.existingDoc), Clean(entry.newDoc));
    }
  }

  lemma ReplayWithBaseline(
    log: seq<AuditRecord>, base: seq<AuditRecord>, db: string, entry: AuditEntry, user: string, timestamp: string)
    requires NeedsBaseline(log, EntityOf(entry), entry)
    ensures Replays(base + RecordsOf(log, db, entry, user, timestamp), entry)
  {
    var id := EntityOf(entry);
    var baseline, record :=
      BuildBaseline(db, id, entry.existingDoc.value, user, timestamp), BuildRecord(db, id, entry, user, timestamp);
    Associate(base, [baseline], [record]);
    ReplayLast(base, baseline);
    ReplayLast(base + [baseline], record);
    PatchDiff(CleanOption(entry.existingDoc), Clean(entry.newDoc));
  }

  lemma ReplayLast(log: seq<AuditRecord>, record: AuditRecord)
    ensures Replay(log + [record], record.entityId) == ReplayDiff(Replay(log, record.entityId), record.diff)
  {
    assert (log + [record])[..|log|] == log;
  }

  predicate FirstWrite(log: seq<AuditRecord>, entry: AuditEntry) {
    && entry.existingDoc.Some? && !entry.operation.Create? && !Audited(log, EntityOf(entry))
    && IdOf(entry.newDoc).Some? && IdOf(entry.newDoc) == IdOf(entry.existingDoc.value)
  }

  /**
   * When the first write to an entity that already existed can be replayed: exactly when the log holds
   * no record that the lookup confuses with one of the entity's. Otherwise the baseline is missing, and
   * with it at least the `_id`.
   */
  lemma FirstWriteReplaysIff(log: seq<AuditRecord>, db: string, entry: AuditEntry, user: string, timestamp: string)
    requires FirstWrite(log, entry)
    ensures Replays(log + RecordsOf(log, db, entry, user, timestamp), entry) <==> IsFirstAuditFor(log, EntityOf(entry))
    ensures (forall i :: 0 <= i < |log| ==> NamedAsBuilt(log[i])) ==>
              (IsFirstAuditFor(log, EntityOf(entry)) <==>
               forall i :: 0 <= i < |log| ==> !Confused(log[i], EntityOf(entry)))
  {
    if forall i :: 0 <= i < |log| ==> NamedAsBuilt(log[i]) {
      LookupExact(log, EntityOf(entry));
    }
    if NeedsBaseline(log, EntityOf(entry), entry) {
      ReplayWithBaseline(log, log, db, entry, user, timestamp);
    } else {
      NoBaselineNoReplay(log, db, entry, user, timestamp);
    }
  }

  /** An update that is the first audited write to an existing document. */
  function FirstUpdate(id: string): AuditEntry {
    var stored: Document := map["_id" := String(id)];
    AuditEntry(Some(stored), stored["name" := String("new")], Some("2-b"), Update)
  }

  /** The log after one create of `id`. */
  function OneCreate(db: string, id: string, user: string, timestamp: string): seq<AuditRecord> {
    [BuildRecord(db, id, AuditEntry(None, map["_id" := String(id)], Some("1-a"), Create), user, timestamp)]
  }

  /** A record of `A:1:2` hides that `A:1` has none. */
  lemma LongerIdHidesBaseline(db: string, user: string, timestamp: string)
    ensures var log, entry := OneCreate(db, "A:1:2", user, timestamp), FirstUpdate("A:1");
            FirstWrite(log, entry) && !Replays(log + RecordsOf(log, db, entry, user, timestamp), entry)
  {
    var log, entry := OneCreate(db, "A:1:2", user, timestamp), FirstUpdate("A:1");
    assert Extends("A:1:2", "A:1");
    ConfusedHidesBaseline(log, db, entry, user, timestamp);
  }

  /** A record of `Config:CONFIG_ENTITY` hides that the backup of the same instant has none. */
  lemma ShorterIdHidesBaseline(db: string, user: string, timestamp: string)
    ensures var log, entry :=
            OneCreate(db, "Config:CONFIG_ENTITY", user, timestamp),
              FirstUpdate("Config:CONFIG_ENTITY" + ":" + timestamp);
            && FirstWrite(log, entry) && !Extends(log[0].entityId, EntityOf(entry))
            && !Replays(log + RecordsOf(log, db, entry, user, timestamp), entry)
  {
    SameInstantOverlaps("Config:CONFIG_ENTITY", timestamp, Some("1-a"));
    var log, entry :=
      OneCreate(db, "Config:CONFIG_ENTITY", user, timestamp), FirstUpdate("Config:CONFIG_ENTITY" + ":" + timestamp);
    assert log[0].entityId == "Config:CONFIG_ENTITY" && log[0].rev == Some("1-a");
    ConfusedHidesBaseline(log, db, entry, user, timestamp);
  }

  lemma SameInstantOverlaps(f: string, timestamp: string, rev: Option<string>)
    ensures Overlaps(f + ":" + timestamp, f, timestamp, rev) && !Extends(f, f + ":" + timestamp)
  {
    var e := f + ":" + timestamp;
    assert e[|f| + 1..] == timestamp;
    assert f + ":" == e[..|f| + 1];
  }

  lemma ConfusedHidesBaseline(log: seq<AuditRecord>, db: string, entry: AuditEntry, user: string, timestamp: string)
    requires FirstWrite(log, entry) && |log| == 1 && NamedAsBuilt(log[0]) && Confused(log[0], EntityOf(entry))
    ensures !Replays(log + RecordsOf(log, db, entry, user, timestamp), entry)
  {
    FirstWriteReplaysIff(log, db, entry, user, timestamp);
  }

  lemma NoBaselineNoReplay(log: seq<AuditRecord>, db: string, entry: AuditEntry, user: string, timestamp: string)
    requires FirstWrite(log, entry) && !NeedsBaseline(log, EntityOf(entry), entry)
    ensures !Replays(log + RecordsOf(log, db, entry, user, timestamp), entry)
  {
    OneRecord(log, db, entry, user, timestamp);
    NeverAudited(log, EntityOf(entry));
    LoneRecordLoses(log, db, entry, user, timestamp);
  }

  /** A diff on its own, with no earlier state of the entity, does not replay to what was written. */
  lemma LoneRecordLoses(base: seq<AuditRecord>, db: string, entry: AuditEntry, user: string, timestamp: string)
    requires Replay(base, EntityOf(entry)) == None && entry.existingDoc.Some?
    requires IdOf(entry.newDoc).Some? && IdOf(entry.newDoc) == IdOf(entry.existingDoc.value)
    ensures !Replays(base + [BuildRecord(db, EntityOf(entry), entry, user, timestamp)], entry)
  {
    ReplayLast(base, BuildRecord(db, EntityOf(entry), entry, user, timestamp));
    MissingBaseline(Clean(entry.existingDoc.value), Clean(entry.newDoc), "_id");
  }

  lemma OneRecord(log: seq<AuditRecord>, db: string, entry: AuditEntry, user: string, timestamp: string)
    requires !NeedsBaseline(log, EntityOf(entry), entry)
    ensures RecordsOf(log, db, entry, user, timestamp) == [BuildRecord(db, EntityOf(entry), entry, user, timestamp)]
  {
  }

  lemma NeverAudited(log: seq<AuditRecord>, id: string)
    requires !Audited(log, id)
    ensures Replay(log, id) == None
  {
    assert [] + log == log;
    ReplayConcat([], log, id);
  }

  /** A diff says nothing about a field that did not change. */
  lemma MissingBaseline(before: Document, after: Document, kept: string)
    requires kept in before && kept in after && before[kept] == after[kept]
    ensures Patch(None, DiffOf(Some(before), after)) != Some(after)
  {
    if before != after {
      assert kept !in Patch(None, DiffOf(Some(before), after)).value;
    }
  }

  // ---------------------------------------------------------------- histories

  /** Some audited writes in one call, and the store after them. */
  datatype Batch = Batch(entries: seq<AuditEntry>, after: DocumentStore, user: string, timestamp: string)

  /**
   * An entry that reports the stored document as its before-state, or none at all: there was none, or
   * it could not be read. Creates report none.
   */
  predicate FitsStore(store: DocumentStore, entry: AuditEntry) {
    && IsReplicableId(IdOf(entry.newDoc))
    && (entry.existingDoc.Some? ==> entry.existingDoc == Lookup(store, EntityOf(entry)) && !entry.operation.Create?)
  }

  predicate DistinctEntities(entries: seq<AuditEntry>) {
    forall i, j :: 0 <= i < j < |entries| ==> EntityOf(entries[i]) != EntityOf(entries[j])
  }

  predicate Concerns(entries: seq<AuditEntry>, id: string) {
    exists k :: 0 <= k < |entries| && EntityOf(entries[k]) == id
  }

  /** The store holds the written document, up to CouchDB's own fields, or nothing after a deletion. */
  predicate Reflects(store: DocumentStore, id: string, written: Document) {
    if Deleted(written) then id !in store else id in store && Clean(store[id]) == Clean(written)
  }

  /**
   * A linear batch: it starts from the stored documents, names no id twice, and the store holds what it
   * wrote and, for every other auditable id, what it held before.
   */
  ghost predicate Linear(before: DocumentStore, batch: Batch) {
    && (forall i :: 0 <= i < |batch.entries| ==>
          && FitsStore(before, batch.entries[i])
          && Reflects(batch.after, EntityOf(batch.entries[i]), batch.entries[i].newDoc))
    && DistinctEntities(batch.entries)
    && (forall id :: IsReplicableId(Some(id)) && !Concerns(batch.entries, id) ==>
       Lookup(batch.after, id) == Lookup(before, id))
  }

  /** The auditable entries of a list, with what the list says about distinctness. */
  lemma {:induction false} RelevantExact(entries: seq<AuditEntry>)
    ensures forall e :: e in Relevant(entries) <==> e in entries && IsReplicableId(IdOf(e.newDoc))
    ensures DistinctEntities(entries) ==> DistinctEntities(Relevant(entries))
  {
    if entries != [] {
      RelevantExact(entries[1..]);
      var rest := Relevant(entries[1..]);
      assert entries == [entries[0]] + entries[1..];
      if DistinctEntities(entries) {
        forall i | 0 <= i < |rest| ensures EntityOf(rest[i]) != EntityOf(entries[0]) {
          assert rest[i] in entries[1..];
        }
      }
    }
  }

  function LogAfter(db: string, batches: seq<Batch>): seq<AuditRecord> {
    if batches == [] then []
    else
      var before, last := LogAfter(db, batches[..|batches| - 1]), batches[|batches| - 1];
      before + BatchRecords(before, db, last.entries, last.user, last.timestamp)
  }

  function StoreAfter(store: DocumentStore, batches: seq<Batch>): DocumentStore {
    if batches == [] then store else batches[|batches| - 1].after
  }

  /** The lookup for earlier records does not deny an entity its baseline. */
  predicate KnownOrFirst(log: seq<AuditRecord>, id: string) {
    Audited(log, id) || IsFirstAuditFor(log, id)
  }

  /** The lookup is right about the entity of every entry with a before-state; others need no baseline. */
  ghost predicate LookupRight(log: seq<AuditRecord>, entries: seq<AuditEntry>) {
    forall i :: 0 <= i < |entries| && entries[i].existingDoc.Some? ==> KnownOrFirst(log, EntityOf(entries[i]))
  }

  /** Linear batches one after the other, none of them with an id that the lookup confuses with another. */
  ghost predicate LinearHistory(store: DocumentStore, db: string, batches: seq<Batch>) {
    batches == [] ||
    (var init, last := batches[..|batches| - 1], batches[|batches| - 1];
     LinearHistory(store, db, init) && Linear(StoreAfter(store, init), last)
       && LookupRight(LogAfter(db, init), last.entries))
  }

  predicate RecordOk(record: AuditRecord) {
    NamedAsBuilt(record) && IsReplicableId(Some(record.entityId))
  }

  /** The log explains the store: every live audited entity replays to its stored document. */
  ghost predicate Explains(log: seq<AuditRecord>, store: DocumentStore) {
    && (forall i :: 0 <= i < |log| ==> RecordOk(log[i]))
    && (forall id :: id in store && Audited(log, id) ==> Replay(log, id) == Some(Clean(store[id])))
  }

  /** No audited id extends another by a colon. */
  ghost predicate IdsSeparate(ids: set<string>) {
    forall a, b :: a in ids && b in ids ==> !Extends(a, b)
  }

  /** Among ids that do not extend each other the lookup is always right. */
  lemma SeparateIds(ids: set<string>, log: seq<AuditRecord>, entries: seq<AuditEntry>)
    requires IdsSeparate(ids)
    requires forall i :: 0 <= i < |log| ==> NamedAsBuilt(log[i]) && log[i].entityId in ids
    requires forall i :: 0 <= i < |entries| ==> EntityOf(entries[i]) in ids
    ensures LookupRight(log, entries)
  {
    forall k | 0 <= k < |entries| ensures KnownOrFirst(log, EntityOf(entries[k])) {
      var id := EntityOf(entries[k]);
      forall i | 0 <= i < |log| ensures !Confused(log[i], id) {
        assert !Extends(log[i].entityId, id) && !Extends(id, log[i].entityId);
      }
      LookupExact(log, id);
    }
  }

  ghost predicate RecordOf(entries: seq<AuditEntry>, record: AuditRecord) {
    Concerns(entries, record.entityId) && NamedAsBuilt(record)
  }

  lemma ConcernsMore(entries: seq<AuditEntry>, id: string)
    requires entries != [] && Concerns(entries[..|entries| - 1], id)
    ensures Concerns(entries, id)
  {
    var init := entries[..|entries| - 1];
    var k :| 0 <= k < |init| && EntityOf(init[k]) == id;
    assert entries[k] == init[k];
  }

  lemma NotAmongEarlier(entries: seq<AuditEntry>)
    requires entries != [] && DistinctEntities(entries)
    ensures !Concerns(entries[..|entries| - 1], EntityOf(entries[|entries| - 1]))
    ensures DistinctEntities(entries[..|entries| - 1])
  {
    var init := entries[..|entries| - 1];
    assert forall k :: 0 <= k < |init| ==> init[k] == entries[k];
  }

  lemma EntryRecords(log: seq<AuditRecord>, db: string, entries: seq<AuditEntry>, user: string, timestamp: string)
    requires entries != []
    ensures forall r :: r in RecordsOf(log, db, entries[|entries| - 1], user, timestamp) ==>
              RecordOf(entries, r) && r.entityId == EntityOf(entries[|entries| - 1])
  {
    var last := entries[|entries| - 1];
    forall r | r in RecordsOf(log, db, last, user, timestamp)
      ensures RecordOf(entries, r) && r.entityId == EntityOf(last)
    {
      assert r.entityId == EntityOf(entries[|entries| - 1]);
      assert r.timestamp == timestamp;
    }
  }

  /** The records of a batch belong to its entries. */
  lemma {:induction false} BatchShape(
    log: seq<AuditRecord>, db: string, entries: seq<AuditEntry>, user: string, timestamp: string)
    ensures forall r :: r in BatchRecords(log, db, entries, user, timestamp) ==> RecordOf(entries, r)
  {
    if entries != [] {
      var init := entries[..|entries| - 1];
      BatchShape(log, db, init, user, timestamp);
      EntryRecords(log, db, entries, user, timestamp);
      forall r | r in BatchRecords(log, db, entries, user, timestamp) ensures RecordOf(entries, r) {
        if r in BatchRecords(log, db, init, user, timestamp) {
          assert RecordOf(init, r);
          ConcernsMore(entries, r.entityId);
        }
      }
    }
  }

  ghost predicate BatchFits(log: seq<AuditRecord>, store: DocumentStore, entries: seq<AuditEntry>) {
    && LookupRight(log, entries) && DistinctEntities(entries)
    && forall i :: 0 <= i < |entries| ==> FitsStore(store, entries[i])
  }

  /** Later entries of a batch leave the entity of entry `k` alone. */
  lemma {:induction false} LaterEntries(
    log: seq<AuditRecord>, db: string, entries: seq<AuditEntry>, user: string, timestamp: string, k: nat)
    requires k < |entries| && DistinctEntities(entries)
    ensures Replay(log + BatchRecords(log, db, entries, user, timestamp), EntityOf(entries[k]))
         == Replay(log + BatchRecords(log, db, entries[..k + 1], user, timestamp), EntityOf(entries[k]))
    decreases |entries|
  {
    if k == |entries| - 1 {
      assert entries[..k + 1] == entries;
    } else {
      var init, last := entries[..|entries| - 1], entries[|entries| - 1];
      assert init[k] == entries[k] && init[..k + 1] == entries[..k + 1];
      NotAmongEarlier(entries);
      LaterEntries(log, db, init, user, timestamp, k);
      LastEntryOnly(log, db, entries, user, timestamp, k);
      ReplayUnaffected(log, BatchRecords(log, db, init, user, timestamp), RecordsOf(log, db, last, user, timestamp),
        EntityOf(entries[k]));
    }
  }

  /** Replaying after a batch: every entry's entity is at the state that entry wrote. */
  lemma ReplayBatch(
    store: DocumentStore, log: seq<AuditRecord>, db: string, entries: seq<AuditEntry>, user: string, timestamp: string,
    k: nat)
    requires Explains(log, store) && BatchFits(log, store, entries) && k < |entries|
    ensures Replays(log + BatchRecords(log, db, entries, user, timestamp), entries[k])
  {
    var upTo := entries[..k + 1];
    assert BatchFits(log, store, upTo);
    LaterEntries(log, db, entries, user, timestamp, k);
    ReplayLastEntry(store, log, db, upTo, user, timestamp);
    Associate(log, BatchRecords(log, db, upTo[..k], user, timestamp), RecordsOf(log, db, upTo[k], user, timestamp));
  }

  lemma ReplayUnaffected(log: seq<AuditRecord>, a: seq<AuditRecord>, b: seq<AuditRecord>, id: string)
    requires forall r :: r in b ==> r.entityId != id
    ensures Replay(log + (a + b), id) == Replay(log + a, id)
  {
    Associate(log, a, b);
    ReplayConcat(log + a, b, id);
  }

  lemma LastEntryOnly(
    log: seq<AuditRecord>, db: string, entries: seq<AuditEntry>, user: string, timestamp: string, k: nat)
    requires k < |entries| - 1 && DistinctEntities(entries)
    ensures forall r :: r in RecordsOf(log, db, entries[|entries| - 1], user, timestamp) ==>
            r.entityId != EntityOf(entries[k])
  {
    EntryRecords(log, db, entries, user, timestamp);
    assert EntityOf(entries[k]) != EntityOf(entries[|entries| - 1]);
  }

  lemma ReplayLastEntry(
    store: DocumentStore, log: seq<AuditRecord>, db: string, entries: seq<AuditEntry>, user: string, timestamp: string)
    requires Explains(log, store) && entries != [] && BatchFits(log, store, entries)
    ensures var last := entries[|entries| - 1];
            Replays(log + BatchRecords(log, db, entries[..|entries| - 1], user, timestamp)
              + RecordsOf(log, db, last, user, timestamp), last)
  {
    var init, last := entries[..|entries| - 1], entries[|entries| - 1];
    var a := BatchRecords(log, db, init, user, timestamp);
    NotAmongEarlier(entries);
    BatchShape(log, db, init, user, timestamp);
    forall i | 0 <= i < |a| ensures a[i].entityId != EntityOf(last) {
      assert RecordOf(init, a[i]);
    }
    assert FitsStore(store, last);
    assert last.existingDoc.Some? ==> KnownOrFirst(log, EntityOf(last));
    ReplayEntry(log, a, db, last, user, timestamp);
  }

  ghost predicate AllReplay(log: seq<AuditRecord>, entries: seq<AuditEntry>) {
    forall e :: e in entries ==> Replays(log, e)
  }

  /** A linear batch keeps the log explaining the store, and everything it wrote replays. */
  lemma BatchExplains(store: DocumentStore, log: seq<AuditRecord>, db: string, batch: Batch)
    requires Explains(log, store) && Linear(store, batch) && LookupRight(log, batch.entries)
    ensures var more := log + BatchRecords(log, db, batch.entries, batch.user, batch.timestamp);
            Explains(more, batch.after) && AllReplay(more, batch.entries)
  {
    var records := BatchRecords(log, db, batch.entries, batch.user, batch.timestamp);
    BatchShape(log, db, batch.entries, batch.user, batch.timestamp);
    forall i | 0 <= i < |records| ensures RecordOk(records[i]) {
      assert RecordOf(batch.entries, records[i]);
      var k :| 0 <= k < |batch.entries| && EntityOf(batch.entries[k]) == records[i].entityId;
      assert FitsStore(store, batch.entries[k]);
    }
    forall e | e in batch.entries ensures Replays(log + records, e) {
      var i :| 0 <= i < |batch.entries| && batch.entries[i] == e;
      ReplayBatch(store, log, db, batch.entries, batch.user, batch.timestamp, i);
    }
    forall id | id in batch.after && Audited(log + records, id)
      ensures Replay(log + records, id) == Some(Clean(batch.after[id]))
    {
      ExplainsOne(store, log, records, batch, id);
    }
  }

  /** A write whose baseline is denied does not replay: the `_id` at least is missing. */
  lemma DeniedBaselineLoses(
    store: DocumentStore, log: seq<AuditRecord>, db: string, entries: seq<AuditEntry>, user: string, timestamp: string,
    k: nat)
    requires Keyed(store) && DistinctEntities(entries) && k < |entries| && FitsStore(store, entries[k])
    requires entries[k].existingDoc.Some? && !KnownOrFirst(log, EntityOf(entries[k]))
    ensures !Replays(log + BatchRecords(log, db, entries, user, timestamp), entries[k])
  {
    var entry, a := entries[k], BatchRecords(log, db, entries[..k], user, timestamp);
    LaterEntries(log, db, entries, user, timestamp, k);
    BatchSnoc(log, db, entries, k, user, timestamp);
    OneRecord(log, db, entry, user, timestamp);
    Associate(log, a, RecordsOf(log, db, entry, user, timestamp));
    UnauditedBefore(log, db, entries, user, timestamp, k);
    LoneRecordLoses(log + a, db, entry, user, timestamp);
  }

  lemma UnauditedBefore(
    log: seq<AuditRecord>, db: string, entries: seq<AuditEntry>, user: string, timestamp: string, k: nat)
    requires DistinctEntities(entries) && k < |entries| && !Audited(log, EntityOf(entries[k]))
    ensures Replay(log + BatchRecords(log, db, entries[..k], user, timestamp), EntityOf(entries[k])) == None
  {
    var id, a := EntityOf(entries[k]), BatchRecords(log, db, entries[..k], user, timestamp);
    NotAmongEarlierAt(entries, k);
    BatchShape(log, db, entries[..k], user, timestamp);
    forall i | 0 <= i < |a| ensures a[i].entityId != id {
      assert RecordOf(entries[..k], a[i]);
    }
    ReplayConcat(log, a, id);
    NeverAudited(log, id);
  }

  lemma NotAmongEarlierAt(entries: seq<AuditEntry>, k: nat)
    requires k < |entries| && DistinctEntities(entries)
    ensures !Concerns(entries[..k], EntityOf(entries[k]))
  {
    assert forall i :: 0 <= i < k ==> entries[..k][i] == entries[i];
  }

  /** A linear batch replays exactly when the lookup is right about what it changes. */
  lemma BatchReplaysIff(store: DocumentStore, log: seq<AuditRecord>, db: string, batch: Batch)
    requires Explains(log, store) && Linear(store, batch) && Keyed(store)
    ensures AllReplay(log + BatchRecords(log, db, batch.entries, batch.user, batch.timestamp), batch.entries)
       <==> LookupRight(log, batch.entries)
  {
    if LookupRight(log, batch.entries) {
      BatchExplains(store, log, db, batch);
    } else {
      var k :| 0 <= k < |batch.entries| && batch.entries[k].existingDoc.Some?
        && !KnownOrFirst(log, EntityOf(batch.entries[k]));
      DeniedBaselineLoses(store, log, db, batch.entries, batch.user, batch.timestamp, k);
      assert batch.entries[k] in batch.entries;
    }
  }

  lemma ExplainsOne(store: DocumentStore, log: seq<AuditRecord>, records: seq<AuditRecord>, batch: Batch, id: string)
    requires Explains(log, store) && Linear(store, batch) && id in batch.after && Audited(log + records, id)
    requires forall r :: r in records ==> RecordOf(batch.entries, r)
    requires AllReplay(log + records, batch.entries)
    ensures Replay(log + records, id) == Some(Clean(batch.after[id]))
  {
    if Concerns(batch.entries, id) {
      var k :| 0 <= k < |batch.entries| && EntityOf(batch.entries[k]) == id;
      assert Replays(log + records, batch.entries[k]);
    } else {
      forall i | 0 <= i < |records| ensures records[i].entityId != id {
        assert RecordOf(batch.entries, records[i]);
      }
      ReplayConcat(log, records, id);
      var i :| 0 <= i < |log + records| && (log + records)[i].entityId == id;
      assert i < |log| && log[i].entityId == id && RecordOk(log[i]);
      assert Lookup(batch.after, id) == Lookup(store, id);
    }
  }

  /** Auditing can be switched on over any store: an empty log explains it. */
  lemma EmptyLogExplains(store: DocumentStore)
    ensures Explains([], store)
  {
  }

  /** At any time every live audited entity replays to its stored document. */
  lemma {:induction false} HistoryExplains(store: DocumentStore, db: string, batches: seq<Batch>)
    requires LinearHistory(store, db, batches)
    ensures Explains(LogAfter(db, batches), StoreAfter(store, batches))
  {
    if batches == [] {
      EmptyLogExplains(store);
    } else {
      var init, last := batches[..|batches| - 1], batches[|batches| - 1];
      HistoryExplains(store, db, init);
      BatchExplains(StoreAfter(store, init), LogAfter(db, init), db, last);
    }
  }

  /**
   * Audit replay: auditing is switched on over any store, then linear batches are written and
   * recorded. Replaying an entity right after any of them gives exactly the cleaned document its
   * entry recorded as written, whether its history starts with a create or with a baseline.
   */
  lemma AuditReplay(store: DocumentStore, db: string, batches: seq<Batch>, k: nat)
    requires LinearHistory(store, db, batches)
    requires batches != [] && k < |batches[|batches| - 1].entries|
    ensures Replays(LogAfter(db, batches), batches[|batches| - 1].entries[k])
  {
    var init, last := batches[..|batches| - 1], batches[|batches| - 1];
    HistoryExplains(store, db, init);
    BatchExplains(StoreAfter(store, init), LogAfter(db, init), db, last);
  }

  /**
   * Audit replay, field by field: after each write the replayed document has every field that was
   * written, with its value, and no other; but for CouchDB's own four.
   */
  lemma AuditReplayFields(store: DocumentStore, db: string, batches: seq<Batch>, k: nat, field: string)
    requires LinearHistory(store, db, batches)
    requires batches != [] && k < |batches[|batches| - 1].entries|
    requires field !in {"_rev", "_revisions", "_conflicts", "_attachments"}
    ensures var entry := batches[|batches| - 1].entries[k];
            var replayed := Replay(LogAfter(db, batches), EntityOf(entry));
            replayed.Some? && Lookup(replayed.value, field) == Lookup(entry.newDoc, field)
  {
    AuditReplay(store, db, batches, k);
    CleanTells(batches[|batches| - 1].entries[k].newDoc, field);
  }

  // ---------------------------------------------------------------- record ids within one batch

  /** A record of this instant whose revision has no colon. */
  predicate PlainRecord(record: AuditRecord, timestamp: string) {
    NamedAsBuilt(record) && record.timestamp == timestamp && ':' !in RevText(record.rev)
  }

  /** Both revisions an entry can name. */
  predicate PlainRevisions(entry: AuditEntry) {
    ':' !in RevText(Rev(entry)) && (entry.existingDoc.Some? ==> ':' !in RevText(RevOf(entry.existingDoc.value)))
  }

  /** The write reports the revision that was stored before. */
  predicate KeepsRevision(entry: AuditEntry) {
    entry.existingDoc.Some? && RevText(RevOf(entry.existingDoc.value)) == RevText(Rev(entry))
  }

  predicate DistinctRecordIds(records: seq<AuditRecord>) {
    forall i, j :: 0 <= i < j < |records| ==> records[i].id != records[j].id
  }

  /** Two texts that end in a colon and a part without one. */
  lemma LastColon(a: string, x: string, b: string, y: string)
    requires a + ":" + x == b + ":" + y && ':' !in x && ':' !in y
    ensures a == b && x == y
  {
    var s := a + ":" + x;
    assert s[|a|] == ':' && s[|b|] == ':';
    assert forall i :: |a| < i < |s| ==> s[i] == x[i - |a| - 1];
    assert forall i :: |b| < i < |s| ==> s[i] == y[i - |b| - 1];
    assert |a| == |b|;
    assert a == s[..|a|] && b == s[..|b|] && x == s[|a| + 1..] && y == s[|b| + 1..];
  }

  /** Records of one instant share an id exactly when they share entity and revision. */
  lemma SameIdIff(a: AuditRecord, b: AuditRecord, timestamp: string)
    requires PlainRecord(a, timestamp) && PlainRecord(b, timestamp)
    ensures a.id == b.id <==> a.entityId == b.entityId && RevText(a.rev) == RevText(b.rev)
  {
    if a.id == b.id {
      IdParts(a, timestamp);
      IdParts(b, timestamp);
      var x, y := AuditIdPrefix(a.entityId) + ":" + timestamp, AuditIdPrefix(b.entityId) + ":" + timestamp;
      LastColon(x, RevText(a.rev), y, RevText(b.rev));
      SameEntity(a.entityId, b.entityId, timestamp);
    }
  }

  lemma IdParts(record: AuditRecord, timestamp: string)
    requires PlainRecord(record, timestamp)
    ensures record.id == AuditIdPrefix(record.entityId) + ":" + timestamp + ":" + RevText(record.rev)
  {
    Regroup(AuditIdPrefix(record.entityId) + ":", timestamp, ":", RevText(record.rev));
  }

  lemma SameEntity(e: string, f: string, timestamp: string)
    requires AuditIdPrefix(e) + ":" + timestamp == AuditIdPrefix(f) + ":" + timestamp
    ensures e == f
  {
    var head, x, y := ENTITY_TYPE + ":", AuditIdPrefix(e) + ":" + timestamp, AuditIdPrefix(f) + ":" + timestamp;
    assert |x| == |head| + |e| + 1 + |timestamp| && |y| == |head| + |f| + 1 + |timestamp|;
    assert e == x[|head|..|head| + |e|] && f == y[|head|..|head| + |f|];
  }

  lemma {:induction false} BatchPlain(
    log: seq<AuditRecord>, db: string, entries: seq<AuditEntry>, user: string, timestamp: string)
    requires forall i :: 0 <= i < |entries| ==> PlainRevisions(entries[i])
    ensures forall r :: r in BatchRecords(log, db, entries, user, timestamp) ==> PlainRecord(r, timestamp)
  {
    if entries != [] {
      var init, last := entries[..|entries| - 1], entries[|entries| - 1];
      assert forall i :: 0 <= i < |init| ==> init[i] == entries[i];
      BatchPlain(log, db, init, user, timestamp);
      assert PlainRevisions(last);
    }
  }

  /** No entry needs a baseline and keeps the revision that this baseline records. */
  ghost predicate BaselinesDiffer(log: seq<AuditRecord>, entries: seq<AuditEntry>) {
    forall i :: 0 <= i < |entries| && NeedsBaseline(log, EntityOf(entries[i]), entries[i]) ==>
      !KeepsRevision(entries[i])
  }

  /**
   * Record ids within one batch: for distinct entities and revisions without a colon they differ
   * exactly when no entry that gets a baseline keeps its revision.
   */
  lemma {:induction false} BatchIdsDifferIff(
    log: seq<AuditRecord>, db: string, entries: seq<AuditEntry>, user: string, timestamp: string)
    requires DistinctEntities(entries) && forall i :: 0 <= i < |entries| ==> PlainRevisions(entries[i])
    ensures DistinctRecordIds(BatchRecords(log, db, entries, user, timestamp)) <==> BaselinesDiffer(log, entries)
  {
    if entries != [] {
      var init, last := entries[..|entries| - 1], entries[|entries| - 1];
      NotAmongEarlier(entries);
      assert forall i :: 0 <= i < |init| ==> init[i] == entries[i];
      BatchIdsDifferIff(log, db, init, user, timestamp);
      EntryIdsDiffer(log, db, last, user, timestamp);
      OthersDiffer(log, db, entries, user, timestamp);
      AppendDistinct(BatchRecords(log, db, init, user, timestamp), RecordsOf(log, db, last, user, timestamp));
      BaselinesSplit(log, entries);
    }
  }

  lemma BaselinesSplit(log: seq<AuditRecord>, entries: seq<AuditEntry>)
    requires entries != []
    ensures var last := entries[|entries| - 1];
            var lastDiffers := !(NeedsBaseline(log, EntityOf(last), last) && KeepsRevision(last));
            BaselinesDiffer(log, entries) <==> BaselinesDiffer(log, entries[..|entries| - 1]) && lastDiffers
  {
    var init := entries[..|entries| - 1];
    assert forall i :: 0 <= i < |init| ==> init[i] == entries[i];
  }

  /** The one or two records of an entry. */
  lemma EntryIdsDiffer(log: seq<AuditRecord>, db: string, entry: AuditEntry, user: string, timestamp: string)
    requires PlainRevisions(entry)
    ensures DistinctRecordIds(RecordsOf(log, db, entry, user, timestamp))
       <==> !(NeedsBaseline(log, EntityOf(entry), entry) && KeepsRevision(entry))
  {
    var id := EntityOf(entry);
    var record := BuildRecord(db, id, entry, user, timestamp);
    if NeedsBaseline(log, id, entry) {
      var baseline := BuildBaseline(db, id, entry.existingDoc.value, user, timestamp);
      SameIdIff(baseline, record, timestamp);
      var records := RecordsOf(log, db, entry, user, timestamp);
      assert |records| == 2 && records[0] == baseline && records[1] == record;
    } else {
      OneRecord(log, db, entry, user, timestamp);
    }
  }

  /** The records of the last entry share no id with earlier ones. */
  lemma OthersDiffer(log: seq<AuditRecord>, db: string, entries: seq<AuditEntry>, user: string, timestamp: string)
    requires entries != [] && DistinctEntities(entries) && forall i :: 0 <= i < |entries| ==> PlainRevisions(entries[i])
    ensures var a := BatchRecords(log, db, entries[..|entries| - 1], user, timestamp);
            var b := RecordsOf(log, db, entries[|entries| - 1], user, timestamp);
            forall r, s :: r in a && s in b ==> r.id != s.id
  {
    var init := entries[..|entries| - 1];
    var a, b := BatchRecords(log, db, init, user, timestamp),
      RecordsOf(log, db, entries[|entries| - 1], user, timestamp);
    BatchPlain(log, db, entries, user, timestamp);
    BatchShape(log, db, init, user, timestamp);
    EntryRecords(log, db, entries, user, timestamp);
    NotAmongEarlier(entries);
    forall r, s | r in a && s in b ensures r.id != s.id {
      assert RecordOf(init, r) && r in a + b && s in a + b;
      SameIdIff(r, s, timestamp);
    }
  }

  lemma AppendDistinct(a: seq<AuditRecord>, b: seq<AuditRecord>)
    requires forall r, s :: r in a && s in b ==> r.id != s.id
    ensures DistinctRecordIds(a + b) <==> DistinctRecordIds(a) && DistinctRecordIds(b)
  {
    var all := a + b;
    assert forall i :: 0 <= i < |a| ==> all[i] == a[i];
    assert forall i :: 0 <= i < |b| ==> all[|a| + i] == b[i];
  }

  /** The stored version of a document, sent once more under its own revision. */
  function SentAgain(id: string): AuditEntry {
    var stored: Document := map["_id" := String(id), "_rev" := String("1-a")];
    AuditEntry(Some(stored), stored, Some("1-a"), Update)
  }

  /** If that is its first audited write, its baseline and its record get the same id. */
  lemma SentAgainCollides(db: string, user: string, timestamp: string)
    ensures var records := BatchRecords([], db, [SentAgain("A:1")], user, timestamp);
            |records| == 2 && records[0].operation.Baseline? && records[0].id == records[1].id
  {
    var entry := SentAgain("A:1");
    var baseline, record :=
      BuildBaseline(db, "A:1", entry.existingDoc.value, user, timestamp),
        BuildRecord(db, "A:1", entry, user, timestamp);
    assert EntityOf(entry) == "A:1" && RevOf(entry.existingDoc.value) == Some("1-a");
    assert [entry][..0] == [] && BatchRecords([], db, [], user, timestamp) == [];
    assert BatchRecords([], db, [entry], user, timestamp) == [] + [baseline, record];
  }

  // ---------------------------------------------------------------- the service

  class DefaultAuditService {
    /** the records of every audit database, in posting order */
    var logs: map<string, seq<AuditRecord>>
    var ensuredDbs: set<string>

    ghost predicate Valid()
      reads this
    {
      forall auditDb :: auditDb in ensuredDbs ==> auditDb in logs
    }

    ghost function Log(auditDb: string): seq<AuditRecord>
      reads this
    {
      if auditDb in logs then logs[auditDb] else []
    }

    constructor ()
      ensures Valid() && logs == map[] && ensuredDbs == {}
    {
      logs, ensuredDbs := map[], {};
    }

    /** Create an audit database once; creating one that exists changes nothing. */
    method EnsureDb(auditDb: string)
      requires Valid()
      modifies this
      ensures Valid() && auditDb in ensuredDbs
      ensures logs == if auditDb in old(logs) then old(logs) else old(logs)[auditDb := []]
    {
      if auditDb in ensuredDbs {
        return;
      }
      if auditDb !in logs {
        logs := logs[auditDb := []];
      }
      ensuredDbs := ensuredDbs + {auditDb};
    }

    /**
     * Record writes: never for an audit database, nothing when no entry is auditable, and otherwise
     * the batch's records are posted behind the log.
     */
    method Record(db: string, entries: seq<AuditEntry>, user: string, timestamp: string)
      requires Valid()
      modifies this
      ensures Valid()
      ensures forall other :: other != AuditDbFor(db) ==> Log(other) == old(Log(other))
      ensures var log := old(Log(AuditDbFor(db)));
              Log(AuditDbFor(db)) ==
              if IsAuditDb(db) then log else log + BatchRecords(log, db, Relevant(entries), user, timestamp)
    {
      if IsAuditDb(db) {
        return;
      }
      var relevant := Relevant(entries);
      if |relevant| == 0 {
        assert Log(AuditDbFor(db)) + [] == Log(AuditDbFor(db));
        return;
      }
      var auditDb := AuditDbFor(db);
      EnsureDb(auditDb);
      var records := BuildRecords(logs[auditDb], db, relevant, user, timestamp);
      logs := logs[auditDb := logs[auditDb] + records];
    }

    /** The loop over the auditable entries. */
    method BuildRecords(log: seq<AuditRecord>, db: string, relevant: seq<AuditEntry>, user: string, timestamp: string)
      returns (records: seq<AuditRecord>)
      ensures records == BatchRecords(log, db, relevant, user, timestamp)
    {
      records := [];
      var i := 0;
      while i < |relevant|
        invariant 0 <= i <= |relevant|
        invariant records == BatchRecords(log, db, relevant[..i], user, timestamp)
      {
        BatchSnoc(log, db, relevant, i, user, timestamp);
        var entry := relevant[i];
        var id := EntityOf(entry);
        var added: seq<AuditRecord> := [];
        if entry.existingDoc.Some? && NeedsBaseline(log, id, entry) {
          added := [BuildBaseline(db, id, entry.existingDoc.value, user, timestamp)];
        }
        added := added + [BuildRecord(db, id, entry, user, timestamp)];
        records := records + added;
        i := i + 1;
      }
      assert relevant[..i] == relevant;
    }
  }
}
