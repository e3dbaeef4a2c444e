/**
 * CouchDB as the backend sees it: a log that lists each document once, at its latest sequence
 * number, and `_changes` requests answered from it while other clients keep writing
 * (test/utils/mock-couchdb.ts:197-240). Readers of the log move a cursor; the theorems here say
 * when moving it never passes over a change.
 */
module ChangeLog {
  import opened Wrappers
  import opened JsObject
  import opened Json
  import opened Sequences

  type Doc = seq<Entry<Json>>

  datatype Change = Change(at: nat, id: string, rev: string, deleted: bool, doc: Option<Doc>)

  datatype Db = Db(log: seq<Change>, counter: nat)

  datatype Write = Write(id: string, rev: string, deleted: bool, doc: Option<Doc>)

  datatype Response = Response(results: seq<Change>, lastSeq: nat, pending: nat)

  predicate Ascending(log: seq<Change>) {
    forall i, j :: 0 <= i < j < |log| ==> log[i].at < log[j].at
  }

  /** No document is listed twice. */
  predicate OncePerDocument(log: seq<Change>) {
    forall i, j :: 0 <= i < j < |log| ==> log[i].id != log[j].id
  }

  /** Sequence numbers rise along the log, stay within the counter, and no document is listed twice. */
  ghost predicate Valid(db: Db) {
    && Ascending(db.log)
    && (forall c :: c in db.log ==> 0 < c.at <= db.counter)
    && OncePerDocument(db.log)
  }

  // ---------------------------------------------------------------- writing

  function Without(log: seq<Change>, id: string): seq<Change> {
    if log == [] then []
    else if log[0].id == id then Without(log[1..], id)
    else [log[0]] + Without(log[1..], id)
  }

  /** A write moves its document to the end of the log. */
  function Apply(db: Db, w: Write): Db {
    var next := db.counter + 1;
    Db(Without(db.log, w.id) + [Change(next, w.id, w.rev, w.deleted, w.doc)], next)
  }

  function ApplyAll(db: Db, writes: seq<Write>): Db
    decreases |writes|
  {
    if writes == [] then db else ApplyAll(Apply(db, writes[0]), writes[1..])
  }

  lemma {:induction false} WithoutMember(log: seq<Change>, id: string, c: Change)
    ensures c in Without(log, id) <==> c in log && c.id != id
  {
    if log != [] {
      assert log == [log[0]] + log[1..];
      WithoutMember(log[1..], id, c);
    }
  }

  lemma {:induction false} WithoutAscending(log: seq<Change>, id: string)
    requires Ascending(log)
    ensures Ascending(Without(log, id))
  {
    if log != [] {
      var head, kept := log[0], Without(log[1..], id);
      WithoutAscending(log[1..], id);
      forall k | 0 <= k < |kept| ensures head.at < kept[k].at {
        WithoutMember(log[1..], id, kept[k]);
        assert kept[k] in log[1..];
      }
    }
  }

  lemma {:induction false} WithoutOnce(log: seq<Change>, id: string)
    requires OncePerDocument(log)
    ensures OncePerDocument(Without(log, id))
  {
    if log != [] {
      var head, kept := log[0], Without(log[1..], id);
      WithoutOnce(log[1..], id);
      forall k | 0 <= k < |kept| ensures kept[k].id != head.id {
        WithoutMember(log[1..], id, kept[k]);
        assert kept[k] in log[1..];
      }
    }
  }

  lemma ApplyValid(db: Db, w: Write)
    requires Valid(db)
    ensures Valid(Apply(db, w)) && Apply(db, w).counter == db.counter + 1
    ensures forall c :: c in Apply(db, w).log && c.at <= db.counter ==> c in db.log
  {
    var kept, added := Without(db.log, w.id), Change(db.counter + 1, w.id, w.rev, w.deleted, w.doc);
    WithoutAscending(db.log, w.id);
    WithoutOnce(db.log, w.id);
    forall c | c in kept ensures 0 < c.at <= db.counter && c.id != w.id && c in db.log {
      WithoutMember(db.log, w.id, c);
    }
    AppendNewest(kept, added);
  }

  /** A change behind all others, of a document that is not listed. */
  lemma AppendNewest(log: seq<Change>, added: Change)
    requires Ascending(log) && OncePerDocument(log) && forall c :: c in log ==> c.at < added.at && c.id != added.id
    ensures Ascending(log + [added]) && OncePerDocument(log + [added])
  {
    forall k | 0 <= k < |log| ensures log[k].at < added.at && log[k].id != added.id {
      assert log[k] in log;
    }
  }

  /** What is old in the log after some writes was there before them. */
  lemma {:induction false} ApplyAllValid(db: Db, writes: seq<Write>)
    requires Valid(db)
    ensures Valid(ApplyAll(db, writes)) && ApplyAll(db, writes).counter == db.counter + |writes|
    ensures forall c :: c in ApplyAll(db, writes).log && c.at <= db.counter ==> c in db.log
    decreases |writes|
  {
    if writes != [] {
      ApplyValid(db, writes[0]);
      ApplyAllValid(Apply(db, writes[0]), writes[1..]);
    }
  }

  // ---------------------------------------------------------------- reading

  /** The part of an ascending log that lies after a sequence number. */
  function After(log: seq<Change>, since: nat): seq<Change> {
    if log == [] || log[0].at > since then log else After(log[1..], since)
  }

  lemma {:induction false} AfterExact(log: seq<Change>, since: nat)
    requires Ascending(log)
    ensures Ascending(After(log, since))
    ensures forall c :: c in After(log, since) <==> c in log && c.at > since
  {
    if log != [] {
      if log[0].at > since {
        forall c | c in log ensures c.at > since {
          var i :| 0 <= i < |log| && log[i] == c;
          assert i > 0 ==> log[0].at < log[i].at;
        }
      } else {
        assert log == [log[0]] + log[1..];
        AfterExact(log[1..], since);
      }
    }
  }

  /** A later cursor sees a suffix of what an earlier one sees. */
  lemma {:induction false} AfterSplit(log: seq<Change>, since: nat, k: nat, cursor: nat)
    requires Ascending(log) && since <= cursor && k <= |After(log, since)|
    requires forall i :: 0 <= i < k ==> After(log, since)[i].at <= cursor
    requires forall i :: k <= i < |After(log, since)| ==> After(log, since)[i].at > cursor
    ensures After(log, cursor) == After(log, since)[k..]
  {
    if log != [] {
      if log[0].at > since {
        AfterDrops(log, k, cursor);
      } else {
        AfterSplit(log[1..], since, k, cursor);
      }
    }
  }

  lemma {:induction false} AfterDrops(log: seq<Change>, k: nat, cursor: nat)
    requires k <= |log|
    requires forall i :: 0 <= i < k ==> log[i].at <= cursor
    requires forall i :: k <= i < |log| ==> log[i].at > cursor
    ensures After(log, cursor) == log[k..]
  {
    if k > 0 {
      AfterDrops(log[1..], k - 1, cursor);
      assert log[1..][k - 1..] == log[k..];
    }
  }

  function Min(a: nat, b: nat): nat {
    if a < b then a else b
  }

  /**
   * A response to `_changes?since&limit` taken from `db`. A limit below 1 is served as 1, and a
   * missing one returns everything. `lastSeq` may lie anywhere between the last result and the next
   * unsent change.
   */
  ghost predicate Answers(db: Db, since: nat, limit: Option<nat>, r: Response) {
    var rest := After(db.log, since);
    var size := if limit.None? then |rest| else Min(if limit.value == 0 then 1 else limit.value, |rest|);
    && r.results == rest[..size]
    && r.pending == |rest| - size
    && Between(rest, size, since, r.lastSeq, db.counter)
  }

  /** `cursor` separates the first `k` changes of `rest` from the others. */
  ghost predicate Between(rest: seq<Change>, k: nat, since: nat, cursor: nat, counter: nat) {
    && k <= |rest|
    && since <= cursor <= (if since <= counter then counter else since)
    && (forall i :: 0 <= i < k ==> rest[i].at <= cursor)
    && (forall i :: k <= i < |rest| ==> rest[i].at > cursor)
  }

  /** The answer of the mock server, whose `last_seq` is the last result or the counter. */
  function MockAnswer(db: Db, since: nat, limit: nat): Response {
    var all := After(db.log, since);
    var batch := all[..Min(limit, |all|)];
    var last := if |batch| > 0 then batch[|batch| - 1].at else db.counter;
    Response(batch, if last > since then last else since, |all| - |batch|)
  }

  lemma MockAnswers(db: Db, since: nat, limit: nat)
    requires Valid(db) && limit >= 1
    ensures Answers(db, since, Some(limit), MockAnswer(db, since, limit))
  {
    AfterExact(db.log, since);
    AfterBounds(db, since);
  }

  lemma AfterBounds(db: Db, since: nat)
    requires Valid(db)
    ensures forall i :: 0 <= i < |After(db.log, since)| ==> since < After(db.log, since)[i].at <= db.counter
  {
    AfterExact(db.log, since);
    var all := After(db.log, since);
    forall i | 0 <= i < |all| ensures since < all[i].at <= db.counter {
      assert all[i] in all;
    }
  }

  // ---------------------------------------------------------------- moving a cursor

  /** One visit to the log: writes by others, then changes taken from the front, then the new cursor. */
  datatype Visit = Visit(writes: seq<Write>, taken: seq<Change>, cursor: nat)

  function DbAfter(db: Db, visits: seq<Visit>): Db {
    if visits == [] then db
    else ApplyAll(DbAfter(db, visits[..|visits| - 1]), visits[|visits| - 1].writes)
  }

  function Cursor(since: nat, visits: seq<Visit>): nat {
    if visits == [] then since else visits[|visits| - 1].cursor
  }

  /** Everything taken so far, in order. */
  function Trace(visits: seq<Visit>): seq<Change> {
    if visits == [] then [] else Trace(visits[..|visits| - 1]) + visits[|visits| - 1].taken
  }

  /** `taken` is the front of what lies after `since`, and `cursor` lies exactly behind it. */
  ghost predicate Advances(db: Db, since: nat, taken: seq<Change>, cursor: nat) {
    var rest := After(db.log, since);
    |taken| <= |rest| && taken == rest[..|taken|] && Between(rest, |taken|, since, cursor, db.counter)
  }

  ghost predicate Tracks(db: Db, since: nat, visits: seq<Visit>) {
    visits == [] ||
    (var init, last := visits[..|visits| - 1], visits[|visits| - 1];
     Tracks(db, since, init) && Advances(DbAfter(db, visits), Cursor(since, init), last.taken, last.cursor))
  }

  lemma {:induction false} VisitsConcat(db: Db, since: nat, a: seq<Visit>, b: seq<Visit>)
    ensures DbAfter(db, a + b) == DbAfter(DbAfter(db, a), b)
    ensures Cursor(since, a + b) == Cursor(Cursor(since, a), b)
    ensures Trace(a + b) == Trace(a) + Trace(b)
    ensures Tracks(db, since, a) && Tracks(DbAfter(db, a), Cursor(since, a), b) ==> Tracks(db, since, a + b)
  {
    if b == [] {
      assert a + b == a;
      assert Trace(a) + [] == Trace(a);
    } else {
      var b0, last := b[..|b| - 1], b[|b| - 1];
      assert (a + b)[..|a + b| - 1] == a + b0;
      VisitsConcat(db, since, a, b0);
      assert Trace(a) + Trace(b0) + last.taken == Trace(a) + (Trace(b0) + last.taken);
    }
  }

  /** The log stays valid and the cursor never overtakes the counter. */
  lemma {:induction false} TracksBounds(db: Db, since: nat, visits: seq<Visit>)
    requires Valid(db) && since <= db.counter && Tracks(db, since, visits)
    ensures Valid(DbAfter(db, visits)) && since <= Cursor(since, visits) <= DbAfter(db, visits).counter
  {
    if visits != [] {
      var init := visits[..|visits| - 1];
      TracksBounds(db, since, init);
      ApplyAllValid(DbAfter(db, init), visits[|visits| - 1].writes);
    }
  }

  /**
   * No change is skipped: whatever was written between the visits, every document whose latest
   * change lies after the start and at or before the cursor had that latest change taken.
   */
  lemma {:induction false} NothingSkipped(db: Db, since: nat, visits: seq<Visit>)
    requires Valid(db) && since <= db.counter && Tracks(db, since, visits)
    ensures forall c :: c in DbAfter(db, visits).log && since < c.at <= Cursor(since, visits) ==> c in Trace(visits)
  {
    if visits != [] {
      var init, last := visits[..|visits| - 1], visits[|visits| - 1];
      var before, now := DbAfter(db, init), DbAfter(db, visits);
      TracksBounds(db, since, init);
      NothingSkipped(db, since, init);
      ApplyAllValid(before, last.writes);
      var rest := After(now.log, Cursor(since, init));
      AfterExact(now.log, Cursor(since, init));
      forall c | c in now.log && since < c.at <= last.cursor ensures c in Trace(visits) {
        if c.at > Cursor(since, init) {
          var i :| 0 <= i < |rest| && rest[i] == c;
          assert last.taken[i] == c;
        }
      }
    }
  }

  /** The same holds at any later time: newer writes all lie behind the cursor. */
  lemma NothingSkippedLater(db: Db, since: nat, visits: seq<Visit>, later: seq<Write>)
    requires Valid(db) && since <= db.counter && Tracks(db, since, visits)
    ensures forall c :: c in ApplyAll(DbAfter(db, visits), later).log && since < c.at <= Cursor(since, visits)
                    ==> c in Trace(visits)
  {
    TracksBounds(db, since, visits);
    NothingSkipped(db, since, visits);
    ApplyAllValid(DbAfter(db, visits), later);
  }

  /** No change is taken twice: sequence numbers rise along the whole trace. */
  lemma {:induction false} TakenOnce(db: Db, since: nat, visits: seq<Visit>)
    requires Valid(db) && since <= db.counter && Tracks(db, since, visits)
    ensures Ascending(Trace(visits))
    ensures forall i :: 0 <= i < |Trace(visits)| ==> since < Trace(visits)[i].at <= Cursor(since, visits)
  {
    if visits != [] {
      var init, last := visits[..|visits| - 1], visits[|visits| - 1];
      TracksBounds(db, since, init);
      TakenOnce(db, since, init);
      ApplyAllValid(DbAfter(db, init), last.writes);
      var log := DbAfter(db, visits).log;
      AfterExact(log, Cursor(since, init));
      forall i | 0 <= i < |last.taken| ensures Cursor(since, init) < last.taken[i].at <= last.cursor {
        assert After(log, Cursor(since, init))[i] in After(log, Cursor(since, init));
      }
    }
  }

  ghost predicate Quiet(visits: seq<Visit>) {
    forall i :: 0 <= i < |visits| ==> visits[i].writes == []
  }

  /** What one visit takes and what is left behind its cursor make up what was there. */
  lemma TakenFront(db: Db, since: nat, taken: seq<Change>, cursor: nat)
    requires Ascending(db.log) && Advances(db, since, taken, cursor)
    ensures After(db.log, since) == taken + After(db.log, cursor)
  {
    AfterSplit(db.log, since, |taken|, cursor);
  }

  /** On a log nobody writes to, the trace and what is left after the cursor make up the whole. */
  lemma {:induction false} FixedLog(db: Db, since: nat, visits: seq<Visit>)
    requires Ascending(db.log) && Tracks(db, since, visits) && Quiet(visits)
    ensures DbAfter(db, visits) == db
    ensures After(db.log, since) == Trace(visits) + After(db.log, Cursor(since, visits))
  {
    if visits != [] {
      var init, last := visits[..|visits| - 1], visits[|visits| - 1];
      assert Quiet(init);
      FixedLog(db, since, init);
      TakenFront(db, Cursor(since, init), last.taken, last.cursor);
      Associate(Trace(init), last.taken, After(db.log, last.cursor));
    }
  }

  // ---------------------------------------------------------------- the server

  /** The database server: other clients may write at any time before it answers. */
  class CouchDb {
    var db: Db

    constructor (db: Db)
      requires Valid(db)
      ensures this.db == db
    {
      this.db := db;
    }

    method GetChanges(since: nat, limit: nat) returns (r: Response, ghost writes: seq<Write>)
      requires Valid(db)
      modifies this
      ensures Valid(db) && db == ApplyAll(old(db), writes)
      ensures Answers(db, since, Some(limit), r)
    {
      var others: seq<Write> := *;
      writes := others;
      ApplyAllValid(db, others);
      db := ApplyAll(db, others);
      MockAnswers(db, since, if limit == 0 then 1 else limit);
      r := MockAnswer(db, since, if limit == 0 then 1 else limit);
    }
  }
}
