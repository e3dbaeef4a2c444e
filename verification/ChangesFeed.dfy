/**
 * The permission-filtered `_changes` feed
 * (src/restricted-endpoints/replication/changes/changes.controller.ts): batches are fetched from
 * CouchDB, filtered, cut at the client's limit and streamed, while the cursor moves on.
 */
module ChangesFeed {
  import opened Wrappers
  import opened JsObject
  import opened Json
  import opened Sequences
  import opened ChangeLog
  import opened DocumentFilter
  import opened ResponseStream

  const INTERNAL_LIMIT_MULTIPLIER := 5
  const MAX_INTERNAL_LIMIT := 1000
  const CLEAN_TOMBSTONE_PROPERTY_COUNT := 3

  /** What a request may see: ids with an ignored prefix are not replicated, documents need `read`. */
  datatype Policy = Policy(ignoredPrefixes: seq<string>, canRead: Doc -> bool)

  /** A deletion that carries nothing but `_id`, `_rev` and `_deleted`. */
  predicate IsCleanTombstone(doc: Doc) {
    Get(doc, "_deleted") == Some(Bool(true)) && |doc| == CLEAN_TOMBSTONE_PROPERTY_COUNT
  }

  predicate IsPermitted(p: Policy, c: Change) {
    if c.doc.None? then c.deleted else IsCleanTombstone(c.doc.value) || p.canRead(c.doc.value)
  }

  /** What becomes of a change: it is written to the client, reported as lost, or skipped. */
  datatype Verdict = Written | Lost | Skipped

  function Classify(p: Policy, c: Change): Verdict {
    if !IsReplicable(p.ignoredPrefixes, c.id) then Skipped
    else if IsPermitted(p, c) then Written
    else if c.doc.Some? then Lost
    else Skipped
  }

  function Permitted(p: Policy, cs: seq<Change>): seq<Change> {
    if cs == [] then []
    else (if Classify(p, cs[0]).Written? then [cs[0]] else []) + Permitted(p, cs[1..])
  }

  function LostIds(p: Policy, cs: seq<Change>): seq<string> {
    if cs == [] then []
    else (if Classify(p, cs[0]).Lost? then [cs[0].id] else []) + LostIds(p, cs[1..])
  }

  lemma {:induction false} ClassesConcat(p: Policy, a: seq<Change>, b: seq<Change>)
    ensures Permitted(p, a + b) == Permitted(p, a) + Permitted(p, b)
    ensures LostIds(p, a + b) == LostIds(p, a) + LostIds(p, b)
  {
    if a == [] {
      assert a + b == b;
    } else {
      assert (a + b)[1..] == a[1..] + b;
      ClassesConcat(p, a[1..], b);
    }
  }

  // ---------------------------------------------------------------- who is sent what

  /** No ignored prefix begins the id. */
  predicate Replicated(p: Policy, id: string) {
    forall i :: 0 <= i < |p.ignoredPrefixes| ==> !(p.ignoredPrefixes[i] <= id)
  }

  /**
   * What a user may be sent: a deletion without a document, a document that the user may read, and a
   * deletion mark with nothing beside the id and the revision.
   */
  predicate MayReceive(p: Policy, c: Change) {
    match c.doc
    case None => c.deleted
    case Some(doc) => p.canRead(doc) || (|doc| == 3 && Get(doc, "_deleted") == Some(Bool(true)))
  }

  /** There is a replicated change of this id among them whose document the user may not be sent. */
  predicate Denied(p: Policy, cs: seq<Change>, id: string) {
    exists i :: 0 <= i < |cs| && cs[i].id == id && Replicated(p, id) && cs[i].doc.Some? && !MayReceive(p, cs[i])
  }

  /** Of these changes, exactly what the user may be sent is sent, and exactly the denied ids are lost. */
  ghost predicate TellsUser(p: Policy, cs: seq<Change>, results: seq<Change>, lost: seq<string>) {
    && (forall c :: c in results <==> c in cs && Replicated(p, c.id) && MayReceive(p, c))
    && (forall id :: id in lost <==> Denied(p, cs, id))
  }

  lemma {:induction false} PermittedMember(p: Policy, cs: seq<Change>, c: Change)
    ensures c in Permitted(p, cs) <==> c in cs && Replicated(p, c.id) && MayReceive(p, c)
  {
    if cs != [] {
      assert cs == [cs[0]] + cs[1..];
      PermittedMember(p, cs[1..], c);
    }
  }

  lemma {:induction false} LostMember(p: Policy, cs: seq<Change>, id: string)
    ensures id in LostIds(p, cs) <==> Denied(p, cs, id)
  {
    if cs != [] {
      LostMember(p, cs[1..], id);
      DeniedCons(p, cs, id);
      var c := cs[0];
      assert Classify(p, c).Lost? <==> Replicated(p, c.id) && c.doc.Some? && !MayReceive(p, c);
    }
  }

  lemma DeniedCons(p: Policy, cs: seq<Change>, id: string)
    requires cs != []
    ensures var c := cs[0];
            Denied(p, cs, id) <==>
            Denied(p, cs[1..], id) || (c.id == id && Replicated(p, id) && c.doc.Some? && !MayReceive(p, c))
  {
    assert forall i :: 0 <= i < |cs| - 1 ==> cs[1..][i] == cs[i + 1];
  }

  lemma FilteredTells(p: Policy, cs: seq<Change>)
    ensures TellsUser(p, cs, Permitted(p, cs), LostIds(p, cs))
  {
    forall c ensures c in Permitted(p, cs) <==> c in cs && Replicated(p, c.id) && MayReceive(p, c) {
      PermittedMember(p, cs, c);
    }
    forall id ensures id in LostIds(p, cs) <==> Denied(p, cs, id) {
      LostMember(p, cs, id);
    }
  }

  // ---------------------------------------------------------------- filtering one batch

  /** How many changes of a batch are processed when `room` more results fit. */
  function Cut(p: Policy, cs: seq<Change>, room: Option<nat>): (k: nat)
    ensures k <= |cs|
  {
    if cs == [] then 0
    else if !Classify(p, cs[0]).Written? then 1 + Cut(p, cs[1..], room)
    else if room.None? then 1 + Cut(p, cs[1..], None)
    else if room.value == 0 then 0
    else 1 + Cut(p, cs[1..], Some(room.value - 1))
  }

  /** A batch is cut short only at a permitted change, and only when the limit is exactly filled. */
  lemma {:induction false} CutAtLimit(p: Policy, cs: seq<Change>, room: Option<nat>)
    ensures var k := Cut(p, cs, room);
            && k <= |cs|
            && (room.Some? ==> |Permitted(p, cs[..k])| <= room.value)
            && (k < |cs| ==> room.Some? && |Permitted(p, cs[..k])| == room.value && Classify(p, cs[k]).Written?)
  {
    if cs != [] {
      var left := if Classify(p, cs[0]).Written? && room.Some? && room.value > 0 then Some(room.value - 1) else room;
      var k := Cut(p, cs, room);
      CutAtLimit(p, cs[1..], left);
      if k > 0 {
        assert cs[..k][1..] == cs[1..][..k - 1];
      }
    }
  }

  datatype Filtered = Filtered(results: seq<Change>, lost: seq<string>, lastSeq: nat, pending: nat)

  /** The outcome of one batch in terms of the changes processed. */
  function Filter(p: Policy, r: Response, limit: Option<nat>): Filtered {
    CutAtLimit(p, r.results, limit);
    var k := Cut(p, r.results, limit);
    Filtered(
      Permitted(p, r.results[..k]),
      LostIds(p, r.results[..k]),
      if 0 < k < |r.results| then r.results[k - 1].at else r.lastSeq,
      r.pending + |r.results| - k)
  }

  lemma ClassesStep(p: Policy, cs: seq<Change>, i: nat)
    requires i < |cs|
    ensures Permitted(p, cs[..i + 1]) == Permitted(p, cs[..i]) + (if Classify(p, cs[i]).Written? then [cs[i]] else [])
    ensures LostIds(p, cs[..i + 1]) == LostIds(p, cs[..i]) + (if Classify(p, cs[i]).Lost? then [cs[i].id] else [])
  {
    assert cs[..i + 1] == cs[..i] + [cs[i]];
    ClassesConcat(p, cs[..i], [cs[i]]);
    OneClass(p, cs[i]);
  }

  /** One step of the cut, with the room left by `n` results so far. */
  lemma CutStep(p: Policy, cs: seq<Change>, i: nat, room: Option<nat>, n: nat)
    requires i < |cs| && (room.Some? ==> n <= room.value)
    requires Cut(p, cs, room) == i + Cut(p, cs[i..], Minus(room, n))
    ensures var full := Classify(p, cs[i]).Written? && Minus(room, n) == Some(0);
            && (full ==> Cut(p, cs, room) == i)
            && (!full ==>
               Cut(p, cs, room)
                 == i + 1 + Cut(p, cs[i + 1..], Minus(room, if Classify(p, cs[i]).Written? then n + 1 else n)))
  {
    assert cs[i..][1..] == cs[i + 1..] && cs[i..][0] == cs[i];
  }

  lemma OneClass(p: Policy, c: Change)
    ensures Permitted(p, [c]) == if Classify(p, c).Written? then [c] else []
    ensures LostIds(p, [c]) == if Classify(p, c).Lost? then [c.id] else []
  {
    assert [c][1..] == [];
    assert Permitted(p, []) == [] && LostIds(p, []) == [];
  }

  function Minus(limit: Option<nat>, n: nat): Option<nat> {
    if limit.None? then None else Some(if n <= limit.value then limit.value - n else 0)
  }

  /** The filter loop of the controller. */
  method FilterChanges(p: Policy, r: Response, limit: Option<nat>) returns (f: Filtered)
    ensures f == Filter(p, r, limit)
  {
    var permitted: seq<Change> := [];
    var lost: seq<string> := [];
    var lastProcessed := r.lastSeq;
    var unprocessed := 0;
    var i := 0;
    ghost var cs := r.results;
    assert cs[0..] == cs;
    while i < |r.results|
      invariant FilteredUpTo(p, cs, limit, i, permitted, lost) && unprocessed == 0
      invariant lastProcessed == if i == 0 then r.lastSeq else cs[i - 1].at
    {
      var change := r.results[i];
      FilteredNext(p, cs, limit, i, permitted, lost);
      if IsReplicable(p.ignoredPrefixes, change.id) {
        if IsPermitted(p, change) {
          if limit.Some? && |permitted| >= limit.value {
            unprocessed := |r.results| - i;
            break;
          }
          permitted := permitted + [change];
        } else if change.doc.Some? {
          lost := lost + [change.id];
        }
      }
      lastProcessed := change.at;
      i := i + 1;
    }
    assert Cut(p, cs, limit) == i;
    return Filtered(permitted, lost, if unprocessed > 0 then lastProcessed else r.lastSeq, r.pending + unprocessed);
  }

  /** Of the processed changes of a batch, the user is told exactly what is due. */
  lemma BatchTells(p: Policy, r: Response, limit: Option<nat>)
    ensures var f := Filter(p, r, limit); TellsUser(p, r.results[..Cut(p, r.results, limit)], f.results, f.lost)
  {
    FilteredTells(p, r.results[..Cut(p, r.results, limit)]);
  }

  /** The state of the loop before change `i`. */
  ghost predicate FilteredUpTo(
    p: Policy, cs: seq<Change>, limit: Option<nat>, i: nat, permitted: seq<Change>, lost: seq<string>)
  {
    && i <= |cs| && permitted == Permitted(p, cs[..i]) && lost == LostIds(p, cs[..i])
    && (limit.Some? ==> |permitted| <= limit.value)
    && Cut(p, cs, limit) == i + Cut(p, cs[i..], Minus(limit, |permitted|))
  }

  /** A change either fills the limit, which ends the cut, or is processed. */
  lemma FilteredNext(p: Policy, cs: seq<Change>, limit: Option<nat>, i: nat, permitted: seq<Change>, lost: seq<string>)
    requires i < |cs| && FilteredUpTo(p, cs, limit, i, permitted, lost)
    ensures var c := Classify(p, cs[i]);
            if c.Written? && limit.Some? && |permitted| >= limit.value then Cut(p, cs, limit) == i
            else FilteredUpTo(p, cs, limit, i + 1, permitted + (if c.Written? then [cs[i]] else []),
              lost + (if c.Lost? then [cs[i].id] else []))
  {
    ClassesStep(p, cs, i);
    CutStep(p, cs, i, limit, |permitted|);
  }

  /**
   * The cursor of a filtered batch lies exactly behind the changes processed, except when the limit
   * is 0 and the first change is permitted: then it jumps over the whole batch.
   */
  lemma CursorExactIff(p: Policy, db: Db, since: nat, internal: nat, r: Response, limit: Option<nat>)
    requires ChangeLog.Valid(db) && since <= db.counter && Answers(db, since, Some(internal), r)
    ensures Advances(db, since, r.results[..Cut(p, r.results, limit)], Filter(p, r, limit).lastSeq)
       <==> !(limit == Some(0) && r.results != [] && Classify(p, r.results[0]).Written?)
  {
    CutAtLimit(p, r.results, limit);
    var k, cursor := Cut(p, r.results, limit), Filter(p, r, limit).lastSeq;
    var rest := After(db.log, since);
    AfterExact(db.log, since);
    AfterBounds(db, since);
    assert r.results[..k] == rest[..k];
    if limit == Some(0) && r.results != [] && Classify(p, r.results[0]).Written? {
      assert k == 0 && rest[0].at <= cursor;
    }
  }

  /** One filtered batch with room for at least one result: taken changes, cursor and `pending` fit together. */
  lemma RoundExact(p: Policy, db: Db, since: nat, internal: nat, r: Response, left: Option<nat>)
    requires ChangeLog.Valid(db) && since <= db.counter && Answers(db, since, Some(internal), r) && left != Some(0)
    ensures var taken, f := r.results[..Cut(p, r.results, left)], Filter(p, r, left);
            && Advances(db, since, taken, f.lastSeq)
            && f.results == Permitted(p, taken) && f.lost == LostIds(p, taken)
            && f.pending == |After(db.log, f.lastSeq)|
            && (left.Some? ==> |f.results| <= left.value)
  {
    CutAtLimit(p, r.results, left);
    CursorExactIff(p, db, since, internal, r, left);
    AfterSplit(db.log, since, Cut(p, r.results, left), Filter(p, r, left).lastSeq);
  }

  /** With limit 0 a permitted change is lost: the cursor moves behind a change the client never gets. */
  lemma LimitZeroLosesAChange()
    ensures exists p: Policy, db: Db, r: Response, c: Change ::
              ChangeLog.Valid(db) && Answers(db, 0, Some(0), r) && c in db.log && Classify(p, c).Written?
              && Filter(p, r, Some(0)).results == [] && c.at <= Filter(p, r, Some(0)).lastSeq
  {
    var p := Policy([], (d: Doc) => true);
    var c := Change(1, "Child:1", "1-a", false, Some([Entry("_id", String("Child:1"))]));
    var db, r := Db([c], 1), Response([c], 1, 0);
    assert c in db.log;
    assert Classify(p, c).Written?;
    assert Answers(db, 0, Some(0), r);
    assert Cut(p, r.results, Some(0)) == 0;
  }

  // ---------------------------------------------------------------- one request

  /** One round trip of a request: writes by others, then CouchDB's answer. */
  datatype Round = Round(writes: seq<Write>, response: Response)

  /** The accumulated state of a request (ChangesProgress), with the changes written so far. */
  datatype Progress = Progress(results: seq<Change>, lost: seq<string>, lastSeq: nat, pending: nat)

  function InternalLimit(left: Option<nat>): nat {
    if left.None? || left.value * INTERNAL_LIMIT_MULTIPLIER > MAX_INTERNAL_LIMIT then MAX_INTERNAL_LIMIT
    else left.value * INTERNAL_LIMIT_MULTIPLIER
  }

  function Outcome(p: Policy, since: nat, limit: Option<nat>, rounds: seq<Round>): Progress {
    if rounds == [] then Progress([], [], since, 0)
    else
      var before := Outcome(p, since, limit, rounds[..|rounds| - 1]);
      var f := Filter(p, rounds[|rounds| - 1].response, Minus(limit, |before.results|));
      Progress(before.results + f.results, before.lost + f.lost, f.lastSeq, f.pending)
  }

  /** The rounds as visits to the log. */
  function Visits(p: Policy, since: nat, limit: Option<nat>, rounds: seq<Round>): seq<Visit> {
    if rounds == [] then []
    else
      var init, last := rounds[..|rounds| - 1], rounds[|rounds| - 1];
      var left := Minus(limit, |Outcome(p, since, limit, init).results|);
      CutAtLimit(p, last.response.results, left);
      Visits(p, since, limit, init)
      + [Visit(last.writes, last.response.results[..Cut(p, last.response.results, left)],
        Filter(p, last.response, left).lastSeq)]
  }

  /** Reasons of the response itself to stop, apart from time and a closed connection. */
  predicate Complete(limit: Option<nat>, progress: Progress) {
    progress.pending == 0 || (limit.Some? && |progress.results| >= limit.value)
  }

  /** A run of a request: every round is fetched from the cursor the round before left behind. */
  ghost predicate Requested(db: Db, p: Policy, since: nat, limit: Option<nat>, rounds: seq<Round>) {
    rounds == [] ||
    (var init, last := rounds[..|rounds| - 1], rounds[|rounds| - 1];
     var before := Outcome(p, since, limit, init);
     && Requested(db, p, since, limit, init)
     && (init == [] || !Complete(limit, before))
     && Answers(
          ApplyAll(DbAfter(db, Visits(p, since, limit, init)), last.writes), before.lastSeq,
          Some(InternalLimit(Minus(limit, |before.results|))), last.response))
  }

  /** The class as the request handler uses it. */
  class ChangesController {
    const policy: Policy

    constructor (policy: Policy)
      ensures this.policy == policy
    {
      this.policy := policy;
    }

    /**
     * Fetch, filter and stream until nothing is left, the limit is filled, or `stopAfter` rounds are
     * done (the deadline passes or the client disconnects). What was streamed, and the returned
     * progress, are those of a run of rounds against the database as it was at each fetch.
     */
    method StreamPermittedChanges(
      couch: CouchDb, since: nat, limit: Option<nat>, stopAfter: nat, stream: ChangesResponseStream)
      returns (progress: Progress, ghost rounds: seq<Round>)
      requires ChangeLog.Valid(couch.db) && since <= couch.db.counter
      requires stream.Valid() && !stream.ended && stream.sent == []
      modifies couch, stream
      ensures rounds != [] && Requested(old(couch.db), policy, since, limit, rounds)
      ensures progress == Outcome(policy, since, limit, rounds)
      ensures couch.db == DbAfter(old(couch.db), Visits(policy, since, limit, rounds))
      ensures stream.Valid() && !stream.ended
              && stream.sent == ProjectedAll(stream.includeDocs, ToJsonAll(progress.results))
      ensures Complete(limit, progress) || |rounds| >= stopAfter
    {
      rounds := [];
      progress := Progress([], [], since, 0);
      var iterations := 0;
      while true
        invariant Running(old(couch.db), since, limit, rounds, progress, couch, stream)
        invariant iterations == |rounds| && (rounds != [] ==> !Complete(limit, progress) && iterations < stopAfter)
        decreases stopAfter - iterations
      {
        progress, rounds := NextBatch(old(couch.db), couch, since, limit, rounds, progress, stream);
        iterations := iterations + 1;
        if progress.pending == 0 || (limit.Some? && |progress.results| >= limit.value) || iterations >= stopAfter {
          break;
        }
      }
    }

    /** The loop state: a run of rounds so far, its outcome, and that outcome already streamed. */
    ghost predicate Running(
      start: Db, since: nat, limit: Option<nat>, rounds: seq<Round>, progress: Progress, couch: CouchDb,
      stream: ChangesResponseStream)
      reads couch, stream
    {
      && ChangeLog.Valid(couch.db) && Requested(start, policy, since, limit, rounds)
      && progress == Outcome(policy, since, limit, rounds)
      && couch.db == DbAfter(start, Visits(policy, since, limit, rounds))
      && stream.Valid() && !stream.ended && stream.sent == ProjectedAll(stream.includeDocs, ToJsonAll(progress.results))
    }

    /** The loop body: fetch from the cursor, filter, write, move the cursor. */
    method NextBatch(
      ghost start: Db, couch: CouchDb, since: nat, limit: Option<nat>, ghost rounds: seq<Round>, progress: Progress,
      stream: ChangesResponseStream)
      returns (next: Progress, ghost more: seq<Round>)
      requires Running(start, since, limit, rounds, progress, couch, stream)
              && (rounds == [] || !Complete(limit, progress))
      modifies couch, stream
      ensures Running(start, since, limit, more, next, couch, stream) && |more| == |rounds| + 1
    {
      var left := Minus(limit, stream.written);
      SentLength(stream.includeDocs, progress.results);
      var response, writes := couch.GetChanges(progress.lastSeq, InternalLimit(left));
      NextRound(start, policy, since, limit, rounds, Round(writes, response));
      more := rounds + [Round(writes, response)];
      var batch := FilterChanges(policy, response, left);
      stream.WriteResults(ToJsonAll(batch.results));
      ToJsonConcat(stream.includeDocs, progress.results, batch.results);
      next := Progress(progress.results + batch.results, progress.lost + batch.lost, batch.lastSeq, batch.pending);
    }

    /** The whole response: what the client receives is one complete document with exactly that content. */
    method Changes(couch: CouchDb, since: nat, limit: Option<nat>, includeDocs: bool, stopAfter: nat)
      returns (body: seq<Lexeme>, ghost rounds: seq<Round>)
      requires ChangeLog.Valid(couch.db) && since <= couch.db.counter
      modifies couch
      ensures rounds != [] && Requested(old(couch.db), policy, since, limit, rounds)
      ensures couch.db == DbAfter(old(couch.db), Visits(policy, since, limit, rounds))
      ensures var progress := Outcome(policy, since, limit, rounds);
              body == Lexemes(Envelope(
                ProjectedAll(includeDocs, ToJsonAll(progress.results)), Decimal(progress.lastSeq), progress.pending,
                  progress.lost))
    {
      var stream := new ChangesResponseStream(includeDocs);
      var progress;
      progress, rounds := StreamPermittedChanges(couch, since, limit, stopAfter, stream);
      stream.Finish(Decimal(progress.lastSeq), progress.pending, progress.lost);
      body := stream.out;
    }
  }

  lemma VisitsStep(db: Db, p: Policy, since: nat, limit: Option<nat>, rounds: seq<Round>)
    requires rounds != []
    ensures var init, last := rounds[..|rounds| - 1], rounds[|rounds| - 1];
            var vs := Visits(p, since, limit, rounds);
            && vs != [] && vs[..|vs| - 1] == Visits(p, since, limit, init)
            && vs[|vs| - 1].writes == last.writes
            && DbAfter(db, vs) == ApplyAll(DbAfter(db, Visits(p, since, limit, init)), last.writes)
  {
  }

  lemma NextRound(db: Db, p: Policy, since: nat, limit: Option<nat>, rounds: seq<Round>, next: Round)
    requires Requested(db, p, since, limit, rounds)
    requires var before := Outcome(p, since, limit, rounds);
             && (rounds == [] || !Complete(limit, before))
             && Answers(
                  ApplyAll(DbAfter(db, Visits(p, since, limit, rounds)), next.writes), before.lastSeq,
                  Some(InternalLimit(Minus(limit, |before.results|))), next.response)
    ensures Requested(db, p, since, limit, rounds + [next])
    ensures DbAfter(db, Visits(p, since, limit, rounds + [next]))
         == ApplyAll(DbAfter(db, Visits(p, since, limit, rounds)), next.writes)
    ensures var before := Outcome(p, since, limit, rounds);
            var f := Filter(p, next.response, Minus(limit, |before.results|));
            Outcome(p, since, limit, rounds + [next])
            == Progress(before.results + f.results, before.lost + f.lost, f.lastSeq, f.pending)
  {
    var more := rounds + [next];
    assert more[..|more| - 1] == rounds;
    VisitsStep(db, p, since, limit, more);
  }

  lemma SentLength(includeDocs: bool, results: seq<Change>)
    ensures |ProjectedAll(includeDocs, ToJsonAll(results))| == |results|
  {
    ToJsonLength(results);
    ProjectedLength(includeDocs, ToJsonAll(results));
  }

  function ToJson(c: Change): Json {
    Object(
      [Entry("seq", String(Decimal(c.at))), Entry("id", String(c.id)),
       Entry("changes", Array([Object([Entry("rev", String(c.rev))])]))]
      + (if c.deleted then [Entry("deleted", Bool(true))] else [])
      + (if c.doc.Some? then [Entry("doc", Object(c.doc.value))] else []))
  }

  /** What a client finds in an item: its position, id and revision, the deletion mark, and the document. */
  lemma ToJsonTells(c: Change)
    ensures ToJson(c).Object?
    ensures var ms := ToJson(c).members;
            && Get(ms, "seq") == Some(String(Decimal(c.at))) && Get(ms, "id") == Some(String(c.id))
            && Get(ms, "changes") == Some(Array([Object([Entry("rev", String(c.rev))])]))
            && Get(ms, "deleted") == (if c.deleted then Some(Bool(true)) else None)
            && Get(ms, "doc") == (if c.doc.Some? then Some(Object(c.doc.value)) else None)
  {
    var head := [Entry("seq", String(Decimal(c.at))), Entry("id", String(c.id)),
                 Entry("changes", Array([Object([Entry("rev", String(c.rev))])]))];
    var deleted := if c.deleted then [Entry("deleted", Bool(true))] else [];
    var doc := if c.doc.Some? then [Entry("doc", Object(c.doc.value))] else [];
    forall key | key in ["seq", "id", "changes", "deleted", "doc"]
      ensures Get(head + deleted + doc, key)
              == if key == "seq" then Some(String(Decimal(c.at)))
                 else if key == "id" then Some(String(c.id))
                 else if key == "changes" then Some(Array([Object([Entry("rev", String(c.rev))])]))
                 else if key == "deleted" then (if c.deleted then Some(Bool(true)) else None)
                 else if c.doc.Some? then Some(Object(c.doc.value)) else None
    {
      GetConcat(head + deleted, doc, key);
      GetConcat(head, deleted, key);
      HeadTells(c, key);
      GetOne(Entry("deleted", Bool(true)), key);
      if c.doc.Some? {
        GetOne(Entry("doc", Object(c.doc.value)), key);
      }
    }
  }

  lemma HeadTells(c: Change, key: string)
    ensures Get([Entry("seq", String(Decimal(c.at))), Entry("id", String(c.id)),
                 Entry("changes", Array([Object([Entry("rev", String(c.rev))])]))], key)
            == if key == "seq" then Some(String(Decimal(c.at)))
               else if key == "id" then Some(String(c.id))
               else if key == "changes" then Some(Array([Object([Entry("rev", String(c.rev))])]))
               else None
  {
    var position, id := Entry("seq", String(Decimal(c.at))), Entry("id", String(c.id));
    var changes := Entry("changes", Array([Object([Entry("rev", String(c.rev))])]));
    assert [position, id, changes] == [position] + [id] + [changes];
    GetConcat([position] + [id], [changes], key);
    GetConcat([position], [id], key);
    GetOne(position, key);
    GetOne(id, key);
    GetOne(changes, key);
  }

  /** CouchDB is asked for five times the room that is left, and never for more than 1000. */
  lemma InternalLimitTells(left: Option<nat>)
    ensures InternalLimit(left) <= 1000
    ensures left.Some? && 5 * left.value <= 1000 ==> InternalLimit(left) == 5 * left.value
    ensures left.None? || 5 * left.value > 1000 ==> InternalLimit(left) == 1000
  {
  }

  function ToJsonAll(cs: seq<Change>): seq<Json> {
    if cs == [] then [] else [ToJson(cs[0])] + ToJsonAll(cs[1..])
  }

  lemma {:induction false} ToJsonLength(cs: seq<Change>)
    ensures |ToJsonAll(cs)| == |cs|
  {
    if cs != [] {
      ToJsonLength(cs[1..]);
    }
  }

  lemma {:induction false} ProjectedLength(includeDocs: bool, results: seq<Json>)
    ensures |ProjectedAll(includeDocs, results)| == |results|
  {
    if results != [] {
      ProjectedLength(includeDocs, results[1..]);
    }
  }

  lemma {:induction false} ToJsonConcat(includeDocs: bool, a: seq<Change>, b: seq<Change>)
    ensures ProjectedAll(includeDocs, ToJsonAll(a + b))
         == ProjectedAll(includeDocs, ToJsonAll(a)) + ProjectedAll(includeDocs, ToJsonAll(b))
  {
    if a == [] {
      assert a + b == b;
    } else {
      assert (a + b)[1..] == a[1..] + b;
      ToJsonConcat(includeDocs, a[1..], b);
    }
  }

  // ---------------------------------------------------------------- what a request guarantees

  /**
   * With a limit of at least 1 the rounds of a request are exact visits to the log, and its outcome is
   * the classification of everything they took: results and lost ids in order, the cursor, and `pending`
   * as the number of changes after the cursor. The limit is never exceeded.
   */
  lemma {:induction false} RequestExact(db: Db, p: Policy, since: nat, limit: Option<nat>, rounds: seq<Round>)
    requires ChangeLog.Valid(db) && since <= db.counter && limit != Some(0) && Requested(db, p, since, limit, rounds)
    ensures var vs, progress := Visits(p, since, limit, rounds), Outcome(p, since, limit, rounds);
            && Tracks(db, since, vs)
            && progress.results == Permitted(p, Trace(vs))
            && progress.lost == LostIds(p, Trace(vs))
            && progress.lastSeq == Cursor(since, vs)
            && (rounds != [] ==> progress.pending == |After(DbAfter(db, vs).log, progress.lastSeq)|)
            && (limit.Some? ==> |progress.results| <= limit.value)
  {
    if rounds != [] {
      var init, last := rounds[..|rounds| - 1], rounds[|rounds| - 1];
      RequestExact(db, p, since, limit, init);
      var before, vs := Outcome(p, since, limit, init), Visits(p, since, limit, init);
      VisitsStep(db, p, since, limit, rounds);
      TracksBounds(db, since, vs);
      ApplyAllValid(DbAfter(db, vs), last.writes);
      var now, left := ApplyAll(DbAfter(db, vs), last.writes), Minus(limit, |before.results|);
      assert left != Some(0);
      RoundExact(p, now, before.lastSeq, InternalLimit(left), last.response, left);
      ClassesConcat(p, Trace(vs), last.response.results[..Cut(p, last.response.results, left)]);
    }
  }

  /** Over a whole request, at any limit: of everything taken, the user is told exactly what is due. */
  lemma {:induction false} RequestTells(p: Policy, since: nat, limit: Option<nat>, rounds: seq<Round>)
    ensures var progress := Outcome(p, since, limit, rounds);
            TellsUser(p, Trace(Visits(p, since, limit, rounds)), progress.results, progress.lost)
  {
    OutcomeOfTrace(p, since, limit, rounds);
    FilteredTells(p, Trace(Visits(p, since, limit, rounds)));
  }

  lemma {:induction false} OutcomeOfTrace(p: Policy, since: nat, limit: Option<nat>, rounds: seq<Round>)
    ensures var progress, taken := Outcome(p, since, limit, rounds), Trace(Visits(p, since, limit, rounds));
            progress.results == Permitted(p, taken) && progress.lost == LostIds(p, taken)
  {
    if rounds != [] {
      var init, last := rounds[..|rounds| - 1], rounds[|rounds| - 1].response;
      var left := Minus(limit, |Outcome(p, since, limit, init).results|);
      OutcomeOfTrace(p, since, limit, init);
      VisitsTaken(p, since, limit, rounds);
      ClassesConcat(p, Trace(Visits(p, since, limit, init)), last.results[..Cut(p, last.results, left)]);
    }
  }

  lemma VisitsTaken(p: Policy, since: nat, limit: Option<nat>, rounds: seq<Round>)
    requires rounds != []
    ensures var init, last := rounds[..|rounds| - 1], rounds[|rounds| - 1].response;
            var left := Minus(limit, |Outcome(p, since, limit, init).results|);
            Trace(Visits(p, since, limit, rounds))
            == Trace(Visits(p, since, limit, init)) + last.results[..Cut(p, last.results, left)]
  {
    var vs := Visits(p, since, limit, rounds);
    assert vs[..|vs| - 1] == Visits(p, since, limit, rounds[..|rounds| - 1]);
  }

  /**
   * A client that was given these results, lost ids and cursor knows the log: every change that lies
   * after the start, and at or before the cursor unless nothing is pending, was taken and told.
   */
  ghost predicate Knows(p: Policy, now: Db, since: nat, taken: seq<Change>, told: Progress) {
    forall c :: c in now.log && since < c.at && (c.at <= told.lastSeq || told.pending == 0) ==>
      && c in taken
      && (Classify(p, c).Written? ==> c in told.results)
      && (Classify(p, c).Lost? ==> c.id in told.lost)
  }

  lemma KnowsAll(p: Policy, db: Db, since: nat, visits: seq<Visit>, told: Progress)
    requires ChangeLog.Valid(db) && since <= db.counter && Tracks(db, since, visits)
    requires told.results == Permitted(p, Trace(visits)) && told.lost == LostIds(p, Trace(visits))
            && told.lastSeq == Cursor(since, visits)
    requires told.pending == |After(DbAfter(db, visits).log, told.lastSeq)|
    ensures Knows(p, DbAfter(db, visits), since, Trace(visits), told)
  {
    var now := DbAfter(db, visits);
    TracksBounds(db, since, visits);
    NothingSkipped(db, since, visits);
    AfterExact(now.log, told.lastSeq);
    forall c | c in now.log && since < c.at && (c.at <= told.lastSeq || told.pending == 0)
      ensures c in Trace(visits)
      ensures Classify(p, c).Written? ==> c in told.results
      ensures Classify(p, c).Lost? ==> c.id in told.lost
    {
      assert c.at > told.lastSeq ==> c in After(now.log, told.lastSeq);
      ClassifiedIn(p, Trace(visits), c);
    }
  }

  /**
   * Filtering, truncation, early stops and concurrent writes together never skip a change: every
   * document whose latest change lies between the start and the returned cursor had exactly that
   * change classified, and a response with nothing pending has classified all of them.
   */
  lemma RequestSkipsNothing(db: Db, p: Policy, since: nat, limit: Option<nat>, rounds: seq<Round>)
    requires ChangeLog.Valid(db) && since <= db.counter && limit != Some(0)
    requires rounds != [] && Requested(db, p, since, limit, rounds)
    ensures var vs := Visits(p, since, limit, rounds);
            Knows(p, DbAfter(db, vs), since, Trace(vs), Outcome(p, since, limit, rounds))
  {
    RequestExact(db, p, since, limit, rounds);
    KnowsAll(p, db, since, Visits(p, since, limit, rounds), Outcome(p, since, limit, rounds));
  }

  lemma {:induction false} ClassifiedIn(p: Policy, cs: seq<Change>, c: Change)
    requires c in cs
    ensures Classify(p, c).Written? ==> c in Permitted(p, cs)
    ensures Classify(p, c).Lost? ==> c.id in LostIds(p, cs)
  {
    if c != cs[0] {
      ClassifiedIn(p, cs[1..], c);
    }
  }

  /** A round that does not complete the request takes its whole batch, at least five changes. */
  lemma IncompleteRound(db: Db, p: Policy, since: nat, limit: Option<nat>, rounds: seq<Round>)
    requires ChangeLog.Valid(db) && since <= db.counter && limit != Some(0)
    requires rounds != [] && Requested(db, p, since, limit, rounds)
            && !Complete(limit, Outcome(p, since, limit, rounds))
    ensures var vs := Visits(p, since, limit, rounds); vs != [] && |vs[|vs| - 1].taken| >= 5
  {
    var init, last := rounds[..|rounds| - 1], rounds[|rounds| - 1];
    RequestExact(db, p, since, limit, init);
    var before := Outcome(p, since, limit, init);
    var left := Minus(limit, |before.results|);
    CutAtLimit(p, last.response.results, left);
    VisitsStep(db, p, since, limit, rounds);
    assert Cut(p, last.response.results, left) == |last.response.results|;
  }

  /** On a fixed log with `r` changes left, a request needs at most `r / 5 + 1` round trips. */
  lemma {:induction false} RoundTripBound(db: Db, p: Policy, since: nat, limit: Option<nat>, rounds: seq<Round>)
    requires ChangeLog.Valid(db) && since <= db.counter && limit != Some(0) && Requested(db, p, since, limit, rounds)
    requires forall i :: 0 <= i < |rounds| ==> rounds[i].writes == []
    ensures |rounds| <= |After(db.log, since)| / 5 + 1
  {
    if rounds != [] {
      var init := rounds[..|rounds| - 1];
      FiveEach(db, p, since, limit, init);
      RequestExact(db, p, since, limit, init);
      QuietVisits(p, since, limit, init);
      FixedLog(db, since, Visits(p, since, limit, init));
    }
  }

  lemma {:induction false} FiveEach(db: Db, p: Policy, since: nat, limit: Option<nat>, rounds: seq<Round>)
    requires ChangeLog.Valid(db) && since <= db.counter && limit != Some(0) && Requested(db, p, since, limit, rounds)
    requires rounds == [] || !Complete(limit, Outcome(p, since, limit, rounds))
    ensures |Trace(Visits(p, since, limit, rounds))| >= 5 * |rounds|
  {
    if rounds != [] {
      var init := rounds[..|rounds| - 1];
      FiveEach(db, p, since, limit, init);
      IncompleteRound(db, p, since, limit, rounds);
      VisitsStep(db, p, since, limit, rounds);
    }
  }

  lemma {:induction false} QuietVisits(p: Policy, since: nat, limit: Option<nat>, rounds: seq<Round>)
    requires forall i :: 0 <= i < |rounds| ==> rounds[i].writes == []
    ensures Quiet(Visits(p, since, limit, rounds))
  {
    if rounds != [] {
      QuietVisits(p, since, limit, rounds[..|rounds| - 1]);
    }
  }

  // ---------------------------------------------------------------- a client session

  /** One request of a client that goes on from the cursor it was given. */
  datatype Request = Request(limit: Option<nat>, rounds: seq<Round>)

  datatype Session = Session(db: Db, visits: seq<Visit>, results: seq<Change>, lost: seq<string>, cursor: nat,
    pending: nat)

  /** A client calls `_changes` again and again, with any limits, each time from the returned `last_seq`. */
  function Resume(db: Db, p: Policy, since: nat, requests: seq<Request>): Session {
    if requests == [] then Session(db, [], [], [], since, |After(db.log, since)|)
    else Continued(p, Resume(db, p, since, requests[..|requests| - 1]), requests[|requests| - 1])
  }

  function Continued(p: Policy, s: Session, q: Request): Session {
    var vs, progress := Visits(p, s.cursor, q.limit, q.rounds), Outcome(p, s.cursor, q.limit, q.rounds);
    Session(DbAfter(s.db, vs), s.visits + vs, s.results + progress.results, s.lost + progress.lost, progress.lastSeq,
      progress.pending)
  }

  /** Every request of the session was answered from the log as it was then. */
  ghost predicate Served(db: Db, p: Policy, since: nat, requests: seq<Request>) {
    if requests == [] then ChangeLog.Valid(db) && since <= db.counter
    else
      var init, q := requests[..|requests| - 1], requests[|requests| - 1];
      Served(db, p, since, init) && ServedNext(p, Resume(db, p, since, init), q)
  }

  ghost predicate ServedNext(p: Policy, s: Session, q: Request) {
    q.limit != Some(0) && q.rounds != [] && Requested(s.db, p, s.cursor, q.limit, q.rounds)
  }

  lemma {:induction false} ServedFrom(db: Db, p: Policy, since: nat, requests: seq<Request>)
    requires Served(db, p, since, requests)
    ensures ChangeLog.Valid(db) && since <= db.counter
  {
    if requests != [] {
      ServedFrom(db, p, since, requests[..|requests| - 1]);
    }
  }

  /** A session is one exact run of visits, and the client was told what they took. */
  ghost predicate SessionOk(db: Db, p: Policy, since: nat, s: Session) {
    && Tracks(db, since, s.visits) && s.db == DbAfter(db, s.visits) && s.cursor == Cursor(since, s.visits)
    && s.results == Permitted(p, Trace(s.visits)) && s.lost == LostIds(p, Trace(s.visits))
    && s.pending == |After(s.db.log, s.cursor)|
    && ChangeLog.Valid(s.db) && since <= s.cursor <= s.db.counter
  }

  lemma ContinuedOk(db: Db, p: Policy, since: nat, s: Session, q: Request)
    requires ChangeLog.Valid(db) && since <= db.counter && SessionOk(db, p, since, s) && ServedNext(p, s, q)
    ensures SessionOk(db, p, since, Continued(p, s, q))
  {
    var vs := Visits(p, s.cursor, q.limit, q.rounds);
    RequestExact(s.db, p, s.cursor, q.limit, q.rounds);
    VisitsConcat(db, since, s.visits, vs);
    ClassesConcat(p, Trace(s.visits), Trace(vs));
    TracksBounds(db, since, s.visits + vs);
  }

  lemma {:induction false} SessionTracks(db: Db, p: Policy, since: nat, requests: seq<Request>)
    requires Served(db, p, since, requests)
    ensures SessionOk(db, p, since, Resume(db, p, since, requests))
  {
    ServedFrom(db, p, since, requests);
    if requests != [] {
      var init := requests[..|requests| - 1];
      SessionTracks(db, p, since, init);
      ContinuedOk(db, p, since, Resume(db, p, since, init), requests[|requests| - 1]);
    }
  }

  /**
   * A session under concurrent writes: every document whose latest change is at or before the
   * client's cursor had that change delivered, reported lost or rightly skipped; nothing was
   * delivered twice; and after a response with nothing pending the client knows the whole log.
   */
  lemma SessionSkipsNothing(db: Db, p: Policy, since: nat, requests: seq<Request>)
    requires Served(db, p, since, requests)
    ensures var s := Resume(db, p, since, requests);
            && Ascending(Trace(s.visits))
            && Knows(p, s.db, since, Trace(s.visits), Progress(s.results, s.lost, s.cursor, s.pending))
  {
    ServedFrom(db, p, since, requests);
    SessionTracks(db, p, since, requests);
    var s := Resume(db, p, since, requests);
    TakenOnce(db, since, s.visits);
    KnowsAll(p, db, since, s.visits, Progress(s.results, s.lost, s.cursor, s.pending));
  }

  ghost predicate QuietRequests(requests: seq<Request>) {
    forall i, j :: 0 <= i < |requests| && 0 <= j < |requests[i].rounds| ==> requests[i].rounds[j].writes == []
  }

  lemma {:induction false} QuietSession(db: Db, p: Policy, since: nat, requests: seq<Request>)
    requires QuietRequests(requests)
    ensures Quiet(Resume(db, p, since, requests).visits)
  {
    if requests != [] {
      var init, q := requests[..|requests| - 1], requests[|requests| - 1];
      assert QuietRequests(init) by {
        forall i, j | 0 <= i < |init| && 0 <= j < |init[i].rounds| ensures init[i].rounds[j].writes == [] {
          assert init[i] == requests[i];
        }
      }
      QuietSession(db, p, since, init);
      QuietVisits(p, Resume(db, p, since, init).cursor, q.limit, q.rounds);
    }
  }

  /**
   * Session exactness on a fixed log: for arbitrary limits of at least 1, each request stopping at any
   * iteration boundary, the concatenated results and what is still to come are, in order and exactly
   * once, the permitted changes; likewise the lost ids. With nothing pending, nothing is to come.
   */
  lemma SessionExact(db: Db, p: Policy, since: nat, requests: seq<Request>)
    requires Served(db, p, since, requests) && QuietRequests(requests)
    ensures var s, all := Resume(db, p, since, requests), After(db.log, since);
            && s.results + Permitted(p, After(db.log, s.cursor)) == Permitted(p, all)
            && s.lost + LostIds(p, After(db.log, s.cursor)) == LostIds(p, all)
            && s.pending == |After(db.log, s.cursor)|
            && (s.pending == 0 ==> s.results == Permitted(p, all) && s.lost == LostIds(p, all))
  {
    ServedFrom(db, p, since, requests);
    SessionTracks(db, p, since, requests);
    QuietSession(db, p, since, requests);
    var s := Resume(db, p, since, requests);
    FixedLog(db, since, s.visits);
    ClassesConcat(p, Trace(s.visits), After(db.log, s.cursor));
  }
}
