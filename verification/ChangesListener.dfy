/**
 * The backend's own changes feed (src/couchdb/document-changes.service.ts): a longpoll that starts
 * at `now`, is retried with backoff when it fails, and moves its cursor only on success.
 */
module ChangesListener {
  import opened Wrappers
  import opened ChangeLog
  import opened Backoff

  /** A change notification without the document body. */
  datatype DocumentChangeEvent = DocumentChangeEvent(id: string, at: nat, deleted: bool)

  /**
   * One longpoll: writes before it reaches the server, writes while it waits there, then an answer,
   * or None when the request fails.
   */
  datatype Poll = Poll(before: seq<Write>, waiting: seq<Write>, answer: Option<Response>)

  function Events(cs: seq<Change>): seq<DocumentChangeEvent> {
    if cs == [] then [] else [DocumentChangeEvent(cs[0].id, cs[0].at, cs[0].deleted)] + Events(cs[1..])
  }

  lemma {:induction false} EventsConcat(a: seq<Change>, b: seq<Change>)
    ensures Events(a + b) == Events(a) + Events(b)
  {
    if a == [] {
      assert a + b == b;
    } else {
      assert (a + b)[1..] == a[1..] + b;
      EventsConcat(a[1..], b);
    }
  }

  /** Event by event. */
  lemma {:induction false} EventsAt(cs: seq<Change>)
    ensures |Events(cs)| == |cs|
    ensures forall i :: 0 <= i < |cs| ==> Events(cs)[i] == DocumentChangeEvent(cs[i].id, cs[i].at, cs[i].deleted)
  {
    if cs != [] {
      EventsAt(cs[1..]);
    }
  }

  // ---------------------------------------------------------------- runs of the feed

  /** The successful answers of a run, in order. */
  function Successes(polls: seq<Poll>): seq<Response> {
    if polls == [] then []
    else Successes(polls[..|polls| - 1]) + (match polls[|polls| - 1].answer case Some(r) => [r] case None => [])
  }

  function Delivered(answers: seq<Response>): seq<Change> {
    if answers == [] then [] else Delivered(answers[..|answers| - 1]) + answers[|answers| - 1].results
  }

  function LastSeq(answers: seq<Response>): Option<nat> {
    if answers == [] then None else Some(answers[|answers| - 1].lastSeq)
  }

  function Database(db: Db, polls: seq<Poll>): Db {
    if polls == [] then db
    else
      var last := polls[|polls| - 1];
      ApplyAll(ApplyAll(Database(db, polls[..|polls| - 1]), last.before), last.waiting)
  }

  /**
   * The server answers a poll from the cursor sent with it; `now` means the position the log has when
   * the poll arrives.
   */
  ghost predicate Polled(db: Db, polls: seq<Poll>) {
    polls == [] ||
    (var init, last := polls[..|polls| - 1], polls[|polls| - 1];
     var arrived := ApplyAll(Database(db, init), last.before);
     && Polled(db, init)
     && (last.answer.Some? ==>
           Answers(Database(db, polls), Position(arrived, Successes(init)), None, last.answer.value)))
  }

  function Position(arrived: Db, answers: seq<Response>): nat {
    match LastSeq(answers) case Some(n) => n case None => arrived.counter
  }

  /** Where the first successful poll fixed the start of the feed. */
  datatype Origin = Origin(db: Db, position: nat)

  function Start(db: Db, polls: seq<Poll>): Origin {
    if polls == [] then Origin(db, db.counter)
    else
      var init, last := polls[..|polls| - 1], polls[|polls| - 1];
      if Successes(init) != [] then Start(db, init)
      else if last.answer.Some? then
        var arrived := ApplyAll(Database(db, init), last.before);
        Origin(arrived, arrived.counter)
      else Origin(Database(db, polls), Database(db, polls).counter)
  }

  /** The polls since the first success, as visits to the log; a failed poll takes nothing. */
  function Visits(db: Db, polls: seq<Poll>): seq<Visit> {
    if Successes(polls) == [] then []
    else
      var init, last := polls[..|polls| - 1], polls[|polls| - 1];
      var writes := if Successes(init) == [] then last.waiting else last.before + last.waiting;
      Visits(db, init) +
      [match last.answer
       case Some(r) => Visit(writes, r.results, r.lastSeq)
       case None => Visit(writes, [], Cursor(Start(db, init).position, Visits(db, init)))]
  }

  lemma {:induction false} ApplyAllConcat(db: Db, a: seq<Write>, b: seq<Write>)
    ensures ApplyAll(db, a + b) == ApplyAll(ApplyAll(db, a), b)
    decreases |a|
  {
    if a == [] {
      assert a + b == b;
    } else {
      assert (a + b)[1..] == a[1..] + b;
      ApplyAllConcat(Apply(db, a[0]), a[1..], b);
    }
  }

  /** Taking nothing and staying put is an exact visit. */
  lemma StayingPut(db: Db, since: nat)
    requires ChangeLog.Valid(db) && since <= db.counter
    ensures Advances(db, since, [], since)
  {
    AfterExact(db.log, since);
    var rest := After(db.log, since);
    forall i | 0 <= i < |rest| ensures rest[i].at > since {
      assert rest[i] in rest;
    }
  }

  lemma {:induction false} FeedTracks(db: Db, polls: seq<Poll>)
    requires ChangeLog.Valid(db) && Polled(db, polls)
    ensures ChangeLog.Valid(Database(db, polls))
    ensures var o, vs := Start(db, polls), Visits(db, polls);
            && ChangeLog.Valid(o.db) && o.position == o.db.counter
            && Tracks(o.db, o.position, vs) && DbAfter(o.db, vs) == Database(db, polls)
            && Trace(vs) == Delivered(Successes(polls))
            && (Successes(polls) != [] ==> LastSeq(Successes(polls)) == Some(Cursor(o.position, vs)))
  {
    if polls != [] {
      var init, last := polls[..|polls| - 1], polls[|polls| - 1];
      FeedTracks(db, init);
      var prior := Database(db, init);
      ApplyAllValid(prior, last.before);
      ApplyAllValid(ApplyAll(prior, last.before), last.waiting);
      ApplyAllConcat(prior, last.before, last.waiting);
      var o, vs := Start(db, init), Visits(db, init);
      TracksBounds(o.db, o.position, vs);
      if Successes(init) != [] {
        StayingPut(Database(db, polls), Cursor(o.position, vs));
        FeedStep(db, polls, o, vs, last.before + last.waiting);
      } else if last.answer.Some? {
        var arrived := ApplyAll(prior, last.before);
        assert Visits(db, init) == [];
        FeedStep(db, polls, Origin(arrived, arrived.counter), [], last.waiting);
      } else {
        assert Successes(polls) == [];
      }
    }
  }

  lemma FeedStep(db: Db, polls: seq<Poll>, o: Origin, vs: seq<Visit>, writes: seq<Write>)
    requires polls != [] && Polled(db, polls) && Successes(polls) != []
    requires Tracks(o.db, o.position, vs) && ApplyAll(DbAfter(o.db, vs), writes) == Database(db, polls)
    requires var init, last := polls[..|polls| - 1], polls[|polls| - 1];
             && vs == Visits(db, init) && o == Start(db, polls)
             && Trace(vs) == Delivered(Successes(init))
             && writes == (if Successes(init) == [] then last.waiting else last.before + last.waiting)
             && Position(ApplyAll(Database(db, init), last.before), Successes(init)) == Cursor(o.position, vs)
             && (last.answer.None? ==>
                Start(db, init) == o
                  && Advances(Database(db, polls), Cursor(o.position, vs), [], Cursor(o.position, vs)))
    ensures Tracks(o.db, o.position, Visits(db, polls)) && DbAfter(o.db, Visits(db, polls)) == Database(db, polls)
    ensures Trace(Visits(db, polls)) == Delivered(Successes(polls))
    ensures LastSeq(Successes(polls)) == Some(Cursor(o.position, Visits(db, polls)))
  {
    var init, last := polls[..|polls| - 1], polls[|polls| - 1];
    var more := Visits(db, polls);
    assert more[..|more| - 1] == vs;
    match last.answer
    case Some(r) =>
      assert Successes(polls)[..|Successes(polls)| - 1] == Successes(init);
      assert r.results == After(Database(db, polls).log, Cursor(o.position, vs));
    case None =>
      assert Successes(polls) == Successes(init);
      assert Trace(vs) + [] == Trace(vs);
  }

  /**
   * Feed safety: over any interleaving of failed and successful polls and of writes, every document
   * changed after the position fixed by the first success has had the event for its latest change up
   * to the cursor delivered, and no event is delivered twice.
   */
  lemma FeedComplete(db: Db, polls: seq<Poll>)
    requires ChangeLog.Valid(db) && Polled(db, polls) && Successes(polls) != []
    ensures var events, start := Events(Delivered(Successes(polls))), Start(db, polls).position;
            && (forall c :: c in Database(db, polls).log && start < c.at <= LastSeq(Successes(polls)).value ==>
                  DocumentChangeEvent(c.id, c.at, c.deleted) in events)
            && (forall i, j :: 0 <= i < j < |events| ==> events[i].at < events[j].at)
  {
    FeedTracks(db, polls);
    var o, vs := Start(db, polls), Visits(db, polls);
    NothingSkipped(o.db, o.position, vs);
    TakenOnce(o.db, o.position, vs);
    EventsFollow(Trace(vs));
    forall c | c in Database(db, polls).log && o.position < c.at <= LastSeq(Successes(polls)).value
      ensures DocumentChangeEvent(c.id, c.at, c.deleted) in Events(Trace(vs))
    {
      assert c in Trace(vs);
    }
  }

  /** The events of ordered changes are ordered, and every change has its event. */
  lemma EventsFollow(taken: seq<Change>)
    requires forall i, j :: 0 <= i < j < |taken| ==> taken[i].at < taken[j].at
    ensures forall i, j :: 0 <= i < j < |Events(taken)| ==> Events(taken)[i].at < Events(taken)[j].at
    ensures forall c :: c in taken ==> DocumentChangeEvent(c.id, c.at, c.deleted) in Events(taken)
  {
    EventsAt(taken);
  }

  // ---------------------------------------------------------------- the service

  /** The feed of one database: cursor, backoff and the subject that multicasts the events. */
  class DocumentChangesFeed {
    /** None stands for `now` */
    var lastSeq: Option<nat>
    const backoff: ExponentialBackoff
    var emitted: seq<DocumentChangeEvent>
    /** delays waited before the retries */
    var waits: seq<nat>

    constructor ()
      ensures fresh(backoff) && backoff.options == DEFAULT_BACKOFF_OPTIONS && backoff.failureCount == 0
      ensures lastSeq == None && emitted == [] && waits == []
    {
      backoff := new ExponentialBackoff(DEFAULT_BACKOFF_OPTIONS);
      lastSeq, emitted, waits := None, [], [];
    }

    /** A failed poll: back off, keep the cursor, emit nothing. */
    method OnFailure()
      modifies backoff, this`waits
      ensures backoff.failureCount == old(backoff.failureCount) + 1
      ensures waits == old(waits) + [DelayAfter(backoff.failureCount, backoff.options)]
    {
      var delay := backoff.RecordFailure();
      waits := waits + [delay];
    }

    /** A successful poll: reset the backoff, move the cursor, emit the batch in order. */
    method OnAnswer(r: Response)
      modifies backoff, this`lastSeq, this`emitted
      ensures backoff.failureCount == 0 && lastSeq == Some(r.lastSeq)
      ensures emitted == old(emitted) + Events(r.results)
    {
      backoff.Reset();
      lastSeq := Some(r.lastSeq);
      var i := 0;
      while i < |r.results|
        invariant 0 <= i <= |r.results|
        invariant backoff.failureCount == 0 && lastSeq == Some(r.lastSeq)
        invariant emitted == old(emitted) + Events(r.results[..i])
      {
        var result := r.results[i];
        EventsConcat(r.results[..i], [result]);
        EventsAt([result]);
        assert r.results[..i + 1] == r.results[..i] + [result];
        emitted := emitted + [DocumentChangeEvent(result.id, result.at, result.deleted)];
        i := i + 1;
      }
      assert r.results[..i] == r.results;
    }

    /**
     * Any run of polls: the cursor is that of the last success, the events are exactly the successful
     * batches in order, and the failure count is that of the current streak.
     */
    method RunFeed(polls: seq<Poll>)
      requires lastSeq == None && emitted == [] && backoff.failureCount == 0
      modifies this, backoff
      ensures lastSeq == LastSeq(Successes(polls))
      ensures emitted == Events(Delivered(Successes(polls)))
      ensures backoff.failureCount == Streak(Ops(polls))
    {
      var i := 0;
      while i < |polls|
        invariant 0 <= i <= |polls|
        invariant FedUpTo(polls[..i], lastSeq, emitted, backoff.failureCount)
      {
        FedNext(polls, i, lastSeq, emitted, backoff.failureCount);
        match polls[i].answer {
          case Some(r) => OnAnswer(r);
          case None => OnFailure();
        }
        i := i + 1;
      }
      assert polls[..i] == polls;
    }
  }

  /** The state of the feed after these polls. */
  ghost predicate FedUpTo(polls: seq<Poll>, lastSeq: Option<nat>, emitted: seq<DocumentChangeEvent>, failures: nat) {
    lastSeq == LastSeq(Successes(polls)) && emitted == Events(Delivered(Successes(polls)))
      && failures == Streak(Ops(polls))
  }

  /** What one more poll adds to it. */
  lemma FedNext(polls: seq<Poll>, i: nat, lastSeq: Option<nat>, emitted: seq<DocumentChangeEvent>, failures: nat)
    requires i < |polls| && FedUpTo(polls[..i], lastSeq, emitted, failures)
    ensures match polls[i].answer
            case Some(r) => FedUpTo(polls[..i + 1], Some(r.lastSeq), emitted + Events(r.results), 0)
            case None => FedUpTo(polls[..i + 1], lastSeq, emitted, failures + 1)
  {
    var before, after := polls[..i], polls[..i + 1];
    assert after[..i] == before;
    OpsStep(polls, i);
    if polls[i].answer.Some? {
      DeliveredSnoc(Successes(before), polls[i].answer.value);
    } else {
      assert Successes(before) + [] == Successes(before);
    }
  }

  lemma DeliveredSnoc(answers: seq<Response>, r: Response)
    ensures LastSeq(answers + [r]) == Some(r.lastSeq)
    ensures Events(Delivered(answers + [r])) == Events(Delivered(answers)) + Events(r.results)
  {
    assert (answers + [r])[..|answers|] == answers;
    EventsConcat(Delivered(answers), r.results);
  }

  lemma OpsStep(polls: seq<Poll>, i: nat)
    requires i < |polls|
    ensures Streak(Ops(polls[..i + 1])) == (if polls[i].answer.Some? then 0 else Streak(Ops(polls[..i])) + 1)
  {
    assert polls[..i + 1][..i] == polls[..i];
    var ops := Ops(polls[..i]);
    var op := if polls[i].answer.Some? then Op.Reset else Op.Failure;
    assert (ops + [op])[..|ops|] == ops;
  }

  function Ops(polls: seq<Poll>): seq<Op> {
    if polls == [] then []
      else Ops(polls[..|polls| - 1]) + [if polls[|polls| - 1].answer.Some? then Op.Reset else Op.Failure]
  }
}
