/**
 * The streamed `_changes` response (ChangesResponseStream in
 * src/restricted-endpoints/replication/changes/changes.controller.ts).
 */
module ResponseStream {
  import opened Wrappers
  import opened JsObject
  import opened Json
  import opened Sequences

  /** The response as one JSON value, the way a buffering server would build it. */
  function Envelope(items: seq<Json>, lastSeq: string, pending: nat, lost: seq<string>): Json {
    Object([
      Entry("results", Array(items)),
      Entry("last_seq", String(lastSeq)),
      Entry("pending", Number(Decimal(pending))),
      Entry("lostPermissions", Array(Strings(lost)))])
  }

  const OPENING: seq<Lexeme> := [LBrace, Quoted("results"), Colon, LBracket]

  function Closing(lastSeq: string, pending: nat, lost: seq<string>): seq<Lexeme> {
    [RBracket, Comma, Quoted("last_seq"), Colon, Quoted(lastSeq), Comma, Quoted("pending"), Colon,
      Digits(Decimal(pending)),
     Comma, Quoted("lostPermissions"), Colon] + Lexemes(Array(Strings(lost))) + [RBrace]
  }

  /** The members after `results`. */
  function Trailer(lastSeq: string, pending: nat, lost: seq<string>): seq<Entry<Json>> {
    [Entry("last_seq", String(lastSeq)), Entry("pending", Number(Decimal(pending))),
      Entry("lostPermissions", Array(Strings(lost)))]
  }

  lemma ClosingText(lastSeq: string, pending: nat, lost: seq<string>)
    ensures Closing(lastSeq, pending, lost)
            == [RBracket] + MemberLexemes(false, Trailer(lastSeq, pending, lost)) + [RBrace]
  {
    var front :=
      [Comma, Quoted("last_seq"), Colon, Quoted(lastSeq), Comma, Quoted("pending"), Colon, Digits(Decimal(pending)),
                  Comma, Quoted("lostPermissions"), Colon];
    TrailerText(lastSeq, pending, lost);
    assert [RBracket] + (front + Lexemes(Array(Strings(lost)))) == [RBracket] + front + Lexemes(Array(Strings(lost)));
  }

  lemma TrailerText(lastSeq: string, pending: nat, lost: seq<string>)
    ensures MemberLexemes(false, Trailer(lastSeq, pending, lost))
         == [Comma, Quoted("last_seq"), Colon, Quoted(lastSeq), Comma, Quoted("pending"), Colon,
           Digits(Decimal(pending)),
             Comma, Quoted("lostPermissions"), Colon] + Lexemes(Array(Strings(lost)))
  {
    var t := Trailer(lastSeq, pending, lost);
    MemberLexemesCons(false, t[2].key, t[2].value, []);
    MemberLexemesCons(false, t[1].key, t[1].value, [t[2]]);
    MemberLexemesCons(false, t[0].key, t[0].value, [t[1], t[2]]);
    assert [t[2]] + [] == [t[2]] && [t[1]] + [t[2]] == [t[1], t[2]] && [t[0]] + [t[1], t[2]] == t;
    ThreeMembers(Quoted("last_seq"), Quoted(lastSeq), Quoted("pending"), Digits(Decimal(pending)),
      Quoted("lostPermissions"), Lexemes(t[2].value));
  }

  lemma ThreeMembers(a: Lexeme, x: Lexeme, b: Lexeme, y: Lexeme, c: Lexeme, zs: seq<Lexeme>)
    ensures [Comma] + [a, Colon] + [x] + ([Comma] + [b, Colon] + [y] + ([Comma] + [c, Colon] + zs + []))
         == [Comma, a, Colon, x, Comma, b, Colon, y, Comma, c, Colon] + zs
  {
  }

  /** Opening, items and closing concatenate to the serialization of the whole response. */
  lemma EnvelopeText(items: seq<Json>, lastSeq: string, pending: nat, lost: seq<string>)
    ensures OPENING + ItemLexemes(true, items) + Closing(lastSeq, pending, lost)
         == Lexemes(Envelope(items, lastSeq, pending, lost))
  {
    var t := Trailer(lastSeq, pending, lost);
    ClosingText(lastSeq, pending, lost);
    MemberLexemesCons(true, "results", Array(items), t);
    assert [Entry("results", Array(items))] + t == Envelope(items, lastSeq, pending, lost).members;
    Join(ItemLexemes(true, items), MemberLexemes(false, t));
  }

  lemma Join(items: seq<Lexeme>, tail: seq<Lexeme>)
    ensures OPENING + items + ([RBracket] + tail + [RBrace])
         == [LBrace] + ([] + [Quoted("results"), Colon] + ([LBracket] + items + [RBracket]) + tail) + [RBrace]
  {
  }

  /** `omit(result, 'doc')` unless documents were asked for. */
  function Projected(includeDocs: bool, result: Json): Json {
    if includeDocs || !result.Object? then result else Object(Remove(result.members, "doc"))
  }

  /** Without `include_docs` the document is left out; with it, and otherwise, an item is sent as it is. */
  lemma ProjectedTells(result: Json, key: string)
    ensures Projected(true, result) == result
    ensures result.Object? ==>
              && Projected(false, result).Object?
              && Get(Projected(false, result).members, key) == (if key == "doc" then None else Get(result.members, key))
  {
    if result.Object? {
      GetRemove(result.members, "doc", key);
    }
  }

  function ProjectedAll(includeDocs: bool, results: seq<Json>): seq<Json> {
    if results == [] then [] else [Projected(includeDocs, results[0])] + ProjectedAll(includeDocs, results[1..])
  }

  lemma {:induction false} ProjectedSnoc(includeDocs: bool, results: seq<Json>, i: nat)
    requires i < |results|
    ensures ProjectedAll(includeDocs, results[..i + 1])
         == ProjectedAll(includeDocs, results[..i]) + [Projected(includeDocs, results[i])]
  {
    if i == 0 {
      assert results[..1][1..] == [];
    } else {
      ProjectedSnoc(includeDocs, results[1..], i - 1);
      assert results[..i + 1][1..] == results[1..][..i];
      assert results[..i][1..] == results[1..][..i - 1];
    }
  }

  class ChangesResponseStream {
    const includeDocs: bool
    var written: nat
    var isOpen: bool
    var ended: bool
    /** everything written to the HTTP response */
    var out: seq<Lexeme>
    /** the items written so far */
    ghost var sent: seq<Json>

    ghost predicate Valid()
      reads this
    {
      && written == |sent|
      && (isOpen || sent == [])
      && (!ended ==> out == if isOpen then OPENING + ItemLexemes(true, sent) else [])
    }

    constructor (includeDocs: bool)
      ensures Valid() && this.includeDocs == includeDocs && sent == [] && !isOpen && !ended
    {
      this.includeDocs := includeDocs;
      written, isOpen, ended, out, sent := 0, false, false, [], [];
    }

    method WriteChunk(chunk: seq<Lexeme>)
      modifies this`out
      ensures out == old(out) + chunk
    {
      out := out + chunk;
    }

    /** Open the envelope once. */
    method OpenEnvelope()
      requires Valid() && !ended
      modifies this`out, this`isOpen
      ensures Valid() && isOpen
    {
      if isOpen {
        return;
      }
      isOpen := true;
      WriteChunk(OPENING);
      assert OPENING + [] == OPENING;
    }

    /** Write one batch; an empty batch only opens the envelope. */
    method WriteResults(results: seq<Json>)
      requires Valid() && !ended
      modifies this
      ensures Valid() && !ended && isOpen
      ensures sent == old(sent) + ProjectedAll(includeDocs, results)
    {
      OpenEnvelope();
      var i := 0;
      while i < |results|
        invariant 0 <= i <= |results|
        invariant Valid() && !ended && isOpen
        invariant sent == old(sent) + ProjectedAll(includeDocs, results[..i])
      {
        var item := Projected(includeDocs, results[i]);
        WriteItem(item);
        ProjectedSnoc(includeDocs, results, i);
        Associate(old(sent), ProjectedAll(includeDocs, results[..i]), [item]);
        i := i + 1;
      }
      assert results[..i] == results;
    }

    /** One item, with a comma unless it is the first. */
    method WriteItem(item: Json)
      requires Valid() && !ended && isOpen
      modifies this
      ensures Valid() && !ended && isOpen
      ensures sent == old(sent) + [item]
    {
      WriteChunk(Separator(written == 0) + Lexemes(item));
      written := written + 1;
      AppendItem(sent, item);
      sent := sent + [item];
    }

    /** Append the envelope fields: what was streamed is the serialization of the whole response. */
    method Finish(lastSeq: string, pending: nat, lost: seq<string>)
      requires Valid() && !ended
      modifies this
      ensures Valid() && ended && sent == old(sent)
      ensures out == Lexemes(Envelope(sent, lastSeq, pending, lost))
    {
      OpenEnvelope();
      WriteChunk(Closing(lastSeq, pending, lost));
      EnvelopeText(sent, lastSeq, pending, lost);
      ended := true;
    }

    /** Before `Finish`, the text sent is a strict prefix of every response it could become, and no document. */
    lemma Unfinished(lastSeq: string, pending: nat, lost: seq<string>)
      requires Valid() && !ended
      ensures out < Lexemes(Envelope(sent, lastSeq, pending, lost)) && !IsDocument(out)
    {
      StreamPrefix(sent, lastSeq, pending, lost);
      if !isOpen {
        assert out == Lexemes(Envelope(sent, lastSeq, pending, lost))[..0];
      }
    }
  }

  lemma AppendItem(sent: seq<Json>, item: Json)
    ensures OPENING + ItemLexemes(true, sent) + (Separator(|sent| == 0) + Lexemes(item))
         == OPENING + ItemLexemes(true, sent + [item])
  {
    ItemLexemesConcat(true, sent, [item]);
    OneItem(|sent| == 0, item);
    Associate(OPENING, ItemLexemes(true, sent), ItemLexemes(|sent| == 0, [item]));
  }

  /** The items of all batches, whatever the split. */
  function Flatten(batches: seq<seq<Json>>): seq<Json> {
    if batches == [] then [] else batches[0] + Flatten(batches[1..])
  }

  /** The chunks written for the items of a list of batches after `written` earlier items. */
  function Chunks(written: nat, batches: seq<seq<Json>>): seq<Lexeme>
    decreases |batches|
  {
    if batches == [] then []
    else ItemLexemes(written == 0, batches[0]) + Chunks(written + |batches[0]|, batches[1..])
  }

  lemma {:induction false} ChunksJoin(written: nat, batches: seq<seq<Json>>)
    ensures Chunks(written, batches) == ItemLexemes(written == 0, Flatten(batches))
    decreases |batches|
  {
    if batches != [] {
      ChunksJoin(written + |batches[0]|, batches[1..]);
      ItemLexemesConcat(written == 0, batches[0], Flatten(batches[1..]));
    }
  }

  /** Streamed text equals buffered text, for every split into batches, empty ones included. */
  lemma StreamedEqualsBuffered(batches: seq<seq<Json>>, lastSeq: string, pending: nat, lost: seq<string>)
    ensures OPENING + Chunks(0, batches) + Closing(lastSeq, pending, lost)
         == Lexemes(Envelope(Flatten(batches), lastSeq, pending, lost))
  {
    ChunksJoin(0, batches);
    EnvelopeText(Flatten(batches), lastSeq, pending, lost);
  }

  lemma StreamPrefix(items: seq<Json>, lastSeq: string, pending: nat, lost: seq<string>)
    ensures var text, whole := OPENING + ItemLexemes(true, items), Lexemes(Envelope(items, lastSeq, pending, lost));
            text < whole && !IsDocument(text) && !IsDocument(whole[..0])
  {
    var text, whole := OPENING + ItemLexemes(true, items), Lexemes(Envelope(items, lastSeq, pending, lost));
    EnvelopeText(items, lastSeq, pending, lost);
    assert |Closing(lastSeq, pending, lost)| > 0;
    assert text == whole[..|text|];
    NoPrefixIsDocument(Envelope(items, lastSeq, pending, lost), |text|);
  }

  /** A client that reads the streamed response gets exactly the items, cursor and lost ids. */
  lemma ClientReads(batches: seq<seq<Json>>, lastSeq: string, pending: nat, lost: seq<string>)
    ensures Read(OPENING + Chunks(0, batches) + Closing(lastSeq, pending, lost))
         == Parsed(Envelope(Flatten(batches), lastSeq, pending, lost), [])
  {
    StreamedEqualsBuffered(batches, lastSeq, pending, lost);
    var v := Envelope(Flatten(batches), lastSeq, pending, lost);
    ReadLexemes(v, []);
    assert Lexemes(v) + [] == Lexemes(v);
  }
}
