/**
 * The streamed responses as text: what a client that parses the whole body gets.
 */
module StreamedText {
  import opened Wrappers
  import opened JsObject
  import opened Json
  import opened JsonText
  import opened JsonArrayFilter
  import opened ResponseStream

  // ---------------------------------------------------------------- number literals stay literals

  lemma {:induction false} DecimalIsLiteral(n: nat)
    ensures IsNumberLiteral(Decimal(n)) && '0' <= Decimal(n)[0] <= '9'
  {
    if n >= 10 {
      DecimalIsLiteral(n / 10);
    }
  }

  lemma {:induction false} AssembledNumbers(v: Json)
    requires ValidNumbers(v)
    ensures ValidNumbers(Assembled(v))
    decreases v, 0
  {
    match v
    case Array(items) => AssembledItemNumbers(items);
    case Object(members) => AssembledMemberNumbers([], members);
    case _ =>
  }

  lemma {:induction false} AssembledItemNumbers(items: seq<Json>)
    requires ValidNumbersInItems(items)
    ensures ValidNumbersInItems(AssembledItems(items))
    decreases items, 0
  {
    if items != [] {
      AssembledNumbers(items[0]);
      AssembledItemNumbers(items[1..]);
    }
  }

  lemma {:induction false} AssembledMemberNumbers(acc: seq<Entry<Json>>, members: seq<Entry<Json>>)
    requires ValidNumbersInMembers(acc) && ValidNumbersInMembers(members)
    ensures ValidNumbersInMembers(AssembledMembers(acc, members))
    decreases members, 0
  {
    if members != [] {
      AssembledNumbers(members[0].value);
      PutNumbers(acc, members[0].key, Assembled(members[0].value));
      AssembledMemberNumbers(Put(acc, members[0].key, Assembled(members[0].value)), members[1..]);
    }
  }

  // ---------------------------------------------------------------- the filtered body

  /** `mapItem` makes no malformed number. */
  ghost predicate KeepsNumbers(mapItem: Json -> Option<Json>) {
    forall item :: ValidNumbers(item) && mapItem(item).Some? ==> ValidNumbers(mapItem(item).value)
  }

  lemma {:induction false} MappedNumbers(o: Options, items: seq<Json>)
    requires KeepsNumbers(o.mapItem) && ValidNumbersInItems(items)
    ensures ValidNumbersInItems(MappedItems(o, items))
  {
    if items != [] {
      AssembledNumbers(items[0]);
      MappedNumbers(o, items[1..]);
      var mapped := o.mapItem(Assembled(items[0]));
      assert ValidNumbers(Assembled(items[0]));
      if mapped.Some? {
        assert ValidNumbers(mapped.value);
        assert MappedItems(o, items) == [mapped.value] + MappedItems(o, items[1..]);
      } else {
        assert MappedItems(o, items) == MappedItems(o, items[1..]);
      }
    }
  }

  lemma {:induction false} FilteredNumbers(o: Options, members: seq<Entry<Json>>)
    requires KeepsNumbers(o.mapItem) && ValidNumbersInMembers(members)
    ensures ValidNumbersInMembers(FilteredMembers(o, members))
  {
    if members != [] {
      FilteredNumbers(o, members[1..]);
      assert FilteredMembers(o, members)[1..] == FilteredMembers(o, members[1..]);
      if members[0].key == o.arrayField && members[0].value.Array? {
        MappedNumbers(o, members[0].value.items);
      } else {
        AssembledNumbers(members[0].value);
      }
    }
  }

  /** The text the filter streams for any object parses to the filtered object. */
  lemma FilteredTextParses(o: Options, members: seq<Entry<Json>>)
    requires KeepsNumbers(o.mapItem) && ValidNumbersInMembers(members)
    ensures var r := Run(o, START, Tokens(Object(members)));
            r.Ok? && Parse(Text(r.value.out)) == Some(Object(FilteredMembers(o, members)))
  {
    FilterRefines(o, members);
    FilteredNumbers(o, members);
    ParseStringify(Object(FilteredMembers(o, members)));
  }

  // ---------------------------------------------------------------- the body of a changes response

  lemma EnvelopeNumbers(items: seq<Json>, lastSeq: string, pending: nat, lost: seq<string>)
    requires ValidNumbersInItems(items)
    ensures ValidNumbers(Envelope(items, lastSeq, pending, lost))
  {
    DecimalIsLiteral(pending);
    StringsHaveNoNumbers(lost);
    var ms := Envelope(items, lastSeq, pending, lost).members;
    assert ValidNumbers(ms[3].value) && ms[3..][1..] == [] && ms[2..][1..] == ms[3..] && ms[1..][1..] == ms[2..];
    assert ValidNumbersInMembers(ms[3..]);
    assert ValidNumbersInMembers(ms[2..]);
    assert ValidNumbersInMembers(ms[1..]);
  }

  /** However the results were split into batches, the streamed text parses to the whole response. */
  lemma StreamedTextParses(batches: seq<seq<Json>>, lastSeq: string, pending: nat, lost: seq<string>)
    requires ValidNumbersInItems(Flatten(batches))
    ensures Parse(Text(OPENING + Chunks(0, batches) + Closing(lastSeq, pending, lost)))
         == Some(Envelope(Flatten(batches), lastSeq, pending, lost))
  {
    StreamedEqualsBuffered(batches, lastSeq, pending, lost);
    EnvelopeNumbers(Flatten(batches), lastSeq, pending, lost);
    ParseStringify(Envelope(Flatten(batches), lastSeq, pending, lost));
  }

  // ---------------------------------------------------------------- bodies that are cut off

  /** A filtered body that is cut anywhere, inside a string or number included, does not parse. */
  lemma FilteredTextCut(o: Options, members: seq<Entry<Json>>, k: nat)
    requires KeepsNumbers(o.mapItem) && ValidNumbersInMembers(members)
    ensures var r := Run(o, START, Tokens(Object(members)));
            r.Ok? && (k < |Text(r.value.out)| ==> Parse(Text(r.value.out)[..k]) == None)
  {
    FilterRefines(o, members);
    FilteredNumbers(o, members);
    if k < |Stringify(Object(FilteredMembers(o, members)))| {
      TruncatedTextNeverParses(Object(FilteredMembers(o, members)), k);
    }
  }

  /** A changes response that is cut anywhere does not parse. */
  lemma StreamedTextCut(batches: seq<seq<Json>>, lastSeq: string, pending: nat, lost: seq<string>, k: nat)
    requires ValidNumbersInItems(Flatten(batches))
    requires k < |Text(OPENING + Chunks(0, batches) + Closing(lastSeq, pending, lost))|
    ensures Parse(Text(OPENING + Chunks(0, batches) + Closing(lastSeq, pending, lost))[..k]) == None
  {
    StreamedEqualsBuffered(batches, lastSeq, pending, lost);
    EnvelopeNumbers(Flatten(batches), lastSeq, pending, lost);
    TruncatedTextNeverParses(Envelope(Flatten(batches), lastSeq, pending, lost), k);
  }
}
