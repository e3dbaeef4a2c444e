/**
 * JSON values (sections 3 to 7 of RFC 8259), the token stream a parser emits for them, the
 * lexemes of their serialization, and a reader that recovers a value from its lexemes.
 */
module Json {
  import opened Sequences
  import opened JsObject

  datatype Json =
    | Null
    | Bool(flag: bool)
    | Number(literal: string)
    | String(text: string)
    | Array(items: seq<Json>)
    | Object(members: seq<Entry<Json>>)

  /** Tokens of the stream-json parser with packed keys and values. */
  datatype Token =
    | StartObject | EndObject | StartArray | EndArray
    | KeyValue(key: string)
    | StringValue(text: string)
    | NumberValue(literal: string)
    | TrueValue | FalseValue | NullValue

  /** Lexemes of JSON text; a quoted string and a number literal are one lexeme each. */
  datatype Lexeme =
    | LBrace | RBrace | LBracket | RBracket | Comma | Colon
    | Quoted(text: string)
    | Digits(literal: string)
    | True | False | Nil

  // ---------------------------------------------------------------- tokens of a value

  function Tokens(v: Json): (ts: seq<Token>)
    ensures |ts| > 0
    decreases v, 0
  {
    match v
    case Null => [NullValue]
    case Bool(flag) => [if flag then TrueValue else FalseValue]
    case Number(literal) => [NumberValue(literal)]
    case String(text) => [StringValue(text)]
    case Array(items) => [StartArray] + ItemTokens(items) + [EndArray]
    case Object(members) => [StartObject] + MemberTokens(members) + [EndObject]
  }

  function ItemTokens(items: seq<Json>): seq<Token>
    decreases items, 0
  {
    if items == [] then [] else Tokens(items[0]) + ItemTokens(items[1..])
  }

  function MemberTokens(members: seq<Entry<Json>>): seq<Token>
    decreases members, 0
  {
    if members == [] then []
    else [KeyValue(members[0].key)] + Tokens(members[0].value) + MemberTokens(members[1..])
  }

  // ---------------------------------------------------------------- serialization

  /** JSON.stringify, as lexemes. */
  function Lexemes(v: Json): (ls: seq<Lexeme>)
    ensures |ls| > 0
    decreases v, 0
  {
    match v
    case Null => [Nil]
    case Bool(flag) => [if flag then True else False]
    case Number(literal) => [Digits(literal)]
    case String(text) => [Quoted(text)]
    case Array(items) => [LBracket] + ItemLexemes(true, items) + [RBracket]
    case Object(members) => [LBrace] + MemberLexemes(true, members) + [RBrace]
  }

  function Separator(first: bool): seq<Lexeme> {
    if first then [] else [Comma]
  }

  function ItemLexemes(first: bool, items: seq<Json>): seq<Lexeme>
    decreases items, 0
  {
    if items == [] then []
    else Separator(first) + Lexemes(items[0]) + ItemLexemes(false, items[1..])
  }

  function MemberLexemes(first: bool, members: seq<Entry<Json>>): seq<Lexeme>
    decreases members, 0
  {
    if members == [] then []
    else
      Separator(first) + [Quoted(members[0].key), Colon] + Lexemes(members[0].value)
      + MemberLexemes(false, members[1..])
  }

  lemma {:induction false} ItemLexemesConcat(first: bool, a: seq<Json>, b: seq<Json>)
    ensures ItemLexemes(first, a + b) == ItemLexemes(first, a) + ItemLexemes(first && a == [], b)
  {
    if a == [] {
      assert a + b == b;
    } else {
      assert (a + b)[1..] == a[1..] + b;
      ItemLexemesConcat(false, a[1..], b);
    }
  }

  lemma {:induction false} MemberLexemesConcat(first: bool, a: seq<Entry<Json>>, b: seq<Entry<Json>>)
    ensures MemberLexemes(first, a + b) == MemberLexemes(first, a) + MemberLexemes(first && a == [], b)
  {
    if a == [] {
      assert a + b == b;
    } else {
      assert (a + b)[1..] == a[1..] + b;
      MemberLexemesConcat(false, a[1..], b);
    }
  }

  // ---------------------------------------------------------------- reader

  datatype Parsed<+T> = NoParse | Parsed(value: T, rest: seq<Lexeme>)

  /** Read one value from the front of `ls`. */
  function Read(ls: seq<Lexeme>): (p: Parsed<Json>)
    ensures p.Parsed? ==> |p.rest| < |ls|
    decreases |ls|, 0
  {
    if ls == [] then NoParse
    else
      match ls[0]
      case Nil => Parsed(Null, ls[1..])
      case True => Parsed(Bool(true), ls[1..])
      case False => Parsed(Bool(false), ls[1..])
      case Digits(literal) => Parsed(Number(literal), ls[1..])
      case Quoted(text) => Parsed(String(text), ls[1..])
      case LBracket =>
        (match ReadItems(true, ls[1..])
         case NoParse => NoParse
         case Parsed(items, rest) => Parsed(Array(items), rest))
      case LBrace =>
        (match ReadMembers(true, ls[1..])
         case NoParse => NoParse
         case Parsed(members, rest) => Parsed(Object(members), rest))
      case _ => NoParse
  }

  /** What follows the separator, when there is one and there has to be one. */
  function Separated(first: bool, ls: seq<Lexeme>): (body: seq<Lexeme>)
    ensures |body| <= |ls|
  {
    if first then ls else if ls != [] && ls[0] == Comma then ls[1..] else []
  }

  /** Read the rest of an array, up to and including its closing bracket. */
  function ReadItems(first: bool, ls: seq<Lexeme>): (p: Parsed<seq<Json>>)
    ensures p.Parsed? ==> |p.rest| < |ls|
    decreases |ls|, 1
  {
    if ls == [] then NoParse
    else if ls[0] == RBracket then Parsed([], ls[1..])
    else
      match Read(Separated(first, ls))
      case NoParse => NoParse
      case Parsed(item, afterItem) =>
        match ReadItems(false, afterItem)
        case NoParse => NoParse
        case Parsed(items, rest) => Parsed([item] + items, rest)
  }

  /** Read the rest of an object, up to and including its closing brace. */
  function ReadMembers(first: bool, ls: seq<Lexeme>): (p: Parsed<seq<Entry<Json>>>)
    ensures p.Parsed? ==> |p.rest| < |ls|
    decreases |ls|, 1
  {
    if ls == [] then NoParse
    else if ls[0] == RBrace then Parsed([], ls[1..])
    else
      var body := Separated(first, ls);
      if |body| < 2 || !body[0].Quoted? || body[1] != Colon then NoParse
      else
        match Read(body[2..])
        case NoParse => NoParse
        case Parsed(value, afterValue) =>
          match ReadMembers(false, afterValue)
          case NoParse => NoParse
          case Parsed(members, rest) => Parsed([Entry(body[0].text, value)] + members, rest)
  }

  /** A complete document: one value and nothing after it. */
  predicate IsDocument(ls: seq<Lexeme>) {
    Read(ls).Parsed? && Read(ls).rest == []
  }

  /** Reading a serialization recovers the value and leaves what follows it. */
  lemma {:induction false} ReadLexemes(v: Json, rest: seq<Lexeme>)
    ensures Read(Lexemes(v) + rest) == Parsed(v, rest)
    decreases v, 0
  {
    var ls := Lexemes(v) + rest;
    match v
    case Array(items) =>
      assert ls[1..] == ItemLexemes(true, items) + [RBracket] + rest;
      ReadItemLexemes(true, items, rest);
    case Object(members) =>
      assert ls[1..] == MemberLexemes(true, members) + [RBrace] + rest;
      ReadMemberLexemes(true, members, rest);
    case _ =>
      assert ls[1..] == rest;
  }

  lemma {:induction false} ReadItemLexemes(first: bool, items: seq<Json>, rest: seq<Lexeme>)
    ensures ReadItems(first, ItemLexemes(first, items) + [RBracket] + rest) == Parsed(items, rest)
    decreases items, 0
  {
    if items == [] {
      assert ItemLexemes(first, items) + [RBracket] + rest == [RBracket] + rest;
    } else {
      var tail := ItemLexemes(false, items[1..]) + [RBracket] + rest;
      Rebracket(Separator(first), Lexemes(items[0]), ItemLexemes(false, items[1..]), [RBracket], rest);
      ReadLexemes(items[0], tail);
      ReadItemLexemes(false, items[1..], rest);
      ValueStart(items[0]);
      ReadOneItem(first, Lexemes(items[0]) + tail, items[0], tail, items[1..], rest);
      assert items == [items[0]] + items[1..];
    }
  }

  lemma ReadOneItem(first: bool, body: seq<Lexeme>, item: Json, tail: seq<Lexeme>, items: seq<Json>, rest: seq<Lexeme>)
    requires body != [] && !body[0].RBracket? && Read(body) == Parsed(item, tail)
    requires ReadItems(false, tail) == Parsed(items, rest)
    ensures ReadItems(first, Separator(first) + body) == Parsed([item] + items, rest)
  {
    var ls := Separator(first) + body;
    assert ls != [] && ls[0] != RBracket;
    assert Separated(first, ls) == body;
  }

  lemma {:induction false} ReadMemberLexemes(first: bool, members: seq<Entry<Json>>, rest: seq<Lexeme>)
    ensures ReadMembers(first, MemberLexemes(first, members) + [RBrace] + rest) == Parsed(members, rest)
    decreases members, 0
  {
    if members == [] {
      assert MemberLexemes(first, members) + [RBrace] + rest == [RBrace] + rest;
    } else {
      var m := members[0];
      var tail := MemberLexemes(false, members[1..]) + [RBrace] + rest;
      Rebracket(Separator(first) + [Quoted(m.key), Colon], Lexemes(m.value), MemberLexemes(false, members[1..]),
        [RBrace], rest);
      Associate(Separator(first), [Quoted(m.key), Colon], Lexemes(m.value) + tail);
      ReadLexemes(m.value, tail);
      ReadMemberLexemes(false, members[1..], rest);
      ReadOneMember(first, m.key, Lexemes(m.value) + tail, m.value, tail, members[1..], rest);
      assert members == [Entry(m.key, m.value)] + members[1..];
    }
  }

  lemma ReadOneMember(
    first: bool, key: string, text: seq<Lexeme>, value: Json, tail: seq<Lexeme>, members: seq<Entry<Json>>,
    rest: seq<Lexeme>)
    requires Read(text) == Parsed(value, tail)
    requires ReadMembers(false, tail) == Parsed(members, rest)
    ensures ReadMembers(first, Separator(first) + ([Quoted(key), Colon] + text))
            == Parsed([Entry(key, value)] + members, rest)
  {
    var body := [Quoted(key), Colon] + text;
    var ls := Separator(first) + body;
    assert ls != [] && ls[0] != RBrace;
    assert Separated(first, ls) == body;
    assert body[2..] == text;
  }

  /** No value starts with a closing bracket or a separator. */
  lemma ValueStart(v: Json)
    ensures !Lexemes(v)[0].RBracket? && !Lexemes(v)[0].RBrace? && !Lexemes(v)[0].Comma? && !Lexemes(v)[0].Colon?
  {
  }

  /** What the reader accepts is exactly the serialization of what it returns. */
  lemma {:induction false} ReadSound(ls: seq<Lexeme>)
    requires Read(ls).Parsed?
    ensures ls == Lexemes(Read(ls).value) + Read(ls).rest
    decreases |ls|, 0
  {
    assert ls == [ls[0]] + ls[1..];
    if ls[0] == LBracket {
      var r := ReadItems(true, ls[1..]);
      ReadItemsSound(true, ls[1..]);
      Regroup([LBracket], ItemLexemes(true, r.value), [RBracket], r.rest);
    } else if ls[0] == LBrace {
      var r := ReadMembers(true, ls[1..]);
      ReadMembersSound(true, ls[1..]);
      Regroup([LBrace], MemberLexemes(true, r.value), [RBrace], r.rest);
    }
  }

  lemma {:induction false} ReadItemsSound(first: bool, ls: seq<Lexeme>)
    requires ReadItems(first, ls).Parsed?
    ensures ls == ItemLexemes(first, ReadItems(first, ls).value) + [RBracket] + ReadItems(first, ls).rest
    decreases |ls|, 1
  {
    if ls[0] == RBracket {
      assert ls == [RBracket] + ls[1..];
    } else {
      var body := Separated(first, ls);
      var item, tail := Read(body).value, Read(body).rest;
      ReadSound(body);
      ReadItemsSound(false, tail);
      var items, rest := ReadItems(false, tail).value, ReadItems(false, tail).rest;
      assert ReadItems(first, ls) == Parsed([item] + items, rest);
      assert ls == Separator(first) + body;
      Rebracket(Separator(first), Lexemes(item), ItemLexemes(false, items), [RBracket], rest);
      ItemLexemesCons(first, item, items);
    }
  }

  lemma ItemLexemesCons(first: bool, item: Json, items: seq<Json>)
    ensures ItemLexemes(first, [item] + items) == Separator(first) + Lexemes(item) + ItemLexemes(false, items)
  {
    assert ([item] + items)[1..] == items;
  }

  lemma {:induction false} ReadMembersSound(first: bool, ls: seq<Lexeme>)
    requires ReadMembers(first, ls).Parsed?
    ensures ls == MemberLexemes(first, ReadMembers(first, ls).value) + [RBrace] + ReadMembers(first, ls).rest
    decreases |ls|, 1
  {
    if ls[0] == RBrace {
      assert ls == [RBrace] + ls[1..];
    } else {
      var body := Separated(first, ls);
      MemberParts(first, ls);
      var key, value, tail := body[0].text, Read(body[2..]).value, Read(body[2..]).rest;
      var members, rest := ReadMembers(false, tail).value, ReadMembers(false, tail).rest;
      ReadSound(body[2..]);
      ReadMembersSound(false, tail);
      MemberFront(first, ls);
      MemberText(first, key, value, members, tail, rest);
    }
  }

  lemma MemberFront(first: bool, ls: seq<Lexeme>)
    requires var body := Separated(first, ls); |body| >= 2 && body[0].Quoted? && body[1] == Colon
    ensures var body := Separated(first, ls); ls == Separator(first) + ([Quoted(body[0].text), Colon] + body[2..])
  {
    var body := Separated(first, ls);
    assert body == [Quoted(body[0].text), Colon] + body[2..];
    assert ls == Separator(first) + body;
  }

  lemma MemberParts(first: bool, ls: seq<Lexeme>)
    requires ReadMembers(first, ls).Parsed? && ls[0] != RBrace
    ensures var body := Separated(first, ls);
            && |body| >= 2 && body[0].Quoted? && body[1] == Colon && Read(body[2..]).Parsed?
            && ReadMembers(false, Read(body[2..]).rest).Parsed?
            && var after := ReadMembers(false, Read(body[2..]).rest);
               ReadMembers(first, ls) == Parsed([Entry(body[0].text, Read(body[2..]).value)] + after.value, after.rest)
  {
  }

  lemma MemberText(
    first: bool, key: string, value: Json, members: seq<Entry<Json>>, tail: seq<Lexeme>, rest: seq<Lexeme>)
    requires tail == MemberLexemes(false, members) + [RBrace] + rest
    ensures Separator(first) + ([Quoted(key), Colon] + (Lexemes(value) + tail))
         == MemberLexemes(first, [Entry(key, value)] + members) + [RBrace] + rest
  {
    MemberLexemesCons(first, key, value, members);
    Rebracket(Separator(first) + [Quoted(key), Colon], Lexemes(value), MemberLexemes(false, members), [RBrace], rest);
  }

  lemma MemberLexemesCons(first: bool, key: string, value: Json, members: seq<Entry<Json>>)
    ensures MemberLexemes(first, [Entry(key, value)] + members)
         == Separator(first) + [Quoted(key), Colon] + Lexemes(value) + MemberLexemes(false, members)
  {
    assert ([Entry(key, value)] + members)[1..] == members;
  }

  // ---------------------------------------------------------------- nesting depth of text

  /** Brackets opened minus brackets closed. */
  function Depth(ls: seq<Lexeme>): int {
    if ls == [] then 0
    else
      Depth(ls[..|ls| - 1]) +
      (match ls[|ls| - 1]
       case LBrace => 1
       case LBracket => 1
       case RBrace => -1
       case RBracket => -1
       case _ => 0)
  }

  lemma {:induction false} DepthConcat(a: seq<Lexeme>, b: seq<Lexeme>)
    ensures Depth(a + b) == Depth(a) + Depth(b)
  {
    if b == [] {
      assert a + b == a;
    } else {
      assert (a + b)[..|a + b| - 1] == a + b[..|b| - 1];
      DepthConcat(a, b[..|b| - 1]);
    }
  }

  /** The text of a value closes every bracket it opens. */
  lemma {:induction false} ValueDepth(v: Json)
    ensures Depth(Lexemes(v)) == 0
    decreases v, 0
  {
    match v
    case Array(items) =>
      ItemsDepth(true, items);
      DepthConcat([LBracket], ItemLexemes(true, items));
      DepthConcat([LBracket] + ItemLexemes(true, items), [RBracket]);
    case Object(members) =>
      MembersDepth(true, members);
      DepthConcat([LBrace], MemberLexemes(true, members));
      DepthConcat([LBrace] + MemberLexemes(true, members), [RBrace]);
    case _ =>
  }

  lemma {:induction false} ItemsDepth(first: bool, items: seq<Json>)
    ensures Depth(ItemLexemes(first, items)) == 0
    decreases items, 0
  {
    if items != [] {
      ValueDepth(items[0]);
      ItemsDepth(false, items[1..]);
      DepthConcat(Separator(first), Lexemes(items[0]));
      DepthConcat(Separator(first) + Lexemes(items[0]), ItemLexemes(false, items[1..]));
    }
  }

  lemma {:induction false} MembersDepth(first: bool, members: seq<Entry<Json>>)
    ensures Depth(MemberLexemes(first, members)) == 0
    decreases members, 0
  {
    if members != [] {
      var prefix := Separator(first) + [Quoted(members[0].key), Colon];
      assert Depth(prefix) == 0 by {
        DepthConcat(Separator(first), [Quoted(members[0].key), Colon]);
        DepthConcat([Quoted(members[0].key)], [Colon]);
        assert [Quoted(members[0].key)] + [Colon] == [Quoted(members[0].key), Colon];
      }
      ValueDepth(members[0].value);
      MembersDepth(false, members[1..]);
      DepthConcat(prefix, Lexemes(members[0].value));
      DepthConcat(prefix + Lexemes(members[0].value), MemberLexemes(false, members[1..]));
    }
  }

  /** A complete document leaves no bracket open. */
  lemma DocumentDepth(ls: seq<Lexeme>)
    requires IsDocument(ls)
    ensures Depth(ls) == 0 && ls != []
  {
    ReadSound(ls);
    ValueDepth(Read(ls).value);
    assert ls == Lexemes(Read(ls).value);
  }

  /** A complete document is the serialization of the value the reader returns. */
  lemma DocumentText(ls: seq<Lexeme>)
    requires IsDocument(ls)
    ensures ls == Lexemes(Read(ls).value)
  {
    ReadSound(ls);
    assert Lexemes(Read(ls).value) + [] == Lexemes(Read(ls).value);
  }

  /** No strict prefix of a serialization is a complete document. */
  lemma NoPrefixIsDocument(v: Json, k: nat)
    requires k < |Lexemes(v)|
    ensures !IsDocument(Lexemes(v)[..k])
  {
    var prefix, rest := Lexemes(v)[..k], Lexemes(v)[k..];
    ReadLexemes(v, []);
    assert Lexemes(v) + [] == prefix + rest;
    if IsDocument(prefix) {
      DocumentText(prefix);
      ReadLexemes(Read(prefix).value, rest);
      assert false;
    }
  }

  lemma OneItem(first: bool, item: Json)
    ensures ItemLexemes(first, [item]) == Separator(first) + Lexemes(item)
  {
    ItemLexemesCons(first, item, []);
    assert [item] + [] == [item];
  }

  /** Texts as string values. */
  function Strings(texts: seq<string>): seq<Json> {
    if texts == [] then [] else [String(texts[0])] + Strings(texts[1..])
  }

  /** The decimal literal of a natural number. */
  function Decimal(n: nat): string {
    var digit := ['0' + (n % 10) as char];
    if n < 10 then digit else Decimal(n / 10) + digit
  }

  /** The number a decimal literal stands for. */
  function DecimalValue(digits: string): int {
    if digits == "" then 0
    else DecimalValue(digits[..|digits| - 1]) * 10 + (digits[|digits| - 1] as int - '0' as int)
  }

  lemma {:induction false} DecimalExact(n: nat)
    ensures DecimalValue(Decimal(n)) == n
  {
    var d := Decimal(n);
    if n >= 10 {
      DecimalExact(n / 10);
      assert d[..|d| - 1] == Decimal(n / 10);
    } else {
      assert d[..|d| - 1] == "";
    }
  }
}
