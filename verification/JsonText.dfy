/**
 * JSON text as characters: string escapes and number literals (sections 2, 6 and 7 of RFC 8259), and
 * an inverse of the printer. The reading side takes back what `Stringify` prints; it is no lexer for
 * JSON in general: it knows no whitespace, no escaped slash, and only code units below 256 as `\u`.
 */
module JsonText {
  import opened Wrappers
  import opened JsObject
  import opened Json
  import opened Sequences

  // ---------------------------------------------------------------- strings

  function HexDigit(n: nat): char
    requires n < 16
  {
    "0123456789abcdef"[n]
  }

  function HexValue(c: char): nat {
    if '0' <= c <= '9' then (c - '0') as nat else if 'a' <= c <= 'f' then (c - 'a') as nat + 10 else 0
  }

  function EscapeChar(c: char): string {
    match c
    case '\"' => "\\\""
    case '\\' => "\\\\"
    case '\n' => "\\n"
    case '\r' => "\\r"
    case '\t' => "\\t"
    case '\U{0008}' => "\\b"
    case '\U{000c}' => "\\f"
    case _ =>
      if c < ' ' then "\\u00" + [HexDigit(c as nat / 16), HexDigit(c as nat % 16)] else [c]
  }

  function Escape(s: string): string {
    if s == "" then "" else EscapeChar(s[0]) + Escape(s[1..])
  }

  datatype Lexed<+T> = NoLex | Lexed(value: T, rest: string)

  /** One character of a string body, with its escape resolved. */
  function ReadChar(text: string): (r: Lexed<char>)
    ensures r.Lexed? ==> |r.rest| < |text|
  {
    if text == "" || text[0] == '\"' then NoLex
    else if text[0] != '\\' then Lexed(text[0], text[1..])
    else if |text| < 2 then NoLex
    else
      match text[1]
      case '\"' => Lexed('\"', text[2..])
      case '\\' => Lexed('\\', text[2..])
      case 'n' => Lexed('\n', text[2..])
      case 'r' => Lexed('\r', text[2..])
      case 't' => Lexed('\t', text[2..])
      case 'b' => Lexed('\U{0008}', text[2..])
      case 'f' => Lexed('\U{000c}', text[2..])
      case _ =>
        if |text| >= 6 && text[1] == 'u' && text[2] == '0' && text[3] == '0'
          then Lexed((HexValue(text[4]) * 16 + HexValue(text[5])) as char, text[6..])
        else NoLex
  }

  /** The body of a string up to and including its closing quote. */
  function ReadString(text: string): (r: Lexed<string>)
    ensures r.Lexed? ==> |r.rest| < |text|
    decreases |text|
  {
    if text == "" then NoLex
    else if text[0] == '\"' then Lexed("", text[1..])
    else
      match ReadChar(text)
      case NoLex => NoLex
      case Lexed(c, afterChar) =>
        match ReadString(afterChar)
        case NoLex => NoLex
        case Lexed(s, rest) => Lexed([c] + s, rest)
  }

  lemma ReadEscapedChar(c: char, rest: string)
    ensures EscapeChar(c) != "" && EscapeChar(c)[0] != '\"'
    ensures ReadChar(EscapeChar(c) + rest) == Lexed(c, rest)
  {
    var text := EscapeChar(c) + rest;
    if |EscapeChar(c)| == 6 {
      ReadHexEscape(c as nat, rest);
    } else if |EscapeChar(c)| == 2 {
      assert text[2..] == rest;
    } else {
      assert text[1..] == rest;
    }
  }

  lemma ReadHexEscape(n: nat, rest: string)
    requires n < 256
    ensures ReadChar("\\u00" + [HexDigit(n / 16), HexDigit(n % 16)] + rest) == Lexed(n as char, rest)
  {
    var text := "\\u00" + [HexDigit(n / 16), HexDigit(n % 16)] + rest;
    HexRoundTrip(n / 16);
    HexRoundTrip(n % 16);
    assert text[0] == '\\' && text[1] == 'u' && text[2] == '0' && text[3] == '0' && text[4] == HexDigit(n / 16)
      && text[5] == HexDigit(n % 16) && text[6..] == rest;
  }

  lemma HexRoundTrip(n: nat)
    requires n < 16
    ensures HexValue(HexDigit(n)) == n
  {
  }

  /** Escaped text has no control character, and no quote that is not escaped. */
  lemma {:induction false} EscapedIsPlain(s: string, i: nat)
    requires i < |Escape(s)|
    ensures Escape(s)[i] >= ' '
    ensures Escape(s)[i] == '\"' ==> i > 0 && Escape(s)[i - 1] == '\\'
  {
    var head := EscapeChar(s[0]);
    if i >= |head| {
      EscapedIsPlain(s[1..], i - |head|);
    } else {
      EscapeIsPlain(s[0], i);
    }
  }

  lemma EscapeIsPlain(c: char, i: nat)
    requires i < |EscapeChar(c)|
    ensures EscapeChar(c)[i] >= ' '
    ensures EscapeChar(c)[i] == '\"' ==> i > 0 && EscapeChar(c)[i - 1] == '\\'
  {
    if |EscapeChar(c)| == 6 {
      HexIsPlain(c as nat / 16);
      HexIsPlain(c as nat % 16);
    }
  }

  lemma HexIsPlain(n: nat)
    requires n < 16
    ensures ' ' <= HexDigit(n) != '\"'
  {
  }

  lemma {:induction false} ReadEscaped(s: string, rest: string)
    ensures ReadString(Escape(s) + "\"" + rest) == Lexed(s, rest)
  {
    if s == "" {
      assert Escape(s) + "\"" + rest == "\"" + rest;
    } else {
      Regroup(EscapeChar(s[0]), Escape(s[1..]), "\"", rest);
      ReadEscapedChar(s[0], Escape(s[1..]) + "\"" + rest);
      ReadEscaped(s[1..], rest);
      ReadStringCons(EscapeChar(s[0]), s[0], Escape(s[1..]) + "\"" + rest);
      assert [s[0]] + s[1..] == s;
    }
  }

  lemma ReadStringCons(escaped: string, c: char, tail: string)
    requires escaped != "" && escaped[0] != '\"' && ReadChar(escaped + tail) == Lexed(c, tail)
            && ReadString(tail).Lexed?
    ensures ReadString(escaped + tail) == Lexed([c] + ReadString(tail).value, ReadString(tail).rest)
  {
    assert (escaped + tail)[0] == escaped[0];
  }

  // ---------------------------------------------------------------- numbers

  predicate IsNumberChar(c: char) {
    '0' <= c <= '9' || c == '-' || c == '+' || c == '.' || c == 'e' || c == 'E'
  }

  /** Enough of the number grammar to delimit a literal. */
  predicate IsNumberLiteral(d: string) {
    d != "" && ('0' <= d[0] <= '9' || d[0] == '-') && forall i :: 0 <= i < |d| ==> IsNumberChar(d[i])
  }

  function NumberSpan(text: string): (n: nat)
    ensures n <= |text|
  {
    if text == "" || !IsNumberChar(text[0]) then 0 else 1 + NumberSpan(text[1..])
  }

  lemma {:induction false} SpanExact(d: string, rest: string)
    requires forall i :: 0 <= i < |d| ==> IsNumberChar(d[i])
    requires rest == "" || !IsNumberChar(rest[0])
    ensures NumberSpan(d + rest) == |d|
  {
    if d == "" {
      assert d + rest == rest;
    } else {
      assert (d + rest)[1..] == d[1..] + rest;
      SpanExact(d[1..], rest);
    }
  }

  // ---------------------------------------------------------------- lexemes

  function LexemeText(l: Lexeme): string {
    match l
    case LBrace => "{"
    case RBrace => "}"
    case LBracket => "["
    case RBracket => "]"
    case Comma => ","
    case Colon => ":"
    case Quoted(s) => "\"" + (Escape(s) + "\"")
    case Digits(d) => d
    case True => "true"
    case False => "false"
    case Nil => "null"
  }

  function Text(ls: seq<Lexeme>): string {
    if ls == [] then "" else LexemeText(ls[0]) + Text(ls[1..])
  }

  function ReadLexeme(text: string): (r: Lexed<Lexeme>)
    ensures r.Lexed? ==> |r.rest| < |text|
  {
    if text == "" then NoLex
    else
      match text[0]
      case '{' => Lexed(LBrace, text[1..])
      case '}' => Lexed(RBrace, text[1..])
      case '[' => Lexed(LBracket, text[1..])
      case ']' => Lexed(RBracket, text[1..])
      case ',' => Lexed(Comma, text[1..])
      case ':' => Lexed(Colon, text[1..])
      case '\"' => (match ReadString(text[1..]) case NoLex => NoLex case Lexed(s, rest) => Lexed(Quoted(s), rest))
      case _ =>
        if "true" <= text then Lexed(True, text[4..])
        else if "false" <= text then Lexed(False, text[5..])
        else if "null" <= text then Lexed(Nil, text[4..])
        else if '0' <= text[0] <= '9' || text[0] == '-'
          then Lexed(Digits(text[..NumberSpan(text)]), text[NumberSpan(text)..])
        else NoLex
  }

  /** The lexemes of a text, or None when it is not a sequence of lexemes. */
  function Lex(text: string): Option<seq<Lexeme>>
    decreases |text|
  {
    if text == "" then Some([])
    else
      match ReadLexeme(text)
      case NoLex => None
      case Lexed(l, rest) =>
        match Lex(rest)
        case None => None
        case Some(ls) => Some([l] + ls)
  }

  /** Number literals are literals, and no two of them touch. */
  predicate Lexable(ls: seq<Lexeme>) {
    && (forall i :: 0 <= i < |ls| && ls[i].Digits? ==> IsNumberLiteral(ls[i].literal))
    && (forall i :: 0 <= i < |ls| - 1 ==> !(ls[i].Digits? && ls[i + 1].Digits?))
  }

  lemma ReadLexemeText(l: Lexeme, rest: string)
    requires l.Digits? ==> IsNumberLiteral(l.literal) && (rest == "" || !IsNumberChar(rest[0]))
    ensures ReadLexeme(LexemeText(l) + rest) == Lexed(l, rest)
  {
    if l.Quoted? {
      ReadQuotedText(l.text, rest);
    } else if l.Digits? {
      ReadDigitsText(l.literal, rest);
    } else {
      ReadWordText(l, LexemeText(l), rest);
    }
  }

  lemma ReadQuotedText(s: string, rest: string)
    ensures ReadLexeme("\"" + (Escape(s) + "\"") + rest) == Lexed(Quoted(s), rest)
  {
    ReadEscaped(s, rest);
    Requote(Escape(s), rest);
    ReadQuote(Escape(s) + "\"" + rest);
  }

  lemma Requote(escaped: string, rest: string)
    ensures "\"" + (escaped + "\"") + rest == ['\"'] + (escaped + "\"" + rest)
  {
  }

  lemma ReadQuote(after: string)
    requires ReadString(after).Lexed?
    ensures ReadLexeme(['\"'] + after) == Lexed(Quoted(ReadString(after).value), ReadString(after).rest)
  {
    assert (['\"'] + after)[1..] == after;
  }

  lemma ReadDigitsText(d: string, rest: string)
    requires IsNumberLiteral(d) && (rest == "" || !IsNumberChar(rest[0]))
    ensures ReadLexeme(d + rest) == Lexed(Digits(d), rest)
  {
    var text := d + rest;
    SpanExact(d, rest);
    assert text[0] == d[0] && text[..|d|] == d && text[|d|..] == rest;
    assert "true"[0] != text[0] && "false"[0] != text[0] && "null"[0] != text[0];
  }

  lemma ReadWordText(l: Lexeme, word: string, rest: string)
    requires !l.Quoted? && !l.Digits? && word == LexemeText(l)
    ensures ReadLexeme(word + rest) == Lexed(l, rest)
  {
    var text := word + rest;
    assert text[0] == word[0] && text[|word|..] == rest && word <= text;
    if l.False? || l.Nil? {
      assert "true"[0] != text[0];
      assert l.Nil? ==> "false"[0] != text[0];
    }
  }

  lemma NextNotNumber(l: Lexeme)
    requires !l.Digits?
    ensures LexemeText(l) != "" && !IsNumberChar(LexemeText(l)[0])
  {
  }

  /** Lexing the text of lexemes gives the lexemes back. */
  lemma {:induction false} LexText(ls: seq<Lexeme>)
    requires Lexable(ls)
    ensures Lex(Text(ls)) == Some(ls)
  {
    if ls != [] {
      var rest := ls[1..];
      assert Lexable(rest) by {
        forall i | 0 <= i < |rest| - 1 ensures !(rest[i].Digits? && rest[i + 1].Digits?) {
          assert rest[i] == ls[i + 1] && rest[i + 1] == ls[i + 2];
        }
      }
      LexText(rest);
      if rest != [] && ls[0].Digits? {
        assert !ls[1].Digits?;
        NextNotNumber(rest[0]);
      }
      ReadLexemeText(ls[0], Text(rest));
      assert LexemeText(ls[0]) + Text(rest) != "" && [ls[0]] + rest == ls;
    }
  }

  // ---------------------------------------------------------------- values

  predicate ValidNumbers(v: Json)
    decreases v, 0
  {
    match v
    case Number(literal) => IsNumberLiteral(literal)
    case Array(items) => ValidNumbersInItems(items)
    case Object(members) => ValidNumbersInMembers(members)
    case _ => true
  }

  predicate ValidNumbersInItems(items: seq<Json>)
    decreases items, 0
  {
    items == [] || (ValidNumbers(items[0]) && ValidNumbersInItems(items[1..]))
  }

  predicate ValidNumbersInMembers(members: seq<Entry<Json>>)
    decreases members, 0
  {
    members == [] || (ValidNumbers(members[0].value) && ValidNumbersInMembers(members[1..]))
  }

  lemma {:induction false} StringsHaveNoNumbers(texts: seq<string>)
    ensures ValidNumbersInItems(Strings(texts))
  {
    if texts != [] {
      StringsHaveNoNumbers(texts[1..]);
      assert Strings(texts)[1..] == Strings(texts[1..]);
    }
  }

  lemma {:induction false} PutNumbers(members: seq<Entry<Json>>, key: string, value: Json)
    requires ValidNumbersInMembers(members) && ValidNumbers(value)
    ensures ValidNumbersInMembers(Put(members, key, value))
  {
    if members == [] {
      assert ValidNumbersInMembers([Entry(key, value)][1..]);
    } else if members[0].key == key {
      assert Put(members, key, value)[1..] == members[1..];
    } else {
      PutNumbers(members[1..], key, value);
      assert Put(members, key, value)[1..] == Put(members[1..], key, value);
    }
  }

  predicate StartsWithNumber(ls: seq<Lexeme>) {
    ls != [] && ls[0].Digits?
  }

  predicate EndsWithNumber(ls: seq<Lexeme>) {
    ls != [] && ls[|ls| - 1].Digits?
  }

  lemma LexableConcat(a: seq<Lexeme>, b: seq<Lexeme>)
    requires Lexable(a) && Lexable(b) && !(EndsWithNumber(a) && StartsWithNumber(b))
    ensures Lexable(a + b)
  {
  }

  lemma {:induction false} ValueLexable(v: Json)
    requires ValidNumbers(v)
    ensures Lexable(Lexemes(v))
    decreases v, 0
  {
    match v
    case Array(items) =>
      ItemsLexable(true, items);
      LexableConcat([LBracket], ItemLexemes(true, items));
      LexableConcat([LBracket] + ItemLexemes(true, items), [RBracket]);
    case Object(members) =>
      MembersLexable(true, members);
      LexableConcat([LBrace], MemberLexemes(true, members));
      LexableConcat([LBrace] + MemberLexemes(true, members), [RBrace]);
    case _ =>
  }

  lemma {:induction false} ItemsLexable(first: bool, items: seq<Json>)
    requires ValidNumbersInItems(items)
    ensures Lexable(ItemLexemes(first, items)) && (!first ==> !StartsWithNumber(ItemLexemes(first, items)))
    decreases items, 0
  {
    if items != [] {
      ValueLexable(items[0]);
      ItemsLexable(false, items[1..]);
      LexableConcat(Separator(first), Lexemes(items[0]));
      LexableConcat(Separator(first) + Lexemes(items[0]), ItemLexemes(false, items[1..]));
    }
  }

  lemma {:induction false} MembersLexable(first: bool, members: seq<Entry<Json>>)
    requires ValidNumbersInMembers(members)
    ensures Lexable(MemberLexemes(first, members)) && !StartsWithNumber(MemberLexemes(first, members))
    decreases members, 0
  {
    if members != [] {
      var front := Separator(first) + [Quoted(members[0].key), Colon];
      ValueLexable(members[0].value);
      MembersLexable(false, members[1..]);
      LexableConcat(front, Lexemes(members[0].value));
      LexableConcat(front + Lexemes(members[0].value), MemberLexemes(false, members[1..]));
    }
  }

  /** JSON.stringify */
  function Stringify(v: Json): string {
    Text(Lexemes(v))
  }

  /** Lex a text, then read one value that takes all of it. */
  function Parse(text: string): Option<Json> {
    match Lex(text)
    case None => None
    case Some(ls) => if IsDocument(ls) then Some(Read(ls).value) else None
  }

  /** Parsing the text of a value gives the value back. */
  lemma ParseStringify(v: Json)
    requires ValidNumbers(v)
    ensures Parse(Stringify(v)) == Some(v)
  {
    ValueLexable(v);
    LexText(Lexemes(v));
    ReadLexemes(v, []);
    assert Lexemes(v) + [] == Lexemes(v);
  }

  // ---------------------------------------------------------------- truncated texts

  /** A strict beginning of a text. */
  predicate StrictlyBegins(part: string, whole: string) {
    |part| < |whole| && part == whole[..|part|]
  }

  /** Cutting the text of lexemes leaves whole lexemes and a strict beginning of one more. */
  lemma {:induction false} CutText(ls: seq<Lexeme>, k: nat) returns (n: nat, part: string)
    requires k < |Text(ls)|
    ensures n < |ls| && StrictlyBegins(part, LexemeText(ls[n])) && Text(ls)[..k] == Text(ls[..n]) + part
  {
    var head, tail := LexemeText(ls[0]), ls[1..];
    if k < |head| {
      n, part := 0, head[..k];
      assert Text(ls)[..k] == head[..k] && ls[..0] == [];
    } else {
      var m;
      m, part := CutText(tail, k - |head|);
      n := m + 1;
      assert ls[..n] == [ls[0]] + tail[..m] && ls[..n][1..] == tail[..m];
      assert Text(ls)[..k] == head + Text(tail)[..k - |head|];
      Associate(head, Text(tail[..m]), part);
    }
  }

  /** Whole lexemes are read off the front of any text that does not go on with their number. */
  lemma {:induction false} LexFront(ls: seq<Lexeme>, rest: string)
    requires Lexable(ls) && (EndsWithNumber(ls) ==> rest == "" || !IsNumberChar(rest[0]))
    ensures Lex(Text(ls) + rest) == match Lex(rest) case None => None case Some(more) => Some(ls + more)
  {
    if ls == [] {
      assert Text(ls) + rest == rest;
      assert forall more: seq<Lexeme> :: ls + more == more;
    } else {
      var tail := ls[1..];
      LexableTail(ls);
      LexFront(tail, rest);
      NumberEndsHere(ls, rest);
      ReadLexemeText(ls[0], Text(tail) + rest);
      LexStep(LexemeText(ls[0]) + (Text(tail) + rest));
      Associate(LexemeText(ls[0]), Text(tail), rest);
      if Lex(rest).Some? {
        Associate([ls[0]], tail, Lex(rest).value);
        assert [ls[0]] + tail == ls;
      }
    }
  }

  /** Behind a number at the front there is no more of it. */
  lemma NumberEndsHere(ls: seq<Lexeme>, rest: string)
    requires ls != [] && Lexable(ls) && (EndsWithNumber(ls) ==> rest == "" || !IsNumberChar(rest[0]))
    ensures var after := Text(ls[1..]) + rest; ls[0].Digits? ==> after == "" || !IsNumberChar(after[0])
  {
    var tail := ls[1..];
    if tail == [] {
      assert Text(tail) + rest == rest;
    } else if ls[0].Digits? {
      assert !ls[1].Digits?;
      NextNotNumber(tail[0]);
      assert (Text(tail) + rest)[0] == LexemeText(tail[0])[0];
    }
  }

  lemma LexableTail(ls: seq<Lexeme>)
    requires ls != [] && Lexable(ls)
    ensures Lexable(ls[1..])
    ensures |ls| > 1 && ls[0].Digits? ==> !ls[1].Digits?
    ensures EndsWithNumber(ls[1..]) ==> EndsWithNumber(ls)
  {
    var rest := ls[1..];
    forall i | 0 <= i < |rest| - 1 ensures !(rest[i].Digits? && rest[i + 1].Digits?) {
      assert rest[i] == ls[i + 1] && rest[i + 1] == ls[i + 2];
    }
  }

  lemma LexStep(text: string)
    requires ReadLexeme(text).Lexed?
    ensures var r := ReadLexeme(text);
            Lex(text) == match Lex(r.rest) case None => None case Some(ls) => Some([r.value] + ls)
  {
  }

  /** A string that is cut before its closing quote cannot be read. */
  lemma {:induction false} CutString(s: string, k: nat)
    requires k <= |Escape(s)|
    ensures ReadString((Escape(s) + "\"")[..k]) == NoLex
  {
    if s == "" {
      assert (Escape(s) + "\"")[..k] == "";
    } else {
      var head, tail := EscapeChar(s[0]), Escape(s[1..]);
      var cut := (Escape(s) + "\"")[..k];
      ReadEscapedChar(s[0], "");
      if k < |head| {
        assert cut == head[..k];
        CutEscape(s[0], k);
      } else {
        var rest := (tail + "\"")[..k - |head|];
        CutString(s[1..], k - |head|);
        Associate(head, tail, "\"");
        assert cut == head + rest;
        ReadEscapedChar(s[0], rest);
        ReadStringCut(head, s[0], rest);
      }
    }
  }

  lemma ReadStringCut(escaped: string, c: char, rest: string)
    requires escaped != "" && escaped[0] != '\"' && ReadChar(escaped + rest) == Lexed(c, rest)
    requires ReadString(rest) == NoLex
    ensures ReadString(escaped + rest) == NoLex
  {
    assert (escaped + rest)[0] == escaped[0];
  }

  lemma CutEscape(c: char, k: nat)
    requires k < |EscapeChar(c)|
    ensures ReadString(EscapeChar(c)[..k]) == NoLex
  {
  }

  /** A cut lexeme gives no lexeme, unless it is a number. */
  lemma CutLexeme(l: Lexeme, part: string)
    requires StrictlyBegins(part, LexemeText(l)) && (l.Digits? ==> IsNumberLiteral(l.literal))
    ensures Lex(part) == None || (part == "" && Lex(part) == Some([]))
            || (l.Digits? && Lex(part) == Some([Digits(part)]))
  {
    if part != "" {
      if l.Digits? {
        assert IsNumberLiteral(part) && part + "" == part;
        ReadDigitsText(part, "");
        LexStep(part);
        assert Lex("") == Some([]) && [Digits(part)] + [] == [Digits(part)];
      } else if l.Quoted? {
        var q := (Escape(l.text) + "\"")[..|part| - 1];
        assert part == ['\"'] + q && part[1..] == q;
        CutString(l.text, |part| - 1);
        assert ReadLexeme(part) == NoLex;
      } else {
        CutWord(l, part);
      }
    }
  }

  lemma CutWord(l: Lexeme, part: string)
    requires StrictlyBegins(part, LexemeText(l)) && part != "" && !l.Digits? && !l.Quoted?
    ensures ReadLexeme(part) == NoLex
  {
    assert l.True? || l.False? || l.Nil?;
    assert part[0] == LexemeText(l)[0];
  }

  /** No strict beginning of an object's or array's text parses. */
  lemma TruncatedTextNeverParses(v: Json, k: nat)
    requires ValidNumbers(v) && (v.Object? || v.Array?) && k < |Stringify(v)|
    ensures Parse(Stringify(v)[..k]) == None
  {
    var ls := Lexemes(v);
    ValueLexable(v);
    var n, part := CutText(ls, k);
    LexablePrefix(ls, n);
    CutLexeme(ls[n], part);
    CutFollows(ls, n, part);
    LexFront(ls[..n], part);
    NoPrefixIsDocument(v, n);
    assert ls[..n] + [] == ls[..n];
    if ls[n].Digits? {
      NumberEndsNoDocument(ls[..n], part);
    }
  }

  lemma LexablePrefix(ls: seq<Lexeme>, n: nat)
    requires Lexable(ls) && n < |ls|
    ensures Lexable(ls[..n]) && (ls[n].Digits? ==> IsNumberLiteral(ls[n].literal))
  {
  }

  /** What follows a whole number in a cut text does not go on with it. */
  lemma CutFollows(ls: seq<Lexeme>, n: nat, part: string)
    requires Lexable(ls) && n < |ls| && StrictlyBegins(part, LexemeText(ls[n]))
    ensures EndsWithNumber(ls[..n]) ==> part == "" || !IsNumberChar(part[0])
  {
    if EndsWithNumber(ls[..n]) {
      assert ls[n - 1].Digits?;
      assert !ls[n].Digits?;
      NextNotNumber(ls[n]);
    }
  }

  /** An object or array does not end with a number. */
  lemma NumberEndsNoDocument(front: seq<Lexeme>, d: string)
    requires front != [] && (front[0].LBrace? || front[0].LBracket?)
    ensures !IsDocument(front + [Digits(d)])
  {
    var ls := front + [Digits(d)];
    assert ls[0] == front[0] && ls[|ls| - 1] == Digits(d);
    if IsDocument(ls) {
      DocumentText(ls);
      LastLexeme(Read(ls).value);
    }
  }

  lemma LastLexeme(v: Json)
    ensures Lexemes(v)[0].LBrace? || Lexemes(v)[0].LBracket? ==> !Lexemes(v)[|Lexemes(v)| - 1].Digits?
  {
  }
}
