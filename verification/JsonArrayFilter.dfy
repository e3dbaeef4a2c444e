/**
 * The streaming JSON filter (src/common/json-array-filter.ts): a token machine that re-serializes
 * an object while it filters and transforms the items of one top-level array field.
 */
module JsonArrayFilter {
  import opened Wrappers
  import opened JsObject
  import opened Json
  import opened Sequences

  // ---------------------------------------------------------------- value assembler

  datatype Frame = Frame(current: Json, key: Option<string>)

  /** The library assembler: open containers on a stack, the innermost one in `current`. */
  datatype Assembler = Assembler(stack: seq<Frame>, current: Json, key: Option<string>, done: bool)

  const FRESH_ASSEMBLER := Assembler([], Null, None, true)

  function Save(a: Assembler, v: Json): Assembler {
    if a.done then a.(current := v)
    else
      match a.current
      case Array(items) => a.(current := Array(items + [v]))
      case Object(members) =>
        a.(current := Object(Put(members, if a.key.Some? then a.key.value else "null", v)), key := None)
      case _ => a
  }

  function Open(a: Assembler, container: Json): Assembler {
    var stack := if a.done then a.stack else a.stack + [Frame(a.current, a.key)];
    Assembler(stack, container, None, false)
  }

  function Close(a: Assembler): Assembler {
    if a.stack == [] then a.(done := true)
    else
      var top := a.stack[|a.stack| - 1];
      Save(a.(stack := a.stack[..|a.stack| - 1], current := top.current, key := top.key), a.current)
  }

  function Consume(a: Assembler, t: Token): Assembler {
    match t
    case StartObject => Open(a, Object([]))
    case StartArray => Open(a, Array([]))
    case EndObject => Close(a)
    case EndArray => Close(a)
    case KeyValue(key) => a.(key := Some(key))
    case StringValue(text) => Save(a, String(text))
    case NumberValue(literal) => Save(a, Number(literal))
    case TrueValue => Save(a, Bool(true))
    case FalseValue => Save(a, Bool(false))
    case NullValue => Save(a, Null)
  }

  function ConsumeAll(a: Assembler, ts: seq<Token>): Assembler {
    if ts == [] then a else Consume(ConsumeAll(a, ts[..|ts| - 1]), ts[|ts| - 1])
  }

  lemma {:induction false} ConsumeConcat(a: Assembler, s: seq<Token>, t: seq<Token>)
    ensures ConsumeAll(a, s + t) == ConsumeAll(ConsumeAll(a, s), t)
  {
    if t == [] {
      assert s + t == s;
    } else {
      assert (s + t)[..|s + t| - 1] == s + t[..|t| - 1];
      ConsumeConcat(a, s, t[..|t| - 1]);
    }
  }

  // ---------------------------------------------------------------- assembled values

  /** The JavaScript value a JSON text denotes: a repeated key keeps its place and its last value. */
  function Assembled(v: Json): Json
    decreases v, 0
  {
    match v
    case Array(items) => Array(AssembledItems(items))
    case Object(members) => Object(AssembledMembers([], members))
    case _ => v
  }

  function AssembledItems(items: seq<Json>): seq<Json>
    decreases items, 0
  {
    if items == [] then [] else [Assembled(items[0])] + AssembledItems(items[1..])
  }

  function AssembledMembers(acc: seq<Entry<Json>>, members: seq<Entry<Json>>): seq<Entry<Json>>
    decreases members, 0
  {
    if members == [] then acc
    else AssembledMembers(Put(acc, members[0].key, Assembled(members[0].value)), members[1..])
  }

  /** No object anywhere inside `v` repeats a key. */
  predicate DistinctKeys(v: Json)
    decreases v, 0
  {
    match v
    case Array(items) => DistinctInItems(items)
    case Object(members) => DistinctInMembers(members)
    case _ => true
  }

  predicate DistinctInItems(items: seq<Json>)
    decreases items, 0
  {
    items == [] || (DistinctKeys(items[0]) && DistinctInItems(items[1..]))
  }

  predicate DistinctInMembers(members: seq<Entry<Json>>)
    decreases members, 0
  {
    members == [] ||
    (DistinctKeys(members[0].value) && Get(members[1..], members[0].key).None? && DistinctInMembers(members[1..]))
  }

  /** Without repeated keys the assembled value is the value itself. */
  lemma {:induction false} AssembledDistinct(v: Json)
    requires DistinctKeys(v)
    ensures Assembled(v) == v
    decreases v, 0
  {
    match v
    case Array(items) => AssembledDistinctItems(items);
    case Object(members) =>
      AssembledDistinctMembers([], members);
      assert [] + members == members;
    case _ =>
  }

  lemma {:induction false} AssembledDistinctItems(items: seq<Json>)
    requires DistinctInItems(items)
    ensures AssembledItems(items) == items
    decreases items, 0
  {
    if items != [] {
      AssembledDistinct(items[0]);
      AssembledDistinctItems(items[1..]);
    }
  }

  lemma {:induction false} AssembledDistinctMembers(acc: seq<Entry<Json>>, members: seq<Entry<Json>>)
    requires DistinctInMembers(members)
    requires forall i :: 0 <= i < |members| ==> Get(acc, members[i].key).None?
    ensures AssembledMembers(acc, members) == acc + members
    decreases members, 0
  {
    if members == [] {
      assert acc + members == acc;
    } else {
      var m, rest := members[0], members[1..];
      AssembledDistinct(m.value);
      PutNew(acc, m.key, m.value);
      forall i | 0 <= i < |rest| ensures Get(acc + [m], rest[i].key).None? {
        assert rest[i] == members[i + 1];
        GetPut(acc, m.key, m.value, rest[i].key);
        GetAt(rest, i);
      }
      AssembledDistinctMembers(acc + [m], rest);
      assert acc + [m] + rest == acc + members;
    }
  }

  lemma {:induction false} GetAt(entries: seq<Entry<Json>>, i: nat)
    requires i < |entries|
    ensures Get(entries, entries[i].key).Some?
  {
    if i > 0 {
      assert entries[i] == entries[1..][i - 1];
      GetAt(entries[1..], i - 1);
    }
  }

  // ---------------------------------------------------------------- the assembler is right

  /** An assembler that can take a value: at its start, in an array, or after a key in an object. */
  predicate Ready(a: Assembler) {
    if a.done then a.stack == [] && a.key == None
    else a.current.Array? || (a.current.Object? && a.key.Some?)
  }

  /** Feeding the tokens of a value saves exactly the assembled value. */
  lemma {:induction false} ConsumeTokens(a: Assembler, v: Json)
    requires Ready(a)
    ensures ConsumeAll(a, Tokens(v)) == Save(a, Assembled(v))
    decreases v, 0
  {
    match v
    case Array(items) =>
      var inside := Open(a, Array([]));
      ConsumeItems(inside, items);
      ConsumeFramed(a, StartArray, ItemTokens(items), EndArray);
      assert [] + AssembledItems(items) == AssembledItems(items);
      CloseOpened(a, Array([]), Assembled(v));
    case Object(members) =>
      var inside := Open(a, Object([]));
      ConsumeMembers(inside, members);
      ConsumeFramed(a, StartObject, MemberTokens(members), EndObject);
      CloseOpened(a, Object([]), Assembled(v));
    case _ =>
      ConsumeOne(a, Tokens(v)[0]);
      assert Tokens(v) == [Tokens(v)[0]];
  }

  lemma ConsumeOne(a: Assembler, t: Token)
    ensures ConsumeAll(a, [t]) == Consume(a, t)
  {
    assert [t][..0] == [];
  }

  lemma ConsumeFramed(a: Assembler, open: Token, inner: seq<Token>, close: Token)
    ensures ConsumeAll(a, [open] + inner + [close]) == Consume(ConsumeAll(Consume(a, open), inner), close)
  {
    ConsumeConcat(a, [open], inner);
    ConsumeConcat(a, [open] + inner, [close]);
    ConsumeOne(a, open);
    ConsumeOne(ConsumeAll(a, [open] + inner), close);
  }

  lemma CloseOpened(a: Assembler, container: Json, v: Json)
    requires Ready(a)
    ensures Close(Open(a, container).(current := v)) == Save(a, v)
  {
    if !a.done {
      var o := Open(a, container).(current := v);
      assert o.stack[..|o.stack| - 1] == a.stack;
    }
  }

  lemma {:induction false} ConsumeItems(a: Assembler, items: seq<Json>)
    requires !a.done && a.current.Array?
    ensures ConsumeAll(a, ItemTokens(items)) == a.(current := Array(a.current.items + AssembledItems(items)))
    decreases items, 0
  {
    if items == [] {
      assert a.current.items + [] == a.current.items;
    } else {
      var x, rest := Assembled(items[0]), AssembledItems(items[1..]);
      ConsumeTokens(a, items[0]);
      ConsumeItems(a.(current := Array(a.current.items + [x])), items[1..]);
      ConsumeConcat(a, Tokens(items[0]), ItemTokens(items[1..]));
      Associate(a.current.items, [x], rest);
      assert AssembledItems(items) == [x] + rest;
    }
  }

  lemma {:induction false} ConsumeMembers(a: Assembler, members: seq<Entry<Json>>)
    requires !a.done && a.current.Object? && a.key == None
    ensures ConsumeAll(a, MemberTokens(members)) == a.(current := Object(AssembledMembers(a.current.members, members)))
    decreases members, 0
  {
    if members != [] {
      var m := members[0];
      var keyed := a.(key := Some(m.key));
      ConsumeOne(a, KeyValue(m.key));
      ConsumeTokens(keyed, m.value);
      ConsumeMembers(Save(keyed, Assembled(m.value)), members[1..]);
      ConsumeConcat(a, [KeyValue(m.key)], Tokens(m.value));
      ConsumeConcat(a, [KeyValue(m.key)] + Tokens(m.value), MemberTokens(members[1..]));
    }
  }

  // ---------------------------------------------------------------- the depth counter

  function Nests(t: Token): int {
    if t.StartObject? || t.StartArray? then 1 else if t.EndObject? || t.EndArray? then -1 else 0
  }

  /** The depth counter after a run of tokens that starts at zero. */
  function Nesting(ts: seq<Token>): int {
    if ts == [] then 0 else Nesting(ts[..|ts| - 1]) + Nests(ts[|ts| - 1])
  }

  lemma {:induction false} NestingConcat(s: seq<Token>, t: seq<Token>)
    ensures Nesting(s + t) == Nesting(s) + Nesting(t)
  {
    if t == [] {
      assert s + t == s;
    } else {
      assert (s + t)[..|s + t| - 1] == s + t[..|t| - 1];
      NestingConcat(s, t[..|t| - 1]);
    }
  }

  /** Every prefix of `ts` keeps the counter at or above `floor`. */
  predicate Above(floor: int, ts: seq<Token>) {
    forall k :: 0 <= k <= |ts| ==> Nesting(ts[..k]) >= floor
  }

  lemma AboveConcat(s: seq<Token>, t: seq<Token>)
    requires Above(0, s) && Nesting(s) == 0 && Above(0, t)
    ensures Above(0, s + t) && Nesting(s + t) == Nesting(t)
  {
    NestingConcat(s, t);
    forall k | 0 <= k <= |s + t| ensures Nesting((s + t)[..k]) >= 0 {
      if k <= |s| {
        assert (s + t)[..k] == s[..k];
      } else {
        assert (s + t)[..k] == s + t[..k - |s|];
        NestingConcat(s, t[..k - |s|]);
      }
    }
  }

  lemma OneToken(t: Token)
    ensures Nesting([t]) == Nests(t)
    ensures Nests(t) >= 0 ==> Above(0, [t])
  {
    assert [t][..0] == [] && [t][..1] == [t];
    forall k | 0 <= k <= 1 && Nests(t) >= 0 ensures Nesting([t][..k]) >= 0 {
    }
  }

  /**
   * Value boundaries: over the tokens of one value the counter is zero after the last token
   * and after no earlier one.
   */
  lemma {:induction false} ValueBoundary(v: Json)
    ensures Nesting(Tokens(v)) == 0
    ensures forall k :: 0 < k < |Tokens(v)| ==> Nesting(Tokens(v)[..k]) >= 1
    decreases v, 0
  {
    match v
    case Array(items) =>
      ItemsBoundary(items);
      FramedBoundary(StartArray, ItemTokens(items), EndArray);
    case Object(members) =>
      MembersBoundary(members);
      FramedBoundary(StartObject, MemberTokens(members), EndObject);
    case _ =>
      OneToken(Tokens(v)[0]);
      assert Tokens(v) == [Tokens(v)[0]];
  }

  lemma FramedBoundary(open: Token, inner: seq<Token>, close: Token)
    requires Nests(open) == 1 && Nests(close) == -1 && Above(0, inner) && Nesting(inner) == 0
    ensures Nesting([open] + inner + [close]) == 0
    ensures forall k :: 0 < k < |inner| + 2 ==> Nesting(([open] + inner + [close])[..k]) >= 1
  {
    OneToken(open);
    OneToken(close);
    NestingConcat([open], inner);
    NestingConcat([open] + inner, [close]);
    forall k | 0 < k < |inner| + 2 ensures Nesting(([open] + inner + [close])[..k]) >= 1 {
      assert ([open] + inner + [close])[..k] == [open] + inner[..k - 1];
      NestingConcat([open], inner[..k - 1]);
    }
  }

  lemma ValueAbove(v: Json)
    requires Nesting(Tokens(v)) == 0
    requires forall k :: 0 < k < |Tokens(v)| ==> Nesting(Tokens(v)[..k]) >= 1
    ensures Above(0, Tokens(v))
  {
    forall k | 0 <= k <= |Tokens(v)| ensures Nesting(Tokens(v)[..k]) >= 0 {
      assert k == |Tokens(v)| ==> Tokens(v)[..k] == Tokens(v);
    }
  }

  lemma {:induction false} ItemsBoundary(items: seq<Json>)
    ensures Above(0, ItemTokens(items)) && Nesting(ItemTokens(items)) == 0
    decreases items, 0
  {
    if items != [] {
      ValueBoundary(items[0]);
      ValueAbove(items[0]);
      ItemsBoundary(items[1..]);
      AboveConcat(Tokens(items[0]), ItemTokens(items[1..]));
    }
  }

  lemma {:induction false} MembersBoundary(members: seq<Entry<Json>>)
    ensures Above(0, MemberTokens(members)) && Nesting(MemberTokens(members)) == 0
    decreases members, 0
  {
    if members != [] {
      var key := KeyValue(members[0].key);
      OneToken(key);
      ValueBoundary(members[0].value);
      ValueAbove(members[0].value);
      MembersBoundary(members[1..]);
      AboveConcat([key], Tokens(members[0].value));
      AboveConcat([key] + Tokens(members[0].value), MemberTokens(members[1..]));
    }
  }

  // ---------------------------------------------------------------- the token machine

  datatype Options = Options(arrayField: string, mapItem: Json -> Option<Json>)

  datatype Mode = Init | Members | InValue | Items | Done

  /** The state of the transform, with everything it has pushed so far. */
  datatype Machine = Machine(
    mode: Mode,
    pendingKey: string,
    firstMember: bool,
    firstItem: bool,
    assembler: Option<Assembler>,
    valueDepth: int,
    out: seq<Lexeme>)

  const START := Machine(Init, "", true, true, None, 0, [])

  predicate IsValueStart(t: Token) {
    !t.EndObject? && !t.EndArray? && !t.KeyValue?
  }

  function MemberPrefix(m: Machine): seq<Lexeme> {
    Separator(m.firstMember) + [Quoted(m.pendingKey), Colon]
  }

  /** What happens once a member value or an array item is assembled. */
  function Complete(o: Options, m: Machine, value: Json): Machine {
    if m.mode == InValue then
      m.(out := m.out + MemberPrefix(m) + Lexemes(value), firstMember := false, mode := Members)
    else
      match o.mapItem(value)
      case None => m.(mode := Items)
      case Some(mapped) =>
        m.(out := m.out + Separator(m.firstItem) + Lexemes(mapped), firstItem := false, mode := Items)
  }

  function ConsumeValue(o: Options, m: Machine, t: Token): Result<Machine> {
    if m.assembler.None? && !IsValueStart(t) then Err("expected a value")
    else
      var a := Consume(if m.assembler.None? then FRESH_ASSEMBLER else m.assembler.value, t);
      var depth := (if m.assembler.None? then 0 else m.valueDepth) + Nests(t);
      if depth == 0 then Ok(Complete(o, m.(assembler := None, valueDepth := 0), a.current))
      else Ok(m.(assembler := Some(a), valueDepth := depth))
  }

  function Step(o: Options, m: Machine, t: Token): Result<Machine> {
    match m.mode
    case Init =>
      if t != StartObject then Err("expected a JSON object as response root")
      else Ok(m.(out := m.out + [LBrace], mode := Members))
    case Members =>
      if t.KeyValue? then Ok(m.(pendingKey := t.key, mode := InValue, assembler := None))
      else if t.EndObject? then Ok(m.(out := m.out + [RBrace], mode := Done))
      else Err("unexpected token in object")
    case InValue =>
      if m.assembler.None? && m.pendingKey == o.arrayField && t.StartArray? then
        Ok(m.(out := m.out + MemberPrefix(m) + [LBracket], firstMember := false, mode := Items, firstItem := true))
      else ConsumeValue(o, m, t)
    case Items =>
      if m.assembler.None? && t.EndArray? then Ok(m.(out := m.out + [RBracket], mode := Members))
      else ConsumeValue(o, m, t)
    case Done => Err("unexpected token after JSON root")
  }

  /** Tokens that cannot come next: a root that is no object, no key or end in an object, no value where one is due. */
  predicate Unexpected(m: Machine, t: Token) {
    || (m.mode == Init && t != StartObject)
    || (m.mode == Members && !t.KeyValue? && t != EndObject)
    || (m.mode == InValue && m.assembler.None? && (t.KeyValue? || t == EndObject || t == EndArray))
    || (m.mode == Items && m.assembler.None? && (t.KeyValue? || t == EndObject))
    || m.mode == Done
  }

  /** Exactly these tokens are rejected. */
  lemma RejectedIff(o: Options, m: Machine, t: Token)
    ensures Step(o, m, t).Err? <==> Unexpected(m, t)
  {
  }

  function Run(o: Options, m: Machine, ts: seq<Token>): Result<Machine> {
    if ts == [] then Ok(m)
    else
      match Run(o, m, ts[..|ts| - 1])
      case Ok(before) => Step(o, before, ts[|ts| - 1])
      case Err(e) => Err(e)
  }

  lemma {:induction false} RunConcat(o: Options, m: Machine, s: seq<Token>, t: seq<Token>)
    ensures Run(o, m, s + t) == match Run(o, m, s) case Ok(mid) => Run(o, mid, t) case Err(e) => Err(e)
  {
    if t == [] {
      assert s + t == s;
    } else {
      assert (s + t)[..|s + t| - 1] == s + t[..|t| - 1];
      RunConcat(o, m, s, t[..|t| - 1]);
    }
  }

  lemma RunOne(o: Options, m: Machine, t: Token)
    ensures Run(o, m, [t]) == Step(o, m, t)
  {
    assert [t][..0] == [];
  }

  /** While a container is open, tokens only move the assembler and the counter. */
  lemma {:induction false} RunInside(o: Options, m: Machine, ts: seq<Token>)
    requires (m.mode == InValue || m.mode == Items) && m.assembler.Some?
    requires Above(1 - m.valueDepth, ts)
    ensures Run(o, m, ts) == Ok(Inside(m, ts))
  {
    if ts != [] {
      AbovePrefix(1 - m.valueDepth, ts);
      RunInside(o, m, ts[..|ts| - 1]);
      RunInsideNext(o, m, ts);
    }
  }

  lemma RunInsideNext(o: Options, m: Machine, ts: seq<Token>)
    requires (m.mode == InValue || m.mode == Items) && m.assembler.Some? && ts != []
    requires m.valueDepth + Nesting(ts[..|ts| - 1]) + Nests(ts[|ts| - 1]) >= 1
    requires Run(o, m, ts[..|ts| - 1]) == Ok(Inside(m, ts[..|ts| - 1]))
    ensures Run(o, m, ts) == Ok(Inside(m, ts))
  {
    InsideSnoc(m, ts);
    RunStepInside(o, m, ts, Inside(m, ts[..|ts| - 1]));
  }

  function Fed(m: Machine, t: Token): Machine
    requires m.assembler.Some?
  {
    m.(assembler := Some(Consume(m.assembler.value, t)), valueDepth := m.valueDepth + Nests(t))
  }

  lemma InsideSnoc(m: Machine, ts: seq<Token>)
    requires m.assembler.Some? && ts != []
    ensures Inside(m, ts) == Fed(Inside(m, ts[..|ts| - 1]), ts[|ts| - 1])
  {
  }

  lemma RunStepInside(o: Options, m: Machine, ts: seq<Token>, before: Machine)
    requires ts != [] && Run(o, m, ts[..|ts| - 1]) == Ok(before)
    requires (before.mode == InValue || before.mode == Items) && before.assembler.Some?
    requires before.valueDepth + Nests(ts[|ts| - 1]) >= 1
    ensures Run(o, m, ts) == Ok(Fed(before, ts[|ts| - 1]))
  {
    StepInside(o, before, ts[|ts| - 1]);
    RunStep(o, m, ts, before);
  }

  lemma AbovePrefix(floor: int, ts: seq<Token>)
    requires Above(floor, ts) && ts != []
    ensures Above(floor, ts[..|ts| - 1])
    ensures Nesting(ts[..|ts| - 1]) + Nests(ts[|ts| - 1]) >= floor
  {
    var init := ts[..|ts| - 1];
    forall k | 0 <= k <= |init| ensures Nesting(init[..k]) >= floor {
      assert init[..k] == ts[..k];
    }
    assert ts[..|ts|] == ts;
  }

  lemma RunStep(o: Options, m: Machine, ts: seq<Token>, before: Machine)
    requires ts != [] && Run(o, m, ts[..|ts| - 1]) == Ok(before)
    ensures Run(o, m, ts) == Step(o, before, ts[|ts| - 1])
  {
  }

  function Inside(m: Machine, ts: seq<Token>): Machine
    requires m.assembler.Some?
  {
    m.(assembler := Some(ConsumeAll(m.assembler.value, ts)), valueDepth := m.valueDepth + Nesting(ts))
  }

  lemma StepInside(o: Options, m: Machine, t: Token)
    requires (m.mode == InValue || m.mode == Items) && m.assembler.Some? && m.valueDepth + Nests(t) >= 1
    ensures Step(o, m, t) == Ok(Fed(m, t))
  {
  }

  /** The machine while one value is assembled, and after a scalar. */
  lemma RunScalar(o: Options, m: Machine, t: Token)
    requires (m.mode == InValue || m.mode == Items) && m.assembler.None? && m.valueDepth == 0
    requires IsValueStart(t) && Nests(t) == 0
    ensures Run(o, m, [t]) == Ok(Complete(o, m, Consume(FRESH_ASSEMBLER, t).current))
  {
    RunOne(o, m, t);
    assert m.(assembler := None, valueDepth := 0) == m;
  }

  lemma RunContainer(o: Options, m: Machine, open: Token, inner: seq<Token>, close: Token)
    requires (m.mode == InValue || m.mode == Items) && m.assembler.None? && m.valueDepth == 0
    requires Nests(open) == 1 && Nests(close) == -1 && Above(0, inner) && Nesting(inner) == 0
    requires m.mode == InValue && m.pendingKey == o.arrayField ==> !open.StartArray?
    ensures Run(o, m, [open] + inner + [close])
         == Ok(Complete(o, m, ConsumeAll(FRESH_ASSEMBLER, [open] + inner + [close]).current))
  {
    var entered := m.(assembler := Some(Consume(FRESH_ASSEMBLER, open)), valueDepth := 1);
    RunOne(o, m, open);
    assert Above(1 - entered.valueDepth, inner);
    RunInside(o, entered, inner);
    var last := entered.(assembler := Some(ConsumeAll(entered.assembler.value, inner)));
    RunOne(o, last, close);
    RunConcat(o, m, [open], inner);
    RunConcat(o, m, [open] + inner, [close]);
    ConsumeFramed(FRESH_ASSEMBLER, open, inner, close);
    assert last.(assembler := None, valueDepth := 0) == m;
  }

  /** One whole value, as a member value or as an item, completes exactly once with the assembled value. */
  lemma {:induction false} RunValue(o: Options, m: Machine, v: Json)
    requires (m.mode == InValue || m.mode == Items) && m.assembler.None? && m.valueDepth == 0
    requires m.mode == InValue && m.pendingKey == o.arrayField ==> !v.Array?
    ensures Run(o, m, Tokens(v)) == Ok(Complete(o, m, Assembled(v)))
  {
    ConsumeTokens(FRESH_ASSEMBLER, v);
    match v
    case Array(items) =>
      ItemsBoundary(items);
      RunContainer(o, m, StartArray, ItemTokens(items), EndArray);
    case Object(members) =>
      MembersBoundary(members);
      RunContainer(o, m, StartObject, MemberTokens(members), EndObject);
    case _ =>
      RunScalar(o, m, Tokens(v)[0]);
  }

  // ---------------------------------------------------------------- the simple form

  /** The items kept by the filter, transformed, in order. */
  function MappedItems(o: Options, items: seq<Json>): seq<Json> {
    if items == [] then []
    else
      (match o.mapItem(Assembled(items[0])) case Some(mapped) => [mapped] case None => [])
      + MappedItems(o, items[1..])
  }

  function FilteredMember(o: Options, m: Entry<Json>): Entry<Json> {
    if m.key == o.arrayField && m.value.Array? then Entry(m.key, Array(MappedItems(o, m.value.items)))
    else Entry(m.key, Assembled(m.value))
  }

  /** Parse the whole object, filter one array field, keep every other member. */
  function FilteredMembers(o: Options, members: seq<Entry<Json>>): seq<Entry<Json>> {
    if members == [] then [] else [FilteredMember(o, members[0])] + FilteredMembers(o, members[1..])
  }

  // ---------------------------------------------------------------- refinement

  /** Items are filtered one by one, with separators only between the items kept. */
  lemma {:induction false} RunItems(o: Options, m: Machine, items: seq<Json>)
    requires m.mode == Items && m.assembler.None? && m.valueDepth == 0
    ensures Run(o, m, ItemTokens(items)) ==
            Ok(m.(out := m.out + ItemLexemes(m.firstItem, MappedItems(o, items)),
                  firstItem := m.firstItem && MappedItems(o, items) == []))
    decreases items
  {
    if items == [] {
      assert m.out + [] == m.out;
    } else {
      var next := Complete(o, m, Assembled(items[0]));
      RunValue(o, m, items[0]);
      RunItems(o, next, items[1..]);
      RunConcat(o, m, Tokens(items[0]), ItemTokens(items[1..]));
      ItemsText(o, m, items);
    }
  }

  lemma ItemsText(o: Options, m: Machine, items: seq<Json>)
    requires m.mode == Items && items != []
    ensures var next, rest := Complete(o, m, Assembled(items[0])), MappedItems(o, items[1..]);
            && next == m.(out := next.out, firstItem := next.firstItem)
            && next.out + ItemLexemes(next.firstItem, rest) == m.out + ItemLexemes(m.firstItem, MappedItems(o, items))
            && (next.firstItem && rest == [] <==> m.firstItem && MappedItems(o, items) == [])
  {
    var rest := MappedItems(o, items[1..]);
    match o.mapItem(Assembled(items[0]))
    case None =>
      assert [] + rest == rest;
    case Some(mapped) =>
      ItemLexemesCons(m.firstItem, mapped, rest);
      Regroup(m.out, Separator(m.firstItem), Lexemes(mapped), ItemLexemes(false, rest));
  }

  /** The fields that carry over from one member to the next. */
  predicate BetweenMembers(m: Machine) {
    m.mode == Members && m.assembler.None? && m.valueDepth == 0
  }

  lemma {:induction false} RunMember(o: Options, m: Machine, e: Entry<Json>) returns (after: Machine)
    requires BetweenMembers(m)
    ensures Run(o, m, [KeyValue(e.key)] + Tokens(e.value)) == Ok(after)
    ensures BetweenMembers(after) && !after.firstMember
    ensures after.out == m.out + MemberLexemes(m.firstMember, [FilteredMember(o, e)])
  {
    var keyed := m.(pendingKey := e.key, mode := InValue);
    RunOne(o, m, KeyValue(e.key));
    RunConcat(o, m, [KeyValue(e.key)], Tokens(e.value));
    if e.key == o.arrayField && e.value.Array? {
      after := RunTargetArray(o, keyed, e.value.items);
    } else {
      RunValue(o, keyed, e.value);
      after := Complete(o, keyed, Assembled(e.value));
    }
    OneMemberLexemes(keyed, FilteredMember(o, e));
  }

  lemma OneMemberLexemes(m: Machine, e: Entry<Json>)
    requires m.pendingKey == e.key
    ensures m.out + MemberPrefix(m) + Lexemes(e.value) == m.out + MemberLexemes(m.firstMember, [e])
  {
    MemberLexemesCons(m.firstMember, e.key, e.value, []);
    assert [Entry(e.key, e.value)] + [] == [e];
  }

  lemma RunTargetArray(o: Options, keyed: Machine, items: seq<Json>) returns (after: Machine)
    requires keyed.mode == InValue && keyed.pendingKey == o.arrayField && keyed.assembler.None? && keyed.valueDepth == 0
    ensures Run(o, keyed, Tokens(Array(items))) == Ok(after)
    ensures BetweenMembers(after) && !after.firstMember
    ensures after.out == keyed.out + MemberPrefix(keyed) + Lexemes(Array(MappedItems(o, items)))
  {
    var kept := MappedItems(o, items);
    var inside :=
      keyed.(out := keyed.out + MemberPrefix(keyed) + [LBracket], firstMember := false, mode := Items, firstItem :=
        true);
    var filled := inside.(out := inside.out + ItemLexemes(true, kept), firstItem := kept == []);
    after := filled.(out := filled.out + [RBracket], mode := Members);
    RunOne(o, keyed, StartArray);
    RunItems(o, inside, items);
    RunOne(o, filled, EndArray);
    RunTwo(o, keyed, [StartArray], inside, ItemTokens(items), filled);
    RunTwo(o, keyed, [StartArray] + ItemTokens(items), filled, [EndArray], after);
    BracketText(keyed.out + MemberPrefix(keyed), ItemLexemes(true, kept));
  }

  lemma BracketText(front: seq<Lexeme>, items: seq<Lexeme>)
    ensures front + [LBracket] + items + [RBracket] == front + ([LBracket] + items + [RBracket])
  {
    Regroup(front, [LBracket], items, [RBracket]);
  }

  lemma {:induction false} RunMembers(o: Options, m: Machine, members: seq<Entry<Json>>) returns (after: Machine)
    requires BetweenMembers(m)
    ensures Run(o, m, MemberTokens(members)) == Ok(after)
    ensures BetweenMembers(after)
    ensures after.out == m.out + MemberLexemes(m.firstMember, FilteredMembers(o, members))
    decreases members
  {
    if members == [] {
      after := m;
      assert m.out + [] == m.out;
    } else {
      var first := RunMember(o, m, members[0]);
      after := RunMembers(o, first, members[1..]);
      RunTwo(o, m, [KeyValue(members[0].key)] + Tokens(members[0].value), first, MemberTokens(members[1..]), after);
      MembersText(o, m.out, m.firstMember, members);
    }
  }

  lemma RunTwo(o: Options, m: Machine, s: seq<Token>, mid: Machine, t: seq<Token>, end: Machine)
    requires Run(o, m, s) == Ok(mid) && Run(o, mid, t) == Ok(end)
    ensures Run(o, m, s + t) == Ok(end)
  {
    RunConcat(o, m, s, t);
  }

  lemma MembersText(o: Options, out: seq<Lexeme>, first: bool, members: seq<Entry<Json>>)
    requires members != []
    ensures out + MemberLexemes(first, [FilteredMember(o, members[0])])
            + MemberLexemes(false, FilteredMembers(o, members[1..]))
         == out + MemberLexemes(first, FilteredMembers(o, members))
  {
    MemberLexemesConcat(first, [FilteredMember(o, members[0])], FilteredMembers(o, members[1..]));
  }

  /**
   * The token machine refines the simple form: for every object, field name and `mapItem`, the
   * machine accepts the whole token stream, ends in `done`, and has emitted exactly the
   * serialization of the filtered object.
   */
  lemma FilterRefines(o: Options, members: seq<Entry<Json>>)
    ensures var r := Run(o, START, Tokens(Object(members)));
            r.Ok? && r.value.mode == Done && r.value.out == Lexemes(Object(FilteredMembers(o, members)))
  {
    var inside := START.(out := [LBrace], mode := Members);
    assert START.out + [LBrace] == [LBrace];
    RunOne(o, START, StartObject);
    var after := RunMembers(o, inside, members);
    RunConcat(o, START, [StartObject], MemberTokens(members));
    RunOne(o, after, EndObject);
    RunConcat(o, START, [StartObject] + MemberTokens(members), [EndObject]);
  }

  /** A reader of the output recovers the filtered object, member by member. */
  lemma FilterReadsBack(o: Options, members: seq<Entry<Json>>)
    ensures Run(o, START, Tokens(Object(members))).Ok?
    ensures Read(Run(o, START, Tokens(Object(members))).value.out) == Parsed(Object(FilteredMembers(o, members)), [])
  {
    FilterRefines(o, members);
    var v := Object(FilteredMembers(o, members));
    ReadLexemes(v, []);
    assert Lexemes(v) + [] == Lexemes(v);
  }

  /**
   * Without repeated keys, the members come out in the same order under the same keys, and a
   * member that is not the target array comes out unchanged: nested arrays of the same name and
   * a non-array value under it included.
   */
  lemma {:induction false} OthersUnchanged(o: Options, members: seq<Entry<Json>>, i: nat)
    requires i < |members|
    ensures |FilteredMembers(o, members)| == |members| && FilteredMembers(o, members)[i].key == members[i].key
    ensures DistinctKeys(members[i].value) && !(members[i].key == o.arrayField && members[i].value.Array?)
            ==> FilteredMembers(o, members)[i] == members[i]
    ensures members[i].key == o.arrayField && members[i].value.Array?
            ==> FilteredMembers(o, members)[i].value == Array(MappedItems(o, members[i].value.items))
  {
    FilteredLength(o, members);
    if i == 0 {
      if DistinctKeys(members[0].value) {
        AssembledDistinct(members[0].value);
      }
    } else {
      OthersUnchanged(o, members[1..], i - 1);
      assert members[1..][i - 1] == members[i];
    }
  }

  lemma {:induction false} FilteredLength(o: Options, members: seq<Entry<Json>>)
    ensures |FilteredMembers(o, members)| == |members|
  {
    if members != [] {
      FilteredLength(o, members[1..]);
    }
  }

  // ---------------------------------------------------------------- truncation

  /** The text emitted so far is open exactly as deep as the mode says. */
  predicate DepthMatchesMode(m: Machine) {
    match m.mode
    case Init => m.out == []
    case Members => Depth(m.out) == 1
    case InValue => Depth(m.out) == 1
    case Items => Depth(m.out) == 2
    case Done => Depth(m.out) == 0
  }

  lemma StepDepth(o: Options, m: Machine, t: Token)
    requires DepthMatchesMode(m) && Step(o, m, t).Ok?
    ensures DepthMatchesMode(Step(o, m, t).value)
  {
    if m.mode == Init || m.mode == Members {
      PushDepth(m.out, LBrace);
      PushDepth(m.out, RBrace);
    } else if m.assembler.None? && t.EndArray? && m.mode == Items {
      PushDepth(m.out, RBracket);
    } else if m.assembler.None? && m.mode == InValue && m.pendingKey == o.arrayField && t.StartArray? {
      PrefixDepth(m);
      PushDepth(m.out + MemberPrefix(m), LBracket);
    } else {
      var idle := if m.assembler.None? then FRESH_ASSEMBLER else m.assembler.value;
      CompleteDepth(o, m.(assembler := None, valueDepth := 0), Consume(idle, t).current);
    }
  }

  lemma PushDepth(out: seq<Lexeme>, l: Lexeme)
    ensures Depth(out + [l]) == Depth(out) + Depth([l])
    ensures Depth([LBrace]) == 1 && Depth([LBracket]) == 1 && Depth([RBrace]) == -1 && Depth([RBracket]) == -1
  {
    DepthConcat(out, [l]);
  }

  lemma PrefixDepth(m: Machine)
    ensures Depth(m.out + MemberPrefix(m)) == Depth(m.out)
  {
    DepthConcat(m.out, MemberPrefix(m));
    DepthConcat(Separator(m.firstMember), [Quoted(m.pendingKey), Colon]);
    DepthConcat([Quoted(m.pendingKey)], [Colon]);
    assert [Quoted(m.pendingKey)] + [Colon] == [Quoted(m.pendingKey), Colon];
  }

  lemma CompleteDepth(o: Options, m: Machine, value: Json)
    requires m.mode == InValue || m.mode == Items
    requires DepthMatchesMode(m)
    ensures DepthMatchesMode(Complete(o, m, value))
  {
    if m.mode == InValue {
      PrefixDepth(m);
      ValueDepth(value);
      DepthConcat(m.out + MemberPrefix(m), Lexemes(value));
    } else {
      match o.mapItem(value)
      case None =>
      case Some(mapped) =>
        ValueDepth(mapped);
        DepthConcat(m.out, Separator(m.firstItem));
        DepthConcat(m.out + Separator(m.firstItem), Lexemes(mapped));
    }
  }

  lemma {:induction false} RunDepth(o: Options, ts: seq<Token>)
    requires Run(o, START, ts).Ok?
    ensures DepthMatchesMode(Run(o, START, ts).value)
  {
    if ts != [] {
      RunDepth(o, ts[..|ts| - 1]);
      StepDepth(o, Run(o, START, ts[..|ts| - 1]).value, ts[|ts| - 1]);
    }
  }

  /** For every token stream whatsoever: only a run that is `done` has emitted a complete document. */
  lemma CompleteOnlyWhenDone(o: Options, ts: seq<Token>)
    requires Run(o, START, ts).Ok? && IsDocument(Run(o, START, ts).value.out)
    ensures Run(o, START, ts).value.mode == Done
  {
    RunDepth(o, ts);
    DocumentDepth(Run(o, START, ts).value.out);
  }

  /**
   * Truncation: after a strict prefix of an object's tokens the machine has failed nowhere, is not
   * `done`, and its output is not a complete document.
   */
  lemma TruncatedNeverDone(o: Options, members: seq<Entry<Json>>, k: nat)
    requires k < |Tokens(Object(members))|
    ensures Run(o, START, Tokens(Object(members))[..k]).Ok?
    ensures Run(o, START, Tokens(Object(members))[..k]).value.mode != Done
    ensures !IsDocument(Run(o, START, Tokens(Object(members))[..k]).value.out)
  {
    var ts := Tokens(Object(members));
    FilterRefines(o, members);
    PrefixNotDone(o, ts, k);
    if IsDocument(Run(o, START, ts[..k]).value.out) {
      CompleteOnlyWhenDone(o, ts[..k]);
    }
  }

  lemma PrefixNotDone(o: Options, ts: seq<Token>, k: nat)
    requires Run(o, START, ts).Ok? && k < |ts|
    ensures Run(o, START, ts[..k]).Ok? && Run(o, START, ts[..k]).value.mode != Done
  {
    var next, rest := [ts[k]], ts[k + 1..];
    assert ts == ts[..k] + (next + rest);
    RunConcat(o, START, ts[..k], next + rest);
    var mid := Run(o, START, ts[..k]).value;
    RunConcat(o, mid, next, rest);
    RunOne(o, mid, ts[k]);
  }

  /** A token after the root object, and a root that is not an object, are rejected. */
  lemma OnlyOneRoot(o: Options, members: seq<Entry<Json>>, t: Token, rest: seq<Token>, v: Json)
    ensures Run(o, START, Tokens(Object(members)) + [t] + rest).Err?
    ensures !v.Object? ==> Run(o, START, Tokens(v) + rest).Err?
  {
    var ts := Tokens(Object(members));
    FilterRefines(o, members);
    DoneRejects(o, Run(o, START, ts).value, t);
    ErrorsStay(o, START, ts, [t]);
    ErrorsStay(o, START, ts + [t], rest);
    if !v.Object? {
      var all := Tokens(v) + rest;
      assert all == [all[0]] + all[1..];
      RunOne(o, START, all[0]);
      ErrorsStay(o, START, [all[0]], all[1..]);
    }
  }

  lemma DoneRejects(o: Options, m: Machine, t: Token)
    requires m.mode == Done
    ensures Run(o, m, [t]).Err?
  {
    RunOne(o, m, t);
  }

  /** A run fails when its first part does, or its second part from there. */
  lemma ErrorsStay(o: Options, m: Machine, s: seq<Token>, t: seq<Token>)
    requires Run(o, m, s).Err? || Run(o, Run(o, m, s).value, t).Err?
    ensures Run(o, m, s + t).Err?
  {
    RunConcat(o, m, s, t);
  }

  // ---------------------------------------------------------------- the transform object

  /** The transform as the stream calls it: one `ProcessToken` per token, then `Flush`. */
  class JsonArrayFilterTransform {
    const options: Options
    var mode: Mode
    var pendingKey: string
    var firstMember: bool
    var firstItem: bool
    var assembler: Option<Assembler>
    var valueDepth: int
    var out: seq<Lexeme>

    ghost function State(): Machine
      reads this
    {
      Machine(mode, pendingKey, firstMember, firstItem, assembler, valueDepth, out)
    }

    constructor (options: Options)
      ensures this.options == options && State() == START
    {
      this.options := options;
      mode, pendingKey, firstMember, firstItem := Init, "", true, true;
      assembler, valueDepth, out := None, 0, [];
    }

    method Push(ls: seq<Lexeme>)
      modifies this`out
      ensures out == old(out) + ls
    {
      out := out + ls;
    }

    method PushMemberPrefix()
      modifies this`out, this`firstMember
      ensures out == old(out) + Separator(old(firstMember)) && !firstMember
    {
      if !firstMember {
        Push([Comma]);
      }
      firstMember := false;
    }

    /** Emit the assembled member value, or the item if `mapItem` keeps it. */
    method OnComplete(value: Json)
      requires mode == InValue || mode == Items
      modifies this
      ensures State() == Complete(options, old(State()), value)
    {
      if mode == InValue {
        PushMemberPrefix();
        Push([Quoted(pendingKey), Colon]);
        Push(Lexemes(value));
        mode := Members;
      } else {
        var mapped := options.mapItem(value);
        if mapped.Some? {
          if !firstItem {
            Push([Comma]);
          }
          Push(Lexemes(mapped.value));
          firstItem := false;
        }
        mode := Items;
      }
    }

    /** Feed a token into the assembler; on completion emit the member or the mapped item. */
    method ConsumeValueToken(t: Token) returns (r: Result<()>)
      requires mode == InValue || mode == Items
      modifies this
      ensures match ConsumeValue(options, old(State()), t)
              case Ok(m) => r == Ok(()) && State() == m
              case Err(e) => r == Err(e) && State() == old(State())
    {
      if assembler.None? {
        if !IsValueStart(t) {
          return Err("expected a value");
        }
        assembler := Some(FRESH_ASSEMBLER);
        valueDepth := 0;
      }
      var a := Consume(assembler.value, t);
      assembler := Some(a);
      if t.StartObject? || t.StartArray? {
        valueDepth := valueDepth + 1;
      } else if t.EndObject? || t.EndArray? {
        valueDepth := valueDepth - 1;
      }
      if valueDepth == 0 {
        assembler := None;
        OnComplete(a.current);
      }
      return Ok(());
    }

    method ProcessToken(t: Token) returns (r: Result<()>)
      modifies this
      ensures match Step(options, old(State()), t)
              case Ok(m) => r == Ok(()) && State() == m
              case Err(e) => r == Err(e) && State() == old(State())
    {
      match mode
      case Init =>
        if !t.StartObject? {
          return Err("expected a JSON object as response root");
        }
        Push([LBrace]);
        mode := Members;
        return Ok(());
      case Members =>
        if t.KeyValue? {
          pendingKey := t.key;
          mode := InValue;
          assembler := None;
          return Ok(());
        }
        if t.EndObject? {
          Push([RBrace]);
          mode := Done;
          return Ok(());
        }
        return Err("unexpected token in object");
      case InValue =>
        if assembler.None? && pendingKey == options.arrayField && t.StartArray? {
          PushMemberPrefix();
          Push([Quoted(pendingKey), Colon]);
          Push([LBracket]);
          mode := Items;
          firstItem := true;
          return Ok(());
        }
        r := ConsumeValueToken(t);
      case Items =>
        if assembler.None? && t.EndArray? {
          Push([RBracket]);
          mode := Members;
          return Ok(());
        }
        r := ConsumeValueToken(t);
      case Done =>
        return Err("unexpected token after JSON root");
    }

    /** The end of the input is an error unless the root object was closed. */
    method Flush() returns (r: Result<()>)
      ensures r.Ok? <==> mode == Done
    {
      if mode != Done {
        return Err("unexpected end of JSON stream");
      }
      return Ok(());
    }
  }

  /**
   * The whole pipeline over the tokens of an upstream body: an object comes out filtered, and a
   * truncated one is an error, whatever was emitted before the end.
   */
  method Transform(options: Options, tokens: seq<Token>) returns (r: Result<seq<Lexeme>>)
    ensures match Run(options, START, tokens)
            case Ok(m) => (r.Ok? <==> m.mode == Done) && (r.Ok? ==> r.value == m.out)
            case Err(_) => r.Err?
  {
    var transform := new JsonArrayFilterTransform(options);
    var i := 0;
    while i < |tokens|
      invariant 0 <= i <= |tokens|
      invariant transform.options == options
      invariant Run(options, START, tokens[..i]) == Ok(transform.State())
    {
      RunNext(options, tokens, i);
      var step := transform.ProcessToken(tokens[i]);
      if step.Err? {
        return Err(step.message);
      }
      i := i + 1;
    }
    assert tokens[..i] == tokens;
    var flushed := transform.Flush();
    if flushed.Err? {
      return Err(flushed.message);
    }
    return Ok(transform.out);
  }

  /** A run goes on with the next token, and a failed token fails the whole run. */
  lemma RunNext(o: Options, tokens: seq<Token>, i: nat)
    requires i < |tokens| && Run(o, START, tokens[..i]).Ok?
    ensures Run(o, START, tokens[..i + 1]) == Step(o, Run(o, START, tokens[..i]).value, tokens[i])
    ensures Run(o, START, tokens[..i + 1]).Err? ==> Run(o, START, tokens).Err?
  {
    assert tokens[..i + 1][..i] == tokens[..i];
    RunConcat(o, START, tokens[..i + 1], tokens[i + 1..]);
    assert tokens == tokens[..i + 1] + tokens[i + 1..];
  }
}
