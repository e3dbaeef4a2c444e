/**
 * The JSON text of a permission configuration. The service takes two configurations for equal when
 * their texts are (src/permissions/rules/rules.service.ts:342-347); here is why that is sound.
 */
module ConfigText {
  import opened Wrappers
  import opened JsObject
  import opened Json
  import opened JsonText
  import opened RulesConfig

  /** A rule as an object, without the fields it does not have. */
  function RuleMembers(r: Rule): seq<Entry<Json>> {
    var start := Put(Put([], "action", String(r.action)), "subject", String(r.subject));
    var conditioned := if r.conditions == "" then start else Put(start, "conditions", String(r.conditions));
    var signed := if r.inverted then Put(conditioned, "inverted", Bool(true)) else conditioned;
    if r.reason.None? then signed else Put(signed, "reason", String(r.reason.value))
  }

  function RulesJson(rules: seq<Rule>): seq<Json> {
    if rules == [] then [] else [Object(RuleMembers(rules[0]))] + RulesJson(rules[1..])
  }

  function SectionJson(section: Section): Json {
    match section
    case Rules(rules) => Array(RulesJson(rules))
    case OneRule(rule) => Object(RuleMembers(rule))
    case NullSection => Null
    case Malformed(text) => String(text)
  }

  function ConfigMembers(config: Config): seq<Entry<Json>> {
    if config == [] then [] else [Entry(config[0].key, SectionJson(config[0].value))] + ConfigMembers(config[1..])
  }

  /** `JSON.stringify` of a configuration. */
  function Serialized(config: Config): string {
    Stringify(Object(ConfigMembers(config)))
  }

  // ---------------------------------------------------------------- what the text tells

  lemma GetRuleMember(r: Rule, key: string)
    ensures Get(RuleMembers(r), key)
         == if key == "action" then Some(String(r.action))
            else if key == "subject" then Some(String(r.subject))
            else if key == "conditions" && r.conditions != "" then Some(String(r.conditions))
            else if key == "inverted" && r.inverted then Some(Bool(true))
            else if key == "reason" && r.reason.Some? then Some(String(r.reason.value))
            else None
  {
    var start := Put(Put([], "action", String(r.action)), "subject", String(r.subject));
    var conditioned := if r.conditions == "" then start else Put(start, "conditions", String(r.conditions));
    var signed := if r.inverted then Put(conditioned, "inverted", Bool(true)) else conditioned;
    GetPut([], "action", String(r.action), key);
    GetPut(Put([], "action", String(r.action)), "subject", String(r.subject), key);
    GetPut(start, "conditions", String(r.conditions), key);
    GetPut(conditioned, "inverted", Bool(true), key);
    if r.reason.Some? {
      GetPut(signed, "reason", String(r.reason.value), key);
    }
  }

  lemma RuleInjective(a: Rule, b: Rule)
    requires RuleMembers(a) == RuleMembers(b)
    ensures a == b
  {
    GetRuleMember(a, "action");
    GetRuleMember(b, "action");
    GetRuleMember(a, "subject");
    GetRuleMember(b, "subject");
    GetRuleMember(a, "conditions");
    GetRuleMember(b, "conditions");
    GetRuleMember(a, "inverted");
    GetRuleMember(b, "inverted");
    GetRuleMember(a, "reason");
    GetRuleMember(b, "reason");
  }

  lemma {:induction false} RulesInjective(a: seq<Rule>, b: seq<Rule>)
    requires RulesJson(a) == RulesJson(b)
    ensures a == b
  {
    if a != [] && b != [] {
      assert RulesJson(a)[0] == RulesJson(b)[0] && RulesJson(a)[1..] == RulesJson(b)[1..];
      RuleInjective(a[0], b[0]);
      RulesInjective(a[1..], b[1..]);
      assert a == [a[0]] + a[1..] && b == [b[0]] + b[1..];
    }
  }

  lemma SectionInjective(a: Section, b: Section)
    requires SectionJson(a) == SectionJson(b)
    ensures a == b
  {
    if a.Rules? && b.Rules? {
      RulesInjective(a.rules, b.rules);
    } else if a.OneRule? && b.OneRule? {
      RuleInjective(a.rule, b.rule);
    }
  }

  lemma {:induction false} MembersInjective(a: Config, b: Config)
    requires ConfigMembers(a) == ConfigMembers(b)
    ensures a == b
  {
    if a != [] && b != [] {
      assert ConfigMembers(a)[0] == ConfigMembers(b)[0] && ConfigMembers(a)[1..] == ConfigMembers(b)[1..];
      SectionInjective(a[0].value, b[0].value);
      MembersInjective(a[1..], b[1..]);
      assert a == [a[0]] + a[1..] && b == [b[0]] + b[1..];
    }
  }

  lemma RuleHasNoNumbers(r: Rule)
    ensures ValidNumbersInMembers(RuleMembers(r))
  {
    var start := Put(Put([], "action", String(r.action)), "subject", String(r.subject));
    var conditioned := if r.conditions == "" then start else Put(start, "conditions", String(r.conditions));
    var signed := if r.inverted then Put(conditioned, "inverted", Bool(true)) else conditioned;
    PutNumbers([], "action", String(r.action));
    PutNumbers(Put([], "action", String(r.action)), "subject", String(r.subject));
    PutNumbers(start, "conditions", String(r.conditions));
    PutNumbers(conditioned, "inverted", Bool(true));
    if r.reason.Some? {
      PutNumbers(signed, "reason", String(r.reason.value));
    }
  }

  lemma {:induction false} RulesHaveNoNumbers(rules: seq<Rule>)
    ensures ValidNumbersInItems(RulesJson(rules))
  {
    if rules != [] {
      RuleHasNoNumbers(rules[0]);
      RulesHaveNoNumbers(rules[1..]);
      assert RulesJson(rules)[1..] == RulesJson(rules[1..]);
    }
  }

  lemma {:induction false} ConfigHasNoNumbers(config: Config)
    ensures ValidNumbersInMembers(ConfigMembers(config))
  {
    if config != [] {
      var section := config[0].value;
      if section.Rules? {
        RulesHaveNoNumbers(section.rules);
      } else if section.OneRule? {
        RuleHasNoNumbers(section.rule);
      }
      assert ValidNumbers(SectionJson(section));
      ConfigHasNoNumbers(config[1..]);
      assert ConfigMembers(config)[1..] == ConfigMembers(config[1..]);
    }
  }

  /** Two configurations with the same text are the same, section by section and rule by rule. */
  lemma SerializedInjective(a: Config, b: Config)
    requires Serialized(a) == Serialized(b)
    ensures a == b
  {
    ConfigHasNoNumbers(a);
    ConfigHasNoNumbers(b);
    ParseStringify(Object(ConfigMembers(a)));
    ParseStringify(Object(ConfigMembers(b)));
    MembersInjective(a, b);
  }
}
