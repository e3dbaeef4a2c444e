/**
 * The permission configuration as data: sections of rules, legacy section keys, the managed default
 * rules and the rules a user gets (src/permissions/rules/rules.service.ts, permission.ts and
 * default-permissions.ts).
 */
module RulesConfig {
  import opened Wrappers
  import opened JsObject
  import opened Sequences

  const SYSTEM_DEFAULT_MARKER := "[system-default]"
  const ADMIN_APP_ROLE := "admin_app"
  const DEFAULT_SECTION_KEY := "_default"
  const PUBLIC_SECTION_KEY := "_public"
  const LEGACY_DEFAULT_KEY := "default"
  const LEGACY_PUBLIC_KEY := "public"
  const RESERVED_ROLE_PREFIX := "_"

  /** A CASL rule; of its conditions there is only the text. */
  datatype Rule = Rule(action: string, subject: string, conditions: string, inverted: bool, reason: Option<string>)

  /** A section as stored: an array of rules, a rule without an array around it, a null, or some text. */
  datatype Section = Rules(rules: seq<Rule>) | OneRule(rule: Rule) | NullSection | Malformed(text: string)

  type Config = seq<Entry<Section>>

  datatype User = User(id: string, name: string, roles: seq<string>, projects: seq<string>)

  // ---------------------------------------------------------------- legacy section keys

  /** `current ?? fallback` for values that may be undefined or null. */
  function Coalesce(current: Option<Section>, fallback: Option<Section>): Option<Section> {
    if current.None? || current.value.NullSection? then fallback else current
  }

  /** Move the section under one legacy key onto its current key. */
  function NormalizeKey(config: Config, legacyKey: string, currentKey: string): Config {
    var legacy := Get(config, legacyKey);
    if legacy.None? then config
    else Remove(Put(config, currentKey, Coalesce(Get(config, currentKey), legacy).value), legacyKey)
  }

  function Normalize(config: Config): Config {
    NormalizeKey(NormalizeKey(config, LEGACY_DEFAULT_KEY, DEFAULT_SECTION_KEY), LEGACY_PUBLIC_KEY, PUBLIC_SECTION_KEY)
  }

  lemma GetNormalizeKey(config: Config, legacyKey: string, currentKey: string, key: string)
    requires legacyKey != currentKey
    ensures Get(NormalizeKey(config, legacyKey, currentKey), key)
         == if key == legacyKey then None
            else if key == currentKey && Get(config, legacyKey).Some?
              then Coalesce(Get(config, currentKey), Get(config, legacyKey))
            else Get(config, key)
  {
    var legacy := Get(config, legacyKey);
    if legacy.Some? {
      var value := Coalesce(Get(config, currentKey), legacy).value;
      GetPut(config, currentKey, value, key);
      GetRemove(Put(config, currentKey, value), legacyKey, key);
    }
  }

  /**
   * Normalization key by key: legacy keys are gone, each current key holds its own section unless that
   * is absent or null and a legacy section exists, and every other section is unchanged.
   */
  lemma NormalizeGet(config: Config, key: string)
    ensures Get(Normalize(config), key)
         == if key == LEGACY_DEFAULT_KEY || key == LEGACY_PUBLIC_KEY then None
            else if key == DEFAULT_SECTION_KEY && Get(config, LEGACY_DEFAULT_KEY).Some?
              then Coalesce(Get(config, DEFAULT_SECTION_KEY), Get(config, LEGACY_DEFAULT_KEY))
            else if key == PUBLIC_SECTION_KEY && Get(config, LEGACY_PUBLIC_KEY).Some?
              then Coalesce(Get(config, PUBLIC_SECTION_KEY), Get(config, LEGACY_PUBLIC_KEY))
            else Get(config, key)
  {
    var once := NormalizeKey(config, LEGACY_DEFAULT_KEY, DEFAULT_SECTION_KEY);
    GetNormalizeKey(once, LEGACY_PUBLIC_KEY, PUBLIC_SECTION_KEY, key);
    GetNormalizeKey(config, LEGACY_DEFAULT_KEY, DEFAULT_SECTION_KEY, key);
    GetNormalizeKey(config, LEGACY_DEFAULT_KEY, DEFAULT_SECTION_KEY, LEGACY_PUBLIC_KEY);
    GetNormalizeKey(config, LEGACY_DEFAULT_KEY, DEFAULT_SECTION_KEY, PUBLIC_SECTION_KEY);
  }

  /** A config without legacy keys is left alone, entry for entry; so normalizing twice changes nothing. */
  lemma NormalizeIdempotent(config: Config)
    ensures Get(config, LEGACY_DEFAULT_KEY).None? && Get(config, LEGACY_PUBLIC_KEY).None? ==>
            Normalize(config) == config
    ensures Normalize(Normalize(config)) == Normalize(config)
  {
    NormalizeGet(config, LEGACY_DEFAULT_KEY);
    NormalizeGet(config, LEGACY_PUBLIC_KEY);
  }

  const LEGACY_SECTION_KEYS: seq<(string, string)> :=
    [(LEGACY_DEFAULT_KEY, DEFAULT_SECTION_KEY), (LEGACY_PUBLIC_KEY, PUBLIC_SECTION_KEY)]

  /** The normalization loop: collect the legacy keys in use, then rewrite a copy key by key. */
  method NormalizeSectionKeys(config: Config) returns (normalized: Config)
    ensures normalized == Normalize(config)
  {
    var inUse: seq<(string, string)> := [];
    if Get(config, LEGACY_DEFAULT_KEY).Some? {
      inUse := inUse + [LEGACY_SECTION_KEYS[0]];
    }
    if Get(config, LEGACY_PUBLIC_KEY).Some? {
      inUse := inUse + [LEGACY_SECTION_KEYS[1]];
    }
    GetNormalizeKey(config, LEGACY_DEFAULT_KEY, DEFAULT_SECTION_KEY, LEGACY_PUBLIC_KEY);
    if inUse == [] {
      return config;
    }
    normalized := config;
    var i := 0;
    while i < |inUse|
      invariant 0 <= i <= |inUse|
      invariant normalized == NormalizeKeys(config, inUse[..i])
    {
      var (legacyKey, currentKey) := inUse[i];
      assert inUse[..i + 1][..i] == inUse[..i];
      var current := Get(normalized, currentKey);
      var legacy := Get(normalized, legacyKey);
      if legacy.Some? {
        normalized :=
          Put(normalized, currentKey, if current.None? || current.value.NullSection? then legacy.value
            else current.value);
        normalized := Remove(normalized, legacyKey);
      }
      i := i + 1;
    }
    assert inUse[..i] == inUse;
    NormalizeInUse(config, inUse);
  }

  function NormalizeKeys(config: Config, keys: seq<(string, string)>): Config {
    if keys == [] then config
    else
      var last := keys[|keys| - 1];
      NormalizeKey(NormalizeKeys(config, keys[..|keys| - 1]), last.0, last.1)
  }

  lemma NormalizeInUse(config: Config, inUse: seq<(string, string)>)
    requires inUse == (if Get(config, LEGACY_DEFAULT_KEY).Some? then [LEGACY_SECTION_KEYS[0]] else [])
                      + (if Get(config, LEGACY_PUBLIC_KEY).Some? then [LEGACY_SECTION_KEYS[1]] else [])
    ensures NormalizeKeys(config, inUse) == Normalize(config)
  {
    GetNormalizeKey(config, LEGACY_DEFAULT_KEY, DEFAULT_SECTION_KEY, LEGACY_PUBLIC_KEY);
    if |inUse| == 2 {
      assert inUse[..1] == [inUse[0]] && inUse[..1][..0] == [];
      assert NormalizeKeys(config, [inUse[0]]) == NormalizeKey(config, LEGACY_DEFAULT_KEY, DEFAULT_SECTION_KEY);
    } else if |inUse| == 1 {
      assert inUse[..0] == [];
    }
  }

  // ---------------------------------------------------------------- managed default rules

  predicate Contains(text: string, part: string) {
    exists i :: 0 <= i <= |text| && part <= text[i..]
  }

  /** A rule the backend manages carries the marker in its reason. */
  predicate IsMarked(rule: Rule) {
    rule.reason.Some? && Contains(rule.reason.value, SYSTEM_DEFAULT_MARKER)
  }

  function Unmarked(rules: seq<Rule>): seq<Rule> {
    if rules == [] then []
    else (if IsMarked(rules[0]) then [] else [rules[0]]) + Unmarked(rules[1..])
  }

  function Dropped(managed: seq<Rule>, rules: seq<Rule>): seq<Rule> {
    if rules == [] then []
    else (if IsMarked(rules[0]) && rules[0] !in managed then [rules[0]] else []) + Dropped(managed, rules[1..])
  }

  predicate AllMarked(rules: seq<Rule>) {
    forall i :: 0 <= i < |rules| ==> IsMarked(rules[i])
  }

  const MANAGED_DEFAULT_RULES: seq<Rule> := [
    Rule("read", "Config",
         "{_id: {$in: [Config:CONFIG_ENTITY, Config:Permissions, Config:NotificationConfigTemplate]}}", false,
         Some(SYSTEM_DEFAULT_MARKER + " core config read access")),
    Rule("read", "SiteSettings", "", false, Some(SYSTEM_DEFAULT_MARKER + " site settings read access")),
    Rule("manage", "NotificationConfig", "{userId: ${user.id}}", false,
         Some(SYSTEM_DEFAULT_MARKER + " manage own notification config")),
    Rule("manage", "NotificationEvent", "", false, Some(SYSTEM_DEFAULT_MARKER + " manage own notification events"))
  ]

  /** Every rule of the shipped managed set carries the marker. */
  lemma ManagedSetMarked()
    ensures AllMarked(MANAGED_DEFAULT_RULES)
  {
    forall i | 0 <= i < |MANAGED_DEFAULT_RULES| ensures IsMarked(MANAGED_DEFAULT_RULES[i]) {
      var reason := MANAGED_DEFAULT_RULES[i].reason.value;
      assert reason[0..] == reason;
      assert SYSTEM_DEFAULT_MARKER <= reason;
    }
  }

  predicate TextAt(text: string, part: string, i: int) {
    0 <= i <= |text| - |part| && text[i..i + |part|] == part
  }

  /** The reason of the rule has the marker text somewhere. */
  predicate HasMarkerText(rule: Rule) {
    rule.reason.Some? &&
    exists i :: 0 <= i <= |rule.reason.value| && TextAt(rule.reason.value, "[system-default]", i)
  }

  lemma MarkedIff(rule: Rule)
    ensures IsMarked(rule) <==> HasMarkerText(rule)
  {
    if rule.reason.Some? {
      var reason, marker := rule.reason.value, "[system-default]";
      forall i | 0 <= i <= |reason| ensures TextAt(reason, marker, i) <==> marker <= reason[i..] {
        if |marker| <= |reason| - i {
          assert reason[i..i + |marker|] == reason[i..][..|marker|];
        }
      }
    }
  }

  /** Exactly the rules without the marker text are the admin's own, in their order. */
  lemma {:induction false} UnmarkedTells(rules: seq<Rule>)
    ensures Unmarked(rules) == Filter(rules, (rule: Rule) => !HasMarkerText(rule))
  {
    if rules != [] {
      var init, last := rules[..|rules| - 1], rules[|rules| - 1];
      UnmarkedTells(init);
      MarkedIff(last);
      UnmarkedConcat(init, [last]);
      assert rules == init + [last] && [last][1..] == [];
    }
  }

  /** Dropped are exactly the rules with the marker text that are not managed now. */
  lemma {:induction false} DroppedTells(managed: seq<Rule>, rules: seq<Rule>, rule: Rule)
    ensures rule in Dropped(managed, rules) <==> rule in rules && HasMarkerText(rule) && rule !in managed
  {
    if rules != [] {
      DroppedTells(managed, rules[1..], rule);
      MarkedIff(rules[0]);
      assert rules == [rules[0]] + rules[1..];
    }
  }

  datatype Merge = Merge(merged: seq<Rule>, changed: bool, dropped: seq<Rule>)

  /** A section that is not an array counts as empty. */
  function RulesOf(section: Option<Section>): seq<Rule> {
    if section.Some? && section.value.Rules? then section.value.rules else []
  }

  function MergeManagedDefaults(managed: seq<Rule>, currentDefault: Option<Section>): Merge {
    var current := RulesOf(currentDefault);
    var merged := managed + Unmarked(current);
    var given := if currentDefault.None? then Rules([]) else currentDefault.value;
    Merge(merged, given != Rules(merged), Dropped(managed, current))
  }

  lemma {:induction false} UnmarkedConcat(a: seq<Rule>, b: seq<Rule>)
    ensures Unmarked(a + b) == Unmarked(a) + Unmarked(b)
  {
    if a == [] {
      assert a + b == b;
    } else {
      assert (a + b)[1..] == a[1..] + b;
      UnmarkedConcat(a[1..], b);
    }
  }

  lemma {:induction false} UnmarkedOfMarked(rules: seq<Rule>)
    requires AllMarked(rules)
    ensures Unmarked(rules) == []
  {
    if rules != [] {
      assert IsMarked(rules[0]);
      forall i | 0 <= i < |rules[1..]| ensures IsMarked(rules[1..][i]) {
        assert rules[1..][i] == rules[i + 1];
      }
      UnmarkedOfMarked(rules[1..]);
    }
  }

  lemma {:induction false} UnmarkedTwice(rules: seq<Rule>)
    ensures Unmarked(Unmarked(rules)) == Unmarked(rules)
  {
    if rules != [] {
      UnmarkedTwice(rules[1..]);
      UnmarkedConcat(if IsMarked(rules[0]) then [] else [rules[0]], Unmarked(rules[1..]));
      assert Unmarked([]) == [];
      if !IsMarked(rules[0]) {
        assert [rules[0]][1..] == [];
        assert Unmarked([rules[0]]) == [rules[0]];
      }
    }
  }

  /** Merging keeps exactly the unmarked rules in order behind the managed ones, and merging twice adds nothing. */
  lemma MergeStable(managed: seq<Rule>, section: Option<Section>)
    requires AllMarked(managed)
    ensures var m := MergeManagedDefaults(managed, section);
            && managed <= m.merged && Unmarked(m.merged) == Unmarked(RulesOf(section))
            && MergeManagedDefaults(managed, Some(Rules(m.merged))) == Merge(m.merged, false, [])
  {
    MergedUnmarked(managed, RulesOf(section));
    MergedDropsNone(managed, RulesOf(section));
  }

  lemma MergedUnmarked(managed: seq<Rule>, rules: seq<Rule>)
    requires AllMarked(managed)
    ensures Unmarked(managed + Unmarked(rules)) == Unmarked(rules)
  {
    UnmarkedConcat(managed, Unmarked(rules));
    UnmarkedOfMarked(managed);
    UnmarkedTwice(rules);
    assert [] + Unmarked(rules) == Unmarked(rules);
  }

  lemma MergedDropsNone(managed: seq<Rule>, rules: seq<Rule>)
    ensures Dropped(managed, managed + Unmarked(rules)) == []
  {
    var own := Unmarked(rules);
    UnmarkedHasNoMarked(rules);
    forall i | 0 <= i < |managed + own| ensures (managed + own)[i] in managed || !IsMarked((managed + own)[i]) {
    }
    DroppedNone(managed, managed + own);
  }

  lemma {:induction false} UnmarkedHasNoMarked(rules: seq<Rule>)
    ensures forall i :: 0 <= i < |Unmarked(rules)| ==> !IsMarked(Unmarked(rules)[i])
  {
    if rules != [] {
      UnmarkedHasNoMarked(rules[1..]);
    }
  }

  lemma {:induction false} DroppedNone(managed: seq<Rule>, rules: seq<Rule>)
    requires forall i :: 0 <= i < |rules| ==> rules[i] in managed || !IsMarked(rules[i])
    ensures Dropped(managed, rules) == []
  {
    if rules != [] {
      assert rules[0] in managed || !IsMarked(rules[0]);
      forall i | 0 <= i < |rules[1..]| ensures rules[1..][i] in managed || !IsMarked(rules[1..][i]) {
        assert rules[1..][i] == rules[i + 1];
      }
      DroppedNone(managed, rules[1..]);
    }
  }

  // ---------------------------------------------------------------- write-back

  /** The default section in effect before normalization. */
  function EffectiveDefault(data: Config): Option<Section> {
    Coalesce(Get(data, DEFAULT_SECTION_KEY), Get(data, LEGACY_DEFAULT_KEY))
  }

  /** The data one write-back attempt would PUT, or None when there is nothing to write. */
  function WriteBack(managed: seq<Rule>, data: Config): Option<Config> {
    var m := MergeManagedDefaults(managed, EffectiveDefault(data));
    if !m.changed && Get(data, LEGACY_DEFAULT_KEY).None? then None
    else Some(Remove(Put(data, DEFAULT_SECTION_KEY, Rules(m.merged)), LEGACY_DEFAULT_KEY))
  }

  /** A default section as a write-back leaves it: the managed rules, then rules without the marker text. */
  ghost predicate IsManaged(managed: seq<Rule>, section: Option<Section>) {
    exists own: seq<Rule> ::
      section == Some(Rules(managed + own)) && forall i :: 0 <= i < |own| ==> !HasMarkerText(own[i])
  }

  /**
   * When there is nothing to write: exactly when there is no section under the legacy key, and the
   * default section is the managed rules followed by rules without the marker.
   */
  lemma WriteBackNoneIff(managed: seq<Rule>, data: Config)
    requires AllMarked(managed) && managed != []
    ensures WriteBack(managed, data) == None
       <==> Get(data, "default").None? && IsManaged(managed, Get(data, "_default"))
  {
    var section := Get(data, "_default");
    if WriteBack(managed, data) == None {
      var own := Unmarked(RulesOf(section));
      assert section == Some(Rules(managed + own));
      NoneHasMarker(RulesOf(section));
    }
    if Get(data, "default").None? && IsManaged(managed, section) {
      var own :| section == Some(Rules(managed + own)) && forall i :: 0 <= i < |own| ==> !HasMarkerText(own[i]);
      NothingMarked(own);
      UnmarkedConcat(managed, own);
      UnmarkedOfMarked(managed);
      assert [] + own == own;
    }
  }

  lemma NoneHasMarker(rules: seq<Rule>)
    ensures forall i :: 0 <= i < |Unmarked(rules)| ==> !HasMarkerText(Unmarked(rules)[i])
  {
    var own := Unmarked(rules);
    UnmarkedHasNoMarked(rules);
    forall i | 0 <= i < |own| ensures !HasMarkerText(own[i]) {
      MarkedIff(own[i]);
    }
  }

  lemma {:induction false} NothingMarked(rules: seq<Rule>)
    requires forall i :: 0 <= i < |rules| ==> !HasMarkerText(rules[i])
    ensures Unmarked(rules) == rules
  {
    if rules != [] {
      MarkedIff(rules[0]);
      assert forall i :: 0 <= i < |rules| - 1 ==> rules[1..][i] == rules[i + 1];
      NothingMarked(rules[1..]);
    }
  }

  /** What is written: the managed rules, then the rules of the default section in effect that have no marker. */
  lemma WriteBackTells(managed: seq<Rule>, data: Config)
    requires WriteBack(managed, data).Some?
    ensures var w, inEffect := WriteBack(managed, data).value, EffectiveDefault(data);
            var before := if inEffect.Some? && inEffect.value.Rules? then inEffect.value.rules else [];
            && Get(w, "default") == None
            && Get(w, "_default") == Some(Rules(managed + Filter(before, (rule: Rule) => !HasMarkerText(rule))))
  {
    var merged := MergeManagedDefaults(managed, EffectiveDefault(data)).merged;
    GetRemove(Put(data, "_default", Rules(merged)), "default", "default");
    GetRemove(Put(data, "_default", Rules(merged)), "default", "_default");
    GetPut(data, "_default", Rules(merged), "_default");
    UnmarkedTells(RulesOf(EffectiveDefault(data)));
  }

  /**
   * A write-back keeps every other section and, in order, all unmarked rules of the effective default
   * section; it puts the managed rules first, and leaves data on which every later attempt is a no-op.
   */
  lemma WriteBackSafe(managed: seq<Rule>, data: Config)
    requires AllMarked(managed) && WriteBack(managed, data).Some?
    ensures var w := WriteBack(managed, data).value;
            && (forall key :: key != DEFAULT_SECTION_KEY && key != LEGACY_DEFAULT_KEY ==> Get(w, key) == Get(data, key))
            && Get(w, LEGACY_DEFAULT_KEY).None?
            && Get(w, DEFAULT_SECTION_KEY).Some? && Get(w, DEFAULT_SECTION_KEY).value.Rules?
            && managed <= RulesOf(Get(w, DEFAULT_SECTION_KEY))
            && Unmarked(RulesOf(Get(w, DEFAULT_SECTION_KEY))) == Unmarked(RulesOf(EffectiveDefault(data)))
            && WriteBack(managed, w) == None
  {
    var merged := MergeManagedDefaults(managed, EffectiveDefault(data)).merged;
    var put := Put(data, DEFAULT_SECTION_KEY, Rules(merged));
    forall key ensures Get(Remove(put, LEGACY_DEFAULT_KEY), key)
        == if key == LEGACY_DEFAULT_KEY then None else if key == DEFAULT_SECTION_KEY then Some(Rules(merged))
          else Get(data, key)
    {
      GetPut(data, DEFAULT_SECTION_KEY, Rules(merged), key);
      GetRemove(put, LEGACY_DEFAULT_KEY, key);
    }
    MergeStable(managed, EffectiveDefault(data));
  }

  /**
   * Normalizing written-back data is the same configuration as normalizing the original data and
   * replacing its default section by the merge, for every mix of present, absent and null keys.
   */
  lemma NormalizeWriteBack(managed: seq<Rule>, data: Config, key: string)
    requires AllMarked(managed) && WriteBack(managed, data).Some?
    ensures var merged := MergeManagedDefaults(managed, Get(Normalize(data), DEFAULT_SECTION_KEY)).merged;
            Get(Normalize(WriteBack(managed, data).value), key)
            == Get(Put(Normalize(data), DEFAULT_SECTION_KEY, Rules(merged)), key)
  {
    var w := WriteBack(managed, data).value;
    var put := Put(data, DEFAULT_SECTION_KEY, Rules(MergeManagedDefaults(managed, EffectiveDefault(data)).merged));
    NormalizeGet(data, DEFAULT_SECTION_KEY);
    var merged := MergeManagedDefaults(managed, Get(Normalize(data), DEFAULT_SECTION_KEY)).merged;
    WriteBackSafe(managed, data);
    NormalizeGet(w, key);
    NormalizeGet(data, key);
    GetPut(Normalize(data), DEFAULT_SECTION_KEY, Rules(merged), key);
    GetRemove(put, LEGACY_DEFAULT_KEY, DEFAULT_SECTION_KEY);
    GetPut(data, DEFAULT_SECTION_KEY, Rules(MergeManagedDefaults(managed, EffectiveDefault(data)).merged),
      DEFAULT_SECTION_KEY);
  }

  /**
   * A write-back that only migrates the legacy key is no configuration change: normalized, both
   * versions are the same entry list, so they serialize alike and no cache is cleared.
   */
  lemma MigrationIsNoChange(managed: seq<Rule>, data: Config)
    requires !MergeManagedDefaults(managed, EffectiveDefault(data)).changed && WriteBack(managed, data).Some?
    ensures Normalize(WriteBack(managed, data).value) == Normalize(data)
  {
    var w := WriteBack(managed, data).value;
    assert w == NormalizeKey(data, LEGACY_DEFAULT_KEY, DEFAULT_SECTION_KEY);
    GetNormalizeKey(data, LEGACY_DEFAULT_KEY, DEFAULT_SECTION_KEY, LEGACY_DEFAULT_KEY);
  }

  // ---------------------------------------------------------------- rules of a user

  const BOOTSTRAP_PERMISSIONS: Config := [Entry(ADMIN_APP_ROLE, Rules([Rule("manage", "all", "", false, None)]))]

  /** Section keys and underscore names never act as a role. */
  predicate IsReservedRole(role: string) {
    RESERVED_ROLE_PREFIX <= role || role == LEGACY_DEFAULT_KEY || role == LEGACY_PUBLIC_KEY
    || role == DEFAULT_SECTION_KEY || role == PUBLIC_SECTION_KEY
  }

  /**
   * The rules of the user's roles, in the order of the roles. Flattening takes a rule without an array
   * as it is; any other section that is no array breaks the ability.
   */
  function RoleRules(config: Config, roles: seq<string>): Result<seq<Rule>> {
    if roles == [] then Ok([])
    else
      match RoleRules(config, roles[1..])
      case Err(e) => Err(e)
      case Ok(rest) =>
        var section := Get(config, roles[0]);
        if IsReservedRole(roles[0]) || section.None? then Ok(rest)
        else if section.value.Rules? then Ok(section.value.rules + rest)
        else if section.value.OneRule? then Ok([section.value.rule] + rest)
        else Err("malformed section")
  }

  function InjectAll(inject: (Rule, User) -> Rule, rules: seq<Rule>, user: User): seq<Rule> {
    if rules == [] then [] else [inject(rules[0], user)] + InjectAll(inject, rules[1..], user)
  }

  /** The rules an ability is built from; without a loaded config there are none. */
  function RulesForUser(
    inject: (Rule, User) -> Rule, permission: Option<Config>, user: Option<User>)
    : Result<seq<Rule>>
  {
    if permission.None? then Ok([])
    else
      var config := permission.value;
      match user
      case None =>
        var public: Option<Section> := Get(config, PUBLIC_SECTION_KEY);
        (match public
         case None => Ok([])
         case Some(NullSection) => Ok([])
         case Some(Rules(rules)) => Ok(rules)
         case Some(_) => Err("malformed section"))
      case Some(u) =>
        match RoleRules(config, u.roles)
        case Err(e) => Err(e)
        case Ok(roleRules) =>
          var defaults: Option<Section> := Get(config, DEFAULT_SECTION_KEY);
          match defaults
          case None => Ok(InjectAll(inject, roleRules, u))
          case Some(NullSection) => Ok(InjectAll(inject, roleRules, u))
          case Some(Rules(rules)) => Ok(InjectAll(inject, rules + roleRules, u))
          case Some(_) => Err("malformed section")
  }

  /** Roles add up in their order. */
  lemma {:induction false} RolesAddUp(config: Config, a: seq<string>, b: seq<string>)
    ensures RoleRules(config, a + b).Ok? <==> RoleRules(config, a).Ok? && RoleRules(config, b).Ok?
    ensures RoleRules(config, a + b).Ok? ==>
              RoleRules(config, a + b).value == RoleRules(config, a).value + RoleRules(config, b).value
  {
    if a == [] {
      assert a + b == b;
      assert RoleRules(config, b).Ok? ==> [] + RoleRules(config, b).value == RoleRules(config, b).value;
    } else {
      var head, tail := a[0], a[1..];
      assert [head] + tail == a && [head] + (tail + b) == a + b;
      RoleCons(config, head, tail);
      RoleCons(config, head, tail + b);
      RolesAddUp(config, tail, b);
      if RoleRules(config, a + b).Ok? {
        Associate(RoleRules(config, [head]).value, RoleRules(config, tail).value, RoleRules(config, b).value);
      }
    }
  }

  lemma RoleCons(config: Config, role: string, rest: seq<string>)
    ensures RoleRules(config, [role] + rest).Ok? <==> RoleRules(config, [role]).Ok? && RoleRules(config, rest).Ok?
    ensures RoleRules(config, [role] + rest).Ok? ==>
              RoleRules(config, [role] + rest).value == RoleRules(config, [role]).value + RoleRules(config, rest).value
  {
    assert ([role] + rest)[1..] == rest && [role][1..] == [];
    var section: Option<Section> := Get(config, role);
    if section.Some? && section.value.Rules? {
      assert section.value.rules + [] == section.value.rules;
    }
  }

  /** What a section gives when the sections of the roles are flattened. */
  function Flattened(section: Option<Section>): Result<seq<Rule>> {
    match section
    case None => Ok([])
    case Some(Rules(rules)) => Ok(rules)
    case Some(OneRule(rule)) => Ok([rule])
    case Some(_) => Err("malformed section")
  }

  /** One role: none of the section names or underscore names gives a rule, any other one its section. */
  lemma OneRoleTells(config: Config, role: string)
    ensures RoleRules(config, [role])
            == if "_" <= role || role == "default" || role == "public" then Ok([]) else Flattened(Get(config, role))
  {
    assert [role][1..] == [];
    var section: Option<Section> := Get(config, role);
    if section.Some? && section.value.Rules? {
      assert section.value.rules + [] == section.value.rules;
    } else if section.Some? && section.value.OneRule? {
      assert [section.value.rule] + [] == [section.value.rule];
    }
  }

  /** Without a user there is the public section and nothing else. */
  lemma PublicTells(inject: (Rule, User) -> Rule, config: Config)
    ensures var section, answer := Get(config, "_public"), RulesForUser(inject, Some(config), None);
            && (section == None || section == Some(NullSection) ==> answer == Ok([]))
            && (section.Some? && section.value.Rules? ==> answer == Ok(section.value.rules))
            && (section.Some? && !section.value.NullSection? && !section.value.Rules? ==> answer.Err?)
  {
  }

  lemma {:induction false} InjectConcat(inject: (Rule, User) -> Rule, a: seq<Rule>, b: seq<Rule>, user: User)
    ensures InjectAll(inject, a + b, user) == InjectAll(inject, a, user) + InjectAll(inject, b, user)
  {
    if a == [] {
      assert a + b == b;
    } else {
      assert (a + b)[1..] == a[1..] + b;
      InjectConcat(inject, a[1..], b, user);
    }
  }

  /** The user's variables are put into every rule, one by one. */
  lemma {:induction false} InjectAt(inject: (Rule, User) -> Rule, rules: seq<Rule>, user: User, i: nat)
    requires i < |rules|
    ensures |InjectAll(inject, rules, user)| == |rules| && InjectAll(inject, rules, user)[i] == inject(rules[i], user)
  {
    InjectLength(inject, rules, user);
    if i > 0 {
      InjectAt(inject, rules[1..], user, i - 1);
    }
  }

  /** The bootstrap config gives its holders everything: no rule but `manage all`. */
  lemma {:induction false} BootstrapGrantsAll(roles: seq<string>)
    ensures RoleRules(BOOTSTRAP_PERMISSIONS, roles).Ok?
    ensures forall rule :: rule in RoleRules(BOOTSTRAP_PERMISSIONS, roles).value ==>
              rule == Rule("manage", "all", "", false, None)
  {
    BootstrapRoleRules(roles);
    if roles != [] {
      BootstrapRoleRules(roles[1..]);
      BootstrapGrantsAll(roles[1..]);
      GetOne(BOOTSTRAP_PERMISSIONS[0], roles[0]);
      assert BOOTSTRAP_PERMISSIONS == [BOOTSTRAP_PERMISSIONS[0]];
    }
  }

  lemma {:induction false} BootstrapRoleRules(roles: seq<string>)
    ensures RoleRules(BOOTSTRAP_PERMISSIONS, roles).Ok?
    ensures RoleRules(BOOTSTRAP_PERMISSIONS, roles).value != [] <==> ADMIN_APP_ROLE in roles
  {
    assert ADMIN_APP_ROLE[0] == 'a' && !IsReservedRole(ADMIN_APP_ROLE);
    if roles != [] {
      BootstrapRoleRules(roles[1..]);
      assert roles == [roles[0]] + roles[1..];
      assert BOOTSTRAP_PERMISSIONS[1..] == [];
      assert Get(BOOTSTRAP_PERMISSIONS, roles[0])
          == if roles[0] == ADMIN_APP_ROLE then Some(BOOTSTRAP_PERMISSIONS[0].value) else None;
    }
  }

  lemma {:induction false} InjectLength(inject: (Rule, User) -> Rule, rules: seq<Rule>, user: User)
    ensures |InjectAll(inject, rules, user)| == |rules|
  {
    if rules != [] {
      InjectLength(inject, rules[1..], user);
    }
  }

  /** Under the bootstrap config exactly the users holding `admin_app` get any rule; without a config, nobody. */
  lemma FailClosed(inject: (Rule, User) -> Rule, user: Option<User>)
    ensures RulesForUser(inject, None, user) == Ok([])
    ensures RulesForUser(inject, Some(BOOTSTRAP_PERMISSIONS), user).Ok?
    ensures RulesForUser(inject, Some(BOOTSTRAP_PERMISSIONS), user).value != []
            <==> user.Some? && ADMIN_APP_ROLE in user.value.roles
  {
    assert BOOTSTRAP_PERMISSIONS[1..] == [];
    assert Get(BOOTSTRAP_PERMISSIONS, PUBLIC_SECTION_KEY) == None
      && Get(BOOTSTRAP_PERMISSIONS, DEFAULT_SECTION_KEY) == None;
    if user.Some? {
      BootstrapRoleRules(user.value.roles);
      InjectLength(inject, RoleRules(BOOTSTRAP_PERMISSIONS, user.value.roles).value, user.value);
    }
  }

  function WithoutReserved(roles: seq<string>): seq<string> {
    if roles == [] then []
    else (if IsReservedRole(roles[0]) then [] else [roles[0]]) + WithoutReserved(roles[1..])
  }

  /** Holding a realm role named like a section never gives access to that section's rules. */
  lemma {:induction false} ReservedRolesGrantNothing(config: Config, roles: seq<string>)
    ensures RoleRules(config, roles) == RoleRules(config, WithoutReserved(roles))
  {
    if roles != [] {
      ReservedRolesGrantNothing(config, roles[1..]);
      if !IsReservedRole(roles[0]) {
        assert WithoutReserved(roles)[1..] == WithoutReserved(roles[1..]);
      } else {
        assert WithoutReserved(roles) == WithoutReserved(roles[1..]);
      }
    }
  }

  // ---------------------------------------------------------------- decisions

  /** The last rule that matches decides; None when no rule matches. */
  function Decision<Q>(rules: seq<Rule>, matches: (Rule, Q) -> bool, query: Q): Option<bool> {
    if rules == [] then None
    else if matches(rules[|rules| - 1], query) then Some(!rules[|rules| - 1].inverted)
    else Decision(rules[..|rules| - 1], matches, query)
  }

  lemma {:induction false} DecisionConcat<Q>(a: seq<Rule>, b: seq<Rule>, matches: (Rule, Q) -> bool, query: Q)
    ensures Decision(a + b, matches, query)
         == if Decision(b, matches, query).Some? then Decision(b, matches, query) else Decision(a, matches, query)
  {
    if b == [] {
      assert a + b == a;
    } else {
      assert (a + b)[..|a + b| - 1] == a + b[..|b| - 1];
      DecisionConcat(a, b[..|b| - 1], matches, query);
    }
  }

  /**
   * Managed rules have the lowest priority: in front of the admin's default rules and the role rules,
   * they never change a decision that one of those already makes.
   */
  lemma ManagedNeverOverride<Q>(
    managed: seq<Rule>, section: Option<Section>, roleRules: seq<Rule>, matches: (Rule, Q) -> bool, query: Q)
    ensures var with := MergeManagedDefaults(managed, section).merged + roleRules;
            var without := Unmarked(RulesOf(section)) + roleRules;
            Decision(with, matches, query)
            == if Decision(without, matches, query).Some? then Decision(without, matches, query)
              else Decision(managed, matches, query)
  {
    var own := Unmarked(RulesOf(section));
    assert managed + own + roleRules == managed + (own + roleRules);
    DecisionConcat(managed, own + roleRules, matches, query);
  }

  /** Rule `i` matches and no later one does. */
  predicate LastMatch<Q>(rules: seq<Rule>, matches: (Rule, Q) -> bool, query: Q, i: int) {
    0 <= i < |rules| && matches(rules[i], query) && forall j :: i < j < |rules| ==> !matches(rules[j], query)
  }

  /** The last matching rule decides, an inverted one against; without any there is no decision. */
  lemma {:induction false} DecisionTells<Q>(rules: seq<Rule>, matches: (Rule, Q) -> bool, query: Q)
    ensures Decision(rules, matches, query).None? <==> forall i :: 0 <= i < |rules| ==> !matches(rules[i], query)
    ensures forall i :: LastMatch(rules, matches, query, i) ==>
              Decision(rules, matches, query) == Some(!rules[i].inverted)
  {
    if rules != [] {
      var init, n := rules[..|rules| - 1], |rules| - 1;
      DecisionTells(init, matches, query);
      assert forall i :: 0 <= i < n ==> init[i] == rules[i];
      forall i | LastMatch(rules, matches, query, i)
        ensures Decision(rules, matches, query) == Some(!rules[i].inverted) {
        if i < n {
          assert !matches(rules[n], query);
          assert LastMatch(init, matches, query, i);
        }
      }
    }
  }

  /** The rules a user gets decide as the role rules do, and where those do not, as the default section does. */
  lemma {:induction false} UserRulesDecide<Q>(
    inject: (Rule, User) -> Rule, config: Config, u: User, defaults: seq<Rule>, roleRules: seq<Rule>,
    matches: (Rule, Q) -> bool, query: Q)
    requires Get(config, "_default") == Some(Rules(defaults)) && RoleRules(config, u.roles) == Ok(roleRules)
    ensures var answer := RulesForUser(inject, Some(config), Some(u));
            var byRole := Decision(InjectAll(inject, roleRules, u), matches, query);
            && answer.Ok?
            && Decision(answer.value, matches, query)
               == if byRole.Some? then byRole else Decision(InjectAll(inject, defaults, u), matches, query)
  {
    InjectConcat(inject, defaults, roleRules, u);
    DecisionConcat(InjectAll(inject, defaults, u), InjectAll(inject, roleRules, u), matches, query);
  }

  /** Without a default section the role rules are all there is, and a malformed one breaks the ability. */
  lemma NoDefaultTells(inject: (Rule, User) -> Rule, config: Config, u: User)
    requires RoleRules(config, u.roles).Ok?
    ensures var section, answer := Get(config, "_default"), RulesForUser(inject, Some(config), Some(u));
            && (section == None || section == Some(NullSection) ==>
                  answer == Ok(InjectAll(inject, RoleRules(config, u.roles).value, u)))
            && (section.Some? && !section.value.NullSection? && !section.value.Rules? ==> answer.Err?)
  {
  }

  /**
   * After a write-back, in the rules a user really gets, the managed rules come last in priority: what
   * the role rules or the admin's own default rules decide is decided, and only then the managed rules.
   */
  lemma {:induction false} ManagedDecideLast<Q>(
    inject: (Rule, User) -> Rule, config: Config, u: User, managed: seq<Rule>, own: seq<Rule>, roleRules: seq<Rule>,
    matches: (Rule, Q) -> bool, query: Q)
    requires Get(config, "_default") == Some(Rules(managed + own)) && RoleRules(config, u.roles) == Ok(roleRules)
    ensures var answer := RulesForUser(inject, Some(config), Some(u));
            var byRole := Decision(InjectAll(inject, roleRules, u), matches, query);
            var byOwn := Decision(InjectAll(inject, own, u), matches, query);
            && answer.Ok?
            && Decision(answer.value, matches, query)
               == if byRole.Some? then byRole
                  else if byOwn.Some? then byOwn
                  else Decision(InjectAll(inject, managed, u), matches, query)
  {
    UserRulesDecide(inject, config, u, managed + own, roleRules, matches, query);
    InjectConcat(inject, managed, own, u);
    DecisionConcat(InjectAll(inject, managed, u), InjectAll(inject, own, u), matches, query);
  }
}
