/** The per-user ability cache (src/permissions/permission/permission.service.ts). */
module AbilityCache {
  import opened Wrappers
  import opened JsObject
  import opened Json
  import opened JsonText
  import opened RulesConfig

  const ABILITY_CACHE_MAX_ENTRIES := 1000

  // ---------------------------------------------------------------- cache keys

  function UserJson(user: User): Json {
    Object([
      Entry("id", String(user.id)), Entry("name", String(user.name)),
      Entry("roles", Array(Strings(user.roles))), Entry("projects", Array(Strings(user.projects)))])
  }

  function AbilityCacheKey(user: Option<User>): string {
    if user.None? then "anonymous" else Stringify(UserJson(user.value))
  }

  lemma {:induction false} StringsInjective(a: seq<string>, b: seq<string>)
    requires Strings(a) == Strings(b)
    ensures a == b
  {
    if a != [] && b != [] {
      assert Strings(a)[0] == Strings(b)[0];
      assert Strings(a)[1..] == Strings(b)[1..];
      StringsInjective(a[1..], b[1..]);
      assert a == [a[0]] + a[1..] && b == [b[0]] + b[1..];
    }
  }

  lemma UserHasNoNumbers(user: User)
    ensures ValidNumbers(UserJson(user))
  {
    StringsHaveNoNumbers(user.roles);
    StringsHaveNoNumbers(user.projects);
    var ms := UserJson(user).members;
    assert ValidNumbersInMembers(ms[4..]);
    assert ms[3..][1..] == ms[4..] && ms[2..][1..] == ms[3..] && ms[1..][1..] == ms[2..];
    assert ValidNumbersInMembers(ms[3..]);
    assert ValidNumbersInMembers(ms[2..]);
    assert ValidNumbersInMembers(ms[1..]);
  }

  /** Different identities have different keys: any field tells two users apart, and no user is `anonymous`. */
  lemma KeysDistinguishUsers(a: Option<User>, b: Option<User>)
    requires AbilityCacheKey(a) == AbilityCacheKey(b)
    ensures a == b
  {
    if a.Some? && b.Some? {
      UserHasNoNumbers(a.value);
      UserHasNoNumbers(b.value);
      ParseStringify(UserJson(a.value));
      ParseStringify(UserJson(b.value));
      var x, y := UserJson(a.value).members, UserJson(b.value).members;
      assert x[0] == y[0] && x[1] == y[1] && x[2] == y[2] && x[3] == y[3];
      StringsInjective(a.value.roles, b.value.roles);
      StringsInjective(a.value.projects, b.value.projects);
    } else if a.Some? {
      KeyStartsWithBrace(a.value);
    } else if b.Some? {
      KeyStartsWithBrace(b.value);
    }
  }

  lemma KeyStartsWithBrace(user: User)
    ensures AbilityCacheKey(Some(user)) != "" && AbilityCacheKey(Some(user))[0] == '{'
  {
    assert Lexemes(UserJson(user))[0] == LBrace;
  }

  // ---------------------------------------------------------------- the cache

  /** A compiled ability, represented by the rules it was built from. */
  type Ability = seq<Rule>
  type Cache = map<string, Ability>

  /** The cache after a request: a hit leaves it alone, a miss adds an entry and may clear it first. */
  function Served(inject: (Rule, User) -> Rule, permission: Option<Config>, cache: Cache, user: Option<User>): Cache {
    var key := AbilityCacheKey(user);
    if key in cache then cache
    else
      match RulesForUser(inject, permission, user)
      case Err(_) => cache
      case Ok(rules) => (if |cache| >= ABILITY_CACHE_MAX_ENTRIES then map[] else cache)[key := rules]
  }

  /** Every cached ability is the one that would be built now for its user. */
  ghost predicate Coherent(inject: (Rule, User) -> Rule, permission: Option<Config>, cache: Cache) {
    forall user: Option<User> {:trigger AbilityCacheKey(user)} :: AbilityCacheKey(user) in cache ==>
      RulesForUser(inject, permission, user) == Ok(cache[AbilityCacheKey(user)])
  }

  /** Serving a request keeps the cache coherent and bounded, and the answer is the freshly built ability. */
  lemma ServedCoherent(inject: (Rule, User) -> Rule, permission: Option<Config>, cache: Cache, user: Option<User>)
    requires Coherent(inject, permission, cache) && |cache| <= ABILITY_CACHE_MAX_ENTRIES
    ensures var after := Served(inject, permission, cache, user);
            && Coherent(inject, permission, after) && |after| <= ABILITY_CACHE_MAX_ENTRIES
            && (RulesForUser(inject, permission, user).Ok? ==>
                  AbilityCacheKey(user) in after
                    && Ok(after[AbilityCacheKey(user)]) == RulesForUser(inject, permission, user))
  {
    var after := Served(inject, permission, cache, user);
    forall other: Option<User> | AbilityCacheKey(other) in after
      ensures RulesForUser(inject, permission, other) == Ok(after[AbilityCacheKey(other)])
    {
      if AbilityCacheKey(other) == AbilityCacheKey(user) {
        KeysDistinguishUsers(other, user);
      }
    }
  }

  /** The service: consumers ask for abilities, and a change of the configuration clears the cache. */
  class PermissionService {
    const inject: (Rule, User) -> Rule
    var abilityCache: Cache

    constructor (inject: (Rule, User) -> Rule)
      ensures this.inject == inject && abilityCache == map[]
    {
      this.inject := inject;
      abilityCache := map[];
    }

    method OnPermissionsChanged()
      modifies this
      ensures abilityCache == map[]
    {
      abilityCache := map[];
    }

    method GetAbilityFor(permission: Option<Config>, user: Option<User>) returns (ability: Result<Ability>)
      requires Coherent(inject, permission, abilityCache) && |abilityCache| <= ABILITY_CACHE_MAX_ENTRIES
      modifies this
      ensures abilityCache == Served(inject, permission, old(abilityCache), user)
      ensures ability == RulesForUser(inject, permission, user)
      ensures Coherent(inject, permission, abilityCache) && |abilityCache| <= ABILITY_CACHE_MAX_ENTRIES
    {
      ServedCoherent(inject, permission, abilityCache, user);
      var key := AbilityCacheKey(user);
      if key in abilityCache {
        return Ok(abilityCache[key]);
      }
      ability := RulesForUser(inject, permission, user);
      if ability.Err? {
        return;
      }
      if |abilityCache| >= ABILITY_CACHE_MAX_ENTRIES {
        abilityCache := map[];
      }
      abilityCache := abilityCache[key := ability.value];
    }
  }
}
