/**
 Building the role-centric model of a domain: pkg/athenz/model.go. The domains live in a shared cache and
 the roles are objects whose member lists the conversion overwrites in place.
 */
module AthenzModel {
  import opened AthenzData
  import opened DomainNames
  import RoleGlob
  import opened Sequences

  const ASSUME_ROLE := "assume_role"

  class Role {
    const name: string
    const trust: string
    var members: seq<Member>

    constructor (name: string, trust: string, members: seq<Member>)
      ensures this.name == name && this.trust == trust && this.members == members
    {
      this.name, this.trust, this.members := name, trust, members;
    }
  }

  datatype Group = Group(name: string, members: seq<Member>)

  /** zms.DomainData, with its roles by reference. */
  datatype Domain = Domain(name: string, policies: seq<Policy>, roles: seq<Role>, groups: seq<Group>)

  /** The informer's store: domains by key. */
  type Cache = map<string, Domain>

  // ---- Values that conversions cannot disturb. ----

  /** A role as the domain administrator wrote it; a trust role has no members of its own. */
  datatype RoleValue = RoleValue(name: string, trust: string, members: seq<Member>)
  datatype DomainValue = DomainValue(name: string, policies: seq<Policy>, roles: seq<RoleValue>, groups: seq<Group>)

  function RoleValues(roles: seq<Role>): (vs: seq<RoleValue>)
    reads roles
    ensures |vs| == |roles|
  {
    if roles == [] then []
    else
      var r := roles[|roles| - 1];
      assert r in roles;
      RoleValues(roles[..|roles| - 1]) + [RoleValue(r.name, r.trust, if r.trust != "" then [] else r.members)]
  }

  lemma {:induction false} RoleValueAt(roles: seq<Role>, i: nat)
    requires i < |roles|
    ensures var r := roles[i];
            RoleValues(roles)[i] == RoleValue(r.name, r.trust, if r.trust != "" then [] else r.members)
  {
    if i < |roles| - 1 {
      RoleValueAt(roles[..|roles| - 1], i);
    }
  }

  function ValueOf(d: Domain): DomainValue
    reads d.roles
  {
    DomainValue(d.name, d.policies, RoleValues(d.roles), d.groups)
  }

  function CacheRoles(cache: Cache): set<Role> {
    set k, r | k in cache && r in cache[k].roles :: r
  }

  function ValuesOf(cache: Cache): map<string, DomainValue>
    reads CacheRoles(cache)
  {
    map k | k in cache :: assert forall r :: r in cache[k].roles ==> r in CacheRoles(cache); ValueOf(cache[k])
  }

  /** Values do not notice the members of trust roles. */
  twostate lemma {:induction false} RoleValuesKept(roles: seq<Role>)
    requires forall r :: r in roles && r.trust == "" ==> unchanged(r)
    ensures RoleValues(roles) == old(RoleValues(roles))
  {
    if roles != [] {
      RoleValuesKept(roles[..|roles| - 1]);
      assert roles[|roles| - 1] in roles;
    }
  }

  twostate lemma ValuesKept(cache: Cache)
    requires forall r :: r in CacheRoles(cache) && r.trust == "" ==> unchanged(r)
    ensures ValuesOf(cache) == old(ValuesOf(cache))
  {
    forall k | k in cache ensures ValueOf(cache[k]) == old(ValueOf(cache[k])) {
      RoleValuesKept(cache[k].roles);
    }
  }

  // ---- Assertions by role. ----

  function AllAssertions(policies: seq<Policy>): seq<Assertion> {
    if policies == [] then []
    else AllAssertions(policies[..|policies| - 1]) + policies[|policies| - 1].assertions
  }

  /** The subsequence of assertions that name a role. */
  function Naming(assertions: seq<Assertion>, role: string): seq<Assertion> {
    if assertions == [] then []
    else
      var last := assertions[|assertions| - 1];
      Naming(assertions[..|assertions| - 1], role) + (if last.role == role then [last] else [])
  }

  function RolesNamed(assertions: seq<Assertion>): set<string> {
    set a | a in assertions :: a.role
  }

  function RulesOf(assertions: seq<Assertion>): map<string, seq<Assertion>> {
    map role | role in RolesNamed(assertions) :: Naming(assertions, role)
  }

  lemma {:induction false} NamingAbsentRole(assertions: seq<Assertion>, role: string)
    ensures Naming(assertions, role) == [] <==> role !in RolesNamed(assertions)
  {
    if assertions != [] {
      var init, last := assertions[..|assertions| - 1], assertions[|assertions| - 1];
      NamingAbsentRole(init, role);
      assert assertions == init + [last];
      assert forall x :: x in assertions <==> x in init || x == last;
    }
  }

  lemma OneMoreAssertion(done: seq<Assertion>, a: Assertion)
    ensures RulesOf(done + [a]) == RulesOf(done)[a.role := Lookup(RulesOf(done), a.role) + [a]]
  {
    var more := done + [a];
    assert more[..|done|] == done && more[|done|] == a;
    assert RolesNamed(more) == RolesNamed(done) + {a.role} by {
      assert forall x :: x in more <==> x in done || x == a;
    }
    NamingAbsentRole(done, a.role);
    var left, right := RulesOf(more), RulesOf(done)[a.role := Lookup(RulesOf(done), a.role) + [a]];
    assert left.Keys == right.Keys;
    forall role | role in left ensures left[role] == right[role] {
      assert Naming(more, role) == Naming(done, role) + (if a.role == role then [a] else []);
    }
  }

  lemma AssertionsUpTo(policies: seq<Policy>, i: nat)
    requires i < |policies|
    ensures AllAssertions(policies[..i + 1]) == AllAssertions(policies[..i]) + policies[i].assertions
  {
    assert policies[..i + 1][..i] == policies[..i];
  }

  /** `getRulesForDomain`. */
  method GetRulesForDomain(d: Domain) returns (rules: map<string, seq<Assertion>>)
    ensures rules == RulesOf(AllAssertions(d.policies))
  {
    rules := map[];
    ghost var done: seq<Assertion> := [];
    for i := 0 to |d.policies|
      invariant done == AllAssertions(d.policies[..i]) && rules == RulesOf(done)
    {
      var policy := d.policies[i];
      AssertionsUpTo(d.policies, i);
      ghost var before := done;
      assert before + policy.assertions[..0] == before;
      for j := 0 to |policy.assertions|
        invariant done == before + policy.assertions[..j] && rules == RulesOf(done)
      {
        var assertion := policy.assertions[j];
        OneMoreAssertion(done, assertion);
        OneMoreOf(before, policy.assertions, j);
        var assertionsForRole := Lookup(rules, assertion.role);
        rules := rules[assertion.role := assertionsForRole + [assertion]];
        done := done + [assertion];
      }
      assert policy.assertions[..|policy.assertions|] == policy.assertions;
    }
    assert d.policies[..|d.policies|] == d.policies;
  }

  ghost function TotalLength(rules: map<string, seq<Assertion>>, roles: set<string>): nat
    requires roles <= rules.Keys
  {
    if roles == {} then 0
    else
      var role :| role in roles;
      |rules[role]| + TotalLength(rules, roles - {role})
  }

  /** The order in which the lengths are added does not matter. */
  lemma {:induction false} TotalLengthRemove(rules: map<string, seq<Assertion>>, roles: set<string>, role: string)
    requires role in roles && roles <= rules.Keys
    ensures TotalLength(rules, roles) == |rules[role]| + TotalLength(rules, roles - {role})
  {
    var first :| first in roles && TotalLength(rules, roles) == |rules[first]| + TotalLength(rules, roles - {first});
    if first != role {
      TotalLengthRemove(rules, roles - {first}, role);
      TotalLengthRemove(rules, roles - {role}, first);
      assert roles - {first} - {role} == roles - {role} - {first};
    }
  }

  lemma {:induction false} TotalLengthSame(a: map<string, seq<Assertion>>, b: map<string, seq<Assertion>>, roles: set<string>)
    requires roles <= a.Keys && roles <= b.Keys && forall r :: r in roles ==> a[r] == b[r]
    ensures TotalLength(a, roles) == TotalLength(b, roles)
  {
    if roles != {} {
      var role :| role in roles;
      TotalLengthRemove(a, roles, role);
      TotalLengthRemove(b, roles, role);
      TotalLengthSame(a, b, roles - {role});
    }
  }

  /** Grouping loses and duplicates nothing: the groups' lengths add up to the number of assertions. */
  lemma {:induction false} GroupingConservesAssertions(assertions: seq<Assertion>)
    ensures var rules := RulesOf(assertions); TotalLength(rules, rules.Keys) == |assertions|
  {
    var rules := RulesOf(assertions);
    if assertions != [] {
      var init, last := assertions[..|assertions| - 1], assertions[|assertions| - 1];
      var before := RulesOf(init);
      assert assertions == init + [last];
      GroupingConservesAssertions(init);
      OneMoreAssertion(init, last);
      var others := rules.Keys - {last.role};
      TotalLengthRemove(rules, rules.Keys, last.role);
      TotalLengthSame(rules, before, others);
      if last.role in before {
        TotalLengthRemove(before, before.Keys, last.role);
        assert before.Keys - {last.role} == others;
      } else {
        assert before.Keys == others;
      }
    }
  }

  lemma NamingLast(init: seq<Assertion>, last: Assertion, role: string)
    ensures Naming(init + [last], role) == Naming(init, role) + (if last.role == role then [last] else [])
  {
    assert (init + [last])[..|init|] == init;
  }

  lemma {:induction false} NamingContains(a: seq<Assertion>, role: string)
    ensures forall x :: x in Naming(a, role) <==> x in a && x.role == role
  {
    if a != [] {
      NamingContains(a[..|a| - 1], role);
      assert a == a[..|a| - 1] + [a[|a| - 1]];
    }
  }

  /** Each group keeps the relative order: taking out one role's assertions commutes with concatenation. */
  lemma {:induction false} NamingIsStable(a: seq<Assertion>, b: seq<Assertion>, role: string)
    ensures Naming(a + b, role) == Naming(a, role) + Naming(b, role)
    ensures forall x :: x in Naming(a, role) <==> x in a && x.role == role
  {
    NamingContains(a, role);
    if b == [] {
      assert a + b == a;
    } else {
      var init, last := b[..|b| - 1], b[|b| - 1];
      var here := if last.role == role then [last] else [];
      NamingIsStable(a, init, role);
      NamingLast(a + init, last, role);
      NamingLast(init, last, role);
      AppendIsAssociative(a, init, [last]);
      AppendIsAssociative(Naming(a, role), Naming(init, role), here);
      assert b == init + [last];
    }
  }

  // ---- Delegation. ----

  /** The first role of the list with the given name. */
  function FindRole(roles: seq<RoleValue>, name: string): Option<RoleValue> {
    if roles == [] then None
    else if roles[0].name == name then Some(roles[0])
    else FindRole(roles[1..], name)
  }

  /** The members that a list of assertions of the trusted domain delegates to `roleName`: those of the role
      behind the first matching `assume_role` assertion whose role exists, none when that role is itself
      delegated. */
  function DelegatedBy(assertions: seq<Assertion>, roles: seq<RoleValue>, roleName: string): Option<seq<Member>> {
    if assertions == [] then None
    else
      var a := assertions[0];
      var role := FindRole(roles, a.role);
      if a.action == ASSUME_ROLE && RoleGlob.Glob(a.resource, roleName, {'\n'}) && role.Some? then
        Some(if role.value.trust != "" then [] else role.value.members)
      else DelegatedBy(assertions[1..], roles, roleName)
  }

  function Delegated(trusted: DomainValue, roleName: string): seq<Member> {
    match DelegatedBy(AllAssertions(trusted.policies), trusted.roles, roleName)
    case None => []
    case Some(ms) => ms
  }

  /** A role's members: its own, those of its trusted domain, or none on record when that domain is unknown. */
  function MembersOfRole(domains: map<string, DomainValue>, r: RoleValue): Option<seq<Member>> {
    if r.trust == "" then Some(r.members)
    else if r.trust in domains then Some(Delegated(domains[r.trust], r.name))
    else None
  }

  function MembersOf(domains: map<string, DomainValue>, roles: seq<RoleValue>): map<string, seq<Member>> {
    if roles == [] then map[]
    else
      var last := roles[|roles| - 1];
      var before := MembersOf(domains, roles[..|roles| - 1]);
      var ms := MembersOfRole(domains, last);
      if ms.Some? then before[last.name := ms.value] else before
  }

  /** Scanning two lists of assertions one after the other. */
  lemma {:induction false} DelegatedInTwoParts(a: seq<Assertion>, b: seq<Assertion>, roles: seq<RoleValue>, name: string)
    ensures DelegatedBy(a + b, roles, name) ==
            if DelegatedBy(a, roles, name).Some? then DelegatedBy(a, roles, name) else DelegatedBy(b, roles, name)
  {
    if a == [] {
      assert a + b == b;
    } else {
      assert (a + b)[1..] == a[1..] + b;
      DelegatedInTwoParts(a[1..], b, roles, name);
    }
  }

  lemma {:induction false} FirstRole(roles: seq<RoleValue>, name: string, k: nat)
    requires k <= |roles| && forall i :: 0 <= i < k ==> roles[i].name != name
    ensures k == |roles| ==> FindRole(roles, name) == None
    ensures k < |roles| && roles[k].name == name ==> FindRole(roles, name) == Some(roles[k])
  {
    if k > 0 {
      FirstRole(roles[1..], name, k - 1);
    }
  }

  /** The loop over the roles of the trusted domain. */
  method FindCachedRole(roles: seq<Role>, name: string) returns (k: int)
    ensures -1 <= k < |roles|
    ensures FindRole(RoleValues(roles), name) == if k < 0 then None else Some(RoleValues(roles)[k])
  {
    for i := 0 to |roles|
      invariant forall j :: 0 <= j < i ==> RoleValues(roles)[j].name != name
    {
      RoleValueAt(roles, i);
      if roles[i].name == name {
        FirstRole(RoleValues(roles), name, i);
        return i;
      }
    }
    FirstRole(RoleValues(roles), name, |roles|);
    return -1;
  }

  /** The loop over the assertions of one policy of the trusted domain. */
  method ScanPolicy(assertions: seq<Assertion>, roles: seq<Role>, roleName: string) returns (res: Option<seq<Member>>)
    ensures res == DelegatedBy(assertions, RoleValues(roles), roleName)
  {
    for j := 0 to |assertions|
      invariant DelegatedBy(assertions, RoleValues(roles), roleName) ==
                DelegatedBy(assertions[j..], RoleValues(roles), roleName)
    {
      var assertion := assertions[j];
      assert assertions[j..][1..] == assertions[j + 1..];
      if assertion.action == ASSUME_ROLE {
        RoleGlob.CompiledGlobMeaning(assertion.resource, roleName);
        if RoleGlob.RoleMatches(assertion.resource, roleName) {
          var k := FindCachedRole(roles, assertion.role);
          if k >= 0 {
            RoleValueAt(roles, k);
            return Some(if roles[k].trust != "" then [] else roles[k].members);
          }
        }
      }
    }
    return None;
  }

  /** The assertions of the first policies, and those of the rest. */
  lemma {:induction false} AssertionsFromHere(policies: seq<Policy>, i: nat) returns (rest: seq<Assertion>)
    requires i <= |policies|
    ensures AllAssertions(policies) == AllAssertions(policies[..i]) + rest
    decreases |policies|
  {
    if i == |policies| {
      assert policies[..i] == policies;
      rest := [];
    } else {
      var init := policies[..|policies| - 1];
      assert init[..i] == policies[..i];
      var r := AssertionsFromHere(init, i);
      rest := r + policies[|policies| - 1].assertions;
    }
  }

  /** `processTrustDomain`: None is the error for an unknown domain. */
  method ProcessTrustDomain(cache: Cache, trust: string, roleName: string) returns (res: Option<seq<Member>>)
    ensures res == if trust in cache then Some(Delegated(ValueOf(cache[trust]), roleName)) else None
  {
    if trust !in cache {
      return None;
    }
    var d := cache[trust];
    ghost var roles := RoleValues(d.roles);
    for i := 0 to |d.policies|
      invariant DelegatedBy(AllAssertions(d.policies[..i]), roles, roleName).None?
    {
      assert d.policies[..i + 1][..i] == d.policies[..i];
      var here := ScanPolicy(d.policies[i].assertions, d.roles, roleName);
      DelegatedInTwoParts(AllAssertions(d.policies[..i]), d.policies[i].assertions, roles, roleName);
      if here.Some? {
        ghost var rest := AssertionsFromHere(d.policies, i + 1);
        DelegatedInTwoParts(AllAssertions(d.policies[..i + 1]), rest, roles, roleName);
        return here;
      }
    }
    assert d.policies[..|d.policies|] == d.policies;
    return Some([]);
  }

  lemma MembersUpTo(domains: map<string, DomainValue>, roles: seq<RoleValue>, i: nat)
    requires i < |roles|
    ensures var before, ms := MembersOf(domains, roles[..i]), MembersOfRole(domains, roles[i]);
            MembersOf(domains, roles[..i + 1]) == if ms.Some? then before[roles[i].name := ms.value] else before
  {
    assert roles[..i + 1][..i] == roles[..i];
  }

  /** `getMembersForRole`: fills in the members of the trust roles, in the shared role objects as well. */
  method GetMembersForRole(d: Domain, cache: Cache) returns (members: map<string, seq<Member>>)
    requires d in cache.Values
    modifies set r | r in d.roles && r.trust != ""
    ensures members == MembersOf(old(ValuesOf(cache)), old(RoleValues(d.roles)))
    ensures ValuesOf(cache) == old(ValuesOf(cache))
    ensures RoleValues(d.roles) == old(RoleValues(d.roles))
  {
    members := map[];
    ghost var values, roles := ValuesOf(cache), RoleValues(d.roles);
    for i := 0 to |d.roles|
      invariant forall r :: r in CacheRoles(cache) && r.trust == "" ==> unchanged(r)
      invariant ValuesOf(cache) == values && RoleValues(d.roles) == roles
      invariant members == MembersOf(values, roles[..i])
    {
      var role := d.roles[i];
      RoleValueAt(d.roles, i);
      MembersUpTo(values, roles, i);
      var known := true;
      if role.trust != "" {
        var res := ProcessTrustDomain(cache, role.trust, role.name);
        role.members := if res.Some? then res.value else [];
        ValuesKept(cache);
        RoleValuesKept(d.roles);
        known := res.Some?;
      }
      if known {
        members := members[role.name := role.members];
      }
    }
    assert roles[..|d.roles|] == roles;
  }

  // ---- The model of a domain. ----

  function GroupsOf(groups: seq<Group>): map<string, seq<Member>> {
    if groups == [] then map[]
    else GroupsOf(groups[..|groups| - 1])[groups[|groups| - 1].name := groups[|groups| - 1].members]
  }

  function Names(roles: seq<RoleValue>): seq<string> {
    if roles == [] then [] else Names(roles[..|roles| - 1]) + [roles[|roles| - 1].name]
  }

  function ModelOf(domains: map<string, DomainValue>, d: DomainValue): Model {
    Model(d.name, DomainToNamespace(d.name), Names(d.roles), RulesOf(AllAssertions(d.policies)),
          MembersOf(domains, d.roles), GroupsOf(d.groups))
  }

  /** `getRolesForDomain`. */
  method GetRolesForDomain(d: Domain) returns (names: seq<string>)
    ensures names == Names(RoleValues(d.roles))
  {
    names := [];
    ghost var roles := RoleValues(d.roles);
    for i := 0 to |d.roles|
      invariant names == Names(roles[..i])
    {
      RoleValueAt(d.roles, i);
      assert roles[..i + 1][..i] == roles[..i];
      names := names + [d.roles[i].name];
    }
    assert roles[..|d.roles|] == roles;
  }

  /** `getMembersForGroup`. */
  method GetMembersForGroup(d: Domain) returns (groups: map<string, seq<Member>>)
    ensures groups == GroupsOf(d.groups)
  {
    groups := map[];
    for i := 0 to |d.groups|
      invariant groups == GroupsOf(d.groups[..i])
    {
      assert d.groups[..i + 1][..i] == d.groups[..i];
      groups := groups[d.groups[i].name := d.groups[i].members];
    }
    assert d.groups[..|d.groups|] == d.groups;
  }

  /** `ConvertAthenzPoliciesIntoRbacModel`. */
  method ConvertAthenzPoliciesIntoRbacModel(d: Domain, cache: Cache) returns (m: Model)
    requires d in cache.Values
    modifies set r | r in d.roles && r.trust != ""
    ensures m == ModelOf(old(ValuesOf(cache)), old(ValueOf(d)))
    ensures ValuesOf(cache) == old(ValuesOf(cache))
  {
    ghost var values, value := ValuesOf(cache), RoleValues(d.roles);
    var roles := GetRolesForDomain(d);
    var rules := GetRulesForDomain(d);
    var groups := GetMembersForGroup(d);
    assert RoleValues(d.roles) == value;
    ValuesKept(cache);
    var members := GetMembersForRole(d, cache);
    assert members == MembersOf(values, value);
    m := Model(d.name, DomainToNamespace(d.name), roles, rules, members, groups);
  }

  /** Converting domains of the cache in any order and any number of times gives each of them the model it has
      in the untouched cache, although every conversion overwrites shared role objects. */
  method ConvertInOrder(order: seq<string>, cache: Cache) returns (models: seq<Model>)
    requires forall key :: key in order ==> key in cache
    modifies CacheRoles(cache)
    ensures |models| == |order|
    ensures forall i :: 0 <= i < |order| ==>
              models[i] == ModelOf(old(ValuesOf(cache)), old(ValuesOf(cache))[order[i]])
    ensures ValuesOf(cache) == old(ValuesOf(cache))
  {
    models := [];
    for i := 0 to |order|
      invariant |models| == i && ValuesOf(cache) == old(ValuesOf(cache))
      invariant forall j :: 0 <= j < i ==> models[j] == ModelOf(old(ValuesOf(cache)), old(ValuesOf(cache))[order[j]])
    {
      var key := order[i];
      assert key in cache && cache[key] in cache.Values;
      assert forall r :: r in cache[key].roles ==> r in CacheRoles(cache);
      assert ValueOf(cache[key]) == ValuesOf(cache)[key];
      var model := ConvertAthenzPoliciesIntoRbacModel(cache[key], cache);
      models := models + [model];
    }
  }

  // ---- Delegation is one level deep. ----

  lemma {:induction false} FoundRoleIsThere(roles: seq<RoleValue>, name: string)
    ensures var r := FindRole(roles, name); r.Some? ==> r.value in roles && r.value.name == name
  {
    if roles != [] {
      FoundRoleIsThere(roles[1..], name);
    }
  }

  /** Whatever a trust role receives comes from one role of the trusted domain that is not delegated itself. */
  lemma {:induction false} DelegatesOwnMembersOnly(assertions: seq<Assertion>, roles: seq<RoleValue>, name: string)
    ensures var ms := DelegatedBy(assertions, roles, name);
            ms.Some? && ms.value != [] ==>
              exists a, r :: a in assertions && r in roles && a.action == ASSUME_ROLE && a.role == r.name &&
                RoleGlob.Glob(a.resource, name, {'\n'}) && r.trust == "" && ms.value == r.members
  {
    if assertions != [] {
      var a := assertions[0];
      DelegatesOwnMembersOnly(assertions[1..], roles, name);
      FoundRoleIsThere(roles, a.role);
      assert a in assertions;
    }
  }

  /** The members of a domain depend on the other domains through the trusted ones only; without trust roles
      they do not depend on them at all. */
  lemma {:induction false} MembersDependOnTrustedDomains(
    a: map<string, DomainValue>, b: map<string, DomainValue>, roles: seq<RoleValue>)
    requires forall r :: r in roles && r.trust != "" ==>
               (r.trust in a <==> r.trust in b) && (r.trust in a ==> a[r.trust] == b[r.trust])
    ensures MembersOf(a, roles) == MembersOf(b, roles)
  {
    if roles != [] {
      MembersDependOnTrustedDomains(a, b, roles[..|roles| - 1]);
      assert roles[|roles| - 1] in roles;
    }
  }

  predicate TrustFree(d: DomainValue) {
    forall r :: r in d.roles ==> r.trust == ""
  }

  lemma TrustFreeModelIsLocal(a: map<string, DomainValue>, b: map<string, DomainValue>, d: DomainValue)
    requires TrustFree(d)
    ensures ModelOf(a, d) == ModelOf(b, d)
  {
    MembersDependOnTrustedDomains(a, b, d.roles);
  }
}
