/**
 What a change of a trusted domain means for the domains that trust it, which nothing queues:
 pkg/controller/controller.go and pkg/athenz/model.go.
 */
module TrustChanges {
  import opened AthenzData
  import opened AthenzModel
  import opened ChangeList
  import opened Configs
  import opened DomainNames
  import opened GoStrings
  import opened Principals
  import opened Reconciler
  import opened RoleCollisions
  import RoleGlob
  import opened ServiceRoles

  // ---- One role's binding. ----

  /** The subjects of a role's binding without the role certificate: none when the trusted domain is unknown or Istio
      rejects the binding. */
  function AcceptedSubjects(domains: map<string, DomainValue>, domain: string, r: RoleValue, s: V1Settings)
    : Option<seq<Subject>>
  {
    var role, ms := ParseRoleFQDN(domain, r.name), MembersOfRole(domains, r);
    if role.Err? || ms.None? then None
    else
      var binding := BindingOf(domain, role.value, RoleToK8sName(role.value), ms.value, s.jwt);
      if binding.None? || !s.validBinding(role.value, DomainToNamespace(domain), binding.value) then None
      else Some(MemberSubjects(ms.value, s.jwt))
  }

  /** The role gives rise to configs; its members have no part in that. */
  predicate Emits(m: Model, fqdn: string, s: V1Settings) {
    RoleConfigs(m, fqdn, s) != []
  }

  /** Two models that differ in their members only. */
  predicate SameButMembers(m: Model, n: Model) {
    n == m.(members := n.members)
  }

  lemma MembersDoNotEmit(m: Model, n: Model, fqdn: string, s: V1Settings)
    requires SameButMembers(m, n)
    ensures Emits(m, fqdn, s) <==> Emits(n, fqdn, s)
    ensures Emits(m, fqdn, s) ==> RoleConfigs(m, fqdn, s)[0] == RoleConfigs(n, fqdn, s)[0]
  {
  }

  lemma SameEmittedNames(m: Model, n: Model, roles: seq<string>, s: V1Settings)
    requires SameButMembers(m, n)
    ensures EmittedNames(m, roles, s) == EmittedNames(n, roles, s)
  {
    forall i | 0 <= i < |roles| ensures EmittedName(m, roles[i], s) == EmittedName(n, roles[i], s) {
      MembersDoNotEmit(m, n, roles[i], s);
    }
    assert EmittedOptions(m, roles, s) == EmittedOptions(n, roles, s);
  }

  function ResourceName(m: Model, fqdn: string, s: V1Settings): string
    requires Emits(m, fqdn, s)
  {
    RoleToK8sName(ParseRoleFQDN(m.name, fqdn).value)
  }

  /** Emitted roles of a list with distinct resource names have distinct resource names. */
  lemma EmittedOnce(m: Model, roles: seq<string>, s: V1Settings, i: nat, j: nat)
    requires AllDifferent(EmittedNames(m, roles, s)) && i < j < |roles| && Emits(m, roles[i], s) && Emits(m, roles[j], s)
    ensures ResourceName(m, roles[i], s) != ResourceName(m, roles[j], s)
  {
    var names := EmittedOptions(m, roles, s);
    SomesDifferIff(names);
    assert names[i] != names[j];
    EmittedRoleParses(m, roles[i], s);
    EmittedRoleParses(m, roles[j], s);
  }

  lemma {:induction false} NamesAt(roles: seq<RoleValue>)
    ensures |Names(roles)| == |roles| && forall i :: 0 <= i < |roles| ==> Names(roles)[i] == roles[i].name
  {
    if roles != [] {
      NamesAt(roles[..|roles| - 1]);
    }
  }

  lemma {:induction false} NoMembersLookup(domains: map<string, DomainValue>, roles: seq<RoleValue>, name: string)
    requires forall j :: 0 <= j < |roles| ==> roles[j].name != name
    ensures name !in MembersOf(domains, roles)
  {
    if roles != [] {
      NoMembersLookup(domains, roles[..|roles| - 1], name);
    }
  }

  /** The members on record for a role whose name occurs once are its own. */
  lemma {:induction false} MembersLookup(domains: map<string, DomainValue>, roles: seq<RoleValue>, i: nat)
    requires i < |roles| && forall j :: 0 <= j < |roles| && j != i ==> roles[j].name != roles[i].name
    ensures var ms := MembersOf(domains, roles);
            if MembersOfRole(domains, roles[i]).Some? then
              roles[i].name in ms && ms[roles[i].name] == MembersOfRole(domains, roles[i]).value
            else roles[i].name !in ms
  {
    var n := |roles| - 1;
    if i < n {
      MembersLookup(domains, roles[..n], i);
    } else {
      NoMembersLookup(domains, roles[..n], roles[i].name);
    }
  }

  /** In a domain with distinct config keys an emitted role's name occurs once. */
  lemma EmittedRoleIsUnique(domains: map<string, DomainValue>, d: DomainValue, s: V1Settings, i: nat)
    requires var m := ModelOf(domains, d);
             && AllDifferent(EmittedNames(m, m.roles, s)) && i < |d.roles| && Emits(m, d.roles[i].name, s)
    ensures forall j :: 0 <= j < |d.roles| && j != i ==> d.roles[j].name != d.roles[i].name
  {
    var m := ModelOf(domains, d);
    NamesAt(d.roles);
    forall j | 0 <= j < |d.roles| && j != i ensures d.roles[j].name != d.roles[i].name {
      if d.roles[j].name == d.roles[i].name {
        EmittedOnce(m, m.roles, s, if i < j then i else j, if i < j then j else i);
      }
    }
  }

  /** An emitted role has a binding exactly when it has accepted subjects, and those make it up. */
  lemma BindingConfigOf(domains: map<string, DomainValue>, d: DomainValue, s: V1Settings, i: nat)
    requires var m := ModelOf(domains, d);
             && AllDifferent(EmittedNames(m, m.roles, s)) && i < |d.roles| && Emits(m, d.roles[i].name, s)
    ensures var m, r := ModelOf(domains, d), d.roles[i];
            var configs, subjects := RoleConfigs(m, r.name, s), AcceptedSubjects(domains, d.name, r, s);
            && (|configs| == 2 <==> subjects.Some?)
            && (subjects.Some? ==>
                  var role := ParseRoleFQDN(d.name, r.name).value;
                  configs[1].spec == BindingSpec(RoleRef(Kind.ServiceRole, RoleToK8sName(role)),
                                                 subjects.value + [User(d.name + "/ra/" + role)]))
  {
    EmittedRoleIsUnique(domains, d, s, i);
    MembersLookup(domains, d.roles, i);
  }

  // ---- All roles. ----

  /** Every emitted role has the same accepted subjects in both worlds. */
  ghost predicate SameSubjects(a: map<string, DomainValue>, b: map<string, DomainValue>, d: DomainValue, s: V1Settings) {
    forall i :: 0 <= i < |d.roles| && Emits(ModelOf(a, d), d.roles[i].name, s) ==>
      AcceptedSubjects(a, d.name, d.roles[i], s) == AcceptedSubjects(b, d.name, d.roles[i], s)
  }

  lemma SameSubjectsSameConfigs(a: map<string, DomainValue>, b: map<string, DomainValue>, d: DomainValue, s: V1Settings, i: nat)
    requires var m := ModelOf(a, d); AllDifferent(EmittedNames(m, m.roles, s))
    requires SameSubjects(a, b, d, s) && i < |d.roles|
    ensures RoleConfigs(ModelOf(a, d), d.roles[i].name, s) == RoleConfigs(ModelOf(b, d), d.roles[i].name, s)
  {
    var m, n := ModelOf(a, d), ModelOf(b, d);
    SameEmittedNames(m, n, m.roles, s);
    MembersDoNotEmit(m, n, d.roles[i].name, s);
    if Emits(m, d.roles[i].name, s) {
      BindingConfigOf(a, d, s, i);
      BindingConfigOf(b, d, s, i);
    }
  }

  lemma {:induction false} EqualRolesEqualConfigs(m: Model, n: Model, roles: seq<string>, s: V1Settings)
    requires forall i :: 0 <= i < |roles| ==> RoleConfigs(m, roles[i], s) == RoleConfigs(n, roles[i], s)
    ensures ConfigsOf(m, roles, s) == ConfigsOf(n, roles, s)
  {
    if roles != [] {
      EqualRolesEqualConfigs(m, n, roles[..|roles| - 1], s);
    }
  }

  /** An emitted config is that of the one role with its resource name. */
  lemma ConfigIsOfRole(m: Model, s: V1Settings, i: nat, c: Config<Spec>)
    requires AllDifferent(EmittedNames(m, m.roles, s)) && i < |m.roles| && Emits(m, m.roles[i], s)
    requires c in ConfigsOf(m, m.roles, s) && c.meta.key.name == ResourceName(m, m.roles[i], s)
    ensures c in RoleConfigs(m, m.roles[i], s)
  {
    var j := ConfigOrigin(m, m.roles, s, c);
    if i < j {
      EmittedOnce(m, m.roles, s, i, j);
    } else if j < i {
      EmittedOnce(m, m.roles, s, j, i);
    }
  }

  lemma SecondIsBinding(m: Model, fqdn: string, s: V1Settings, e: Config<Spec>)
    requires e in RoleConfigs(m, fqdn, s) && e.meta.key.kind == Kind.ServiceRoleBinding
    ensures |RoleConfigs(m, fqdn, s)| == 2 && e == RoleConfigs(m, fqdn, s)[1]
  {
  }

  lemma AskedConfig(a: map<string, DomainValue>, b: map<string, DomainValue>, d: DomainValue, s: V1Settings, i: nat)
    returns (e: Config<Spec>)
    requires var m := ModelOf(a, d); AllDifferent(EmittedNames(m, m.roles, s))
    requires i < |d.roles| && |RoleConfigs(ModelOf(a, d), d.roles[i].name, s)| == 2
    requires var c := RoleConfigs(ModelOf(a, d), d.roles[i].name, s)[1];
             AsksFor(ConfigsOf(ModelOf(b, d), ModelOf(b, d).roles, s), c.meta.key, c.spec)
    ensures var n := ModelOf(b, d); AllDifferent(EmittedNames(n, n.roles, s)) && Emits(n, d.roles[i].name, s)
    ensures |RoleConfigs(ModelOf(b, d), d.roles[i].name, s)| == 2
    ensures e == RoleConfigs(ModelOf(b, d), d.roles[i].name, s)[1]
    ensures e.spec == RoleConfigs(ModelOf(a, d), d.roles[i].name, s)[1].spec
  {
    var m, n := ModelOf(a, d), ModelOf(b, d);
    var c := RoleConfigs(m, d.roles[i].name, s)[1];
    NamesAt(d.roles);
    SameEmittedNames(m, n, m.roles, s);
    MembersDoNotEmit(m, n, d.roles[i].name, s);
    e :| e in ConfigsOf(n, n.roles, s) && e.meta.key == c.meta.key && e.spec == c.spec;
    ConfigIsOfRole(n, s, i, e);
    SecondIsBinding(n, d.roles[i].name, s, e);
  }

  lemma EqualTails(xs: seq<Subject>, ys: seq<Subject>, z: Subject)
    requires xs + [z] == ys + [z]
    ensures xs == ys
  {
    assert (xs + [z])[..|xs|] == xs && (ys + [z])[..|ys|] == ys;
  }

  /** A binding that the other list asks for too is that of the same role. */
  lemma AskedBinding(a: map<string, DomainValue>, b: map<string, DomainValue>, d: DomainValue, s: V1Settings, i: nat)
    requires var m := ModelOf(a, d); AllDifferent(EmittedNames(m, m.roles, s))
    requires i < |d.roles| && |RoleConfigs(ModelOf(a, d), d.roles[i].name, s)| == 2
    requires var c := RoleConfigs(ModelOf(a, d), d.roles[i].name, s)[1];
             AsksFor(ConfigsOf(ModelOf(b, d), ModelOf(b, d).roles, s), c.meta.key, c.spec)
    ensures AcceptedSubjects(a, d.name, d.roles[i], s) == AcceptedSubjects(b, d.name, d.roles[i], s)
  {
    var c := RoleConfigs(ModelOf(a, d), d.roles[i].name, s)[1];
    var e := AskedConfig(a, b, d, s, i);
    BindingConfigOf(a, d, s, i);
    BindingConfigOf(b, d, s, i);
    EqualTails(AcceptedSubjects(a, d.name, d.roles[i], s).value, AcceptedSubjects(b, d.name, d.roles[i], s).value,
               User(d.name + "/ra/" + ParseRoleFQDN(d.name, d.roles[i].name).value));
  }

  lemma SameSpecsOfItself(xs: seq<Config<Spec>>)
    ensures SameSpecs(xs, xs)
  {
  }

  lemma AskedSubjects(a: map<string, DomainValue>, b: map<string, DomainValue>, d: DomainValue, s: V1Settings, i: nat)
    requires var m := ModelOf(a, d); AllDifferent(EmittedNames(m, m.roles, s))
    requires SameSpecs(ConfigsOf(ModelOf(a, d), ModelOf(a, d).roles, s), ConfigsOf(ModelOf(b, d), ModelOf(b, d).roles, s))
    requires i < |d.roles| && Emits(ModelOf(a, d), d.roles[i].name, s)
    ensures AcceptedSubjects(a, d.name, d.roles[i], s) == AcceptedSubjects(b, d.name, d.roles[i], s)
  {
    var m, n, fqdn := ModelOf(a, d), ModelOf(b, d), d.roles[i].name;
    NamesAt(d.roles);
    SameEmittedNames(m, n, m.roles, s);
    MembersDoNotEmit(m, n, fqdn, s);
    BindingConfigOf(a, d, s, i);
    BindingConfigOf(b, d, s, i);
    if |RoleConfigs(m, fqdn, s)| == 2 {
      ConfigsContain(m, m.roles, s, i, RoleConfigs(m, fqdn, s)[1]);
      AskedBinding(a, b, d, s, i);
    } else if |RoleConfigs(n, fqdn, s)| == 2 {
      ConfigsContain(n, n.roles, s, i, RoleConfigs(n, fqdn, s)[1]);
      AskedBinding(b, a, d, s, i);
    }
  }

  /** With distinct keys, the desired configs ask for the same specs exactly when every emitted role has the same accepted
      subjects. */
  lemma SameSpecsIff(a: map<string, DomainValue>, b: map<string, DomainValue>, d: DomainValue, s: V1Settings)
    requires var m := ModelOf(a, d); DistinctKeys(ConfigsOf(m, m.roles, s))
    ensures SameSpecs(ConfigsOf(ModelOf(a, d), ModelOf(a, d).roles, s), ConfigsOf(ModelOf(b, d), ModelOf(b, d).roles, s)) <==>
            SameSubjects(a, b, d, s)
  {
    var m, n := ModelOf(a, d), ModelOf(b, d);
    KeysDistinctIff(m, m.roles, s);
    SameEmittedNames(m, n, m.roles, s);
    NamesAt(d.roles);
    if SameSubjects(a, b, d, s) {
      forall i | 0 <= i < |m.roles| ensures RoleConfigs(m, m.roles[i], s) == RoleConfigs(n, m.roles[i], s) {
        SameSubjectsSameConfigs(a, b, d, s, i);
      }
      EqualRolesEqualConfigs(m, n, m.roles, s);
      SameSpecsOfItself(ConfigsOf(m, m.roles, s));
    }
    if SameSpecs(ConfigsOf(m, m.roles, s), ConfigsOf(n, n.roles, s)) {
      forall i | 0 <= i < |d.roles| && Emits(m, d.roles[i].name, s)
        ensures AcceptedSubjects(a, d.name, d.roles[i], s) == AcceptedSubjects(b, d.name, d.roles[i], s)
      {
        AskedSubjects(a, b, d, s, i);
      }
    }
  }

  /** Every emitted role that trusts the changed domain is delegated the same accepted subjects as before. */
  ghost predicate SameDelegations(domains: map<string, DomainValue>, key: string, changed: DomainValue, s: V1Settings)
    requires key in domains
  {
    var d := domains[key];
    forall i :: 0 <= i < |d.roles| && d.roles[i].trust == changed.name && Emits(ModelOf(domains, d), d.roles[i].name, s) ==>
      AcceptedSubjects(domains, d.name, d.roles[i], s) ==
      AcceptedSubjects(domains[changed.name := changed], d.name, d.roles[i], s)
  }

  lemma DelegationsDecideSubjects(domains: map<string, DomainValue>, key: string, changed: DomainValue, s: V1Settings)
    requires key in domains && changed.name != ""
    ensures SameDelegations(domains, key, changed, s) <==>
            SameSubjects(domains, domains[changed.name := changed], domains[key], s)
  {
    var d, after := domains[key], domains[changed.name := changed];
    forall i | 0 <= i < |d.roles| && d.roles[i].trust != changed.name
      ensures AcceptedSubjects(domains, d.name, d.roles[i], s) == AcceptedSubjects(after, d.name, d.roles[i], s)
    {
    }
  }

  /** A change of another domain leaves a quiescent domain quiescent, and it stays converged if and only if each emitted
      role that trusts the changed domain is delegated the same accepted subjects as before. */
  lemma TrustChangeKeepsConvergenceIff(s: State, key: string, d: DomainValue, env: V1Settings)
    requires key in s.domains && s.domains[key].name == key && d.name != "" && d.name != key
    requires Quiescent(s, key) && Converged(s, key, env) && DistinctKeys(Desired(s.domains, key, env))
    ensures Quiescent(DomainEvent(s, d), key)
    ensures Converged(DomainEvent(s, d), key, env) <==> SameDelegations(s.domains, key, d, env)
  {
    var after := s.domains[d.name := d];
    OtherDomainsGoUnnoticed(s, key, d, env);
    SameSpecsIff(s.domains, after, s.domains[key], env);
    DelegationsDecideSubjects(s.domains, key, d, env);
  }

  // ---- The failing input. ----

  /** A domain whose role "r" is delegated to domain "b". */
  function TrustingDomain(): DomainValue {
    DomainValue("d", [Policy([Grant("d", "r")])], [RoleValue(Fqdn("d", "r"), "b", [])], [])
  }

  function Before(): map<string, DomainValue> {
    map["b" := DomainValue("b", [], [], []), "d" := TrustingDomain()]
  }

  /** The trusted domain lets the members of its role "x" assume every role. */
  function Change(): DomainValue {
    DomainValue("b", [Policy([Assertion("x", "*", ASSUME_ROLE, Some(Allow))])],
                [RoleValue("x", "", [Member("u.y", None, None)])], [])
  }

  lemma OneGrant(g: Assertion)
    ensures RulesOf(AllAssertions([Policy([g])])) == map[g.role := [g]]
  {
    var policies := [Policy([g])];
    assert policies[..0] == [] && AllAssertions(policies) == [g];
    OneMoreAssertion([], g);
    assert [] + [g] == [g] && RolesNamed([]) == {};
  }

  lemma OneRole(domains: map<string, DomainValue>, r: RoleValue)
    ensures Names([r]) == [r.name]
    ensures MembersOf(domains, [r]) ==
            if MembersOfRole(domains, r).Some? then map[r.name := MembersOfRole(domains, r).value] else map[]
  {
    assert [r][..0] == [] && MembersOf(domains, [r][..0]) == map[] && Names([r][..0]) == [];
  }

  lemma OneRoleOneName(m: Model, fqdn: string, env: V1Settings)
    ensures AllDifferent(EmittedNames(m, [fqdn], env))
  {
    SomesDifferIff(EmittedOptions(m, [fqdn], env));
  }

  lemma TrustingEmits(domains: map<string, DomainValue>, env: V1Settings)
    requires Accepting(env)
    ensures var m := ModelOf(domains, TrustingDomain());
            Emits(m, Fqdn("d", "r"), env) && DistinctKeys(ConfigsOf(m, m.roles, env))
  {
    var m := ModelOf(domains, TrustingDomain());
    OneGrant(Grant("d", "r"));
    OneRole(domains, TrustingDomain().roles[0]);
    GrantedRoleEmits(m, "r", env);
    OneRoleOneName(m, Fqdn("d", "r"), env);
    KeysDistinctIff(m, m.roles, env);
  }

  lemma TrustingSubjects(domains: map<string, DomainValue>, ms: seq<Member>, env: V1Settings)
    requires MembersOfRole(domains, TrustingDomain().roles[0]) == Some(ms) && Accepting(env)
    ensures AcceptedSubjects(domains, "d", TrustingDomain().roles[0], env) == Some(MemberSubjects(ms, env.jwt))
  {
    FqdnParses("d", "r");
  }

  lemma ChangeDelegates(name: string)
    requires '\n' !in name
    ensures Delegated(Change(), name) == [Member("u.y", None, None)]
  {
    var d := Change();
    assert d.policies[..0] == [] && AllAssertions(d.policies) == [Assertion("x", "*", ASSUME_ROLE, Some(Allow))];
    RoleGlob.StarMatchesAll(name);
  }

  lemma DelegationDiffers(domains: map<string, DomainValue>, key: string, changed: DomainValue, s: V1Settings, i: nat)
    requires key in domains && i < |domains[key].roles| && domains[key].roles[i].trust == changed.name
    requires Emits(ModelOf(domains, domains[key]), domains[key].roles[i].name, s)
    requires AcceptedSubjects(domains, domains[key].name, domains[key].roles[i], s) !=
             AcceptedSubjects(domains[changed.name := changed], domains[key].name, domains[key].roles[i], s)
    ensures !SameDelegations(domains, key, changed, s)
  {
  }

  lemma OneSubject(x: Member, jwt: bool)
    requires x.name == "u.y"
    ensures MemberSubjects([x], jwt) != []
  {
    assert "u.y"[1] == '.' && LastIndex("u.y", '.', 3) == 1;
    assert [x][..0] == [];
  }

  /** The change adds a subject to the delegated role. */
  lemma SubjectsChange(env: V1Settings)
    requires Accepting(env)
    ensures var m := ModelOf(Before(), TrustingDomain()); DistinctKeys(ConfigsOf(m, m.roles, env))
    ensures !SameDelegations(Before(), "d", Change(), env)
  {
    var after, y := Before()["b" := Change()], Member("u.y", None, None);
    ChangeDelegates(Fqdn("d", "r"));
    TrustingEmits(Before(), env);
    TrustingSubjects(Before(), [], env);
    TrustingSubjects(after, [y], env);
    OneSubject(y, env.jwt);
    DelegationDiffers(Before(), "d", Change(), env, 0);
  }

  /** The server has what domain "d" asks for, and both domains wait for their first sync. */
  ghost function TrustStart(env: V1Settings): State {
    var objects := KeyedMap(Desired(Before(), "d", env));
    State(Before(), Store(objects, 0), objects, {}, {"b", "d"}, map[], map[], 0, {})
  }

  lemma DistinctIsKept(desired: seq<Config<Spec>>, c: Config<Spec>)
    requires DistinctKeys(desired) && c in desired
    ensures c.meta.key in KeyedMap(desired) && KeyedMap(desired)[c.meta.key] == c
  {
    KeyedMapContains(desired);
    var e := KeyedMap(desired)[c.meta.key];
    var i :| 0 <= i < |desired| && desired[i] == c;
    var j :| 0 <= j < |desired| && desired[j] == e;
  }

  lemma {:induction false} NewConfigsAreUnversioned(m: Model, roles: seq<string>, env: V1Settings)
    ensures forall c :: c in ConfigsOf(m, roles, env) ==> c.meta.resourceVersion == 0
  {
    if roles != [] {
      NewConfigsAreUnversioned(m, roles[..|roles| - 1], env);
    }
  }

  /** A store that holds a list of new configs with distinct keys lists exactly these. */
  lemma KeptIsListed(desired: seq<Config<Spec>>, sc: Scope)
    requires DistinctKeys(desired) && forall c :: c in desired ==> InScope(sc, c.meta.key)
    ensures Lists(desired, KeyedMap(desired), sc)
    ensures forall k :: k in KeyedMap(desired) ==> KeyedMap(desired)[k].meta.key == k && InScope(sc, k)
  {
    KeyedMapContains(desired);
    forall c | c in desired ensures c.meta.key in KeyedMap(desired) && KeyedMap(desired)[c.meta.key] == c {
      DistinctIsKept(desired, c);
    }
  }

  lemma NothingIsListed(objects: map<Key, Config<Spec>>, sc: Scope, other: Scope)
    requires sc.namespace != other.namespace && forall k :: k in objects ==> InScope(sc, k)
    ensures Lists([], objects, other)
  {
  }

  lemma SyncedStart(domains: map<string, DomainValue>, objects: map<Key, Config<Spec>>)
    requires forall key :: key in domains ==> domains[key].name == key
    requires forall k :: k in objects ==> objects[k].meta.key == k && objects[k].meta.resourceVersion == 0
    ensures Init(State(domains, Store(objects, 0), objects, {}, domains.Keys, map[], map[], 0, {}))
  {
  }

  lemma KeptStart(domains: map<string, DomainValue>, desired: seq<Config<Spec>>, sc: Scope, other: Scope)
    requires forall key :: key in domains ==> domains[key].name == key
    requires DistinctKeys(desired) && sc.namespace != other.namespace
    requires forall c :: c in desired ==> InScope(sc, c.meta.key) && c.meta.resourceVersion == 0
    ensures var objects := KeyedMap(desired);
            && Init(State(domains, Store(objects, 0), objects, {}, domains.Keys, map[], map[], 0, {}))
            && Lists(desired, objects, sc) && Lists([], objects, other)
  {
    KeptIsListed(desired, sc);
    NothingIsListed(KeyedMap(desired), sc, other);
    KeyedMapContains(desired);
    SyncedStart(domains, KeyedMap(desired));
  }

  lemma BeforeIsKeyed()
    ensures Before().Keys == {"b", "d"} && forall key :: key in Before() ==> Before()[key].name == key
    ensures Decodable("b") && Decodable("d")
  {
  }

  lemma DesiredStart(domains: map<string, DomainValue>, key: string, other: Scope, env: V1Settings)
    requires key in domains && forall k :: k in domains ==> domains[k].name == k
    requires DistinctKeys(Desired(domains, key, env)) && ScopeOf(key).namespace != other.namespace
    ensures var desired := Desired(domains, key, env); var objects := KeyedMap(desired);
            && Init(State(domains, Store(objects, 0), objects, {}, domains.Keys, map[], map[], 0, {}))
            && Lists(desired, objects, ScopeOf(key)) && Lists([], objects, other)
  {
    var m := ModelOf(domains, domains[key]);
    DesiredInScope(domains, key, env);
    NewConfigsAreUnversioned(m, m.roles, env);
    KeptStart(domains, Desired(domains, key, env), ScopeOf(key), other);
  }

  lemma TrustStartIsPossible(env: V1Settings)
    requires Accepting(env)
    ensures var s, desired := TrustStart(env), Desired(Before(), "d", env);
            && Init(s) && Lists(desired, s.cache, ScopeOf("d")) && Lists([], s.cache, ScopeOf("b"))
  {
    BeforeIsKeyed();
    SubjectsChange(env);
    NamespacesOfDecodableDomainsDiffer("b", "d");
    DesiredStart(Before(), "d", ScopeOf("b"), env);
  }

  /** A sync that finds the desired configs does nothing, and the domain has converged. */
  lemma FirstSyncIsIdle(s: State, key: string, current: seq<Config<Spec>>, env: V1Settings)
    requires key in s.domains && current == Desired(s.domains, key, env) && DistinctKeys(current)
    requires Lists(current, s.cache, ScopeOf(key)) && s.store.objects == s.cache
    requires forall k :: k in s.cache ==> s.cache[k].meta.key == k
    ensures Changes(current, current, NeverFlagged) == []
    ensures Converged(s, key, env)
  {
    KeyedMapContains(current);
    forall c | c in current ensures KeyedMap(current)[c.meta.key] == c {
      DistinctIsKept(current, c);
    }
    NoChangesIff(current, current, NeverFlagged);
    forall k | k in s.store.objects && InScope(ScopeOf(key), k) ensures k in KeyedMap(current) {
      assert s.cache[k] in current;
    }
  }

  lemma RunOfTwo(s: State, a: Step, mid: State, b: Step, s': State, env: V1Settings)
    requires Init(s) && Enabled(s, a) && mid == Apply(s, a, env) && Enabled(mid, b) && s' == Apply(mid, b, env)
    ensures Reachable(s', env)
  {
    RunOfNone(s, env);
    RunOneMore(s, [], s, a, env);
    RunOneMore(s, [] + [a], mid, b, env);
  }

  /** Both domains come to rest, the trusted one changes, and nothing is queued for the trusting one, whose binding on the
      server now lacks a subject. */
  lemma TrustChangeGoesUnnoticed(env: V1Settings) returns (s: State)
    requires Accepting(env)
    ensures Reachable(s, env) && Quiescent(s, "d") && "d" in s.domains && Converged(s, "d", env)
    ensures Quiescent(DomainEvent(s, Change()), "d") && !Converged(DomainEvent(s, Change()), "d", env)
  {
    var s0, desired := TrustStart(env), Desired(Before(), "d", env);
    TrustStartIsPossible(env);
    SubjectsChange(env);
    FirstSyncIsIdle(s0, "d", desired, env);
    var s1 := SyncKey(s0, "d", desired, env);
    assert Desired(Before(), "b", env) == [];
    NoChangesIff([], Desired(Before(), "b", env), NeverFlagged);
    s := SyncKey(s1, "b", [], env);
    RunOfTwo(s0, StepSync("d", desired), s1, StepSync("b", []), s, env);
    TrustChangeKeepsConvergenceIff(s, "d", Change(), env);
  }
}
