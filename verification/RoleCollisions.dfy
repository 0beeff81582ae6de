/** Roles that share a resource name: the role-name mapping of pkg/istio/rbac/common/servicerole.go. */
module RoleCollisions {
  import opened AthenzData
  import opened AthenzModel
  import opened AssertionResource
  import opened ChangeList
  import opened Configs
  import opened DomainNames
  import opened GoStrings
  import opened Principals
  import opened Reconciler
  import opened ServiceRoles

  // ---- The configs of one role among those of all. ----

  lemma {:induction false} ConfigOrigin(m: Model, roles: seq<string>, s: V1Settings, c: Config<Spec>) returns (i: nat)
    requires c in ConfigsOf(m, roles, s)
    ensures i < |roles| && c in RoleConfigs(m, roles[i], s)
  {
    var n := |roles| - 1;
    if c in RoleConfigs(m, roles[n], s) {
      i := n;
    } else {
      i := ConfigOrigin(m, roles[..n], s, c);
    }
  }

  lemma {:induction false} ConfigsContain(m: Model, roles: seq<string>, s: V1Settings, i: nat, c: Config<Spec>)
    requires i < |roles| && c in RoleConfigs(m, roles[i], s)
    ensures c in ConfigsOf(m, roles, s)
  {
    var n := |roles| - 1;
    if i < n {
      ConfigsContain(m, roles[..n], s, i, c);
    }
  }

  // ---- Two roles with one resource name. ----

  /** Bindings of different roles of a domain never agree, because of their role certificates. */
  lemma BindingsDiffer(domain: string, r1: string, r2: string, k8sName: string, ms1: seq<Member>, ms2: seq<Member>, jwt: bool)
    requires BindingOf(domain, r1, k8sName, ms1, jwt).Some? && BindingOf(domain, r2, k8sName, ms2, jwt).Some?
    requires BindingOf(domain, r1, k8sName, ms1, jwt) == BindingOf(domain, r2, k8sName, ms2, jwt)
    ensures r1 == r2
  {
    var subjects := BindingOf(domain, r1, k8sName, ms1, jwt).value.subjects;
    assert subjects[|subjects| - 1] == User(domain + "/ra/" + r1) == User(domain + "/ra/" + r2);
    assert (domain + "/ra/" + r1)[|domain + "/ra/"|..] == r1 && (domain + "/ra/" + r2)[|domain + "/ra/"|..] == r2;
  }

  /** Two roles of a domain with different names, one resource name and accepted bindings make its desired configs
      contradict each other. */
  lemma CollidingRolesContradict(m: Model, s: V1Settings, i: nat, j: nat)
    requires i < |m.roles| && j < |m.roles|
    requires |RoleConfigs(m, m.roles[i], s)| == 2 && |RoleConfigs(m, m.roles[j], s)| == 2
    requires ParseRoleFQDN(m.name, m.roles[i]) != ParseRoleFQDN(m.name, m.roles[j])
    requires RoleToK8sName(ParseRoleFQDN(m.name, m.roles[i]).value) == RoleToK8sName(ParseRoleFQDN(m.name, m.roles[j]).value)
    ensures !Consistent(ConfigsOf(m, m.roles, s))
  {
    var a, b := RoleConfigs(m, m.roles[i], s)[1], RoleConfigs(m, m.roles[j], s)[1];
    ConfigsContain(m, m.roles, s, i, a);
    ConfigsContain(m, m.roles, s, j, b);
    assert a.meta.key == b.meta.key;
    if a.spec == b.spec {
      var r1, r2 := ParseRoleFQDN(m.name, m.roles[i]).value, ParseRoleFQDN(m.name, m.roles[j]).value;
      BindingsDiffer(m.name, r1, r2, RoleToK8sName(r1), m.members[m.roles[i]], m.members[m.roles[j]], s.jwt);
    }
  }

  /** A domain whose desired configs contradict each other never comes to rest. */
  lemma ContradictionNeverRests(s: State, key: string, env: V1Settings)
    requires Reachable(s, env) && Tracked(s, key) && !Consistent(Desired(s.domains, key, env))
    ensures !Quiescent(s, key)
  {
    if Quiescent(s, key) {
      QuiescenceImpliesConvergence(s, key, env);
    }
  }

  // ---- Roles with one assertion each. ----

  /** A role's full name in a domain, and an assertion that grants it a service. */
  function Fqdn(domain: string, role: string): string {
    domain + ":role." + role
  }

  function Grant(domain: string, role: string): Assertion {
    Assertion(Fqdn(domain, role), domain + ":svc." + "s", "GET", Some(Allow))
  }

  predicate RoleName(role: string) {
    role != "" && ':' !in role
  }

  predicate DomainName(domain: string) {
    domain != "" && '\n' !in domain
  }

  lemma FqdnParses(domain: string, role: string)
    requires RoleName(role)
    ensures ParseRoleFQDN(domain, Fqdn(domain, role)) == Ok(role)
  {
    var prefix := domain + ":role.";
    assert (prefix + role)[|prefix|..] == role;
  }

  lemma ServiceResourceParses(domain: string, svc: string)
    requires '\n' !in domain && svc != "" && ':' !in svc && '\n' !in svc
    ensures ParseResource(domain, domain + ":svc." + svc) == Ok(Target(svc, ""))
  {
    var r := domain + ":svc." + svc;
    ResourceAcceptedIff(domain, r, Target(svc, ""));
    assert r[|domain| + 5..] == svc;
    forall x | |domain| < x <= |r| ensures !MarkAt(r, x) {
      NoLaterColon(domain, svc, x);
    }
  }

  lemma GrantIsARule(domain: string, role: string)
    requires DomainName(domain) && RoleName(role)
    ensures AccessRulesOf(domain, role, [Grant(domain, role)]) != []
  {
    FqdnParses(domain, role);
    ServiceResourceParses(domain, "s");
    assert ToUpper("GET") == "GET";
    assert [Grant(domain, role)][..0] == [];
  }

  /** The role has the assertion in the model. */
  ghost predicate Granted(m: Model, role: string) {
    var fqdn := Fqdn(m.name, role);
    && DomainName(m.name) && RoleName(role)
    && fqdn in m.rules && m.rules[fqdn] == [Grant(m.name, role)]
  }

  lemma GrantedRoleEmits(m: Model, role: string, env: V1Settings)
    requires Granted(m, role) && Accepting(env)
    ensures var configs := RoleConfigs(m, Fqdn(m.name, role), env);
            configs != [] && (Fqdn(m.name, role) in m.members ==> |configs| == 2)
  {
    FqdnParses(m.name, role);
    GrantIsARule(m.name, role);
  }

  // ---- A domain with colliding roles. ----

  /** Two roles, each with an assertion, and no members. */
  function CollidingDomain(domain: string, r1: string, r2: string): DomainValue {
    DomainValue(domain, [Policy([Grant(domain, r1), Grant(domain, r2)])],
                [RoleValue(Fqdn(domain, r1), "", []), RoleValue(Fqdn(domain, r2), "", [])], [])
  }

  lemma TwoGrants(g1: Assertion, g2: Assertion)
    requires g1.role != g2.role
    ensures var rules := RulesOf(AllAssertions([Policy([g1, g2])]));
            g1.role in rules && rules[g1.role] == [g1] && g2.role in rules && rules[g2.role] == [g2]
  {
    var policies := [Policy([g1, g2])];
    assert policies[..0] == [] && AllAssertions(policies) == [g1, g2];
    OneMoreAssertion([], g1);
    OneMoreAssertion([g1], g2);
    assert [] + [g1] == [g1] && [g1] + [g2] == [g1, g2];
  }

  lemma TwoRoles(domains: map<string, DomainValue>, roles: seq<RoleValue>)
    requires |roles| == 2 && roles[0].trust == "" && roles[1].trust == "" && roles[0].name != roles[1].name
    ensures Names(roles) == [roles[0].name, roles[1].name]
    ensures roles[0].name in MembersOf(domains, roles) && roles[1].name in MembersOf(domains, roles)
  {
    assert roles[..1] == [roles[0]] && roles[..1][..0] == [];
    assert Names(roles[..1]) == [roles[0].name];
    assert MembersOf(domains, roles[..1]) == map[roles[0].name := roles[0].members];
  }

  lemma CollidingModel(domains: map<string, DomainValue>, domain: string, r1: string, r2: string)
    requires DomainName(domain) && RoleName(r1) && RoleName(r2) && r1 != r2
    ensures var m := ModelOf(domains, CollidingDomain(domain, r1, r2));
            && m.name == domain && m.roles == [Fqdn(domain, r1), Fqdn(domain, r2)] && Granted(m, r1) && Granted(m, r2)
            && Fqdn(domain, r1) in m.members && Fqdn(domain, r2) in m.members
  {
    FqdnParses(domain, r1);
    FqdnParses(domain, r2);
    TwoGrants(Grant(domain, r1), Grant(domain, r2));
    TwoRoles(domains, CollidingDomain(domain, r1, r2).roles);
  }

  /** With an accepting Istio such a domain wants two different bindings under one key when the two roles have one resource
      name, so it never comes to rest. */
  lemma RolesCollide(s: State, domain: string, r1: string, r2: string, env: V1Settings)
    requires DomainName(domain) && Decodable(domain) && RoleName(r1) && RoleName(r2) && r1 != r2
    requires domain in s.domains && s.domains[domain] == CollidingDomain(domain, r1, r2) && Accepting(env)
    requires RoleToK8sName(r1) == RoleToK8sName(r2)
    ensures !Consistent(Desired(s.domains, domain, env))
    ensures Reachable(s, env) ==> !Quiescent(s, domain)
  {
    var m := ModelOf(s.domains, CollidingDomain(domain, r1, r2));
    CollidingModel(s.domains, domain, r1, r2);
    GrantedRoleEmits(m, r1, env);
    GrantedRoleEmits(m, r2, env);
    FqdnParses(domain, r1);
    FqdnParses(domain, r2);
    CollidingRolesContradict(m, env, 0, 1);
    if Reachable(s, env) {
      assert Tracked(s, domain);
      ContradictionNeverRests(s, domain, env);
    }
  }

  /** "a_b" and "a--b" are two such roles. */
  lemma SameResourceName()
    ensures RoleToK8sName("a_b") == RoleToK8sName("a--b") && RoleName("a_b") && RoleName("a--b") && "a_b" != "a--b"
  {
    ReplaceCharHead("a_b", '_', "--");
    ReplaceCharHead("_b", '_', "--");
    ReplaceCharHead("a--b", '_', "--");
    ReplaceCharHead("--b", '_', "--");
    ReplaceCharHead("-b", '_', "--");
    assert "a_b"[1..] == "_b" && "_b"[1..] == "b";
    assert "a--b"[1..] == "--b" && "--b"[1..] == "-b" && "-b"[1..] == "b";
  }
}
