/**
 What the older back end is for: the ServiceRoles and bindings of a domain let a request pass exactly when the domain grants
 it, expiry and groups aside. pkg/istio/rbac/v1/provider.go. The back end, Istio's RBAC and the domain each have a meaning
 of their own here; Istio's string matcher is a parameter.
 */
module ServiceRoleMeaning {
  import opened AthenzData
  import opened AssertionResource
  import opened Configs
  import opened GoStrings
  import opened PolicyCompiler
  import opened Principals
  import opened RoleCollisions
  import opened ServiceRoles
  import PolicyMeaning

  datatype Attribute = Method | Path | Host | Label | Certificate | Token

  /** Does a pattern match a value of a request? */
  type Pattern = (Attribute, string, string) -> bool

  /** A request to a workload: the workload's labels and host, what is asked, and who asks. */
  datatype Request = Request(
    labels: map<string, string>, host: string, verb: string, path: string, certificate: Option<string>, token: Option<string>)

  // ---- Istio's reading of ServiceRoles and bindings. ----

  ghost predicate Matches(pattern: Pattern, attribute: Attribute, allowed: string, value: Option<string>) {
    value.Some? && pattern(attribute, allowed, value.value)
  }

  ghost predicate SomeMatches(pattern: Pattern, attribute: Attribute, allowed: seq<string>, value: string) {
    exists x :: x in allowed && pattern(attribute, x, value)
  }

  /** A constraint is on a label of the workload. */
  ghost predicate ConstraintHolds(c: Constraint, pattern: Pattern, req: Request) {
    exists name :: c.key == "destination.labels[" + name + "]" && name in req.labels &&
      SomeMatches(pattern, Label, c.values, req.labels[name])
  }

  ghost predicate AccessRuleAdmits(r: AccessRule, pattern: Pattern, req: Request) {
    && (exists h :: h in r.services && (h == "*" || pattern(Host, h, req.host)))
    && SomeMatches(pattern, Method, r.methods, req.verb)
    && (r.paths == [] || SomeMatches(pattern, Path, r.paths, req.path))
    && forall c :: c in r.constraints ==> ConstraintHolds(c, pattern, req)
  }

  ghost predicate SubjectAdmits(x: Subject, pattern: Pattern, req: Request) {
    match x
    case User(user) => Matches(pattern, Certificate, user, req.certificate)
    case RequestAuthPrincipal(subject) => Matches(pattern, Token, subject, req.token)
  }

  ghost predicate SomeRuleAdmits(rules: seq<AccessRule>, pattern: Pattern, req: Request) {
    exists r :: r in rules && AccessRuleAdmits(r, pattern, req)
  }

  ghost predicate SomeSubjectAdmits(subjects: seq<Subject>, pattern: Pattern, req: Request) {
    exists x :: x in subjects && SubjectAdmits(x, pattern, req)
  }

  /** The binding grants the role of the namespace that it refers to. */
  ghost predicate BindingGrants(role: Config<Spec>, binding: Config<Spec>, pattern: Pattern, req: Request) {
    && role.meta.key.kind == Kind.ServiceRole && role.spec.RoleSpec? && binding.spec.BindingSpec?
    && role.meta.key == Key(binding.spec.roleRef.kind, binding.meta.key.namespace, binding.spec.roleRef.name)
    && SomeRuleAdmits(role.spec.rules, pattern, req) && SomeSubjectAdmits(binding.spec.subjects, pattern, req)
  }

  ghost predicate ConfigsAdmit(configs: seq<Config<Spec>>, pattern: Pattern, req: Request) {
    exists role, binding :: role in configs && binding in configs && BindingGrants(role, binding, pattern, req)
  }

  // ---- The domain's own answer, as the older back end takes it. ----

  ghost predicate SameRole(domain: string, a: string, b: string) {
    exists name :: IsRoleName(domain, a, name) && IsRoleName(domain, b, name)
  }

  ghost predicate AssertionGrants(domain: string, role: string, a: Assertion, pattern: Pattern, req: Request) {
    && SameRole(domain, a.role, role)
    && match ParseResource(domain, a.resource)
       case Err(_) => false
       case Ok(t) =>
         && "svc" in req.labels && pattern(Label, t.svc, req.labels["svc"])
         && a.effect == Some(Allow)
         && PolicyMeaning.IsMethod(ToUpper(a.action)) && pattern(Method, ToUpper(a.action), req.verb)
         && (t.path == "" || pattern(Path, t.path, req.path))
  }

  ghost predicate SomeAssertionGrants(domain: string, role: string, assertions: seq<Assertion>, pattern: Pattern, req: Request)
  {
    exists a :: a in assertions && AssertionGrants(domain, role, a, pattern, req)
  }

  /** Any member with a certificate, whether it has run out or been disabled or not. */
  ghost predicate MemberCovers(x: Member, jwt: bool, pattern: Pattern, req: Request) {
    exists c :: HasCertificate(x.name, c) &&
      (|| Matches(pattern, Certificate, c, req.certificate)
       || (jwt && Matches(pattern, Token, if x.name == "user.*" then "*" else "athenz/" + x.name, req.token)))
  }

  ghost predicate SomeMemberCovers(ms: seq<Member>, jwt: bool, pattern: Pattern, req: Request) {
    exists x :: x in ms && MemberCovers(x, jwt, pattern, req)
  }

  /** The role has a certificate, and the caller presents it or is covered by a member of the role. */
  ghost predicate CallerIsGranted(m: Model, role: string, jwt: bool, pattern: Pattern, req: Request) {
    exists c :: IsRoleCertificate(m.name, role, c) &&
      (Matches(pattern, Certificate, c, req.certificate) || SomeMemberCovers(Lookup(m.members, role), jwt, pattern, req))
  }

  ghost predicate RoleGrants(m: Model, role: string, jwt: bool, pattern: Pattern, req: Request) {
    && role in m.members
    && SomeAssertionGrants(m.name, role, Lookup(m.rules, role), pattern, req)
    && CallerIsGranted(m, role, jwt, pattern, req)
  }

  // ---- What Istio refuses. ----

  /** A config that Istio refuses is withheld, and a binding together with its role; nothing else is. */
  lemma OnlyRefusedAreWithheld(m: Model, fqdn: string, v: V1Settings, all: V1Settings)
    requires Accepting(all) && all.jwt == v.jwt
    ensures var configs, emitted := RoleConfigs(m, fqdn, all), RoleConfigs(m, fqdn, v);
            && (configs == [] ==> emitted == [])
            && forall name :: configs != [] && IsRoleName(m.name, fqdn, name) ==>
                 emitted == if !v.validRole(name, m.namespace, configs[0].spec) then []
                            else if |configs| == 2 && v.validBinding(name, m.namespace, configs[1].spec) then configs
                            else [configs[0]]
  {
    forall name ensures ParseRoleFQDN(m.name, fqdn) == Ok(name) <==> IsRoleName(m.name, fqdn, name) {
      RoleNameMeaning(m.name, fqdn, name);
    }
  }

  // ---- Access rules. ----

  lemma SvcConstraint(c: Constraint, pattern: Pattern, req: Request)
    requires c.key == CONSTRAINT_SVC_KEY
    ensures ConstraintHolds(c, pattern, req) <==>
            "svc" in req.labels && SomeMatches(pattern, Label, c.values, req.labels["svc"])
  {
    assert c.key == "destination.labels[" + "svc" + "]";
    forall name | c.key == "destination.labels[" + name + "]" ensures name == "svc" {
      assert name == c.key[|"destination.labels["|..|c.key| - 1];
    }
  }

  lemma SameRoleMeaning(domain: string, a: string, role: string, name: string)
    requires ParseRoleFQDN(domain, role) == Ok(name)
    ensures SameRole(domain, a, role) <==> ParseRoleFQDN(domain, a) == Ok(name)
  {
    forall n
      ensures IsRoleName(domain, a, n) <==> ParseRoleFQDN(domain, a) == Ok(n)
      ensures IsRoleName(domain, role, n) <==> n == name
    {
      RoleNameMeaning(domain, a, n);
      RoleNameMeaning(domain, role, n);
    }
  }

  lemma OneMatches(pattern: Pattern, attribute: Attribute, x: string, value: string)
    ensures SomeMatches(pattern, attribute, [x], value) <==> pattern(attribute, x, value)
  {
    assert x in [x];
  }

  /** One access rule, as the back end builds it. */
  lemma BuiltRuleAdmits(svc: string, verb: string, path: string, pattern: Pattern, req: Request)
    ensures var c := Constraint(CONSTRAINT_SVC_KEY, [svc]);
            AccessRuleAdmits(AccessRule([c], [verb], ["*"], if path == "" then [] else [path]), pattern, req) <==>
            && "svc" in req.labels && pattern(Label, svc, req.labels["svc"])
            && pattern(Method, verb, req.verb) && (path == "" || pattern(Path, path, req.path))
  {
    var c := Constraint(CONSTRAINT_SVC_KEY, [svc]);
    SvcConstraint(c, pattern, req);
    assert c in [c] && "*" in ["*"];
    OneMatches(pattern, Method, verb, req.verb);
    OneMatches(pattern, Path, path, req.path);
    if "svc" in req.labels {
      OneMatches(pattern, Label, svc, req.labels["svc"]);
    }
  }

  lemma AssertionMeaning(domain: string, role: string, name: string, a: Assertion, pattern: Pattern, req: Request)
    requires ParseRoleFQDN(domain, role) == Ok(name)
    ensures AssertionGrants(domain, role, a, pattern, req) <==>
            AccessRuleOf(domain, name, a).Some? && AccessRuleAdmits(AccessRuleOf(domain, name, a).value, pattern, req)
  {
    SameRoleMeaning(domain, a.role, role, name);
    if AccessRuleOf(domain, name, a).Some? {
      var t := ParseResource(domain, a.resource).value;
      BuiltRuleAdmits(t.svc, ToUpper(a.action), t.path, pattern, req);
    }
  }

  lemma {:induction false} AccessRulesMeaning(domain: string, role: string, name: string, assertions: seq<Assertion>,
                                              pattern: Pattern, req: Request)
    requires ParseRoleFQDN(domain, role) == Ok(name)
    ensures SomeRuleAdmits(AccessRulesOf(domain, name, assertions), pattern, req) <==>
            SomeAssertionGrants(domain, role, assertions, pattern, req)
  {
    if assertions != [] {
      var init, a := assertions[..|assertions| - 1], assertions[|assertions| - 1];
      AccessRulesMeaning(domain, role, name, init, pattern, req);
      AssertionMeaning(domain, role, name, a, pattern, req);
      assert forall x :: x in assertions <==> x in init || x == a by {
        assert assertions == init + [a];
      }
      var rules, rule := AccessRulesOf(domain, name, init), AccessRuleOf(domain, name, a);
      assert rule.Some? ==> forall r :: r in rules + [rule.value] <==> r in rules || r == rule.value;
    }
  }

  // ---- Subjects. ----

  lemma SubjectsInTwoParts(a: seq<Subject>, b: seq<Subject>, pattern: Pattern, req: Request)
    ensures SomeSubjectAdmits(a + b, pattern, req) <==> SomeSubjectAdmits(a, pattern, req) || SomeSubjectAdmits(b, pattern, req)
  {
    assert forall x :: x in a + b <==> x in a || x in b;
  }

  lemma OneSubjectAdmits(x: Subject, pattern: Pattern, req: Request)
    ensures SomeSubjectAdmits([x], pattern, req) <==> SubjectAdmits(x, pattern, req)
  {
    assert x in [x];
  }

  lemma MemberMeaning(x: Member, jwt: bool, pattern: Pattern, req: Request)
    ensures SomeSubjectAdmits(SubjectsOf(x, jwt), pattern, req) <==> MemberCovers(x, jwt, pattern, req)
  {
    CertificateMeaning(x.name);
    if MemberToSpiffe(x.name).Ok? {
      var user, token := User(MemberToSpiffe(x.name).value), RequestAuthPrincipal(MemberToJwtSubject(x.name));
      OneSubjectAdmits(user, pattern, req);
      OneSubjectAdmits(token, pattern, req);
      SubjectsInTwoParts([user], if jwt then [token] else [], pattern, req);
    }
  }

  lemma {:induction false} MembersMeaning(ms: seq<Member>, jwt: bool, pattern: Pattern, req: Request)
    ensures SomeSubjectAdmits(MemberSubjects(ms, jwt), pattern, req) <==> SomeMemberCovers(ms, jwt, pattern, req)
  {
    if ms != [] {
      var init, x := ms[..|ms| - 1], ms[|ms| - 1];
      MembersMeaning(init, jwt, pattern, req);
      MemberMeaning(x, jwt, pattern, req);
      SubjectsInTwoParts(MemberSubjects(init, jwt), SubjectsOf(x, jwt), pattern, req);
      assert forall y :: y in ms <==> y in init || y == x by {
        assert ms == init + [x];
      }
    }
  }

  // ---- Roles. ----

  /** When Istio accepts everything, a role has a binding if it has rules, members on record and a certificate. */
  lemma AcceptedPair(m: Model, role: string, v: V1Settings)
    requires Accepting(v)
    ensures var configs, certificate := RoleConfigs(m, role, v), RoleCertificate(m.name, role);
            if && role in m.members && certificate.Ok?
               && AccessRulesOf(m.name, ParseRoleFQDN(m.name, role).value, Lookup(m.rules, role)) != []
            then
              && |configs| == 2 && configs[0].meta.key.kind == Kind.ServiceRole
              && configs[0].spec == RoleSpec(AccessRulesOf(m.name, ParseRoleFQDN(m.name, role).value, Lookup(m.rules, role)))
              && configs[1].spec.BindingSpec?
              && configs[0].meta.key ==
                 Key(configs[1].spec.roleRef.kind, configs[1].meta.key.namespace, configs[1].spec.roleRef.name)
              && configs[1].spec.subjects == MemberSubjects(m.members[role], v.jwt) + [User(certificate.value)]
            else |configs| < 2
  {
  }

  lemma SubjectsMeaning(ms: seq<Member>, certificate: string, jwt: bool, pattern: Pattern, req: Request)
    ensures SomeSubjectAdmits(MemberSubjects(ms, jwt) + [User(certificate)], pattern, req) <==>
            Matches(pattern, Certificate, certificate, req.certificate) || SomeMemberCovers(ms, jwt, pattern, req)
  {
    MembersMeaning(ms, jwt, pattern, req);
    OneSubjectAdmits(User(certificate), pattern, req);
    SubjectsInTwoParts(MemberSubjects(ms, jwt), [User(certificate)], pattern, req);
  }

  lemma CallerMeaning(m: Model, role: string, jwt: bool, pattern: Pattern, req: Request)
    ensures CallerIsGranted(m, role, jwt, pattern, req) <==>
            && RoleCertificate(m.name, role).Ok?
            && (|| Matches(pattern, Certificate, RoleCertificate(m.name, role).value, req.certificate)
                || SomeMemberCovers(Lookup(m.members, role), jwt, pattern, req))
  {
    forall c ensures RoleCertificate(m.name, role) == Ok(c) <==> IsRoleCertificate(m.name, role, c) {
      PolicyMeaning.RoleCertificateMeaning(m.name, role, c);
    }
  }

  lemma PairGrants(role: Config<Spec>, binding: Config<Spec>, pattern: Pattern, req: Request)
    requires role.meta.key.kind == Kind.ServiceRole && role.spec.RoleSpec? && binding.spec.BindingSpec?
    requires role.meta.key == Key(binding.spec.roleRef.kind, binding.meta.key.namespace, binding.spec.roleRef.name)
    ensures BindingGrants(role, binding, pattern, req) <==>
            SomeRuleAdmits(role.spec.rules, pattern, req) && SomeSubjectAdmits(binding.spec.subjects, pattern, req)
  {
  }

  /** The pair of configs of a role admits what the role grants. */
  lemma RoleMeaning(m: Model, role: string, v: V1Settings, pattern: Pattern, req: Request)
    requires Accepting(v)
    ensures RoleGrants(m, role, v.jwt, pattern, req) <==>
            var configs := RoleConfigs(m, role, v); |configs| == 2 && BindingGrants(configs[0], configs[1], pattern, req)
  {
    var configs := RoleConfigs(m, role, v);
    AcceptedPair(m, role, v);
    CallerMeaning(m, role, v.jwt, pattern, req);
    if RoleCertificate(m.name, role).Ok? && role in m.members {
      AccessRulesMeaning(m.name, role, ParseRoleFQDN(m.name, role).value, Lookup(m.rules, role), pattern, req);
      SubjectsMeaning(m.members[role], RoleCertificate(m.name, role).value, v.jwt, pattern, req);
      if |configs| == 2 {
        PairGrants(configs[0], configs[1], pattern, req);
      }
    }
  }

  lemma SameKeySameConfig(configs: seq<Config<Spec>>, a: Config<Spec>, b: Config<Spec>)
    requires DistinctKeys(configs) && a in configs && b in configs && a.meta.key == b.meta.key
    ensures a == b
  {
    var i :| 0 <= i < |configs| && configs[i] == a;
    var j :| 0 <= j < |configs| && configs[j] == b;
  }

  /** A binding that grants a role is the binding of that role. */
  lemma GrantingPair(m: Model, v: V1Settings, role: Config<Spec>, binding: Config<Spec>, pattern: Pattern, req: Request)
    returns (i: nat)
    requires Accepting(v) && DistinctKeys(ConfigsOf(m, m.roles, v))
    requires role in ConfigsOf(m, m.roles, v) && binding in ConfigsOf(m, m.roles, v)
    requires BindingGrants(role, binding, pattern, req)
    ensures i < |m.roles| && |RoleConfigs(m, m.roles[i], v)| == 2
    ensures BindingGrants(RoleConfigs(m, m.roles[i], v)[0], RoleConfigs(m, m.roles[i], v)[1], pattern, req)
  {
    i := ConfigOrigin(m, m.roles, v, binding);
    var pair := RoleConfigs(m, m.roles[i], v);
    assert |pair| == 2 && binding == pair[1];
    ConfigsContain(m, m.roles, v, i, pair[0]);
    SameKeySameConfig(ConfigsOf(m, m.roles, v), role, pair[0]);
  }

  lemma GrantedRoleAdmits(m: Model, v: V1Settings, i: nat, pattern: Pattern, req: Request)
    requires Accepting(v) && i < |m.roles| && RoleGrants(m, m.roles[i], v.jwt, pattern, req)
    ensures ConfigsAdmit(ConfigsOf(m, m.roles, v), pattern, req)
  {
    RoleMeaning(m, m.roles[i], v, pattern, req);
    var pair := RoleConfigs(m, m.roles[i], v);
    ConfigsContain(m, m.roles, v, i, pair[0]);
    ConfigsContain(m, m.roles, v, i, pair[1]);
  }

  /** Meaning is preserved: when Istio accepts the configs and their keys are distinct, they admit a request exactly when some
      role of the domain grants it. */
  lemma ServiceRolesPreserveMeaning(m: Model, v: V1Settings, pattern: Pattern, req: Request)
    requires Accepting(v) && DistinctKeys(ConfigsOf(m, m.roles, v))
    ensures ConfigsAdmit(ConfigsOf(m, m.roles, v), pattern, req) <==>
            exists role :: role in m.roles && RoleGrants(m, role, v.jwt, pattern, req)
  {
    var configs := ConfigsOf(m, m.roles, v);
    if role, binding :| role in configs && binding in configs && BindingGrants(role, binding, pattern, req) {
      var i := GrantingPair(m, v, role, binding, pattern, req);
      RoleMeaning(m, m.roles[i], v, pattern, req);
    }
    if role :| role in m.roles && RoleGrants(m, role, v.jwt, pattern, req) {
      var i :| 0 <= i < |m.roles| && m.roles[i] == role;
      GrantedRoleAdmits(m, v, i, pattern, req);
    }
  }
}
