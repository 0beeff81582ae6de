/** The ServiceRole back end: pkg/istio/rbac/v1/provider.go and its spec builders in pkg/istio/rbac/common. */
module ServiceRoles {
  import opened AthenzData
  import opened AssertionResource
  import opened Configs
  import opened DashCodec
  import opened DomainNames
  import opened PolicyCompiler
  import opened Principals

  const CONSTRAINT_SVC_KEY := "destination.labels[svc]"

  datatype Constraint = Constraint(key: string, values: seq<string>)
  datatype AccessRule = AccessRule(
    constraints: seq<Constraint>, methods: seq<string>, services: seq<string>, paths: seq<string>)

  /** A subject names a certificate, or a token through the `request.auth.principal` property. */
  datatype Subject = User(user: string) | RequestAuthPrincipal(subject: string)

  datatype RoleRef = RoleRef(kind: Kind, name: string)
  datatype Spec = RoleSpec(rules: seq<AccessRule>) | BindingSpec(roleRef: RoleRef, subjects: seq<Subject>)

  /** Istio's validation of the two specs is a parameter. */
  datatype V1Settings = V1Settings(
    jwt: bool,
    validRole: (string, string, Spec) -> bool,
    validBinding: (string, string, Spec) -> bool)

  // ---- Specification of the builders. ----

  function AccessRuleOf(domain: string, role: string, a: Assertion): Option<AccessRule> {
    if ParseRoleFQDN(domain, a.role) != Ok(role) then None
    else match ParseResource(domain, a.resource)
      case Err(_) => None
      case Ok(t) =>
        if ParseEffect(a).Err? || ParseAction(a).Err? then None
        else Some(AccessRule([Constraint(CONSTRAINT_SVC_KEY, [t.svc])], [ParseAction(a).value], [WILDCARD_ALL],
                             if t.path == "" then [] else [t.path]))
  }

  function AccessRulesOf(domain: string, role: string, assertions: seq<Assertion>): seq<AccessRule> {
    if assertions == [] then []
    else
      var n := |assertions| - 1;
      var rule := AccessRuleOf(domain, role, assertions[n]);
      AccessRulesOf(domain, role, assertions[..n]) + (if rule.Some? then [rule.value] else [])
  }

  function SubjectsOf(m: Member, jwt: bool): seq<Subject> {
    if MemberToSpiffe(m.name).Err? then []
    else [User(MemberToSpiffe(m.name).value)] + (if jwt then [RequestAuthPrincipal(MemberToJwtSubject(m.name))] else [])
  }

  function MemberSubjects(members: seq<Member>, jwt: bool): seq<Subject> {
    if members == [] then []
    else MemberSubjects(members[..|members| - 1], jwt) + SubjectsOf(members[|members| - 1], jwt)
  }

  /** The binding of a role: its members' subjects, then the role certificate. */
  function BindingOf(domain: string, role: string, k8sName: string, members: seq<Member>, jwt: bool): Option<Spec> {
    match RoleToSpiffe(domain, role)
    case Err(_) => None
    case Ok(certificate) =>
      Some(BindingSpec(RoleRef(Kind.ServiceRole, k8sName), MemberSubjects(members, jwt) + [User(certificate)]))
  }

  /** The configs of one role: none, its ServiceRole, or its ServiceRole and binding. */
  function RoleConfigs(m: Model, fqdn: string, s: V1Settings): (out: seq<Config<Spec>>)
    ensures |out| <= 2
  {
    if fqdn !in m.rules || ParseRoleFQDN(m.name, fqdn).Err? then []
    else
      var role := ParseRoleFQDN(m.name, fqdn).value;
      var rules := AccessRulesOf(m.name, role, m.rules[fqdn]);
      var k8sName := RoleToK8sName(role);
      if rules == [] || !s.validRole(role, m.namespace, RoleSpec(rules)) then []
      else
        var sr := NewConfig(Kind.ServiceRole, m.namespace, k8sName, RoleSpec(rules));
        if fqdn !in m.members then [sr]
        else
          var binding := BindingOf(m.name, role, k8sName, m.members[fqdn], s.jwt);
          if binding.None? || !s.validBinding(role, m.namespace, binding.value) then [sr]
          else [sr, NewConfig(Kind.ServiceRoleBinding, m.namespace, k8sName, binding.value)]
  }

  function ConfigsOf(m: Model, roles: seq<string>, s: V1Settings): seq<Config<Spec>> {
    if roles == [] then []
    else ConfigsOf(m, roles[..|roles| - 1], s) + RoleConfigs(m, roles[|roles| - 1], s)
  }

  // ---- The builders. ----

  /** `GetServiceRoleSpec`. */
  method GetServiceRoleSpec(domain: string, role: string, assertions: seq<Assertion>) returns (spec: Option<Spec>)
    ensures var rules := AccessRulesOf(domain, role, assertions);
            spec == if rules == [] then None else Some(RoleSpec(rules))
  {
    var rules := [];
    for i := 0 to |assertions|
      invariant rules == AccessRulesOf(domain, role, assertions[..i])
    {
      var assertion := assertions[i];
      assert assertions[..i + 1][..i] == assertions[..i];
      var assertionRole := ParseRoleFQDN(domain, assertion.role);
      if assertionRole.Err? || assertionRole.value != role {
        continue;
      }
      var target := ParseAssertionResource(domain, assertion);
      if target.Err? {
        continue;
      }
      if ParseEffect(assertion).Err? {
        continue;
      }
      var verb := ParseAction(assertion);
      if verb.Err? {
        continue;
      }
      var rule := AccessRule([Constraint(CONSTRAINT_SVC_KEY, [target.value.svc])], [verb.value], [WILDCARD_ALL], []);
      if target.value.path != "" {
        rule := rule.(paths := [target.value.path]);
      }
      rules := rules + [rule];
    }
    assert assertions[..|assertions|] == assertions;
    spec := if rules == [] then None else Some(RoleSpec(rules));
  }

  /** `GetServiceRoleBindingSpec`. */
  method GetServiceRoleBindingSpec(domain: string, role: string, k8sName: string, members: seq<Member>, jwt: bool)
    returns (spec: Option<Spec>)
    ensures spec == BindingOf(domain, role, k8sName, members, jwt)
  {
    var subjects: seq<Subject> := [];
    for i := 0 to |members|
      invariant subjects == MemberSubjects(members[..i], jwt)
    {
      var member := members[i];
      assert members[..i + 1][..i] == members[..i];
      var spiffe := MemberToSpiffe(member.name);
      if spiffe.Err? {
        continue;
      }
      subjects := subjects + [User(spiffe.value)];
      if jwt {
        subjects := subjects + [RequestAuthPrincipal(MemberToJwtSubject(member.name))];
      }
    }
    assert members[..|members|] == members;
    var certificate := RoleToSpiffe(domain, role);
    if certificate.Err? {
      return None;
    }
    subjects := subjects + [User(certificate.value)];
    spec := Some(BindingSpec(RoleRef(Kind.ServiceRole, k8sName), subjects));
  }

  /** One turn of the loop over the roles. */
  method ConvertRole(m: Model, fqdn: string, s: V1Settings) returns (out: seq<Config<Spec>>)
    ensures out == RoleConfigs(m, fqdn, s)
  {
    if fqdn !in m.rules {
      return [];
    }
    var roleName := ParseRoleFQDN(m.name, fqdn);
    if roleName.Err? {
      return [];
    }
    var srSpec := GetServiceRoleSpec(m.name, roleName.value, m.rules[fqdn]);
    if srSpec.None? || !s.validRole(roleName.value, m.namespace, srSpec.value) {
      return [];
    }
    var k8sName := RoleToK8sName(roleName.value);
    out := [NewConfig(Kind.ServiceRole, m.namespace, k8sName, srSpec.value)];
    if fqdn !in m.members {
      return;
    }
    var srbSpec := GetServiceRoleBindingSpec(m.name, roleName.value, k8sName, m.members[fqdn], s.jwt);
    if srbSpec.None? || !s.validBinding(roleName.value, m.namespace, srbSpec.value) {
      return;
    }
    out := out + [NewConfig(Kind.ServiceRoleBinding, m.namespace, k8sName, srbSpec.value)];
  }

  /** `ConvertAthenzModelIntoIstioRbac` of the v1 provider. */
  method ConvertAthenzModelIntoIstioRbac(m: Model, s: V1Settings) returns (out: seq<Config<Spec>>)
    ensures out == ConfigsOf(m, m.roles, s)
  {
    out := [];
    for i := 0 to |m.roles|
      invariant out == ConfigsOf(m, m.roles[..i], s)
    {
      assert m.roles[..i + 1][..i] == m.roles[..i];
      var configs := ConvertRole(m, m.roles[i], s);
      out := out + configs;
    }
    assert m.roles[..|m.roles|] == m.roles;
  }

  // ---- Well-formed output. ----

  /** Every binding directly follows the ServiceRole that its role reference names, in the same namespace. */
  ghost predicate BindingsFollowTheirRoles(out: seq<Config<Spec>>) {
    forall i :: 0 <= i < |out| && out[i].spec.BindingSpec? ==>
      && 0 < i
      && out[i].meta.key.kind == Kind.ServiceRoleBinding
      && out[i - 1].spec.RoleSpec?
      && out[i - 1].meta.key == Key(out[i].spec.roleRef.kind, out[i].meta.key.namespace, out[i].spec.roleRef.name)
      && out[i].spec.roleRef == RoleRef(Kind.ServiceRole, out[i].meta.key.name)
  }

  /** A config of the namespace of the right kind, with rules if it is a ServiceRole. */
  predicate WellFormedConfig(c: Config<Spec>, namespace: string) {
    && c.meta.key.namespace == namespace
    && c.meta.key.kind == (if c.spec.RoleSpec? then Kind.ServiceRole else Kind.ServiceRoleBinding)
    && (c.spec.RoleSpec? ==> c.spec.rules != [])
  }

  lemma RoleConfigsWellFormed(m: Model, fqdn: string, s: V1Settings)
    ensures BindingsFollowTheirRoles(RoleConfigs(m, fqdn, s))
    ensures forall c :: c in RoleConfigs(m, fqdn, s) ==> WellFormedConfig(c, m.namespace)
  {
  }

  lemma FollowInTwoParts(a: seq<Config<Spec>>, b: seq<Config<Spec>>)
    requires BindingsFollowTheirRoles(a) && BindingsFollowTheirRoles(b)
    ensures BindingsFollowTheirRoles(a + b)
  {
    var ab := a + b;
    forall i | |a| <= i < |ab| && ab[i].spec.BindingSpec?
      ensures |a| < i && ab[i] == b[i - |a|] && ab[i - 1] == b[i - |a| - 1]
    {
      assert ab[i] == b[i - |a|];
    }
  }

  lemma {:induction false} OutputIsWellFormed(m: Model, roles: seq<string>, s: V1Settings)
    ensures BindingsFollowTheirRoles(ConfigsOf(m, roles, s))
    ensures forall c :: c in ConfigsOf(m, roles, s) ==> WellFormedConfig(c, m.namespace)
  {
    if roles != [] {
      var init, last := roles[..|roles| - 1], roles[|roles| - 1];
      OutputIsWellFormed(m, init, s);
      RoleConfigsWellFormed(m, last, s);
      FollowInTwoParts(ConfigsOf(m, init, s), RoleConfigs(m, last, s));
    }
  }

  ghost predicate AllDifferent<T>(xs: seq<T>) {
    forall i, j :: 0 <= i < j < |xs| ==> xs[i] != xs[j]
  }

  ghost predicate DistinctKeys(out: seq<Config<Spec>>) {
    forall i, j :: 0 <= i < j < |out| ==> out[i].meta.key != out[j].meta.key
  }

  lemma AppendKeepsDistinct<T>(xs: seq<T>, x: T)
    ensures AllDifferent(xs + [x]) <==> AllDifferent(xs) && x !in xs
  {
    assert forall i :: 0 <= i < |xs| ==> (xs + [x])[i] == xs[i];
    assert (xs + [x])[|xs|] == x;
  }

  lemma AppendKeepsDistinctKeys(a: seq<Config<Spec>>, b: seq<Config<Spec>>)
    ensures DistinctKeys(a + b) <==>
            DistinctKeys(a) && DistinctKeys(b) && forall c, d :: c in a && d in b ==> c.meta.key != d.meta.key
  {
    var ab := a + b;
    assert forall i :: 0 <= i < |a| ==> ab[i] == a[i];
    assert forall i :: 0 <= i < |b| ==> ab[|a| + i] == b[i];
    if DistinctKeys(ab) {
      forall c, d | c in a && d in b ensures c.meta.key != d.meta.key {
        var i :| 0 <= i < |a| && a[i] == c;
        var j :| 0 <= j < |b| && b[j] == d;
        assert ab[i].meta.key != ab[|a| + j].meta.key;
      }
    }
  }

  function AsList(x: Option<string>): seq<string> {
    if x.Some? then [x.value] else []
  }

  /** The values that are there, in order. */
  function Somes(xs: seq<Option<string>>): seq<string> {
    if xs == [] then [] else Somes(xs[..|xs| - 1]) + AsList(xs[|xs| - 1])
  }

  lemma {:induction false} SomesContain(xs: seq<Option<string>>, x: string)
    ensures x in Somes(xs) <==> Some(x) in xs
  {
    if xs != [] {
      SomesContain(xs[..|xs| - 1], x);
      assert xs == xs[..|xs| - 1] + [xs[|xs| - 1]];
    }
  }

  /** No two values that are there are the same. */
  ghost predicate SomesDiffer(xs: seq<Option<string>>) {
    forall i, j :: 0 <= i < j < |xs| && xs[i].Some? && xs[j].Some? ==> xs[i] != xs[j]
  }

  lemma LastDiffersIff(xs: seq<Option<string>>)
    requires xs != []
    ensures var n := |xs| - 1;
            SomesDiffer(xs) <==> SomesDiffer(xs[..n]) && (xs[n].Some? ==> xs[n] !in xs[..n])
  {
  }

  lemma {:induction false} SomesDifferIff(xs: seq<Option<string>>)
    ensures AllDifferent(Somes(xs)) <==> SomesDiffer(xs)
  {
    if xs != [] {
      var n := |xs| - 1;
      SomesDifferIff(xs[..n]);
      LastDiffersIff(xs);
      if xs[n].Some? {
        AppendKeepsDistinct(Somes(xs[..n]), xs[n].value);
        SomesContain(xs[..n], xs[n].value);
      } else {
        assert Somes(xs[..n]) + [] == Somes(xs[..n]);
      }
    }
  }

  /** The Kubernetes name of a role that gives rise to configs. */
  function EmittedName(m: Model, fqdn: string, s: V1Settings): Option<string> {
    if RoleConfigs(m, fqdn, s) == [] then None else Some(RoleToK8sName(ParseRoleFQDN(m.name, fqdn).value))
  }

  function EmittedOptions(m: Model, roles: seq<string>, s: V1Settings): seq<Option<string>> {
    seq(|roles|, i requires 0 <= i < |roles| => EmittedName(m, roles[i], s))
  }

  /** The Kubernetes names of the roles that give rise to configs, in order. */
  function EmittedNames(m: Model, roles: seq<string>, s: V1Settings): seq<string> {
    Somes(EmittedOptions(m, roles, s))
  }

  lemma LastEmitted(m: Model, roles: seq<string>, s: V1Settings)
    requires roles != []
    ensures EmittedNames(m, roles, s) ==
            EmittedNames(m, roles[..|roles| - 1], s) + AsList(EmittedName(m, roles[|roles| - 1], s))
  {
    var n := |roles| - 1;
    assert EmittedOptions(m, roles, s)[..n] == EmittedOptions(m, roles[..n], s);
  }

  /** The keys of one role's configs: they carry its Kubernetes name, and the ServiceRole comes first. */
  lemma RoleConfigKeys(m: Model, fqdn: string, s: V1Settings)
    ensures var b, name := RoleConfigs(m, fqdn, s), EmittedName(m, fqdn, s);
            && (b == [] <==> name.None?) && DistinctKeys(b)
            && (forall c :: c in b ==> name == Some(c.meta.key.name))
            && (name.Some? ==> b[0].meta.key == Key(Kind.ServiceRole, m.namespace, name.value))
  {
  }

  /** The ServiceRole of a name is there. */
  ghost predicate HasRole(out: seq<Config<Spec>>, namespace: string, name: string) {
    exists c :: c in out && c.meta.key == Key(Kind.ServiceRole, namespace, name)
  }

  lemma MoreRoles(a: seq<Config<Spec>>, b: seq<Config<Spec>>, namespace: string, names: seq<string>, name: Option<string>)
    requires forall n :: n in names ==> HasRole(a, namespace, n)
    requires name.Some? ==> b != [] && b[0].meta.key == Key(Kind.ServiceRole, namespace, name.value)
    ensures forall n :: n in names + AsList(name) ==> HasRole(a + b, namespace, n)
  {
    forall n | n in names + AsList(name) ensures HasRole(a + b, namespace, n) {
      if n in names {
        var c :| c in a && c.meta.key == Key(Kind.ServiceRole, namespace, n);
        assert c in a + b;
      } else {
        assert b[0] in a + b;
      }
    }
  }

  lemma {:induction false} ConfigNamesAreEmittedNames(m: Model, roles: seq<string>, s: V1Settings)
    ensures forall c :: c in ConfigsOf(m, roles, s) ==> c.meta.key.name in EmittedNames(m, roles, s)
    ensures forall name :: name in EmittedNames(m, roles, s) ==> HasRole(ConfigsOf(m, roles, s), m.namespace, name)
  {
    if roles != [] {
      var init, last := roles[..|roles| - 1], roles[|roles| - 1];
      ConfigNamesAreEmittedNames(m, init, s);
      LastEmitted(m, roles, s);
      RoleConfigKeys(m, last, s);
      MoreRoles(ConfigsOf(m, init, s), RoleConfigs(m, last, s), m.namespace, EmittedNames(m, init, s), EmittedName(m, last, s));
    }
  }

  lemma OneMoreRoleDistinct(a: seq<Config<Spec>>, b: seq<Config<Spec>>, namespace: string, names: seq<string>,
                            name: Option<string>)
    requires DistinctKeys(a) <==> AllDifferent(names)
    requires (forall c :: c in a ==> c.meta.key.name in names) && forall n :: n in names ==> HasRole(a, namespace, n)
    requires (b == [] <==> name.None?) && DistinctKeys(b) && forall c :: c in b ==> name == Some(c.meta.key.name)
    requires name.Some? ==> b[0].meta.key == Key(Kind.ServiceRole, namespace, name.value)
    ensures DistinctKeys(a + b) <==> AllDifferent(names + AsList(name))
  {
    if name.None? {
      assert a + b == a && names + [] == names;
    } else {
      AppendKeepsDistinct(names, name.value);
      AppendKeepsDistinctKeys(a, b);
      if name.value in names {
        var c :| c in a && c.meta.key == Key(Kind.ServiceRole, namespace, name.value);
        assert b[0] in b && c.meta.key == b[0].meta.key;
      }
    }
  }

  /** The configs have distinct keys exactly when no two emitted roles share a Kubernetes name. */
  lemma {:induction false} KeysDistinctIff(m: Model, roles: seq<string>, s: V1Settings)
    ensures DistinctKeys(ConfigsOf(m, roles, s)) <==> AllDifferent(EmittedNames(m, roles, s))
  {
    if roles != [] {
      var init, last := roles[..|roles| - 1], roles[|roles| - 1];
      KeysDistinctIff(m, init, s);
      ConfigNamesAreEmittedNames(m, init, s);
      LastEmitted(m, roles, s);
      RoleConfigKeys(m, last, s);
      OneMoreRoleDistinct(ConfigsOf(m, init, s), RoleConfigs(m, last, s), m.namespace, EmittedNames(m, init, s),
                          EmittedName(m, last, s));
    }
  }

  lemma EmittedRoleParses(m: Model, fqdn: string, s: V1Settings)
    requires EmittedName(m, fqdn, s).Some?
    ensures ParseRoleFQDN(m.name, fqdn).Ok?
    ensures EmittedName(m, fqdn, s) == Some(RoleToK8sName(ParseRoleFQDN(m.name, fqdn).value))
  {
  }

  /** Roles of the domain whose names differ and keep clear of "--" and "-_" never collide. */
  lemma TightRoleNamesGiveDistinctKeys(m: Model, s: V1Settings)
    requires forall i, j :: 0 <= i < j < |m.roles| ==>
      var a, b := ParseRoleFQDN(m.name, m.roles[i]), ParseRoleFQDN(m.name, m.roles[j]);
      a.Ok? && b.Ok? ==> a.value != b.value
    requires forall i :: 0 <= i < |m.roles| && ParseRoleFQDN(m.name, m.roles[i]).Ok? ==>
      Tight(ParseRoleFQDN(m.name, m.roles[i]).value, '_', '-')
    ensures DistinctKeys(ConfigsOf(m, m.roles, s))
  {
    var names := EmittedOptions(m, m.roles, s);
    forall i, j | 0 <= i < j < |names| && names[i].Some? && names[j].Some? ensures names[i] != names[j] {
      EmittedRoleParses(m, m.roles[i], s);
      EmittedRoleParses(m, m.roles[j], s);
      K8sNamesOfTightRolesDiffer(ParseRoleFQDN(m.name, m.roles[i]).value, ParseRoleFQDN(m.name, m.roles[j]).value);
    }
    SomesDifferIff(names);
    KeysDistinctIff(m, m.roles, s);
  }

  // ---- The two back ends agree. ----

  function Users(subjects: seq<Subject>): seq<string> {
    if subjects == [] then []
    else
      var last := subjects[|subjects| - 1];
      Users(subjects[..|subjects| - 1]) + (if last.User? then [last.user] else [])
  }

  function JwtSubjects(subjects: seq<Subject>): seq<string> {
    if subjects == [] then []
    else
      var last := subjects[|subjects| - 1];
      JwtSubjects(subjects[..|subjects| - 1]) + (if last.User? then [] else [last.subject])
  }

  lemma OneMoreSubject(subjects: seq<Subject>, s: Subject)
    ensures Users(subjects + [s]) == Users(subjects) + if s.User? then [s.user] else []
    ensures JwtSubjects(subjects + [s]) == JwtSubjects(subjects) + if s.User? then [] else [s.subject]
  {
    assert (subjects + [s])[..|subjects|] == subjects;
  }

  /** The members that stand for one caller each, not for a whole domain. */
  function SingleCallers(ms: seq<Member>): seq<Member> {
    if ms == [] then []
    else
      var last := ms[|ms| - 1];
      SingleCallers(ms[..|ms| - 1]) + (if WildcardNamespace(last.name) == "" then [last] else [])
  }

  lemma OneMoreCaller(subjects: seq<Subject>, src: Source, x: Member, jwt: bool)
    requires Users(subjects) == src.principals && JwtSubjects(subjects) == src.requestPrincipals
    requires WildcardNamespace(x.name) == ""
    ensures Users(subjects + SubjectsOf(x, jwt)) == AddMember(src, x, jwt).principals
    ensures JwtSubjects(subjects + SubjectsOf(x, jwt)) == AddMember(src, x, jwt).requestPrincipals
  {
    if MemberToSpiffe(x.name).Ok? {
      var user, token := User(MemberToSpiffe(x.name).value), RequestAuthPrincipal(MemberToJwtSubject(x.name));
      OneMoreSubject(subjects, user);
      OneMoreSubject(subjects + [user], token);
      assert subjects + SubjectsOf(x, jwt) == if jwt then subjects + [user] + [token] else subjects + [user];
    } else {
      assert subjects + [] == subjects;
    }
  }

  lemma {:induction false} SubjectsAreCallers(ms: seq<Member>, jwt: bool)
    ensures Users(MemberSubjects(SingleCallers(ms), jwt)) == AddMembers(NO_SOURCE, ms, jwt).principals
    ensures JwtSubjects(MemberSubjects(SingleCallers(ms), jwt)) == AddMembers(NO_SOURCE, ms, jwt).requestPrincipals
  {
    if ms != [] {
      var init, x := ms[..|ms| - 1], ms[|ms| - 1];
      var singles := SingleCallers(init);
      SubjectsAreCallers(init, jwt);
      if WildcardNamespace(x.name) == "" {
        assert (singles + [x])[..|singles|] == singles;
        OneMoreCaller(MemberSubjects(singles, jwt), AddMembers(NO_SOURCE, init, jwt), x, jwt);
      } else {
        assert SingleCallers(ms) == singles;
      }
    }
  }

  /** For every model and role: the principals of the v2 rule are, in order, the users of the v1 binding for
      the role's live members with groups expanded and domain wildcards left out; its request principals are
      that binding's token subjects. */
  lemma BackEndsAgreeOnSubjects(m: Model, fqdn: string, s: Settings, k8sName: string)
    requires RuleOf(m, fqdn, s).Some?
    ensures var role := ParseRoleFQDN(m.name, fqdn).value;
            var ms := SingleCallers(EffectiveMembers(Lookup(m.members, fqdn), m.groups, s.now));
            var from := RuleOf(m, fqdn, s).value.from;
            && BindingOf(m.name, role, k8sName, ms, s.jwt).Some?
            && var subjects := BindingOf(m.name, role, k8sName, ms, s.jwt).value.subjects;
               && Users(subjects) == from[0].principals
               && JwtSubjects(subjects) == from[|from| - 1].requestPrincipals
  {
    var eff := EffectiveMembers(Lookup(m.members, fqdn), m.groups, s.now);
    var certificate := RoleCertificate(m.name, fqdn).value;
    SubjectsAreCallers(eff, s.jwt);
    OneMoreSubject(MemberSubjects(SingleCallers(eff), s.jwt), User(certificate));
    var callers := AddMembers(NO_SOURCE, eff, s.jwt);
    var from := SourcesOf(callers, certificate);
    if callers.requestPrincipals != [] {
      assert from[|from| - 1] == Source([], [], callers.requestPrincipals);
    } else {
      assert from[|from| - 1].requestPrincipals == [];
    }
  }

  lemma OneMoreSingle(ms: seq<Member>, x: Member)
    ensures SingleCallers(ms + [x]) == SingleCallers(ms) + (if WildcardNamespace(x.name) == "" then [x] else [])
  {
    assert (ms + [x])[..|ms|] == ms;
  }

  /** Members that are live, name no group and no whole domain are bound by v1 as they stand. */
  lemma {:induction false} PlainMembersStandForThemselves(ms: seq<Member>, groups: map<string, seq<Member>>, now: int)
    requires forall x :: x in ms ==> Live(x, now) && x.name !in groups && WildcardNamespace(x.name) == ""
    ensures SingleCallers(EffectiveMembers(ms, groups, now)) == ms
  {
    if ms != [] {
      var init, x := ms[..|ms| - 1], ms[|ms| - 1];
      assert ms == init + [x];
      PlainMembersStandForThemselves(init, groups, now);
      OneMoreSingle(EffectiveMembers(init, groups, now), x);
    }
  }

  /** What a v1 access rule becomes in the v2 policy of one service. */
  function AsOperation(rule: AccessRule, s: Settings): Option<Operation>
    requires |rule.constraints| == 1 && |rule.constraints[0].values| == 1
  {
    var path := if rule.paths == [] then "" else DropQuery(rule.paths[0]);
    if s.svcMatch(ServicePattern(rule.constraints[0].values[0]), s.svcLabel).Matches? then
      Some(Operation(rule.methods, if path == "" then [] else [path]))
    else None
  }

  lemma BackEndsAgreeOnAssertion(domain: string, role: string, a: Assertion, s: Settings)
    requires ParseRoleFQDN(domain, a.role) == Ok(role)
    ensures match AccessRuleOf(domain, role, a)
            case None => OperationOf(domain, a, s) == None
            case Some(rule) =>
              && |rule.constraints| == 1 && |rule.constraints[0].values| == 1
              && OperationOf(domain, a, s) == AsOperation(rule, s)
  {
    QueryRegexMeaning("");
  }

  function AsOperations(rules: seq<AccessRule>, s: Settings): seq<Operation>
    requires forall r :: r in rules ==> |r.constraints| == 1 && |r.constraints[0].values| == 1
  {
    if rules == [] then []
    else
      var n := |rules| - 1;
      var op := AsOperation(rules[n], s);
      AsOperations(rules[..n], s) + (if op.Some? then [op.value] else [])
  }

  /** The operations of a role in the v2 policy are its v1 access rules for matching services, queries dropped. */
  lemma {:induction false} BackEndsAgreeOnOperations(domain: string, role: string, assertions: seq<Assertion>, s: Settings)
    requires forall a :: a in assertions ==> ParseRoleFQDN(domain, a.role) == Ok(role)
    ensures forall r :: r in AccessRulesOf(domain, role, assertions) ==>
              |r.constraints| == 1 && |r.constraints[0].values| == 1
    ensures OperationsOf(domain, assertions, s) == AsOperations(AccessRulesOf(domain, role, assertions), s)
  {
    if assertions != [] {
      var n := |assertions| - 1;
      var init, a := assertions[..n], assertions[n];
      assert assertions == init + [a];
      BackEndsAgreeOnOperations(domain, role, init, s);
      var rules, rule := AccessRulesOf(domain, role, init), AccessRuleOf(domain, role, a);
      BackEndsAgreeOnAssertion(domain, role, a, s);
      if rule.Some? {
        assert (rules + [rule.value])[..|rules|] == rules;
      } else {
        assert rules + [] == rules;
      }
    }
  }

  // ---- The bindings of the v1 provider itself. ----

  /** Istio accepts whatever it is given. */
  ghost predicate Accepting(s: V1Settings) {
    && (forall role, ns, spec :: s.validRole(role, ns, spec))
    && (forall role, ns, spec :: s.validBinding(role, ns, spec))
  }

  /** A role with a v2 rule has v1 access rules. */
  lemma RuleHasAccessRules(m: Model, fqdn: string, s: Settings)
    requires RuleOf(m, fqdn, s).Some? && forall a :: a in Lookup(m.rules, fqdn) ==> a.role == fqdn
    ensures fqdn in m.rules && AccessRulesOf(m.name, ParseRoleFQDN(m.name, fqdn).value, m.rules[fqdn]) != []
  {
    BackEndsAgreeOnOperations(m.name, ParseRoleFQDN(m.name, fqdn).value, Lookup(m.rules, fqdn), s);
  }

  lemma AcceptedBinding(m: Model, fqdn: string, v: V1Settings)
    requires Accepting(v) && fqdn in m.rules && fqdn in m.members && RoleCertificate(m.name, fqdn).Ok?
    requires AccessRulesOf(m.name, ParseRoleFQDN(m.name, fqdn).value, m.rules[fqdn]) != []
    ensures var role, configs := ParseRoleFQDN(m.name, fqdn).value, RoleConfigs(m, fqdn, v);
            var binding := BindingOf(m.name, role, RoleToK8sName(role), m.members[fqdn], v.jwt);
            |configs| == 2 && binding.Some? && configs[1].spec == binding.value
  {
  }

  /** What the v1 provider emits for it when Istio accepts everything. */
  lemma RuleHasBinding(m: Model, fqdn: string, s: Settings, v: V1Settings)
    requires RuleOf(m, fqdn, s).Some? && fqdn in m.members && Accepting(v)
    requires forall a :: a in Lookup(m.rules, fqdn) ==> a.role == fqdn
    ensures var role, configs := ParseRoleFQDN(m.name, fqdn).value, RoleConfigs(m, fqdn, v);
            var binding := BindingOf(m.name, role, RoleToK8sName(role), m.members[fqdn], v.jwt);
            |configs| == 2 && binding.Some? && configs[1].spec == binding.value
  {
    RuleHasAccessRules(m, fqdn, s);
    AcceptedBinding(m, fqdn, v);
  }

  /** For a role whose members are live and name no group and no whole domain, the v1 provider emits a binding, and the v2
      principals and request principals are its users and token subjects, in order. */
  lemma BackEndsAgreeOnPlainRoles(m: Model, fqdn: string, s: Settings, v: V1Settings)
    requires RuleOf(m, fqdn, s).Some? && fqdn in m.members && v.jwt == s.jwt && Accepting(v)
    requires forall a :: a in Lookup(m.rules, fqdn) ==> a.role == fqdn
    requires forall x :: x in m.members[fqdn] ==> Live(x, s.now) && x.name !in m.groups && WildcardNamespace(x.name) == ""
    ensures var configs, from := RoleConfigs(m, fqdn, v), RuleOf(m, fqdn, s).value.from;
            && |configs| == 2 && configs[1].spec.BindingSpec?
            && Users(configs[1].spec.subjects) == from[0].principals
            && JwtSubjects(configs[1].spec.subjects) == from[|from| - 1].requestPrincipals
  {
    RuleHasBinding(m, fqdn, s, v);
    PlainMembersStandForThemselves(m.members[fqdn], m.groups, s.now);
    BackEndsAgreeOnSubjects(m, fqdn, s, RoleToK8sName(ParseRoleFQDN(m.name, fqdn).value));
  }

  lemma MemberIsAUser(subjects: seq<Subject>, x: Member, jwt: bool)
    ensures Users(subjects + SubjectsOf(x, jwt)) ==
            Users(subjects) + if MemberToSpiffe(x.name).Ok? then [MemberToSpiffe(x.name).value] else []
  {
    if MemberToSpiffe(x.name).Ok? {
      var user, token := User(MemberToSpiffe(x.name).value), RequestAuthPrincipal(MemberToJwtSubject(x.name));
      OneMoreSubject(subjects, user);
      OneMoreSubject(subjects + [user], token);
      assert subjects + SubjectsOf(x, jwt) == if jwt then subjects + [user] + [token] else subjects + [user];
    } else {
      assert subjects + [] == subjects;
    }
  }

  function CertificateOf(x: Member): Option<string> {
    if MemberToSpiffe(x.name).Ok? then Some(MemberToSpiffe(x.name).value) else None
  }

  function CertificatesOf(ms: seq<Member>): seq<Option<string>> {
    seq(|ms|, i requires 0 <= i < |ms| => CertificateOf(ms[i]))
  }

  lemma {:induction false} UsersAreCertificates(ms: seq<Member>, jwt: bool)
    ensures Users(MemberSubjects(ms, jwt)) == Somes(CertificatesOf(ms))
  {
    if ms != [] {
      var n := |ms| - 1;
      UsersAreCertificates(ms[..n], jwt);
      MemberIsAUser(MemberSubjects(ms[..n], jwt), ms[n], jwt);
      assert CertificatesOf(ms)[..n] == CertificatesOf(ms[..n]);
    }
  }

  lemma CertificateIsOfMember(ms: seq<Member>, u: string)
    ensures Some(u) in CertificatesOf(ms) <==> exists x :: x in ms && MemberToSpiffe(x.name) == Ok(u)
  {
    if x :| x in ms && MemberToSpiffe(x.name) == Ok(u) {
      var i :| 0 <= i < |ms| && ms[i] == x;
      assert CertificatesOf(ms)[i] == Some(u);
    }
    if Some(u) in CertificatesOf(ms) {
      var i :| 0 <= i < |ms| && CertificatesOf(ms)[i] == Some(u);
      assert ms[i] in ms && MemberToSpiffe(ms[i].name) == Ok(u);
    }
  }

  /** The v1 provider takes no notice of expiry, disabling and groups: every member with a certificate is a user of the
      binding, in particular an expired one; a domain wildcard is one under its own name. */
  lemma V1BindsEveryMember(ms: seq<Member>, jwt: bool, u: string)
    ensures u in Users(MemberSubjects(ms, jwt)) <==> exists x :: x in ms && MemberToSpiffe(x.name) == Ok(u)
  {
    UsersAreCertificates(ms, jwt);
    SomesContain(CertificatesOf(ms), u);
    CertificateIsOfMember(ms, u);
  }

  lemma {:induction false} SingleCallersContain(ms: seq<Member>)
    ensures forall x :: x in SingleCallers(ms) <==> x in ms && WildcardNamespace(x.name) == ""
  {
    if ms != [] {
      SingleCallersContain(ms[..|ms| - 1]);
      assert ms == ms[..|ms| - 1] + [ms[|ms| - 1]];
    }
  }

  /** The v2 policy lists the certificates of live members only, with groups expanded and domain wildcards left to the
      namespaces. */
  lemma V2ListsLiveMembers(m: Model, fqdn: string, s: Settings, u: string)
    requires RuleOf(m, fqdn, s).Some?
    ensures u in RuleOf(m, fqdn, s).value.from[0].principals <==>
            || u == RoleCertificate(m.name, fqdn).value
            || exists x :: x in EffectiveMembers(Lookup(m.members, fqdn), m.groups, s.now) &&
                           WildcardNamespace(x.name) == "" && MemberToSpiffe(x.name) == Ok(u)
  {
    var eff := EffectiveMembers(Lookup(m.members, fqdn), m.groups, s.now);
    SubjectsAreCallers(eff, s.jwt);
    V1BindsEveryMember(SingleCallers(eff), s.jwt, u);
    SingleCallersContain(eff);
    var callers := AddMembers(NO_SOURCE, eff, s.jwt);
    assert RuleOf(m, fqdn, s).value.from[0].principals == callers.principals + [RoleCertificate(m.name, fqdn).value];
  }
}
