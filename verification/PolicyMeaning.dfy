/**
 What the policy compiler is for: the AuthorizationPolicy of a service lets a request pass exactly when
 the Athenz domain grants it. Both sides have a meaning of their own here; Istio's string matcher and
 the service-name matcher are parameters.
 */
module PolicyMeaning {
  import opened AthenzData
  import opened AssertionResource
  import opened DomainNames
  import opened GoStrings
  import opened PolicyCompiler
  import opened Principals
  import opened StringOrder

  datatype Field = Verb | Path | Principal | Namespace | RequestPrincipal

  /** Does a pattern of a policy match a value of a request? */
  type Matcher = (Field, string, string) -> bool

  /** A request to the workload: what is asked, and who asks as far as the proxy could establish it. */
  datatype Request = Request(
    verb: string,
    path: string,
    principal: Option<string>,
    namespace: Option<string>,
    requestPrincipal: Option<string>)

  // ---- Istio's reading of a policy. An empty list restricts nothing. ----

  ghost predicate Listed(matcher: Matcher, f: Field, allowed: seq<string>, value: Option<string>) {
    value.Some? && exists x :: x in allowed && matcher(f, x, value.value)
  }

  ghost predicate ListAdmits(matcher: Matcher, f: Field, allowed: seq<string>, value: Option<string>) {
    allowed == [] || Listed(matcher, f, allowed, value)
  }

  ghost predicate SourceAdmits(src: Source, matcher: Matcher, req: Request) {
    && ListAdmits(matcher, Principal, src.principals, req.principal)
    && ListAdmits(matcher, Namespace, src.namespaces, req.namespace)
    && ListAdmits(matcher, RequestPrincipal, src.requestPrincipals, req.requestPrincipal)
  }

  ghost predicate OperationAdmits(op: Operation, matcher: Matcher, req: Request) {
    && ListAdmits(matcher, Verb, op.methods, Some(req.verb))
    && ListAdmits(matcher, Path, op.paths, Some(req.path))
  }

  ghost predicate SomeSourceAdmits(from: seq<Source>, matcher: Matcher, req: Request) {
    exists src :: src in from && SourceAdmits(src, matcher, req)
  }

  ghost predicate SomeOperationAdmits(to: seq<Operation>, matcher: Matcher, req: Request) {
    exists op :: op in to && OperationAdmits(op, matcher, req)
  }

  ghost predicate RuleAdmits(rule: Rule, matcher: Matcher, req: Request) {
    && (rule.from == [] || SomeSourceAdmits(rule.from, matcher, req))
    && (rule.to == [] || SomeOperationAdmits(rule.to, matcher, req))
  }

  /** A policy with the ALLOW action admits what one of its rules admits. */
  ghost predicate PolicyAdmits(p: PolicySpec, matcher: Matcher, req: Request) {
    exists rule :: rule in p.rules && RuleAdmits(rule, matcher, req)
  }

  // ---- The Athenz domain's own answer, which shares no name conversion with the compiler. ----

  /** The methods of RFC 7231 section 4.3, PATCH of RFC 5789 section 2, and any method. */
  predicate IsMethod(verb: string) {
    || verb == "GET" || verb == "HEAD" || verb == "POST" || verb == "PUT" || verb == "PATCH" || verb == "DELETE"
    || verb == "CONNECT" || verb == "OPTIONS" || verb == "TRACE" || verb == "*"
  }

  /** The assertion allows the method on the path of this service; a path that is empty up to its
      query stands for every path. */
  ghost predicate AssertionGrants(domain: string, a: Assertion, s: Settings, matcher: Matcher, req: Request) {
    match ParseResource(domain, a.resource)
    case Err(_) => false
    case Ok(t) =>
      var path := FirstField(t.path, '?');
      && s.svcMatch(if t.svc == "*" then ".*" else t.svc, s.svcLabel).Matches?
      && a.effect == Some(Allow)
      && IsMethod(ToUpper(a.action))
      && matcher(Verb, ToUpper(a.action), req.verb)
      && (path == "" || matcher(Path, path, req.path))
  }

  ghost predicate SomeAssertionGrants(domain: string, assertions: seq<Assertion>, s: Settings,
                                      matcher: Matcher, req: Request) {
    exists a :: a in assertions && AssertionGrants(domain, a, s, matcher, req)
  }

  /** A membership that has neither run out nor been disabled. */
  predicate Active(x: Member, now: int) {
    && (x.expiration.None? || now <= x.expiration.value)
    && (x.systemDisabled.None? || x.systemDisabled.value == 0)
  }

  /** The caller is covered by a member name: as anyone in the domain that `<domain>.*` names, by the member's
      certificate, or by its token when tokens are accepted. */
  ghost predicate Covers(member: string, jwt: bool, matcher: Matcher, req: Request) {
    if exists domain :: NamesWholeDomain(member, domain) then
      exists domain ::
        NamesWholeDomain(member, domain) && Listed(matcher, Namespace, [DomainToNamespace(domain)], req.namespace)
    else
      exists c :: HasCertificate(member, c) &&
        (|| Listed(matcher, Principal, [c], req.principal)
         || (jwt &&
             Listed(matcher, RequestPrincipal, [if member == "user.*" then "*" else "athenz/" + member], req.requestPrincipal)))
  }

  /** A live member covers the caller itself, or through a live member of the group that it names. */
  ghost predicate MemberStandsFor(x: Member, groups: map<string, seq<Member>>, s: Settings, matcher: Matcher, req: Request) {
    && Active(x, s.now)
    && if x.name in groups then
         exists g :: g in groups[x.name] && Active(g, s.now) && Covers(g.name, s.jwt, matcher, req)
       else Covers(x.name, s.jwt, matcher, req)
  }

  ghost predicate IsAmong(ms: seq<Member>, groups: map<string, seq<Member>>, s: Settings, matcher: Matcher, req: Request) {
    exists x :: x in ms && MemberStandsFor(x, groups, s, matcher, req)
  }

  ghost predicate IsRoleMember(m: Model, role: string, s: Settings, matcher: Matcher, req: Request) {
    IsAmong(Lookup(m.members, role), m.groups, s, matcher, req)
  }

  ghost predicate HasRoleCertificate(m: Model, role: string) {
    exists c :: IsRoleCertificate(m.name, role, c)
  }

  ghost predicate HoldsRoleCertificate(m: Model, role: string, matcher: Matcher, req: Request) {
    exists c :: IsRoleCertificate(m.name, role, c) && Listed(matcher, Principal, [c], req.principal)
  }

  ghost predicate RoleGrants(m: Model, role: string, s: Settings, matcher: Matcher, req: Request) {
    && HasRoleCertificate(m, role)
    && SomeAssertionGrants(m.name, Lookup(m.rules, role), s, matcher, req)
    && (HoldsRoleCertificate(m, role, matcher, req) || IsRoleMember(m, role, s, matcher, req))
  }

  ghost predicate AthenzGrants(m: Model, s: Settings, matcher: Matcher, req: Request) {
    exists role :: role in m.rules && RoleGrants(m, role, s, matcher, req)
  }

  // ---- Operations against assertions. ----

  /** An operation admits what its assertion grants. */
  lemma OperationMeaning(domain: string, a: Assertion, s: Settings, matcher: Matcher, req: Request)
    ensures AssertionGrants(domain, a, s, matcher, req) <==>
            OperationOf(domain, a, s).Some? && OperationAdmits(OperationOf(domain, a, s).value, matcher, req)
  {
    var parsed := ParseResource(domain, a.resource);
    if parsed.Ok? {
      QueryRegexMeaning(parsed.value.path);
    }
    var op := OperationOf(domain, a, s);
    if op.Some? {
      var verb := ToUpper(a.action);
      assert op.value.methods == [verb];
      assert Listed(matcher, Verb, [verb], Some(req.verb)) <==> matcher(Verb, verb, req.verb) by {
        assert verb in [verb];
      }
      if op.value.paths != [] {
        var path := op.value.paths[0];
        assert op.value.paths == [path] && path in [path];
        assert Listed(matcher, Path, [path], Some(req.path)) <==> matcher(Path, path, req.path);
      }
    }
  }

  lemma {:induction false} OperationsMeaning(domain: string, assertions: seq<Assertion>, s: Settings,
                                             matcher: Matcher, req: Request)
    ensures var ops := OperationsOf(domain, assertions, s);
            SomeOperationAdmits(ops, matcher, req) <==> SomeAssertionGrants(domain, assertions, s, matcher, req)
  {
    if assertions != [] {
      var n := |assertions| - 1;
      var init, a := assertions[..n], assertions[n];
      OperationsMeaning(domain, init, s, matcher, req);
      OperationMeaning(domain, a, s, matcher, req);
      assert assertions == init + [a];
      var op, ops := OperationOf(domain, a, s), OperationsOf(domain, init, s);
      assert forall x :: x in assertions <==> x in init || x == a;
      assert op.Some? ==> forall x :: x in ops + [op.value] <==> x in ops || x == op.value;
      assert op.None? ==> OperationsOf(domain, assertions, s) == ops;
    }
  }

  lemma {:induction false} OperationsHaveMethods(domain: string, assertions: seq<Assertion>, s: Settings)
    ensures forall op :: op in OperationsOf(domain, assertions, s) ==> op.methods != []
  {
    if assertions != [] {
      OperationsHaveMethods(domain, assertions[..|assertions| - 1], s);
    }
  }

  // ---- Caller lists against members. ----

  /** The caller is covered by what the compiler makes of a member name. */
  ghost predicate CoversAsCompiled(member: string, jwt: bool, matcher: Matcher, req: Request) {
    if WildcardNamespace(member) != "" then
      Listed(matcher, Namespace, [WildcardNamespace(member)], req.namespace)
    else
      && MemberToSpiffe(member).Ok?
      && (|| Listed(matcher, Principal, [MemberToSpiffe(member).value], req.principal)
          || (jwt && Listed(matcher, RequestPrincipal, [MemberToJwtSubject(member)], req.requestPrincipal)))
  }

  lemma OneWholeDomain(member: string, domain: string)
    requires NamesWholeDomain(member, domain)
    ensures forall other :: NamesWholeDomain(member, other) ==> other == domain
  {
    assert domain == member[..|member| - 2];
    forall other | NamesWholeDomain(member, other) ensures other == domain {
      assert other == member[..|member| - 2];
    }
  }

  /** The compiler's name conversions keep whom a member covers. */
  lemma CoversMeaning(member: string, jwt: bool, matcher: Matcher, req: Request)
    ensures CoversAsCompiled(member, jwt, matcher, req) <==> Covers(member, jwt, matcher, req)
  {
    WildcardMeaning(member);
    CertificateMeaning(member);
    if domain :| NamesWholeDomain(member, domain) {
      OneWholeDomain(member, domain);
    } else {
      assert WildcardNamespace(member) == "";
    }
  }

  /** One of the three lists names the caller. */
  ghost predicate CallerListed(src: Source, matcher: Matcher, req: Request) {
    || Listed(matcher, Principal, src.principals, req.principal)
    || Listed(matcher, Namespace, src.namespaces, req.namespace)
    || Listed(matcher, RequestPrincipal, src.requestPrincipals, req.requestPrincipal)
  }

  ghost predicate SomeMemberCovers(ms: seq<Member>, jwt: bool, matcher: Matcher, req: Request) {
    exists x :: x in ms && CoversAsCompiled(x.name, jwt, matcher, req)
  }

  lemma ListedInTwoParts(matcher: Matcher, f: Field, a: seq<string>, b: seq<string>, value: Option<string>)
    ensures Listed(matcher, f, a + b, value) <==> Listed(matcher, f, a, value) || Listed(matcher, f, b, value)
  {
    assert forall x :: x in a + b <==> x in a || x in b;
  }

  lemma OneMoreMember(src: Source, x: Member, jwt: bool, matcher: Matcher, req: Request)
    ensures CallerListed(AddMember(src, x, jwt), matcher, req) <==>
            CallerListed(src, matcher, req) || CoversAsCompiled(x.name, jwt, matcher, req)
  {
    var ns := [WildcardNamespace(x.name)];
    ListedInTwoParts(matcher, Namespace, src.namespaces, ns, req.namespace);
    if MemberToSpiffe(x.name).Ok? {
      ListedInTwoParts(matcher, Principal, src.principals, [MemberToSpiffe(x.name).value], req.principal);
      ListedInTwoParts(matcher, RequestPrincipal, src.requestPrincipals, [MemberToJwtSubject(x.name)],
                       req.requestPrincipal);
      assert src.requestPrincipals + [] == src.requestPrincipals;
    }
  }

  lemma CoveredInTwoParts(a: seq<Member>, b: seq<Member>, jwt: bool, matcher: Matcher, req: Request)
    ensures SomeMemberCovers(a + b, jwt, matcher, req) <==>
            SomeMemberCovers(a, jwt, matcher, req) || SomeMemberCovers(b, jwt, matcher, req)
  {
    assert forall x :: x in a + b <==> x in a || x in b;
  }

  lemma OneMoreCovers(ms: seq<Member>, x: Member, jwt: bool, matcher: Matcher, req: Request)
    ensures SomeMemberCovers(ms + [x], jwt, matcher, req) <==>
            SomeMemberCovers(ms, jwt, matcher, req) || CoversAsCompiled(x.name, jwt, matcher, req)
  {
    CoveredInTwoParts(ms, [x], jwt, matcher, req);
    assert x in [x];
  }

  lemma OneMoreCaller(ms: seq<Member>, x: Member, jwt: bool, matcher: Matcher, req: Request)
    requires CallerListed(AddMembers(NO_SOURCE, ms, jwt), matcher, req) <==> SomeMemberCovers(ms, jwt, matcher, req)
    ensures CallerListed(AddMembers(NO_SOURCE, ms + [x], jwt), matcher, req) <==>
            SomeMemberCovers(ms + [x], jwt, matcher, req)
  {
    AddOneMore(NO_SOURCE, ms, x, jwt);
    OneMoreMember(AddMembers(NO_SOURCE, ms, jwt), x, jwt, matcher, req);
    OneMoreCovers(ms, x, jwt, matcher, req);
  }

  lemma NobodyIsListed(matcher: Matcher, req: Request)
    ensures !CallerListed(NO_SOURCE, matcher, req)
  {
  }

  lemma {:induction false} CallerListsMeaning(ms: seq<Member>, jwt: bool, matcher: Matcher, req: Request)
    ensures CallerListed(AddMembers(NO_SOURCE, ms, jwt), matcher, req) <==> SomeMemberCovers(ms, jwt, matcher, req)
  {
    if ms == [] {
      NobodyIsListed(matcher, req);
    } else {
      var init, x := ms[..|ms| - 1], ms[|ms| - 1];
      assert ms == init + [x];
      CallerListsMeaning(init, jwt, matcher, req);
      OneMoreCaller(init, x, jwt, matcher, req);
    }
  }

  lemma {:induction false} LiveOnlyContains(ms: seq<Member>, now: int, x: Member)
    ensures x in LiveOnly(ms, now) <==> x in ms && Live(x, now)
  {
    if ms != [] {
      LiveOnlyContains(ms[..|ms| - 1], now, x);
      assert ms == ms[..|ms| - 1] + [ms[|ms| - 1]];
    }
  }

  lemma LiveMeaning(x: Member, now: int)
    ensures Live(x, now) <==> Active(x, now)
  {
  }

  lemma ExpandMeaning(x: Member, groups: map<string, seq<Member>>, s: Settings, matcher: Matcher, req: Request)
    ensures SomeMemberCovers(Expand(x, groups, s.now), s.jwt, matcher, req) <==> MemberStandsFor(x, groups, s, matcher, req)
  {
    LiveMeaning(x, s.now);
    if x.name in groups {
      forall g
        ensures Live(g, s.now) <==> Active(g, s.now)
        ensures CoversAsCompiled(g.name, s.jwt, matcher, req) <==> Covers(g.name, s.jwt, matcher, req)
      {
        LiveMeaning(g, s.now);
        CoversMeaning(g.name, s.jwt, matcher, req);
      }
      forall g ensures g in LiveOnly(groups[x.name], s.now) <==> g in groups[x.name] && Live(g, s.now) {
        LiveOnlyContains(groups[x.name], s.now, g);
      }
    } else if Live(x, s.now) {
      CoversMeaning(x.name, s.jwt, matcher, req);
      assert x in [x];
    }
  }

  lemma {:induction false} EffectiveMembersMeaning(ms: seq<Member>, groups: map<string, seq<Member>>, s: Settings,
                                                   matcher: Matcher, req: Request)
    ensures SomeMemberCovers(EffectiveMembers(ms, groups, s.now), s.jwt, matcher, req) <==>
            IsAmong(ms, groups, s, matcher, req)
  {
    if ms != [] {
      var init, last := ms[..|ms| - 1], ms[|ms| - 1];
      EffectiveMembersMeaning(init, groups, s, matcher, req);
      ExpandMeaning(last, groups, s, matcher, req);
      CoveredInTwoParts(EffectiveMembers(init, groups, s.now), Expand(last, groups, s.now), s.jwt, matcher, req);
      assert forall x :: x in ms <==> x in init || x == last by {
        assert ms == init + [last];
      }
    }
  }

  /** The expanded live members cover the caller exactly when the caller is a member of the role. */
  lemma MembershipMeaning(m: Model, role: string, s: Settings, matcher: Matcher, req: Request)
    ensures SomeMemberCovers(EffectiveMembers(Lookup(m.members, role), m.groups, s.now), s.jwt, matcher, req) <==>
            IsRoleMember(m, role, s, matcher, req)
  {
    EffectiveMembersMeaning(Lookup(m.members, role), m.groups, s, matcher, req);
  }

  // ---- Rules against roles. ----

  /** Every list that the compiler emits restricts something: no source and no operation is empty. */
  ghost predicate Restrictive(rule: Rule) {
    && rule.from != [] && rule.to != []
    && (forall src :: src in rule.from ==>
          src.principals != [] || src.namespaces != [] || src.requestPrincipals != [])
    && (forall op :: op in rule.to ==> op.methods != [])
  }

  lemma SourcesMeaning(callers: Source, certificate: string, matcher: Matcher, req: Request)
    ensures SomeSourceAdmits(SourcesOf(callers, certificate), matcher, req) <==>
            Listed(matcher, Principal, [certificate], req.principal) || CallerListed(callers, matcher, req)
  {
    var from := SourcesOf(callers, certificate);
    var p := Source(callers.principals + [certificate], [], []);
    var n, r := Source([], callers.namespaces, []), Source([], [], callers.requestPrincipals);
    ListedInTwoParts(matcher, Principal, callers.principals, [certificate], req.principal);
    assert p in from;
    assert n in from <==> callers.namespaces != [] by {
      if callers.namespaces != [] {
        assert from[1] == n;
      }
    }
    assert r in from <==> callers.requestPrincipals != [] by {
      if callers.requestPrincipals != [] {
        assert from[|from| - 1] == r;
      }
    }
    assert forall src :: src in from ==> src == p || src == n || src == r;
  }

  lemma RuleIsRestrictive(m: Model, role: string, s: Settings)
    ensures RuleOf(m, role, s).Some? ==> Restrictive(RuleOf(m, role, s).value)
  {
    OperationsHaveMethods(m.name, Lookup(m.rules, role), s);
  }

  lemma RoleCertificateMeaning(domain: string, role: string, c: string)
    ensures RoleCertificate(domain, role) == Ok(c) <==> IsRoleCertificate(domain, role, c)
  {
    forall name ensures ParseRoleFQDN(domain, role) == Ok(name) <==> IsRoleName(domain, role, name) {
      RoleNameMeaning(domain, role, name);
    }
  }

  lemma RoleCertificateGrants(m: Model, role: string, matcher: Matcher, req: Request)
    ensures RoleCertificate(m.name, role).Ok? <==> HasRoleCertificate(m, role)
    ensures RoleCertificate(m.name, role).Ok? ==>
              (HoldsRoleCertificate(m, role, matcher, req) <==>
               Listed(matcher, Principal, [RoleCertificate(m.name, role).value], req.principal))
  {
    forall c ensures RoleCertificate(m.name, role) == Ok(c) <==> IsRoleCertificate(m.name, role, c) {
      RoleCertificateMeaning(m.name, role, c);
    }
    if RoleCertificate(m.name, role).Ok? {
      assert IsRoleCertificate(m.name, role, RoleCertificate(m.name, role).value);
    }
  }

  /** The sources of a role's rule admit exactly its callers. */
  lemma CallersMeaning(m: Model, role: string, s: Settings, matcher: Matcher, req: Request)
    requires RoleCertificate(m.name, role).Ok?
    ensures var callers := AddMembers(NO_SOURCE, EffectiveMembers(Lookup(m.members, role), m.groups, s.now), s.jwt);
            SomeSourceAdmits(SourcesOf(callers, RoleCertificate(m.name, role).value), matcher, req) <==>
            HoldsRoleCertificate(m, role, matcher, req) || IsRoleMember(m, role, s, matcher, req)
  {
    var eff := EffectiveMembers(Lookup(m.members, role), m.groups, s.now);
    CallerListsMeaning(eff, s.jwt, matcher, req);
    MembershipMeaning(m, role, s, matcher, req);
    RoleCertificateGrants(m, role, matcher, req);
    SourcesMeaning(AddMembers(NO_SOURCE, eff, s.jwt), RoleCertificate(m.name, role).value, matcher, req);
  }

  lemma RuleMeaning(m: Model, role: string, s: Settings, matcher: Matcher, req: Request)
    ensures RuleOf(m, role, s).Some? && RuleAdmits(RuleOf(m, role, s).value, matcher, req) <==>
            RoleGrants(m, role, s, matcher, req)
  {
    OperationsMeaning(m.name, Lookup(m.rules, role), s, matcher, req);
    RoleCertificateGrants(m, role, matcher, req);
    if RoleCertificate(m.name, role).Ok? {
      CallersMeaning(m, role, s, matcher, req);
    }
  }

  ghost predicate SomeRoleGrants(m: Model, roles: seq<string>, s: Settings, matcher: Matcher, req: Request) {
    exists role :: role in roles && RoleGrants(m, role, s, matcher, req)
  }

  ghost predicate SomeRuleAdmits(rules: seq<Rule>, matcher: Matcher, req: Request) {
    exists rule :: rule in rules && RuleAdmits(rule, matcher, req)
  }

  lemma LastRuleAdmits(rules: seq<Rule>, rule: Rule, matcher: Matcher, req: Request)
    ensures SomeRuleAdmits(rules + [rule], matcher, req) <==>
            SomeRuleAdmits(rules, matcher, req) || RuleAdmits(rule, matcher, req)
  {
    assert forall x :: x in rules + [rule] <==> x in rules || x == rule;
  }

  lemma LastRoleGrants(m: Model, roles: seq<string>, role: string, s: Settings, matcher: Matcher, req: Request)
    ensures SomeRoleGrants(m, roles + [role], s, matcher, req) <==>
            SomeRoleGrants(m, roles, s, matcher, req) || RoleGrants(m, role, s, matcher, req)
  {
    assert forall x :: x in roles + [role] <==> x in roles || x == role;
  }

  lemma {:induction false} RulesMeaning(m: Model, roles: seq<string>, s: Settings, matcher: Matcher, req: Request)
    ensures SomeRuleAdmits(RulesOf(m, roles, s), matcher, req) <==> SomeRoleGrants(m, roles, s, matcher, req)
  {
    if roles != [] {
      var init, last := roles[..|roles| - 1], roles[|roles| - 1];
      var rule := RuleOf(m, last, s);
      RulesMeaning(m, init, s, matcher, req);
      RuleMeaning(m, last, s, matcher, req);
      assert roles == init + [last];
      LastRoleGrants(m, init, last, s, matcher, req);
      if rule.Some? {
        LastRuleAdmits(RulesOf(m, init, s), rule.value, matcher, req);
      }
    }
  }

  lemma {:induction false} RulesAreRestrictive(m: Model, roles: seq<string>, s: Settings)
    ensures forall rule :: rule in RulesOf(m, roles, s) ==> Restrictive(rule)
  {
    if roles != [] {
      RulesAreRestrictive(m, roles[..|roles| - 1], s);
      RuleIsRestrictive(m, roles[|roles| - 1], s);
    }
  }

  /** Meaning is preserved: for every model, clock, service label, matcher and request, the compiled policy
      admits the request exactly when the domain grants it. */
  lemma PolicyPreservesMeaning(m: Model, app: string, s: Settings, matcher: Matcher, req: Request)
    ensures PolicyAdmits(CompiledPolicy(m, app, s), matcher, req) <==> AthenzGrants(m, s, matcher, req)
  {
    EnumerationExists(m.rules.Keys);
    var xs :| Enumerates(xs, m.rules.Keys);
    SortForgetsOrder(xs, m.rules.Keys);
    var roles := SortedKeys(m.rules.Keys);
    RulesMeaning(m, roles, s, matcher, req);
    assert SomeRoleGrants(m, roles, s, matcher, req) <==> AthenzGrants(m, s, matcher, req);
  }

  /** No emitted rule has an empty source or operation list, which Istio would read as "anything". */
  lemma PolicyRulesAreRestrictive(m: Model, app: string, s: Settings, rule: Rule)
    requires rule in CompiledPolicy(m, app, s).rules
    ensures Restrictive(rule)
  {
    RulesAreRestrictive(m, SortedKeys(m.rules.Keys), s);
  }

  lemma LaterClockHasFewerMembers(m: Model, role: string, s: Settings, later: int, matcher: Matcher, req: Request)
    requires s.now <= later && IsRoleMember(m, role, s.(now := later), matcher, req)
    ensures IsRoleMember(m, role, s, matcher, req)
  {
    var x :| x in Lookup(m.members, role) && MemberStandsFor(x, m.groups, s.(now := later), matcher, req);
    assert MemberStandsFor(x, m.groups, s, matcher, req);
  }

  /** Recompiling the same domain at a later clock never admits a request that was refused before. */
  lemma PolicyOnlyNarrowsWithTime(m: Model, app: string, s: Settings, later: int, matcher: Matcher, req: Request)
    requires s.now <= later && PolicyAdmits(CompiledPolicy(m, app, s.(now := later)), matcher, req)
    ensures PolicyAdmits(CompiledPolicy(m, app, s), matcher, req)
  {
    PolicyPreservesMeaning(m, app, s, matcher, req);
    PolicyPreservesMeaning(m, app, s.(now := later), matcher, req);
    var role :| role in m.rules && RoleGrants(m, role, s.(now := later), matcher, req);
    if IsRoleMember(m, role, s.(now := later), matcher, req) {
      LaterClockHasFewerMembers(m, role, s, later, matcher, req);
    }
    var a :| a in Lookup(m.rules, role) && AssertionGrants(m.name, a, s.(now := later), matcher, req);
    assert AssertionGrants(m.name, a, s, matcher, req);
    assert RoleGrants(m, role, s, matcher, req);
  }
}
