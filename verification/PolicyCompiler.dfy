/** The AuthorizationPolicy compiler: pkg/istio/rbac/v2/provider.go, `ConvertAthenzModelIntoIstioRbac`. */
module PolicyCompiler {
  import opened AthenzData
  import opened AssertionResource
  import opened Configs
  import opened GoStrings
  import opened Principals
  import opened Sequences
  import opened StringOrder
  import Regex

  datatype Source = Source(principals: seq<string>, namespaces: seq<string>, requestPrincipals: seq<string>)
  datatype Operation = Operation(methods: seq<string>, paths: seq<string>)
  datatype Rule = Rule(from: seq<Source>, to: seq<Operation>)
  datatype PolicySpec = PolicySpec(app: string, rules: seq<Rule>)

  const NO_SOURCE := Source([], [], [])

  /** The answer of `regexp.MatchString(svc, svcLabel)`; that matcher is a parameter. */
  datatype SvcMatch = Matches | Differs | BadPattern

  /** What a compilation depends on besides the model. */
  datatype Settings = Settings(jwt: bool, now: int, svcLabel: string, svcMatch: (string, string) -> SvcMatch)

  /** `.*\?.*` */
  const QUERY_REGEX: seq<Regex.Node> :=
    [Regex.Many(Regex.AnyButNewline, ""), Regex.One(Regex.Exactly('?')), Regex.Many(Regex.AnyButNewline, "")]

  /** A path is cut at its first '?', as the expression and `strings.Split` do together. */
  function DropQuery(path: string): string {
    if Regex.MatchString(QUERY_REGEX, path) then FirstField(path, '?') else path
  }

  function ServicePattern(svc: string): string {
    if svc == "*" then ".*" else svc
  }

  /** The operation an assertion contributes to the policy of the current service, if any. */
  function OperationOf(domain: string, a: Assertion, s: Settings): Option<Operation> {
    match ParseResource(domain, a.resource)
    case Err(_) => None
    case Ok(t) =>
      var path := DropQuery(t.path);
      if !s.svcMatch(ServicePattern(t.svc), s.svcLabel).Matches? then None
      else if ParseEffect(a).Err? || ParseAction(a).Err? then None
      else Some(Operation([ParseAction(a).value], if path == "" then [] else [path]))
  }

  function OperationsOf(domain: string, assertions: seq<Assertion>, s: Settings): seq<Operation> {
    if assertions == [] then []
    else
      var n := |assertions| - 1;
      var op := OperationOf(domain, assertions[n], s);
      OperationsOf(domain, assertions[..n], s) + (if op.Some? then [op.value] else [])
  }

  function LiveOnly(ms: seq<Member>, now: int): seq<Member> {
    if ms == [] then []
    else LiveOnly(ms[..|ms| - 1], now) + (if Live(ms[|ms| - 1], now) then [ms[|ms| - 1]] else [])
  }

  /** A live role member stands for itself, or for the live members of the group it names. */
  function Expand(m: Member, groups: map<string, seq<Member>>, now: int): seq<Member> {
    if !Live(m, now) then []
    else if m.name in groups then LiveOnly(groups[m.name], now)
    else [m]
  }

  function EffectiveMembers(ms: seq<Member>, groups: map<string, seq<Member>>, now: int): seq<Member> {
    if ms == [] then []
    else EffectiveMembers(ms[..|ms| - 1], groups, now) + Expand(ms[|ms| - 1], groups, now)
  }

  function AddMember(src: Source, m: Member, jwt: bool): Source {
    if WildcardNamespace(m.name) != "" then src.(namespaces := src.namespaces + [WildcardNamespace(m.name)])
    else if MemberToSpiffe(m.name).Err? then src
    else Source(
      src.principals + [MemberToSpiffe(m.name).value],
      src.namespaces,
      src.requestPrincipals + if jwt then [MemberToJwtSubject(m.name)] else [])
  }

  /** The three caller lists that a list of effective members gives rise to. */
  function AddMembers(src: Source, ms: seq<Member>, jwt: bool): Source {
    if ms == [] then src
    else AddMember(AddMembers(src, ms[..|ms| - 1], jwt), ms[|ms| - 1], jwt)
  }

  /** The role certificate of a role name, when it has one. */
  function RoleCertificate(domain: string, role: string): Result<string, NameError> {
    match ParseRoleFQDN(domain, role)
    case Err(e) => Err(e)
    case Ok(name) => RoleToSpiffe(domain, name)
  }

  function SourcesOf(callers: Source, certificate: string): seq<Source> {
    [Source(callers.principals + [certificate], [], [])]
    + (if callers.namespaces == [] then [] else [Source([], callers.namespaces, [])])
    + (if callers.requestPrincipals == [] then [] else [Source([], [], callers.requestPrincipals)])
  }

  function RuleOf(m: Model, role: string, s: Settings): Option<Rule> {
    var to := OperationsOf(m.name, Lookup(m.rules, role), s);
    var callers := AddMembers(NO_SOURCE, EffectiveMembers(Lookup(m.members, role), m.groups, s.now), s.jwt);
    if to == [] || RoleCertificate(m.name, role).Err? then None
    else Some(Rule(SourcesOf(callers, RoleCertificate(m.name, role).value), to))
  }

  function RulesOf(m: Model, roles: seq<string>, s: Settings): seq<Rule> {
    if roles == [] then []
    else
      var rule := RuleOf(m, roles[|roles| - 1], s);
      RulesOf(m, roles[..|roles| - 1], s) + (if rule.Some? then [rule.value] else [])
  }

  /** The compiled policy: the rules of all roles with assertions, in the order of the role names. */
  ghost function CompiledPolicy(m: Model, app: string, s: Settings): PolicySpec {
    PolicySpec(app, RulesOf(m, SortedKeys(m.rules.Keys), s))
  }

  lemma QueryMatchAt(path: string, i: nat, x: nat)
    requires i <= x <= |path|
    ensures Regex.MatchAt(QUERY_REGEX[1..], path, x).Matched? <==> x < |path| && path[x] == '?'
  {
    var re := QUERY_REGEX[1..];
    assert re[1..][1..] == [];
    if x < |path| && path[x] == '?' {
      var j := Regex.RunEnd(Regex.AnyButNewline, path, x + 1);
      assert Regex.MatchAt([], path, j).Matched?;
      assert Regex.MatchManyUpTo(re[1..], path, x + 1, j).Matched?;
    }
  }

  lemma {:induction false} QueryFoundFrom(path: string, i: nat)
    requires i <= |path|
    ensures Regex.Find(QUERY_REGEX, path, i).Matched? <==> '?' in path[i..]
    decreases |path| - i
  {
    var re, j := QUERY_REGEX, Regex.RunEnd(Regex.AnyButNewline, path, i);
    forall x | i <= x <= j
      ensures Regex.MatchAt(re[1..], path, x).Matched? <==> x < |path| && path[x] == '?'
    {
      QueryMatchAt(path, i, x);
    }
    Regex.ManyMatchesIff(re, path, i, j);
    assert forall x :: i <= x < |path| ==> path[x] == path[i..][x - i];
    if i < |path| {
      QueryFoundFrom(path, i + 1);
      assert path[i..] == [path[i]] + path[i + 1..];
      if path[i] == '?' {
        assert Regex.MatchAt(re[1..], path, i).Matched?;
      }
    }
  }

  /** `.*\?.*` finds a match exactly in the strings with a question mark. */
  lemma QueryRegexMeaning(path: string)
    ensures Regex.MatchString(QUERY_REGEX, path) <==> '?' in path
    ensures DropQuery(path) == FirstField(path, '?')
  {
    QueryFoundFrom(path, 0);
    assert path[0..] == path;
    if '?' !in path {
      assert FirstIndex(path, '?') == |path|;
      assert path[..|path|] == path;
    }
  }

  lemma AddOneMore(src: Source, ms: seq<Member>, m: Member, jwt: bool)
    ensures AddMembers(src, ms + [m], jwt) == AddMember(AddMembers(src, ms, jwt), m, jwt)
  {
    assert (ms + [m])[..|ms|] == ms;
  }

  lemma OneMoreInTwoParts(src: Source, a: seq<Member>, b: seq<Member>, last: Member, jwt: bool)
    requires AddMembers(src, a + b, jwt) == AddMembers(AddMembers(src, a, jwt), b, jwt)
    ensures AddMembers(src, a + (b + [last]), jwt) == AddMembers(AddMembers(src, a, jwt), b + [last], jwt)
  {
    AddOneMore(src, a + b, last, jwt);
    AddOneMore(AddMembers(src, a, jwt), b, last, jwt);
    AppendIsAssociative(a, b, [last]);
  }

  lemma {:induction false} AddMembersInTwoParts(src: Source, a: seq<Member>, b: seq<Member>, jwt: bool)
    ensures AddMembers(src, a + b, jwt) == AddMembers(AddMembers(src, a, jwt), b, jwt)
  {
    if b == [] {
      assert a + b == a;
    } else {
      var init, last := b[..|b| - 1], b[|b| - 1];
      assert b == init + [last];
      AddMembersInTwoParts(src, a, init, jwt);
      OneMoreInTwoParts(src, a, init, last, jwt);
    }
  }

  /** The loop over the assertions of one role. */
  method CompileOperations(domain: string, assertions: seq<Assertion>, s: Settings) returns (to: seq<Operation>)
    ensures to == OperationsOf(domain, assertions, s)
  {
    to := [];
    for i := 0 to |assertions|
      invariant to == OperationsOf(domain, assertions[..i], s)
    {
      var assertion := assertions[i];
      assert assertions[..i + 1][..i] == assertions[..i];
      var parsed := ParseAssertionResource(domain, assertion);
      if parsed.Err? {
        continue;
      }
      var svc, path := parsed.value.svc, parsed.value.path;
      if svc == "*" {
        svc := ".*";
      }
      if Regex.MatchString(QUERY_REGEX, path) {
        path := FirstField(path, '?');
      }
      var res := s.svcMatch(svc, s.svcLabel);
      if res.BadPattern? || res.Differs? {
        continue;
      }
      if ParseEffect(assertion).Err? {
        continue;
      }
      var verb := ParseAction(assertion);
      if verb.Err? {
        continue;
      }
      var op := Operation([verb.value], []);
      if path != "" {
        op := op.(paths := [path]);
      }
      to := to + [op];
    }
    assert assertions[..|assertions|] == assertions;
  }

  /** The body of the innermost loop: one caller goes to the list of its kind. */
  method AddCandidate(start: Source, member: Member, jwt: bool) returns (src: Source)
    ensures src == AddMember(start, member, jwt)
  {
    src := start;
    var namespace := WildcardNamespace(member.name);
    if namespace != "" {
      return src.(namespaces := src.namespaces + [namespace]);
    }
    var spiffe := MemberToSpiffe(member.name);
    if spiffe.Err? {
      return;
    }
    src := src.(principals := src.principals + [spiffe.value]);
    if jwt {
      src := src.(requestPrincipals := src.requestPrincipals + [MemberToJwtSubject(member.name)]);
    }
  }

  /** Who is added for a role member, or for the group that it names. */
  function Candidates(list: seq<Member>, isRoleMember: bool, now: int): seq<Member> {
    if isRoleMember then list else LiveOnly(list, now)
  }

  lemma CandidatesUpTo(list: seq<Member>, j: nat, isRoleMember: bool, now: int)
    requires j < |list|
    ensures Candidates(list[..j + 1], isRoleMember, now) ==
            Candidates(list[..j], isRoleMember, now) + (if isRoleMember || Live(list[j], now) then [list[j]] else [])
  {
    assert list[..j + 1][..j] == list[..j];
  }

  /** The loop over a role member, or over the members of the group it names. */
  method AddCandidates(start: Source, candidates: seq<Member>, isRoleMember: bool, s: Settings) returns (src: Source)
    ensures src == AddMembers(start, Candidates(candidates, isRoleMember, s.now), s.jwt)
  {
    src := start;
    ghost var taken: seq<Member> := [];
    for j := 0 to |candidates|
      invariant taken == Candidates(candidates[..j], isRoleMember, s.now)
      invariant src == AddMembers(start, taken, s.jwt)
    {
      var member := candidates[j];
      CandidatesUpTo(candidates, j, isRoleMember, s.now);
      if !isRoleMember && !Live(member, s.now) {
        assert taken + [] == taken;
        continue;
      }
      src := AddCandidate(src, member, s.jwt);
      AddOneMore(start, taken, member, s.jwt);
      taken := taken + [member];
    }
    assert candidates[..|candidates|] == candidates;
  }

  /** The loop over the members of one role. */
  method CompileCallers(members: seq<Member>, groups: map<string, seq<Member>>, s: Settings) returns (src: Source)
    ensures src == AddMembers(NO_SOURCE, EffectiveMembers(members, groups, s.now), s.jwt)
  {
    src := NO_SOURCE;
    for i := 0 to |members|
      invariant src == AddMembers(NO_SOURCE, EffectiveMembers(members[..i], groups, s.now), s.jwt)
    {
      var roleMember := members[i];
      assert members[..i + 1][..i] == members[..i];
      var candidates, isRoleMember := [roleMember], true;
      if roleMember.name in groups {
        candidates, isRoleMember := groups[roleMember.name], false;
      }
      ghost var before := EffectiveMembers(members[..i], groups, s.now);
      if !Live(roleMember, s.now) {
        assert before + [] == before;
        continue;
      }
      AddMembersInTwoParts(NO_SOURCE, before, Expand(roleMember, groups, s.now), s.jwt);
      src := AddCandidates(src, candidates, isRoleMember, s);
    }
    assert members[..|members|] == members;
  }

  lemma {:induction false} NoJwtNoRequestPrincipals(ms: seq<Member>, jwt: bool)
    requires !jwt
    ensures AddMembers(NO_SOURCE, ms, jwt).requestPrincipals == []
  {
    if ms != [] {
      NoJwtNoRequestPrincipals(ms[..|ms| - 1], jwt);
    }
  }

  /** One turn of the loop over the roles. */
  method CompileRule(m: Model, role: string, s: Settings) returns (rule: Option<Rule>)
    ensures rule == RuleOf(m, role, s)
  {
    var to := CompileOperations(m.name, Lookup(m.rules, role), s);
    if to == [] {
      return None;
    }
    var callers := CompileCallers(Lookup(m.members, role), m.groups, s);
    var roleName := ParseRoleFQDN(m.name, role);
    if roleName.Err? {
      return None;
    }
    var certificate := RoleToSpiffe(m.name, roleName.value);
    if certificate.Err? {
      return None;
    }
    var from := [Source(callers.principals + [certificate.value], [], [])];
    if |callers.namespaces| > 0 {
      from := from + [Source([], callers.namespaces, [])];
    }
    if s.jwt && |callers.requestPrincipals| > 0 {
      from := from + [Source([], [], callers.requestPrincipals)];
    }
    if !s.jwt {
      NoJwtNoRequestPrincipals(EffectiveMembers(Lookup(m.members, role), m.groups, s.now), s.jwt);
    }
    assert from == SourcesOf(callers, certificate.value);
    rule := Some(Rule(from, to));
  }

  /** The role names are collected from the map in any order, and sorted. */
  method SortedRoleList(roles: set<string>) returns (roleList: seq<string>)
    ensures roleList == SortedKeys(roles)
  {
    var todo := roles;
    roleList := [];
    while todo != {}
      invariant todo <= roles && Enumerates(roleList, roles - todo)
      decreases todo
    {
      var role :| role in todo;
      EnumerateOneMore(roleList, roles - todo, role);
      assert roles - todo + {role} == roles - (todo - {role});
      roleList, todo := roleList + [role], todo - {role};
    }
    assert roles - todo == roles;
    SortForgetsOrder(roleList, roles);
    roleList := Sort(roleList);
  }

  lemma RulesUpTo(m: Model, roles: seq<string>, i: nat, s: Settings)
    requires i < |roles|
    ensures var rule := RuleOf(m, roles[i], s);
            RulesOf(m, roles[..i + 1], s) == RulesOf(m, roles[..i], s) + (if rule.Some? then [rule.value] else [])
  {
    assert roles[..i + 1][..i] == roles[..i];
  }

  /** `ConvertAthenzModelIntoIstioRbac`. The role names are taken from the map in any order; the result
      is the same for all of them. */
  method ConvertAthenzModelIntoIstioRbac(m: Model, serviceName: string, appLabel: string, s: Settings)
    returns (out: seq<Config<PolicySpec>>)
    ensures out == [NewConfig(Kind.AuthorizationPolicy, m.namespace, serviceName, CompiledPolicy(m, appLabel, s))]
  {
    var roleList := SortedRoleList(m.rules.Keys);
    var rules: seq<Rule> := [];
    for i := 0 to |roleList|
      invariant rules == RulesOf(m, roleList[..i], s)
    {
      var role := roleList[i];
      RulesUpTo(m, roleList, i, s);
      var rule := CompileRule(m, role, s);
      if rule.Some? {
        rules := rules + [rule.value];
      }
    }
    assert roleList[..|roleList|] == roleList;
    out := [NewConfig(Kind.AuthorizationPolicy, m.namespace, serviceName, PolicySpec(appLabel, rules))];
  }
}
