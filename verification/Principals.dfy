/** Names of callers and actions: the conversions of pkg/istio/rbac/common/util.go. */
module Principals {
  import opened AthenzData
  import opened DomainNames
  import opened GoStrings

  const ALL_USERS := "user.*"
  const WILDCARD_ALL := "*"
  const JWT_PREFIX := "athenz/"

  /** The methods of RFC 7231 section 4.3, PATCH of RFC 5789 section 2, and the wildcard. */
  const SUPPORTED_METHODS: set<string> :=
    {"GET", "HEAD", "POST", "PUT", "PATCH", "DELETE", "CONNECT", "OPTIONS", "TRACE", "*"}

  datatype NameError = EmptyName | NotQualified | ForeignRole | UnsupportedEffect | UnsupportedMethod

  /** Neither expired at `now` nor disabled by the system. */
  predicate Live(m: Member, now: int) {
    && !(m.expiration.Some? && m.expiration.value < now)
    && !(m.systemDisabled.Some? && m.systemDisabled.value != 0)
  }

  /** The namespace of a member `<domain>.*`, or "" for any other member. */
  function WildcardNamespace(member: string): string {
    if HasPrefix(member, "unix.") || HasPrefix(member, "user.") || !HasSuffix(member, ".*") then ""
    else DomainToNamespace(member[..|member| - 2])
  }

  function PrincipalToSpiffe(principal: string): Result<string, NameError> {
    var i := LastIndex(principal, '.', |principal|);
    if principal == "" then Err(EmptyName)
    else if i < 0 then Err(NotQualified)
    else Ok(principal[..i] + "/sa/" + principal[i + 1..])
  }

  function MemberToSpiffe(member: string): Result<string, NameError> {
    if member == ALL_USERS then Ok(WILDCARD_ALL) else PrincipalToSpiffe(member)
  }

  function MemberToJwtSubject(member: string): string {
    if member == ALL_USERS then WILDCARD_ALL else JWT_PREFIX + member
  }

  function RoleToSpiffe(domain: string, role: string): Result<string, NameError> {
    if domain == "" || role == "" then Err(EmptyName) else Ok(domain + "/ra/" + role)
  }

  /** The role name without the `<domain>:role.` prefix. */
  function ParseRoleFQDN(domain: string, role: string): Result<string, NameError> {
    var name := TrimPrefix(role, domain + ":role.");
    if ':' in name then Err(ForeignRole) else Ok(name)
  }

  function ParseEffect(a: Assertion): Result<Effect, NameError> {
    if a.effect == Some(Allow) then Ok(Allow) else Err(UnsupportedEffect)
  }

  function ParseAction(a: Assertion): Result<string, NameError> {
    var verb := ToUpper(a.action);
    if verb in SUPPORTED_METHODS then Ok(verb) else Err(UnsupportedMethod)
  }

  // ---- What the names stand for. ----

  /** A member `<domain>.*` outside the user and unix domains. */
  predicate NamesWholeDomain(member: string, domain: string) {
    && domain != "" && member == domain + ".*"
    && !("user." <= member) && !("unix." <= member)
  }

  /** The certificate that a principal `<domain>.<service>` presents; all users present any certificate. */
  ghost predicate HasCertificate(member: string, c: string) {
    if member == "user.*" then c == "*"
    else exists domain, service :: member == domain + "." + service && '.' !in service && c == domain + "/sa/" + service
  }

  /** The name of a role of the domain, with or without the prefix that its assertions use. */
  predicate IsRoleName(domain: string, role: string, name: string) {
    && ':' !in name
    && (role == domain + ":role." + name || (role == name && !(domain + ":role." <= role)))
  }

  ghost predicate IsRoleCertificate(domain: string, role: string, c: string) {
    exists name :: IsRoleName(domain, role, name) && domain != "" && name != "" && c == domain + "/ra/" + name
  }

  /** The namespace of a member is that of the domain which it names as a whole. */
  lemma WildcardMeaning(member: string)
    ensures WildcardNamespace(member) != "" <==> exists domain :: NamesWholeDomain(member, domain)
    ensures forall domain :: NamesWholeDomain(member, domain) ==> WildcardNamespace(member) == DomainToNamespace(domain)
  {
    if |member| >= 2 {
      NamespaceIsEmptyIff(member[..|member| - 2]);
      if WildcardNamespace(member) != "" {
        assert member == member[..|member| - 2] + ".*";
        assert NamesWholeDomain(member, member[..|member| - 2]);
      }
    }
    forall domain | NamesWholeDomain(member, domain)
      ensures WildcardNamespace(member) != "" && WildcardNamespace(member) == DomainToNamespace(domain)
    {
      NamespaceIsEmptyIff(domain);
      assert member[|member| - 2..] == ".*" && member[..|member| - 2] == domain;
    }
  }

  lemma RoleNameMeaning(domain: string, role: string, name: string)
    ensures ParseRoleFQDN(domain, role) == Ok(name) <==> IsRoleName(domain, role, name)
  {
    var prefix := domain + ":role.";
    if prefix <= role {
      assert role == prefix + role[|prefix|..];
    }
  }

  lemma LastDot(domain: string, service: string)
    requires '.' !in service
    ensures var q := domain + "." + service; LastIndex(q, '.', |q|) == |domain|
  {
    var q := domain + "." + service;
    assert q[|domain|] == '.';
    assert forall j :: |domain| < j < |q| ==> q[j] == service[j - |domain| - 1] && q[j] != '.';
  }

  lemma PrincipalOfParts(domain: string, service: string)
    requires '.' !in service
    ensures PrincipalToSpiffe(domain + "." + service) == Ok(domain + "/sa/" + service)
  {
    var q := domain + "." + service;
    LastDot(domain, service);
    assert q[..|domain|] == domain && q[|domain| + 1..] == service;
  }

  lemma AbsentFrom(s: string, c: char, i: nat)
    requires i <= |s| && forall j :: i <= j < |s| ==> s[j] != c
    ensures c !in s[i..]
  {
    forall k | 0 <= k < |s[i..]| ensures s[i..][k] != c {
      assert s[i..][k] == s[i + k];
    }
  }

  lemma NoDotAfterTheLast(q: string)
    ensures '.' !in q[LastIndex(q, '.', |q|) + 1..]
  {
    AbsentFrom(q, '.', LastIndex(q, '.', |q|) + 1);
  }

  lemma JoinedAt(q: string, i: nat)
    requires i < |q|
    ensures q[..i] + [q[i]] + q[i + 1..] == q
  {
  }

  lemma PartsOfPrincipal(q: string)
    requires PrincipalToSpiffe(q).Ok?
    ensures var i := LastIndex(q, '.', |q|);
            i >= 0 && q == q[..i] + "." + q[i + 1..] && '.' !in q[i + 1..]
            && PrincipalToSpiffe(q) == Ok(q[..i] + "/sa/" + q[i + 1..])
  {
    NoDotAfterTheLast(q);
    JoinedAt(q, LastIndex(q, '.', |q|));
  }

  lemma PrincipalMeaning(q: string, c: string)
    ensures PrincipalToSpiffe(q) == Ok(c) <==>
            exists domain, service :: q == domain + "." + service && '.' !in service && c == domain + "/sa/" + service
  {
    if PrincipalToSpiffe(q) == Ok(c) {
      PartsOfPrincipal(q);
    }
    if domain, service :| q == domain + "." + service && '.' !in service && c == domain + "/sa/" + service {
      PrincipalOfParts(domain, service);
    }
  }

  lemma CertificateMeaning(member: string)
    ensures forall c :: MemberToSpiffe(member) == Ok(c) <==> HasCertificate(member, c)
  {
    forall c ensures MemberToSpiffe(member) == Ok(c) <==> HasCertificate(member, c) {
      if member != "user.*" {
        PrincipalMeaning(member, c);
      }
    }
  }

  /** Two strings around the first slash of a common string agree. */
  lemma SplitAtSlash(a: string, b: string, c: string, d: string)
    requires '/' !in a && '/' !in c && a + "/" + b == c + "/" + d
    ensures a == c && b == d
  {
    var s := a + "/" + b;
    assert s[|a|] == '/' && s[|c|] == '/';
    assert forall i :: 0 <= i < |a| ==> s[i] == a[i] && s[i] != '/';
    assert forall i :: 0 <= i < |c| ==> s[i] == c[i] && s[i] != '/';
    assert s[..|a|] == a && s[..|c|] == c;
    assert s[|a| + 1..] == b && s[|c| + 1..] == d;
  }

  /** The certificate can be read as that of a principal whose last dot is at `x`. */
  predicate SplitsAt(c: string, x: nat) {
    x + 4 <= |c| && c[x..x + 4] == "/sa/" && '.' !in c[x + 4..]
  }

  /** The principal that it is then read as. */
  function PrincipalAt(c: string, x: nat): string
    requires SplitsAt(c, x)
  {
    c[..x] + "." + c[x + 4..]
  }

  lemma PrincipalAtIsRead(c: string, x: nat)
    requires SplitsAt(c, x)
    ensures PrincipalToSpiffe(PrincipalAt(c, x)) == Ok(c)
    ensures LastIndex(PrincipalAt(c, x), '.', |PrincipalAt(c, x)|) == x
  {
    var q := PrincipalAt(c, x);
    var i := LastIndex(q, '.', |q|);
    assert q[x] == '.' && q[x + 1..] == c[x + 4..] && q[..x] == c[..x];
    assert forall j :: x < j < |q| ==> q[j] == q[x + 1..][j - x - 1] && q[j] != '.';
    assert i == x;
    assert c == c[..x] + c[x..x + 4] + c[x + 4..];
  }

  lemma CertificateParts(a: string, b: string)
    ensures var c := a + "/sa/" + b;
            c[..|a|] == a && c[|a|..|a| + 4] == "/sa/" && c[|a| + 4..] == b
  {
  }

  lemma PrincipalSplits(q: string, c: string)
    requires PrincipalToSpiffe(q) == Ok(c)
    ensures var i := LastIndex(q, '.', |q|); i >= 0 && SplitsAt(c, i) && PrincipalAt(c, i) == q
  {
    var i := LastIndex(q, '.', |q|);
    CertificateParts(q[..i], q[i + 1..]);
    NoDotAfterTheLast(q);
    JoinedAt(q, i);
    assert c == q[..i] + "/sa/" + q[i + 1..];
  }

  /** No other principal shares the certificate of `p` exactly when the certificate can be split at its last dot only. */
  lemma SpiffeNameIsUniqueIff(p: string, c: string)
    requires PrincipalToSpiffe(p) == Ok(c)
    ensures (forall q :: PrincipalToSpiffe(q) == Ok(c) ==> q == p) <==>
            (forall x: nat :: SplitsAt(c, x) ==> x == LastIndex(p, '.', |p|))
  {
    PrincipalSplits(p, c);
    if forall q :: PrincipalToSpiffe(q) == Ok(c) ==> q == p {
      forall x: nat | SplitsAt(c, x) ensures x == LastIndex(p, '.', |p|) {
        PrincipalAtIsRead(c, x);
      }
    }
    if forall x: nat :: SplitsAt(c, x) ==> x == LastIndex(p, '.', |p|) {
      forall q | PrincipalToSpiffe(q) == Ok(c) ensures q == p {
        PrincipalSplits(q, c);
      }
    }
  }

  lemma SlashesOfCertificate(p: string, x: nat)
    requires PrincipalToSpiffe(p).Ok? && '/' !in p && x < |PrincipalToSpiffe(p).value|
    ensures var i := LastIndex(p, '.', |p|); PrincipalToSpiffe(p).value[x] == '/' <==> x == i || x == i + 3
  {
    var c, i := PrincipalToSpiffe(p).value, LastIndex(p, '.', |p|);
    assert c == p[..i] + "/sa/" + p[i + 1..];
    if x < i {
      assert c[x] == p[x];
    } else if x >= i + 4 {
      assert c[x] == p[i + 1..][x - i - 4] == p[x - 3];
    } else {
      assert c[x] == "/sa/"[x - i];
    }
  }

  /** So a principal without slashes shares its certificate with no other. */
  lemma SpiffeNamesAreInjective(p: string, q: string)
    requires PrincipalToSpiffe(p).Ok? && PrincipalToSpiffe(q) == PrincipalToSpiffe(p) && '/' !in p
    ensures p == q
  {
    var c, i := PrincipalToSpiffe(p).value, LastIndex(p, '.', |p|);
    forall x: nat | SplitsAt(c, x) ensures x == i {
      SlashesOfCertificate(p, x);
      assert c[x] == c[x..x + 4][0] && c[x + 3] == c[x..x + 4][3];
      SlashesOfCertificate(p, x + 3);
    }
    SpiffeNameIsUniqueIff(p, c);
  }

  /** The certificate can be read as that of a role of the domain before `x`. */
  predicate RoleAt(c: string, x: nat) {
    0 < x && x + 4 < |c| && c[x..x + 4] == "/ra/"
  }

  lemma RoleCertificateParts(domain: string, role: string)
    requires domain != "" && role != ""
    ensures RoleAt(domain + "/ra/" + role, |domain|)
  {
    var c := domain + "/ra/" + role;
    assert c[|domain|..|domain| + 4] == "/ra/";
  }

  lemma RoleIsRead(c: string, x: nat)
    requires RoleAt(c, x)
    ensures RoleToSpiffe(c[..x], c[x + 4..]) == Ok(c)
  {
    assert c == c[..x] + c[x..x + 4] + c[x + 4..];
  }

  /** A member's certificate is no role certificate, of any domain, exactly when it nowhere reads "/ra/" between other
      characters. */
  lemma CertificateIsNoRolesIff(member: string, c: string)
    requires MemberToSpiffe(member) == Ok(c)
    ensures (forall domain, role :: RoleToSpiffe(domain, role) != Ok(c)) <==> forall x: nat :: !RoleAt(c, x)
  {
    if x: nat :| RoleAt(c, x) {
      RoleIsRead(c, x);
    }
    if domain, role :| RoleToSpiffe(domain, role) == Ok(c) {
      RoleCertificateParts(domain, role);
    }
  }

  lemma NoRoleInService(member: string, x: nat)
    requires PrincipalToSpiffe(member).Ok? && '/' !in member && x + 3 < |PrincipalToSpiffe(member).value|
    ensures var c := PrincipalToSpiffe(member).value; c[x] == '/' && c[x + 3] == '/' ==> c[x + 1] == 's'
  {
    var c, i := PrincipalToSpiffe(member).value, LastIndex(member, '.', |member|);
    SlashesOfCertificate(member, x);
    SlashesOfCertificate(member, x + 3);
    if x == i {
      assert c[x + 1] == "/sa/"[1];
    }
  }

  /** So no certificate of a member without slashes is a role certificate. */
  lemma ServiceAndRoleCertificatesDiffer(member: string, domain: string, role: string)
    requires MemberToSpiffe(member).Ok? && '/' !in member
    ensures MemberToSpiffe(member) != RoleToSpiffe(domain, role)
  {
    var c := MemberToSpiffe(member).value;
    forall x: nat ensures !RoleAt(c, x) {
      if RoleAt(c, x) {
        assert c[x] == c[x..x + 4][0] && c[x + 1] == c[x..x + 4][1] && c[x + 3] == c[x..x + 4][3];
        NoRoleInService(member, x);
      }
    }
    CertificateIsNoRolesIff(member, c);
  }

  /** With slashes a member can have a role's certificate. */
  lemma MemberRoleCollision()
    ensures MemberToSpiffe("a/ra/x.y") == RoleToSpiffe("a", "x/sa/y")
  {
    var p := "a/ra/x.y";
    assert p[6] == '.';
    assert LastIndex(p, '.', 8) == 6 && p[..6] == "a/ra/x" && p[7..] == "y";
    assert "a/ra/x" + "/sa/" + "y" == "a" + "/ra/" + "x/sa/y";
  }

  /** With slashes two principals can share a certificate. */
  lemma SpiffeCollision()
    ensures PrincipalToSpiffe("a.x/sa/y") == PrincipalToSpiffe("a/sa/x.y")
  {
    var p, q := "a.x/sa/y", "a/sa/x.y";
    assert p[1] == '.' && q[6] == '.';
    assert LastIndex(p, '.', 8) == 1 && p[..1] == "a" && p[2..] == "x/sa/y";
    assert LastIndex(q, '.', 8) == 6 && q[..6] == "a/sa/x" && q[7..] == "y";
    assert p[..1] + "/sa/" + p[2..] == "a/sa/x/sa/y" == q[..6] + "/sa/" + q[7..];
  }
}
