/**
 Whom the rules of an AuthorizationPolicy name: pkg/istio/rbac/v2/provider.go, the loop over the members of a role, and
 the member checks of pkg/istio/rbac/common/util.go.
 */
module PolicyCallers {
  import opened AthenzData
  import opened PolicyCompiler
  import opened PolicyMeaning
  import opened Principals
  import opened Sequences
  import opened ServiceRoles
  import opened StringOrder

  // ---- Members that do not count. ----

  lemma {:induction false} LiveOnlyInTwoParts(a: seq<Member>, b: seq<Member>, now: int)
    ensures LiveOnly(a + b, now) == LiveOnly(a, now) + LiveOnly(b, now)
  {
    if b == [] {
      assert a + b == a;
    } else {
      var init, last := b[..|b| - 1], b[|b| - 1];
      assert (a + b)[..|a + b| - 1] == a + init;
      LiveOnlyInTwoParts(a, init, now);
    }
  }

  lemma {:induction false} EffectiveInTwoParts(a: seq<Member>, b: seq<Member>, groups: map<string, seq<Member>>, now: int)
    ensures EffectiveMembers(a + b, groups, now) == EffectiveMembers(a, groups, now) + EffectiveMembers(b, groups, now)
  {
    if b == [] {
      assert a + b == a;
    } else {
      var init, last := b[..|b| - 1], b[|b| - 1];
      assert (a + b)[..|a + b| - 1] == a + init;
      EffectiveInTwoParts(a, init, groups, now);
      AppendIsAssociative(EffectiveMembers(a, groups, now), EffectiveMembers(init, groups, now), Expand(last, groups, now));
    }
  }

  lemma OneEffective(x: Member, groups: map<string, seq<Member>>, now: int)
    ensures EffectiveMembers([x], groups, now) == Expand(x, groups, now)
  {
    assert [x][..0] == [];
  }

  lemma OneLive(x: Member, now: int)
    ensures LiveOnly([x], now) == if Active(x, now) then [x] else []
  {
    LiveMeaning(x, now);
    assert [x][..0] == [];
  }

  lemma EffectiveWithout(a: seq<Member>, x: Member, b: seq<Member>, groups: map<string, seq<Member>>, now: int)
    requires Expand(x, groups, now) == []
    ensures EffectiveMembers(a + [x] + b, groups, now) == EffectiveMembers(a + b, groups, now)
  {
    OneEffective(x, groups, now);
    EffectiveInTwoParts(a + [x], b, groups, now);
    EffectiveInTwoParts(a, [x], groups, now);
    EffectiveInTwoParts(a, b, groups, now);
    assert EffectiveMembers(a, groups, now) + [] == EffectiveMembers(a, groups, now);
  }

  lemma LiveWithout(a: seq<Member>, x: Member, b: seq<Member>, now: int)
    requires !Active(x, now)
    ensures LiveOnly(a + [x] + b, now) == LiveOnly(a + b, now)
  {
    OneLive(x, now);
    LiveOnlyInTwoParts(a + [x], b, now);
    LiveOnlyInTwoParts(a, [x], now);
    LiveOnlyInTwoParts(a, b, now);
    assert LiveOnly(a, now) + [] == LiveOnly(a, now);
  }

  /** A member that is not active does not count, whatever it is called. */
  lemma InactiveIsSkipped(a: seq<Member>, x: Member, b: seq<Member>, groups: map<string, seq<Member>>, now: int)
    requires !Active(x, now)
    ensures EffectiveMembers(a + [x] + b, groups, now) == EffectiveMembers(a + b, groups, now)
    ensures LiveOnly(a + [x] + b, now) == LiveOnly(a + b, now)
  {
    LiveMeaning(x, now);
    EffectiveWithout(a, x, b, groups, now);
    LiveWithout(a, x, b, now);
  }

  /** The two models differ in nothing but members and groups, and these expand to the same members. */
  ghost predicate SameActiveMembers(m: Model, n: Model, now: int) {
    && m.name == n.name && m.rules == n.rules
    && forall role ::
         EffectiveMembers(Lookup(m.members, role), m.groups, now) == EffectiveMembers(Lookup(n.members, role), n.groups, now)
  }

  lemma {:induction false} SameRules(m: Model, n: Model, roles: seq<string>, s: Settings)
    requires SameActiveMembers(m, n, s.now)
    ensures PolicyCompiler.RulesOf(m, roles, s) == PolicyCompiler.RulesOf(n, roles, s)
  {
    if roles != [] {
      SameRules(m, n, roles[..|roles| - 1], s);
    }
  }

  lemma SamePolicy(m: Model, n: Model, app: string, s: Settings)
    requires SameActiveMembers(m, n, s.now)
    ensures CompiledPolicy(m, app, s) == CompiledPolicy(n, app, s)
  {
    SameRules(m, n, SortedKeys(m.rules.Keys), s);
  }

  /** A disabled or expired member of a role makes no difference to the compiled policy: it may be missing, or have any
      other name. */
  lemma InactiveRoleMemberIsIgnored(m: Model, role: string, a: seq<Member>, x: Member, b: seq<Member>, app: string, s: Settings)
    requires role in m.members && m.members[role] == a + [x] + b
    requires (x.systemDisabled.Some? && x.systemDisabled.value != 0) || (x.expiration.Some? && x.expiration.value < s.now)
    ensures CompiledPolicy(m.(members := m.members[role := a + b]), app, s) == CompiledPolicy(m, app, s)
    ensures forall name ::
              var n := m.(members := m.members[role := a + [x.(name := name)] + b]);
              CompiledPolicy(n, app, s) == CompiledPolicy(m, app, s)
  {
    InactiveIsSkipped(a, x, b, m.groups, s.now);
    SamePolicy(m, m.(members := m.members[role := a + b]), app, s);
    forall name
      ensures var n := m.(members := m.members[role := a + [x.(name := name)] + b]);
              CompiledPolicy(n, app, s) == CompiledPolicy(m, app, s)
    {
      InactiveIsSkipped(a, x.(name := name), b, m.groups, s.now);
      SamePolicy(m, m.(members := m.members[role := a + [x.(name := name)] + b]), app, s);
    }
  }

  lemma {:induction false} SameExpansions(ms: seq<Member>, g: map<string, seq<Member>>, h: map<string, seq<Member>>, now: int)
    requires g.Keys == h.Keys && forall name :: name in g ==> LiveOnly(g[name], now) == LiveOnly(h[name], now)
    ensures EffectiveMembers(ms, g, now) == EffectiveMembers(ms, h, now)
  {
    if ms != [] {
      SameExpansions(ms[..|ms| - 1], g, h, now);
    }
  }

  lemma GroupReplaced(m: Model, group: string, ms: seq<Member>, app: string, s: Settings)
    requires group in m.groups && LiveOnly(ms, s.now) == LiveOnly(m.groups[group], s.now)
    ensures CompiledPolicy(m.(groups := m.groups[group := ms]), app, s) == CompiledPolicy(m, app, s)
  {
    var n := m.(groups := m.groups[group := ms]);
    forall role {
      SameExpansions(Lookup(m.members, role), m.groups, n.groups, s.now);
    }
    SamePolicy(m, n, app, s);
  }

  /** Nor does a disabled or expired member of a group. */
  lemma InactiveGroupMemberIsIgnored(m: Model, group: string, a: seq<Member>, x: Member, b: seq<Member>, app: string, s: Settings)
    requires group in m.groups && m.groups[group] == a + [x] + b
    requires (x.systemDisabled.Some? && x.systemDisabled.value != 0) || (x.expiration.Some? && x.expiration.value < s.now)
    ensures CompiledPolicy(m.(groups := m.groups[group := a + b]), app, s) == CompiledPolicy(m, app, s)
    ensures forall name ::
              var n := m.(groups := m.groups[group := a + [x.(name := name)] + b]);
              CompiledPolicy(n, app, s) == CompiledPolicy(m, app, s)
  {
    InactiveIsSkipped(a, x, b, m.groups, s.now);
    GroupReplaced(m, group, a + b, app, s);
    forall name
      ensures var n := m.(groups := m.groups[group := a + [x.(name := name)] + b]);
              CompiledPolicy(n, app, s) == CompiledPolicy(m, app, s)
    {
      InactiveIsSkipped(a, x.(name := name), b, m.groups, s.now);
      GroupReplaced(m, group, a + [x.(name := name)] + b, app, s);
    }
  }

  // ---- Members that count. ----

  /** The member presents the certificate itself, not as anyone in a domain. */
  ghost predicate Presents(x: Member, u: string) {
    HasCertificate(x.name, u) && forall domain :: !NamesWholeDomain(x.name, domain)
  }

  /** An active member of the role presents the certificate, or an active member of the group that it names. */
  ghost predicate SomeoneActivePresents(m: Model, role: string, now: int, u: string) {
    exists x :: x in Lookup(m.members, role) && Active(x, now) &&
      if x.name in m.groups then exists g :: g in m.groups[x.name] && Active(g, now) && Presents(g, u)
      else Presents(x, u)
  }

  lemma PresentsMeaning(x: Member, u: string)
    ensures Presents(x, u) <==> WildcardNamespace(x.name) == "" && MemberToSpiffe(x.name) == Ok(u)
  {
    WildcardMeaning(x.name);
    CertificateMeaning(x.name);
  }

  lemma ExpansionPresents(x: Member, groups: map<string, seq<Member>>, now: int, u: string)
    ensures (exists y :: y in Expand(x, groups, now) && Presents(y, u)) <==>
            Active(x, now) &&
              if x.name in groups then exists g :: g in groups[x.name] && Active(g, now) && Presents(g, u)
              else Presents(x, u)
  {
    LiveMeaning(x, now);
    if x.name in groups {
      forall g ensures g in LiveOnly(groups[x.name], now) <==> g in groups[x.name] && Active(g, now) {
        LiveMeaning(g, now);
        LiveOnlyContains(groups[x.name], now, g);
      }
    } else if Active(x, now) {
      assert x in [x];
    }
  }

  lemma {:induction false} EffectivelyPresents(ms: seq<Member>, groups: map<string, seq<Member>>, now: int, u: string)
    ensures (exists x :: x in EffectiveMembers(ms, groups, now) && Presents(x, u)) <==>
            exists x :: x in ms && Active(x, now) &&
              if x.name in groups then exists g :: g in groups[x.name] && Active(g, now) && Presents(g, u)
              else Presents(x, u)
  {
    if ms != [] {
      var init, last := ms[..|ms| - 1], ms[|ms| - 1];
      EffectivelyPresents(init, groups, now, u);
      ExpansionPresents(last, groups, now, u);
      assert forall x :: x in ms <==> x in init || x == last by {
        assert ms == init + [last];
      }
    }
  }

  /** The principals of a role's rule are its role certificate and the certificates of its active members, direct or in
      groups, and no others. */
  lemma PrincipalsAreActiveMembers(m: Model, role: string, s: Settings, u: string)
    requires RuleOf(m, role, s).Some?
    ensures u in RuleOf(m, role, s).value.from[0].principals <==>
            IsRoleCertificate(m.name, role, u) || SomeoneActivePresents(m, role, s.now, u)
  {
    V2ListsLiveMembers(m, role, s, u);
    RoleCertificateMeaning(m.name, role, u);
    EffectivelyPresents(Lookup(m.members, role), m.groups, s.now, u);
    forall x ensures Presents(x, u) <==> WildcardNamespace(x.name) == "" && MemberToSpiffe(x.name) == Ok(u) {
      PresentsMeaning(x, u);
    }
  }
}
