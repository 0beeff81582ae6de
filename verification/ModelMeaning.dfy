/** What is in the model of a domain, entry by entry: pkg/athenz/model.go. */
module ModelMeaning {
  import opened AthenzData
  import opened AthenzModel
  import opened DomainNames
  import opened Sequences

  // ---- Assertions and groups. ----

  /** The assertions of a list of policies are those of its policies, one after the other. */
  lemma {:induction false} AssertionsConcat(a: seq<Policy>, b: seq<Policy>)
    ensures AllAssertions(a + b) == AllAssertions(a) + AllAssertions(b)
    ensures |a| == 1 ==> AllAssertions(a) == a[0].assertions
  {
    if b == [] {
      assert a + b == a;
    } else {
      var init, last := b[..|b| - 1], b[|b| - 1];
      assert (a + b)[..|a + b| - 1] == a + init;
      AssertionsConcat(a, init);
      AppendIsAssociative(AllAssertions(a), AllAssertions(init), last.assertions);
    }
  }

  lemma {:induction false} RulesHaveAllAssertions(policies: seq<Policy>)
    ensures forall a :: a in AllAssertions(policies) <==> exists p :: p in policies && a in p.assertions
  {
    if policies != [] {
      var init, last := policies[..|policies| - 1], policies[|policies| - 1];
      RulesHaveAllAssertions(init);
      assert policies == init + [last];
      assert forall p :: p in policies <==> p in init || p == last;
    }
  }

  /** The rules of a role are the assertions of the domain that name it. */
  lemma ModelRules(domains: map<string, DomainValue>, d: DomainValue, role: string, a: Assertion)
    ensures a in Lookup(ModelOf(domains, d).rules, role) <==> a.role == role && exists p :: p in d.policies && a in p.assertions
    ensures role in ModelOf(domains, d).rules <==> exists p, b :: p in d.policies && b in p.assertions && b.role == role
  {
    var all := AllAssertions(d.policies);
    RulesHaveAllAssertions(d.policies);
    NamingContains(all, role);
    assert role in ModelOf(domains, d).rules <==> exists b :: b in all && b.role == role;
  }

  ghost predicate LastGroup(groups: seq<Group>, name: string, i: int) {
    0 <= i < |groups| && groups[i].name == name && forall j :: i < j < |groups| ==> groups[j].name != name
  }

  /** A group has the members of the last group of its name. */
  lemma {:induction false} GroupsHaveTheirMembers(groups: seq<Group>, name: string)
    ensures name in GroupsOf(groups) <==> exists g :: g in groups && g.name == name
    ensures forall i :: LastGroup(groups, name, i) ==> name in GroupsOf(groups) && GroupsOf(groups)[name] == groups[i].members
  {
    if groups != [] {
      var init, last := groups[..|groups| - 1], groups[|groups| - 1];
      GroupsHaveTheirMembers(init, name);
      assert groups == init + [last];
      assert forall g :: g in groups <==> g in init || g == last;
      if last.name != name {
        assert forall i :: LastGroup(groups, name, i) ==> LastGroup(init, name, i);
      }
    }
  }

  lemma {:induction false} NamesInOrder(roles: seq<RoleValue>)
    ensures |Names(roles)| == |roles| && forall i :: 0 <= i < |roles| ==> Names(roles)[i] == roles[i].name
  {
    if roles != [] {
      NamesInOrder(roles[..|roles| - 1]);
    }
  }

  /** The head of the model: the domain, its namespace, and its roles and groups. */
  lemma ModelHead(domains: map<string, DomainValue>, d: DomainValue)
    ensures var m := ModelOf(domains, d);
            && m.name == d.name && m.namespace == DomainToNamespace(d.name)
            && |m.roles| == |d.roles| && (forall i :: 0 <= i < |d.roles| ==> m.roles[i] == d.roles[i].name)
            && (forall name, i :: LastGroup(d.groups, name, i) ==> name in m.groups && m.groups[name] == d.groups[i].members)
            && forall name :: name in m.groups ==> exists g :: g in d.groups && g.name == name
  {
    NamesInOrder(d.roles);
    forall name
      ensures name in GroupsOf(d.groups) <==> exists g :: g in d.groups && g.name == name
      ensures forall i :: LastGroup(d.groups, name, i) ==>
                name in GroupsOf(d.groups) && GroupsOf(d.groups)[name] == d.groups[i].members
    {
      GroupsHaveTheirMembers(d.groups, name);
    }
  }

  // ---- Members. ----

  /** The first role of the name. */
  ghost predicate FirstNamed(roles: seq<RoleValue>, name: string, k: int) {
    0 <= k < |roles| && roles[k].name == name && forall i :: 0 <= i < k ==> roles[i].name != name
  }

  /** The assertion lets members of a role of the domain assume the role. */
  ghost predicate Delegates(a: Assertion, roles: seq<RoleValue>, name: string) {
    a.action == "assume_role" && RoleGlob.Glob(a.resource, name, {'\n'}) && exists k :: FirstNamed(roles, a.role, k)
  }

  ghost predicate FirstDelegation(assertions: seq<Assertion>, roles: seq<RoleValue>, name: string, i: int) {
    && 0 <= i < |assertions| && Delegates(assertions[i], roles, name)
    && forall j :: 0 <= j < i ==> !Delegates(assertions[j], roles, name)
  }

  /** The members that a domain delegates to a role of another one: those of the role behind its first assertion that lets
      them assume it, none when that role is delegated itself, or when there is no such assertion. */
  ghost predicate AreDelegated(trusted: DomainValue, name: string, ms: seq<Member>) {
    var all := AllAssertions(trusted.policies);
    && (forall i, k :: FirstDelegation(all, trusted.roles, name, i) && FirstNamed(trusted.roles, all[i].role, k) ==>
          ms == if trusted.roles[k].trust != "" then [] else trusted.roles[k].members)
    && ((forall a :: a in all ==> !Delegates(a, trusted.roles, name)) ==> ms == [])
  }

  lemma {:induction false} FindsFirstNamed(roles: seq<RoleValue>, name: string)
    ensures FindRole(roles, name).None? <==> forall r :: r in roles ==> r.name != name
    ensures forall k :: FirstNamed(roles, name, k) ==> FindRole(roles, name) == Some(roles[k])
    ensures FindRole(roles, name).Some? ==> exists k :: FirstNamed(roles, name, k)
  {
    if roles != [] {
      var tail := roles[1..];
      FindsFirstNamed(tail, name);
      assert roles == [roles[0]] + tail;
      if roles[0].name == name {
        assert FirstNamed(roles, name, 0);
      } else {
        forall k | FirstNamed(roles, name, k) ensures FirstNamed(tail, name, k - 1) {
        }
        if k :| FirstNamed(tail, name, k) {
          assert FirstNamed(roles, name, k + 1);
        }
      }
    }
  }

  lemma DelegatesMeaning(a: Assertion, roles: seq<RoleValue>, name: string)
    ensures Delegates(a, roles, name) <==>
            a.action == ASSUME_ROLE && RoleGlob.Glob(a.resource, name, {'\n'}) && FindRole(roles, a.role).Some?
  {
    FindsFirstNamed(roles, a.role);
  }

  lemma {:induction false} ScanStopsAtFirst(assertions: seq<Assertion>, roles: seq<RoleValue>, name: string)
    ensures DelegatedBy(assertions, roles, name).None? <==> forall a :: a in assertions ==> !Delegates(a, roles, name)
    ensures forall i, k :: FirstDelegation(assertions, roles, name, i) && FirstNamed(roles, assertions[i].role, k) ==>
              DelegatedBy(assertions, roles, name) == Some(if roles[k].trust != "" then [] else roles[k].members)
  {
    if assertions != [] {
      var a, tail := assertions[0], assertions[1..];
      ScanStopsAtFirst(tail, roles, name);
      DelegatesMeaning(a, roles, name);
      FindsFirstNamed(roles, a.role);
      assert assertions == [a] + tail;
      if !Delegates(a, roles, name) {
        forall i | FirstDelegation(assertions, roles, name, i) ensures FirstDelegation(tail, roles, name, i - 1) {
          assert assertions[i] == tail[i - 1];
          assert forall j :: 0 <= j < i - 1 ==> tail[j] == assertions[j + 1];
        }
      } else {
        assert forall i :: FirstDelegation(assertions, roles, name, i) ==> i == 0;
      }
    }
  }

  lemma DelegatedMeaning(trusted: DomainValue, name: string)
    ensures AreDelegated(trusted, name, Delegated(trusted, name))
  {
    ScanStopsAtFirst(AllAssertions(trusted.policies), trusted.roles, name);
  }

  /** The role has members on record: its own, or those of a domain that is known. */
  predicate OnRecord(domains: map<string, DomainValue>, r: RoleValue) {
    r.trust == "" || r.trust in domains
  }

  /** The last role of the name that has members on record. */
  ghost predicate LastOnRecord(domains: map<string, DomainValue>, roles: seq<RoleValue>, name: string, i: int) {
    && 0 <= i < |roles| && roles[i].name == name && OnRecord(domains, roles[i])
    && forall j :: i < j < |roles| && roles[j].name == name ==> !OnRecord(domains, roles[j])
  }

  /** A role without a trusted domain has its own members, a role that trusts a known domain what that delegates to it. */
  ghost predicate AreMembersOf(domains: map<string, DomainValue>, r: RoleValue, ms: seq<Member>)
    requires OnRecord(domains, r)
  {
    if r.trust == "" then ms == r.members else AreDelegated(domains[r.trust], r.name, ms)
  }

  ghost predicate AllOnRecord(domains: map<string, DomainValue>, roles: seq<RoleValue>, name: string) {
    && (name in MembersOf(domains, roles) <==> exists r :: r in roles && r.name == name && OnRecord(domains, r))
    && forall i :: LastOnRecord(domains, roles, name, i) ==>
         name in MembersOf(domains, roles) && AreMembersOf(domains, roles[i], MembersOf(domains, roles)[name])
  }

  lemma OneMoreRole(domains: map<string, DomainValue>, init: seq<RoleValue>, last: RoleValue)
    ensures MembersOf(domains, init + [last]) ==
            if !OnRecord(domains, last) then MembersOf(domains, init)
            else if last.trust == "" then MembersOf(domains, init)[last.name := last.members]
            else MembersOf(domains, init)[last.name := Delegated(domains[last.trust], last.name)]
  {
    assert (init + [last])[..|init|] == init;
  }

  lemma LastOfMore(domains: map<string, DomainValue>, init: seq<RoleValue>, last: RoleValue, name: string, i: int)
    requires LastOnRecord(domains, init + [last], name, i)
    ensures if last.name == name && OnRecord(domains, last) then i == |init|
            else LastOnRecord(domains, init, name, i) && (init + [last])[i] == init[i]
  {
    var roles := init + [last];
    assert roles[|init|] == last;
    assert forall j :: 0 <= j < |init| ==> roles[j] == init[j];
  }

  lemma OneMoreOnRecord(domains: map<string, DomainValue>, init: seq<RoleValue>, last: RoleValue, name: string)
    requires AllOnRecord(domains, init, name)
    ensures AllOnRecord(domains, init + [last], name)
  {
    var roles := init + [last];
    OneMoreRole(domains, init, last);
    assert forall r :: r in roles <==> r in init || r == last;
    if last.trust in domains {
      DelegatedMeaning(domains[last.trust], last.name);
    }
    forall i | LastOnRecord(domains, roles, name, i)
      ensures name in MembersOf(domains, roles) && AreMembersOf(domains, roles[i], MembersOf(domains, roles)[name])
    {
      LastOfMore(domains, init, last, name, i);
    }
  }

  lemma {:induction false} MembersOnRecord(domains: map<string, DomainValue>, roles: seq<RoleValue>, name: string)
    ensures AllOnRecord(domains, roles, name)
  {
    if roles != [] {
      var init, last := roles[..|roles| - 1], roles[|roles| - 1];
      assert roles == init + [last];
      MembersOnRecord(domains, init, name);
      OneMoreOnRecord(domains, init, last, name);
    }
  }

  /** The members on record in the model of a domain: every role that has some is there, with those of the last role of its
      name; a role that trusts an unknown domain adds nothing. */
  lemma ModelMembers(domains: map<string, DomainValue>, d: DomainValue, name: string)
    ensures var members := ModelOf(domains, d).members;
            && (name in members <==> exists r :: r in d.roles && r.name == name && OnRecord(domains, r))
            && forall i :: LastOnRecord(domains, d.roles, name, i) ==>
                 name in members && AreMembersOf(domains, d.roles[i], members[name])
  {
    MembersOnRecord(domains, d.roles, name);
  }
}
