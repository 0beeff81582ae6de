/** pkg/athenz/util.go and the role-name mapping of pkg/istio/rbac/common/servicerole.go. */
module DomainNames {
  import opened GoStrings
  import opened DashCodec

  function DomainToNamespace(domain: string): string {
    ReplaceAll(ReplaceAll(domain, "-", "--"), ".", "-")
  }

  function NamespaceToDomain(ns: string): string {
    ReplaceAll(ReplaceAll(ns, "-", "."), "..", "-")
  }

  function RoleToK8sName(role: string): string {
    ReplaceAll(role, "_", "--")
  }

  /** No '.' in the domain name is directly followed by '.' or '-'. */
  predicate Decodable(domain: string) {
    Tight(domain, '-', '.')
  }

  lemma {:induction false} ReplacedCharIsGone(s: string, c: char, d: char)
    requires c != d
    ensures c !in ReplaceAll(s, [c], [d])
  {
    if s != "" {
      ReplaceCharHead(s, c, [d]);
      ReplacedCharIsGone(s[1..], c, d);
    }
  }

  lemma {:induction false} ReplaceAbsentChar(s: string, c: char, to: string)
    requires c !in s
    ensures ReplaceAll(s, [c], to) == s
  {
    if s != "" {
      ReplaceCharHead(s, c, to);
      ReplaceAbsentChar(s[1..], c, to);
      assert s == s[..1] + s[1..];
    }
  }

  lemma {:induction false} RenameBack(s: string, c: char, d: char)
    requires d !in s && c != d
    ensures ReplaceAll(ReplaceAll(s, [c], [d]), [d], [c]) == s
  {
    if s != "" {
      ReplaceCharHead(s, c, [d]);
      var t := ReplaceAll(s, [c], [d]);
      assert t[1..] == ReplaceAll(s[1..], [c], [d]);
      ReplaceCharHead(t, d, [c]);
      RenameBack(s[1..], c, d);
      assert s == s[..1] + s[1..];
    }
  }

  lemma {:induction false} WidenHasNoWide(s: string, wide: char, narrow: char)
    requires wide != narrow
    ensures wide !in Widen(s, wide, narrow)
  {
    if s != "" {
      WidenHead(s, wide, narrow);
      WidenHasNoWide(s[1..], wide, narrow);
    }
  }

  /** The namespace is the widened domain with every '.' renamed to '-'. */
  lemma {:induction false} NamespaceIsRenamedWiden(domain: string)
    ensures DomainToNamespace(domain) == ReplaceAll(Widen(domain, '-', '.'), ".", "-")
  {
    if domain != "" {
      var rest := domain[1..];
      NamespaceIsRenamedWiden(rest);
      ReplaceCharHead(domain, '-', "--");
      WidenHead(domain, '-', '.');
      var head := if domain[0] == '-' then "--" else [domain[0]];
      var wide := if domain[0] == '-' then ".." else [domain[0]];
      ReplaceCharConcat(head, ReplaceAll(rest, "-", "--"), '.', "-");
      ReplaceCharConcat(wide, Widen(rest, '-', '.'), '.', "-");
      assert ReplaceAll(head, ".", "-") == ReplaceAll(wide, ".", "-") by {
        if domain[0] == '-' {
          ReplaceAbsentChar("--", '.', "-");
          assert ".."[1..] == ".";
        }
      }
      assert domain[..1] == [domain[0]];
    }
  }

  /** A domain name survives the trip through its namespace exactly when it is decodable. */
  lemma DomainRoundTrip(domain: string)
    ensures NamespaceToDomain(DomainToNamespace(domain)) == domain <==> Decodable(domain)
  {
    var w := Widen(domain, '-', '.');
    NamespaceIsRenamedWiden(domain);
    WidenHasNoWide(domain, '-', '.');
    RenameBack(w, '.', '-');
    CollapseWiden(domain, '-', '.');
  }

  lemma {:induction false} DotsAfterDashes(s: string)
    ensures ReplaceAll(ReplaceAll(s, "-", "."), ".", "-") == ReplaceAll(s, ".", "-")
  {
    if s != "" {
      ReplaceCharHead(s, '-', ".");
      ReplaceCharHead(s, '.', "-");
      var t := ReplaceAll(s, "-", ".");
      assert t[1..] == ReplaceAll(s[1..], "-", ".");
      ReplaceCharHead(t, '.', "-");
      DotsAfterDashes(s[1..]);
    }
  }

  /** A namespace comes back with its dots turned into dashes, hence unchanged exactly when it has none. */
  lemma NamespaceRoundTrip(ns: string)
    ensures DomainToNamespace(NamespaceToDomain(ns)) == ReplaceAll(ns, ".", "-")
    ensures DomainToNamespace(NamespaceToDomain(ns)) == ns <==> '.' !in ns
  {
    var dotted := ReplaceAll(ns, "-", ".");
    ReplacedCharIsGone(ns, '-', '.');
    WidenCollapse(dotted, '-', '.');
    NamespaceIsRenamedWiden(NamespaceToDomain(ns));
    DotsAfterDashes(ns);
    ReplacedCharIsGone(ns, '.', '-');
    if '.' !in ns {
      ReplaceAbsentChar(ns, '.', "-");
    }
  }

  lemma ReplacedIsEmptyIff(s: string, c: char, to: string)
    requires to != ""
    ensures ReplaceAll(s, [c], to) == "" <==> s == ""
  {
    if s != "" {
      ReplaceCharHead(s, c, to);
    }
  }

  lemma NamespaceIsEmptyIff(domain: string)
    ensures DomainToNamespace(domain) == "" <==> domain == ""
  {
    ReplacedIsEmptyIff(domain, '-', "--");
    ReplacedIsEmptyIff(ReplaceAll(domain, "-", "--"), '.', "-");
  }

  lemma NamespaceHasNoDot(domain: string)
    ensures '.' !in DomainToNamespace(domain)
  {
    ReplacedCharIsGone(ReplaceAll(domain, "-", "--"), '.', '-');
  }

  /** The two mappings are a bijection between decodable domains and dot-free namespaces. */
  lemma DomainsAndNamespacesCorrespond(domain: string, ns: string)
    ensures (Decodable(domain) && DomainToNamespace(domain) == ns) <==>
            ('.' !in ns && NamespaceToDomain(ns) == domain)
  {
    DomainRoundTrip(domain);
    NamespaceRoundTrip(ns);
    NamespaceIsRenamedWiden(domain);
    ReplacedCharIsGone(Widen(domain, '-', '.'), '.', '-');
    ReplacedCharIsGone(ns, '-', '.');
    CollapseIsTight(ReplaceAll(ns, "-", "."), '-', '.');
  }

  /** Two decodable domains never share a namespace. */
  lemma NamespacesOfDecodableDomainsDiffer(d1: string, d2: string)
    requires Decodable(d1) && Decodable(d2) && d1 != d2
    ensures DomainToNamespace(d1) != DomainToNamespace(d2)
  {
    DomainRoundTrip(d1);
    DomainRoundTrip(d2);
  }

  lemma WidenDotDash()
    ensures Widen("a.-b", '-', '.') == "a...b"
  {
    WidenHead("a.-b", '-', '.');
    WidenHead(".-b", '-', '.');
    WidenHead("-b", '-', '.');
    assert "a.-b"[1..] == ".-b" && ".-b"[1..] == "-b" && "-b"[1..] == "b";
    assert Widen("b", '-', '.') == "b";
  }

  lemma WidenDashDot()
    ensures Widen("a-.b", '-', '.') == "a...b"
  {
    WidenHead("a-.b", '-', '.');
    WidenHead("-.b", '-', '.');
    WidenHead(".b", '-', '.');
    assert "a-.b"[1..] == "-.b" && "-.b"[1..] == ".b" && ".b"[1..] == "b";
    assert Widen("b", '-', '.') == "b";
  }

  /** Without decodability the namespaces can collide. */
  lemma NamespaceCollision()
    ensures DomainToNamespace("a.-b") == DomainToNamespace("a-.b")
    ensures !Decodable("a.-b") && Decodable("a-.b")
  {
    NamespaceIsRenamedWiden("a.-b");
    NamespaceIsRenamedWiden("a-.b");
    WidenDotDash();
    WidenDashDot();
    assert "a.-b"[1] == '.' && "a.-b"[2] == '-';
  }

  /** A Kubernetes role name decodes to its Athenz role exactly when no '-' precedes '-' or '_';
      hence such roles never share a resource name. */
  lemma RoleNameRoundTrip(role: string)
    ensures ReplaceAll(RoleToK8sName(role), "--", "_") == role <==> Tight(role, '_', '-')
  {
    CollapseWiden(role, '_', '-');
  }

  lemma K8sNamesOfTightRolesDiffer(r1: string, r2: string)
    requires Tight(r1, '_', '-') && Tight(r2, '_', '-') && r1 != r2
    ensures RoleToK8sName(r1) != RoleToK8sName(r2)
  {
    RoleNameRoundTrip(r1);
    RoleNameRoundTrip(r2);
  }
}
