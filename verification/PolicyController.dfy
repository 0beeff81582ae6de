/** The syncs of the authorization policy controller: pkg/istio/authorizationpolicy/controller.go. */
module PolicyController {
  import opened AthenzData
  import opened AthenzModel
  import opened ChangeList
  import opened Configs
  import opened DomainNames
  import opened GoStrings
  import opened PolicyCompiler
  import opened PolicyStores
  import opened Principals

  const AUTHZ_ENABLED_ANNOTATION := "authz.istio.io/enabled"
  const AUTHZ_ENABLED := "true"

  datatype Service = Service(name: string, namespace: string, annotations: map<string, string>, labels: map<string, string>)

  /** What a sync reads besides the stores: the informers' domains and services, the configuration and the clock. */
  datatype World = World(
    domains: map<string, DomainValue>,
    services: map<string, Service>,
    comp: ComponentEnabled,
    jwt: bool,
    now: int,
    svcMatch: (string, string) -> SvcMatch)

  /** Names of Kubernetes objects are not empty and have no slash. */
  predicate ObjectName(name: string) {
    name != "" && '/' !in name
  }

  /** Informer keys: a domain by its name, a service by "namespace/name". */
  function ServiceKey(namespace: string, name: string): string {
    namespace + "/" + name
  }

  predicate WellKeyed(w: World) {
    && (forall key :: key in w.domains ==> w.domains[key].name == key && '/' !in key)
    && (forall key :: key in w.services ==>
          var s := w.services[key];
          key == ServiceKey(s.namespace, s.name) && '/' !in s.namespace && ObjectName(s.name))
  }

  function Label(s: Service, name: string): string {
    if name in s.labels then s.labels[name] else ""
  }

  predicate HasAuthzEnabled(s: Service) {
    AUTHZ_ENABLED_ANNOTATION in s.annotations && s.annotations[AUTHZ_ENABLED_ANNOTATION] == AUTHZ_ENABLED
  }

  function SettingsFor(w: World, s: Service): Settings {
    Settings(w.jwt, w.now, Label(s, "svc"), w.svcMatch)
  }

  /** The policy that the domain's model gives a service. */
  ghost function PolicyFor(w: World, domain: string, s: Service): Cfg
    requires domain in w.domains
  {
    var m := ModelOf(w.domains, w.domains[domain]);
    NewConfig(Kind.AuthorizationPolicy, m.namespace, s.name, CompiledPolicy(m, Label(s, "app"), SettingsFor(w, s)))
  }

  function PolicyKey(namespace: string, name: string): Key {
    Key(Kind.AuthorizationPolicy, namespace, name)
  }

  /** The policy wanted under a name in a domain's namespace: that of the annotated service of the name. */
  ghost function WantedAt(w: World, domain: string, name: string): Option<Cfg>
    requires domain in w.domains
  {
    var key := ServiceKey(DomainToNamespace(domain), name);
    if key in w.services && HasAuthzEnabled(w.services[key]) then Some(PolicyFor(w, domain, w.services[key])) else None
  }

  /** The desired configs of a domain-level sync, in any order. */
  ghost predicate DesiredInNamespace(desired: seq<Cfg>, w: World, domain: string)
    requires domain in w.domains
  {
    && KeysOnce(desired)
    && forall c :: c in desired <==>
         c.meta.key == PolicyKey(DomainToNamespace(domain), c.meta.key.name)
         && WantedAt(w, domain, c.meta.key.name) == Some(c)
  }

  // ---- Keys. ----

  /** The domain and the service name that `sync` reads from a key. */
  function DomainOfKey(key: string): string {
    var fields := Split(key, '/');
    if |fields| > 1 then NamespaceToDomain(fields[0]) else key
  }

  function NameOfKey(key: string): string {
    var fields := Split(key, '/');
    if |fields| > 1 then fields[1] else ""
  }

  lemma {:induction false} NoSlashAppears(s: string, c: char, to: string)
    requires '/' !in s && '/' !in to
    ensures '/' !in ReplaceAll(s, [c], to)
  {
    if s != "" {
      ReplaceCharHead(s, c, to);
      NoSlashAppears(s[1..], c, to);
    }
  }

  lemma NamespaceHasNoSlash(domain: string)
    requires '/' !in domain
    ensures '/' !in DomainToNamespace(domain)
  {
    NoSlashAppears(domain, '-', "--");
    NoSlashAppears(ReplaceAll(domain, "-", "--"), '.', "-");
  }

  lemma {:induction false} CollapsedHasNoSlash(s: string)
    requires '/' !in s
    ensures '/' !in ReplaceAll(s, "..", "-")
    decreases |s|
  {
    if |s| >= 2 {
      if s[..2] == ".." {
        CollapsedHasNoSlash(s[2..]);
      } else {
        CollapsedHasNoSlash(s[1..]);
      }
    }
  }

  /** The service key that `sync` looks up is the one it was given, exactly when the namespace has no dot. */
  lemma ServiceKeyLooksUpItself(namespace: string, name: string)
    requires '/' !in namespace && '/' !in name
    ensures var key := namespace + "/" + name;
            && NameOfKey(key) == name
            && (DomainToNamespace(DomainOfKey(key)) + "/" + NameOfKey(key) == key <==> '.' !in namespace)
  {
    var key := namespace + "/" + name;
    SplitOfTwo(namespace, name, '/');
    NamespaceRoundTrip(namespace);
    NoSlashAppears(namespace, '-', ".");
    CollapsedHasNoSlash(ReplaceAll(namespace, "-", "."));
    NamespaceHasNoSlash(DomainOfKey(key));
    if DomainToNamespace(DomainOfKey(key)) + "/" + name == key {
      SplitAtSlash(DomainToNamespace(DomainOfKey(key)), name, namespace, name);
    }
  }

  /** A service key is read as the domain that its namespace decodes to, whose namespace is the same. */
  lemma ServiceKeyRead(domain: string, name: string)
    requires '/' !in domain && ObjectName(name)
    ensures var ns := DomainToNamespace(domain); var key := ServiceKey(ns, name);
            && NameOfKey(key) == name && DomainOfKey(key) == NamespaceToDomain(ns)
            && DomainToNamespace(DomainOfKey(key)) == ns
            && (DomainOfKey(key) == domain <==> Decodable(domain))
  {
    var ns := DomainToNamespace(domain);
    NamespaceHasNoSlash(domain);
    SplitOfTwo(ns, name, '/');
    DomainRoundTrip(domain);
    NamespaceHasNoDot(domain);
    NamespaceRoundTrip(ns);
  }

  lemma WantedKey(w: World, domain: string, name: string)
    requires domain in w.domains && WellKeyed(w)
    ensures var c := WantedAt(w, domain, name);
            c.Some? ==> c.value.meta.key == PolicyKey(DomainToNamespace(domain), name)
  {
    var ns := DomainToNamespace(domain);
    var key := ns + "/" + name;
    if key in w.services {
      var s := w.services[key];
      NamespaceHasNoSlash(domain);
      assert key == ns + "/" + name == s.namespace + "/" + s.name;
      SplitAtSlash(ns, name, s.namespace, s.name);
    }
  }

  // ---- Syncs that nothing disturbs. ----

  /** `sync` of a service key once the domain is found, without API errors. */
  ghost function ServiceSync(st: Stores, w: World, domain: string, name: string): Handled
    requires domain in w.domains
  {
    var current := CurrentOf(st, PolicyKey(DomainToNamespace(domain), name), w.comp);
    HandleAll(st, Changes(AsSeq(current), AsSeq(WantedAt(w, domain, name)), Overridden), w.comp)
  }

  /** `sync` of a domain key, without API errors, from one of the listings it may get. */
  ghost function DomainSync(st: Stores, w: World, current: seq<Cfg>, desired: seq<Cfg>): Handled {
    HandleAll(st, Changes(current, desired, Overridden), w.comp)
  }

  /** `sync` of a service key: nothing when the domain that it reads from the key is unknown. */
  ghost function KeySync(st: Stores, w: World, key: string): Stores {
    if DomainOfKey(key) !in w.domains then st else ServiceSync(st, w, DomainOfKey(key), NameOfKey(key)).stores
  }

  /** All events reach the cache. */
  function CatchUp(st: Stores): Stores {
    st.(cache := st.api.objects)
  }

  /** The syncs of the service keys of some names, one after the other; the cache catches up in between. */
  ghost function KeySyncs(st: Stores, w: World, namespace: string, names: seq<string>): Stores {
    if names == [] then st
    else
      var n := |names| - 1;
      KeySync(CatchUp(KeySyncs(st, w, namespace, names[..n])), w, ServiceKey(namespace, names[n]))
  }

  /** Nothing has changed outside the policies of the namespace, nor in the store a policy does not belong to. */
  ghost predicate OnlyRoutedChanges(before: Stores, after: Stores, namespace: string, comp: ComponentEnabled) {
    forall k ::
      && (!EnabledKey(comp, k) || k != PolicyKey(namespace, k.name) ==>
            Plain(Get(after.api.objects, k)) == Plain(Get(before.api.objects, k)))
      && (EnabledKey(comp, k) || k != PolicyKey(namespace, k.name) ==>
            Plain(Get(after.dry, k)) == Plain(Get(before.dry, k)))
  }

  /** Handling items keeps enabled policies on the API server and others in the dry-run directory, wherever it stops
      and however the API calls go. */
  lemma HandleKeepsRouted(st: Stores, x: Item<PolicySpec>, comp: ComponentEnabled, fault: Fault)
    requires Routed(st, comp)
    ensures Routed(Handle(st, x, comp, fault).stores, comp)
  {
    var k, after := x.resource.meta.key, Handle(st, x, comp, fault).stores;
    forall k' | k' != k ensures Untouched(st, after, k') {
      HandleTouchesItsKey(st, x, comp, fault, k');
    }
    forall k' | k' in after.api.objects
      ensures after.api.objects[k'].meta.key == k' && (EnabledKey(comp, k') || Overridden(after.api.objects[k']))
    {
      if k' != k {
        assert Untouched(st, after, k');
      }
    }
    forall k' | k' in after.dry ensures after.dry[k'].meta.key == k' && !EnabledKey(comp, k') {
      if k' != k {
        assert Untouched(st, after, k');
      }
    }
  }

  lemma {:induction false} HandlingKeepsRouted(st: Stores, items: seq<Item<PolicySpec>>, comp: ComponentEnabled)
    requires Routed(st, comp)
    ensures Routed(HandleAll(st, items, comp).stores, comp)
  {
    if items != [] {
      var n := |items| - 1;
      HandlingKeepsRouted(st, items[..n], comp);
      HandleKeepsRouted(HandleAll(st, items[..n], comp).stores, items[n], comp, Answered);
    }
  }

  /** A sync of one key sees that key, and says nothing about others. */
  lemma OneKeySees(st: Stores, k: Key, wanted: Option<Cfg>, comp: ComponentEnabled)
    requires CacheRouted(st.cache, comp) && Routed(st, comp) && (wanted.Some? ==> wanted.value.meta.key == k)
    ensures var current, desired := AsSeq(CurrentOf(st, k, comp)), AsSeq(wanted);
            && Sees(st, current, desired, comp) && UnflaggedOnce(current) && KeysOnce(desired)
            && Get(KeyedMap(current), k) == CurrentOf(st, k, comp) && Get(KeyedMap(desired), k) == wanted
            && forall k' :: k' != k ==> !Concerns(current, desired, k')
  {
    OneConfigMap(CurrentOf(st, k, comp), k);
    OneConfigMap(wanted, k);
  }

  /** Nothing has changed at the other keys. */
  ghost predicate OnlyAt(before: Stores, after: Stores, key: Key, comp: ComponentEnabled) {
    && (forall k :: k != key ==> Alike(before, after, k))
    && (if EnabledKey(comp, key) then Plain(Get(after.dry, key)) == Plain(Get(before.dry, key))
        else Plain(Get(after.api.objects, key)) == Plain(Get(before.api.objects, key)))
  }

  lemma UnconcernedKeyStays(st: Stores, after: Stores, current: seq<Cfg>, desired: seq<Cfg>, comp: ComponentEnabled, k: Key)
    requires SyncedKey(st, after, current, desired, comp, k) && !Concerns(current, desired, k)
    ensures Alike(st, after, k)
  {
  }

  lemma OneKeySyncAt(st: Stores, key: Key, wanted: Option<Cfg>, comp: ComponentEnabled)
    requires Routed(st, comp) && CaughtUp(st) && (wanted.Some? ==> wanted.value.meta.key == key)
    ensures var r := HandleAll(st, Changes(AsSeq(CurrentOf(st, key, comp)), AsSeq(wanted), Overridden), comp);
            && r.ending == Ended(Success)
            && There(r.stores, key, comp) == NextAt(There(st, key, comp), Plain(wanted))
            && OnlyAt(st, r.stores, key, comp)
  {
    var current, desired := AsSeq(CurrentOf(st, key, comp)), AsSeq(wanted);
    OneKeySees(st, key, wanted, comp);
    SyncAt(st, current, desired, comp);
    var r := HandleAll(st, Changes(current, desired, Overridden), comp);
    assert SyncedKey(st, r.stores, current, desired, comp, key);
    forall k | k != key ensures Alike(st, r.stores, k) {
      UnconcernedKeyStays(st, r.stores, current, desired, comp, k);
    }
  }

  lemma WantedIsPlain(w: World, domain: string, name: string)
    requires domain in w.domains
    ensures Plain(WantedAt(w, domain, name)) == WantedAt(w, domain, name)
    ensures WantedAt(w, domain, name).Some? ==> WantedAt(w, domain, name).value.meta.annotations == map[]
  {
  }

  /** A service-level sync meets no error and brings its own key to the next policy, touching nothing else. */
  lemma ServiceSyncAt(st: Stores, w: World, domain: string, name: string)
    requires domain in w.domains && WellKeyed(w) && Routed(st, w.comp) && CaughtUp(st)
    ensures var r, key := ServiceSync(st, w, domain, name), PolicyKey(DomainToNamespace(domain), name);
            && r.ending == Ended(Success)
            && There(r.stores, key, w.comp) == NextAt(There(st, key, w.comp), WantedAt(w, domain, name))
            && OnlyAt(st, r.stores, key, w.comp)
            && Routed(r.stores, w.comp)
  {
    var key := PolicyKey(DomainToNamespace(domain), name);
    WantedKey(w, domain, name);
    WantedIsPlain(w, domain, name);
    OneKeySyncAt(st, key, WantedAt(w, domain, name), w.comp);
    HandlingKeepsRouted(st, Changes(AsSeq(CurrentOf(st, key, w.comp)), AsSeq(WantedAt(w, domain, name)), Overridden),
                        w.comp);
  }

  // ---- Service-level syncs of a namespace. ----

  /** What the service key of a name makes of the policy that it finds there: the next policy of the domain that the
      namespace decodes to, and nothing new when that domain is unknown. */
  ghost function KeyNextAt(w: World, namespace: string, name: string, there: Option<Cfg>): Option<Cfg> {
    var domain := NamespaceToDomain(namespace);
    if domain in w.domains then NextAt(there, WantedAt(w, domain, name)) else there
  }

  lemma NextAtIsIdempotent(there: Option<Cfg>, wanted: Option<Cfg>)
    ensures NextAt(NextAt(there, wanted), wanted) == NextAt(there, wanted)
  {
  }

  lemma KeySyncAt(st: Stores, w: World, domain: string, name: string)
    requires '/' !in domain && ObjectName(name) && WellKeyed(w) && Routed(st, w.comp) && CaughtUp(st)
    ensures var ns := DomainToNamespace(domain); var after, key := KeySync(st, w, ServiceKey(ns, name)), PolicyKey(ns, name);
            && There(after, key, w.comp) == KeyNextAt(w, ns, name, There(st, key, w.comp))
            && OnlyAt(st, after, key, w.comp)
            && Routed(after, w.comp)
  {
    ServiceKeyRead(domain, name);
    var key := ServiceKey(DomainToNamespace(domain), name);
    if DomainOfKey(key) in w.domains {
      ServiceSyncAt(st, w, DomainOfKey(key), name);
    }
  }

  /** The named policies of the namespace have come to their next version, the others have stayed. */
  ghost predicate NamesSynced(before: Stores, after: Stores, w: World, namespace: string, names: seq<string>) {
    forall name :: var k := PolicyKey(namespace, name);
      There(after, k, w.comp) ==
      if name in names then KeyNextAt(w, namespace, name, There(before, k, w.comp)) else There(before, k, w.comp)
  }

  lemma OneMoreName(st: Stores, mid: Stores, after: Stores, w: World, namespace: string, names: seq<string>, last: string)
    requires NamesSynced(st, mid, w, namespace, names)
    requires var key := PolicyKey(namespace, last);
             && There(after, key, w.comp) == KeyNextAt(w, namespace, last, There(mid, key, w.comp))
             && OnlyAt(mid, after, key, w.comp)
    ensures NamesSynced(st, after, w, namespace, names + [last])
  {
    var more := names + [last];
    assert forall n :: n in more <==> n in names || n == last;
    forall name
      ensures var k := PolicyKey(namespace, name);
              There(after, k, w.comp) ==
              if name in more then KeyNextAt(w, namespace, name, There(st, k, w.comp)) else There(st, k, w.comp)
    {
      var k := PolicyKey(namespace, name);
      if name == last {
        if NamespaceToDomain(namespace) in w.domains {
          NextAtIsIdempotent(There(st, k, w.comp), WantedAt(w, NamespaceToDomain(namespace), last));
        }
      } else {
        assert Alike(mid, after, k);
      }
    }
  }

  /** What syncing the names has done to the stores: the named policies are synced, and nothing else has changed. */
  ghost predicate AllSynced(before: Stores, after: Stores, w: World, namespace: string, names: seq<string>) {
    && Routed(after, w.comp)
    && NamesSynced(before, after, w, namespace, names)
    && OnlyRoutedChanges(before, after, namespace, w.comp)
  }

  lemma NoSyncs(st: Stores, w: World, namespace: string)
    requires Routed(st, w.comp)
    ensures AllSynced(st, st, w, namespace, [])
  {
  }

  lemma OneMoreRoutedChange(a: Stores, b: Stores, c: Stores, namespace: string, name: string, comp: ComponentEnabled)
    requires OnlyRoutedChanges(a, b, namespace, comp) && OnlyAt(b, c, PolicyKey(namespace, name), comp)
    ensures OnlyRoutedChanges(a, c, namespace, comp)
  {
    forall k
      ensures !EnabledKey(comp, k) || k != PolicyKey(namespace, k.name) ==>
                Plain(Get(c.api.objects, k)) == Plain(Get(a.api.objects, k))
      ensures EnabledKey(comp, k) || k != PolicyKey(namespace, k.name) ==> Plain(Get(c.dry, k)) == Plain(Get(a.dry, k))
    {
      if k != PolicyKey(namespace, name) {
        assert Alike(b, c, k);
      }
    }
  }

  lemma OneMoreSync(st: Stores, mid: Stores, w: World, domain: string, names: seq<string>, last: string)
    requires '/' !in domain && WellKeyed(w) && ObjectName(last)
    requires AllSynced(st, mid, w, DomainToNamespace(domain), names)
    ensures var ns := DomainToNamespace(domain);
            AllSynced(st, KeySync(CatchUp(mid), w, ServiceKey(ns, last)), w, ns, names + [last])
  {
    var ns := DomainToNamespace(domain);
    var caughtUp := CatchUp(mid);
    var after := KeySync(caughtUp, w, ServiceKey(ns, last));
    KeySyncAt(caughtUp, w, domain, last);
    assert There(caughtUp, PolicyKey(ns, last), w.comp) == There(mid, PolicyKey(ns, last), w.comp);
    assert OnlyAt(mid, after, PolicyKey(ns, last), w.comp) by {
      forall k | k != PolicyKey(ns, last) ensures Alike(mid, after, k) {
        assert Alike(caughtUp, after, k);
      }
    }
    OneMoreName(st, mid, after, w, ns, names, last);
    OneMoreRoutedChange(st, mid, after, ns, last, w.comp);
  }

  lemma {:induction false} KeySyncsAt(st: Stores, w: World, domain: string, names: seq<string>)
    requires '/' !in domain && WellKeyed(w) && Routed(st, w.comp) && forall name :: name in names ==> ObjectName(name)
    ensures AllSynced(st, KeySyncs(st, w, DomainToNamespace(domain), names), w, DomainToNamespace(domain), names)
  {
    if names == [] {
      NoSyncs(st, w, DomainToNamespace(domain));
    } else {
      var init, last := names[..|names| - 1], names[|names| - 1];
      KeySyncsAt(st, w, domain, init);
      OneMoreSync(st, KeySyncs(st, w, DomainToNamespace(domain), init), w, domain, init, last);
      assert names == init + [last];
    }
  }

  // ---- Domain-level syncs. ----

  lemma DesiredMap(w: World, domain: string, desired: seq<Cfg>)
    requires domain in w.domains && WellKeyed(w) && DesiredInNamespace(desired, w, domain)
    ensures forall name ::
              Get(KeyedMap(desired), PolicyKey(DomainToNamespace(domain), name)) == WantedAt(w, domain, name)
  {
    KeyedMapContains(desired);
    forall name
      ensures Get(KeyedMap(desired), PolicyKey(DomainToNamespace(domain), name)) == WantedAt(w, domain, name)
    {
      WantedKey(w, domain, name);
      var k, c := PolicyKey(DomainToNamespace(domain), name), WantedAt(w, domain, name);
      if c.Some? {
        assert c.value in desired;
      }
      if k in KeyedMap(desired) {
        assert KeyedMap(desired)[k] in desired;
      }
    }
  }

  /** A domain-level sync sees every key that it concerns. */
  lemma DomainSees(st: Stores, w: World, domain: string, current: seq<Cfg>, desired: seq<Cfg>)
    requires domain in w.domains && Routed(st, w.comp) && CacheRouted(st.cache, w.comp)
    requires ShowsNamespace(current, st, DomainToNamespace(domain), w.comp) && DesiredInNamespace(desired, w, domain)
    ensures Sees(st, current, desired, w.comp) && UnflaggedOnce(current)
    ensures forall k :: Concerns(current, desired, k) ==> PolicyIn(k, DomainToNamespace(domain))
  {
    NamespaceListingSees(current, st, DomainToNamespace(domain), w.comp);
    KeyedMapContains(current);
    KeyedMapContains(desired);
  }

  /** What a domain-level sync makes of the policy that it finds under a name. */
  ghost function DomainNextAt(st: Stores, w: World, domain: string, name: string): Option<Cfg>
    requires domain in w.domains
  {
    var k := PolicyKey(DomainToNamespace(domain), name);
    LeftAt(There(st, k, w.comp), Plain(ShownAt(st, k, w.comp)), WantedAt(w, domain, name))
  }

  /** What a domain-level sync has done to the stores. */
  ghost predicate DomainSynced(before: Stores, after: Stores, w: World, domain: string)
    requires domain in w.domains
  {
    && (forall name ::
          There(after, PolicyKey(DomainToNamespace(domain), name), w.comp) == DomainNextAt(before, w, domain, name))
    && OnlyRoutedChanges(before, after, DomainToNamespace(domain), w.comp)
  }

  lemma SyncedIsDomainNext(st: Stores, w: World, domain: string, current: seq<Cfg>, desired: seq<Cfg>, name: string)
    requires domain in w.domains && WellKeyed(w) && Routed(st, w.comp) && CacheRouted(st.cache, w.comp)
    requires ShowsNamespace(current, st, DomainToNamespace(domain), w.comp) && DesiredInNamespace(desired, w, domain)
    ensures SyncedAt(st, current, desired, w.comp, PolicyKey(DomainToNamespace(domain), name)) ==
            DomainNextAt(st, w, domain, name)
  {
    NamespaceListingSees(current, st, DomainToNamespace(domain), w.comp);
    DesiredMap(w, domain, desired);
    WantedIsPlain(w, domain, name);
  }

  /** A sync that concerns keys of the namespace only changes what belongs there. */
  lemma OnlyConcernedChanges(st: Stores, after: Stores, current: seq<Cfg>, desired: seq<Cfg>, namespace: string,
                             comp: ComponentEnabled)
    requires forall k :: SyncedKey(st, after, current, desired, comp, k)
    requires forall k :: Concerns(current, desired, k) ==> PolicyIn(k, namespace)
    ensures OnlyRoutedChanges(st, after, namespace, comp)
  {
    forall k: Key | k != PolicyKey(namespace, k.name) ensures Alike(st, after, k) {
      UnconcernedKeyStays(st, after, current, desired, comp, k);
    }
    forall k: Key
      ensures if EnabledKey(comp, k) then Plain(Get(after.dry, k)) == Plain(Get(st.dry, k))
              else Plain(Get(after.api.objects, k)) == Plain(Get(st.api.objects, k))
    {
      assert SyncedKey(st, after, current, desired, comp, k);
    }
  }

  /** While the cache is caught up, a domain-level sync meets no error, leaves at every key of the namespace what the
      listing and the wanted policy lead to, and touches nothing else. */
  lemma DomainSyncAt(st: Stores, w: World, domain: string, current: seq<Cfg>, desired: seq<Cfg>)
    requires domain in w.domains && WellKeyed(w) && Routed(st, w.comp) && CaughtUp(st)
    requires ShowsNamespace(current, st, DomainToNamespace(domain), w.comp) && DesiredInNamespace(desired, w, domain)
    ensures DomainSync(st, w, current, desired).ending == Ended(Success)
    ensures DomainSynced(st, DomainSync(st, w, current, desired).stores, w, domain)
  {
    var ns := DomainToNamespace(domain);
    var r := DomainSync(st, w, current, desired);
    DomainSees(st, w, domain, current, desired);
    SyncAt(st, current, desired, w.comp);
    forall name ensures There(r.stores, PolicyKey(ns, name), w.comp) == DomainNextAt(st, w, domain, name) {
      assert SyncedKey(st, r.stores, current, desired, w.comp, PolicyKey(ns, name));
      SyncedIsDomainNext(st, w, domain, current, desired, name);
    }
    OnlyConcernedChanges(st, r.stores, current, desired, ns, w.comp);
  }

  // ---- The two kinds of sync compared. ----

  /** A domain-level sync and the service key of a name agree about the policy under the name. */
  ghost predicate Agree(st: Stores, w: World, domain: string, name: string)
    requires domain in w.domains
  {
    var ns := DomainToNamespace(domain);
    DomainNextAt(st, w, domain, name) == KeyNextAt(w, ns, name, There(st, PolicyKey(ns, name), w.comp))
  }

  /** The names are those of the services and the policies of the namespace, in any order and with any repetitions. */
  ghost predicate NamesOf(names: seq<string>, st: Stores, w: World, namespace: string) {
    && (forall name :: name in names ==> ObjectName(name))
    && forall name :: var k := PolicyKey(namespace, name);
         k in st.api.objects || k in st.dry || ServiceKey(namespace, name) in w.services ==> name in names
  }

  ghost predicate SamePolicies(a: Stores, b: Stores) {
    forall k :: Alike(a, b, k)
  }

  lemma UnnamedAgree(st: Stores, w: World, domain: string, name: string)
    requires domain in w.domains && CaughtUp(st) && '/' !in domain
    requires var k := PolicyKey(DomainToNamespace(domain), name);
             k !in st.api.objects && k !in st.dry && ServiceKey(DomainToNamespace(domain), name) !in w.services
    ensures Agree(st, w, domain, name)
  {
    NamespaceHasNoDot(domain);
    NamespaceRoundTrip(DomainToNamespace(domain));
  }

  lemma SyncsAgreeAt(st: Stores, a: Stores, b: Stores, w: World, domain: string, names: seq<string>, k: Key)
    requires domain in w.domains && Routed(st, w.comp) && CaughtUp(st) && '/' !in domain
    requires DomainSynced(st, a, w, domain) && AllSynced(st, b, w, DomainToNamespace(domain), names)
    requires NamesOf(names, st, w, DomainToNamespace(domain)) && Agree(st, w, domain, k.name)
    ensures Alike(a, b, k)
  {
    var ns := DomainToNamespace(domain);
    if k == PolicyKey(ns, k.name) {
      if k.name !in names {
        UnnamedAgree(st, w, domain, k.name);
      }
      assert There(a, k, w.comp) == There(b, k, w.comp);
    }
  }

  lemma SyncsDifferAt(st: Stores, a: Stores, b: Stores, w: World, domain: string, names: seq<string>, name: string)
    requires domain in w.domains && Routed(st, w.comp) && CaughtUp(st) && '/' !in domain
    requires DomainSynced(st, a, w, domain) && AllSynced(st, b, w, DomainToNamespace(domain), names)
    requires NamesOf(names, st, w, DomainToNamespace(domain)) && !Agree(st, w, domain, name)
    ensures !Alike(a, b, PolicyKey(DomainToNamespace(domain), name))
  {
    var k := PolicyKey(DomainToNamespace(domain), name);
    if name !in names {
      UnnamedAgree(st, w, domain, name);
    }
    assert There(a, k, w.comp) != There(b, k, w.comp);
  }

  /** At a fixed clock, without API errors, and with the cache caught up before each sync, a domain-level sync leaves
      the same policies in both stores as the syncs of the service keys of all names of the namespace, in any order and
      with any repetitions, if and only if the two agree about every name. */
  lemma DomainSyncEqualsKeySyncs(st: Stores, w: World, domain: string, current: seq<Cfg>, desired: seq<Cfg>,
                                 names: seq<string>)
    requires domain in w.domains && WellKeyed(w) && Routed(st, w.comp) && CaughtUp(st)
    requires ShowsNamespace(current, st, DomainToNamespace(domain), w.comp) && DesiredInNamespace(desired, w, domain)
    requires NamesOf(names, st, w, DomainToNamespace(domain))
    ensures SamePolicies(DomainSync(st, w, current, desired).stores, KeySyncs(st, w, DomainToNamespace(domain), names))
            <==> forall name :: Agree(st, w, domain, name)
  {
    var a, b := DomainSync(st, w, current, desired).stores, KeySyncs(st, w, DomainToNamespace(domain), names);
    DomainSyncAt(st, w, domain, current, desired);
    KeySyncsAt(st, w, domain, names);
    if name :| !Agree(st, w, domain, name) {
      SyncsDifferAt(st, a, b, w, domain, names, name);
    } else {
      forall k ensures Alike(a, b, k) {
        SyncsAgreeAt(st, a, b, w, domain, names, k);
      }
    }
  }

  /** A domain-level sync does not do what a policy that is not enabled is due: it takes an overridden API entry for
      the policy, or misses a dry-run policy because the configuration names the namespace as a service. */
  ghost predicate Overlooked(st: Stores, w: World, domain: string, name: string)
    requires domain in w.domains
  {
    var k, wanted := PolicyKey(DomainToNamespace(domain), name), WantedAt(w, domain, name);
    !EnabledKey(w.comp, k) &&
    if k !in st.dry then k in st.cache && wanted.Some?
    else
      NamespaceNamedAsService(w.comp, k.namespace) &&
      var there := st.dry[k];
      if k in st.cache then !Overridden(there) && (wanted.None? || wanted.value.spec != there.spec)
      else if wanted.None? then !Overridden(there)
      else Plain(Some(there)).value.meta != wanted.value.meta
  }

  /** A domain-level sync does what is due exactly when the name is not overlooked. */
  lemma DomainNextIff(st: Stores, w: World, domain: string, name: string)
    requires domain in w.domains && Routed(st, w.comp) && CaughtUp(st)
    ensures DomainNextAt(st, w, domain, name) ==
            NextAt(There(st, PolicyKey(DomainToNamespace(domain), name), w.comp), WantedAt(w, domain, name))
            <==> !Overlooked(st, w, domain, name)
  {
    WantedIsPlain(w, domain, name);
  }

  /** For a decodable domain the two kinds of sync agree about a name exactly when it is not overlooked. */
  lemma AgreeIff(st: Stores, w: World, domain: string, name: string)
    requires domain in w.domains && Decodable(domain) && Routed(st, w.comp) && CaughtUp(st)
    ensures Agree(st, w, domain, name) <==> !Overlooked(st, w, domain, name)
  {
    DomainRoundTrip(domain);
    DomainNextIff(st, w, domain, name);
  }

  /** For a decodable domain: the two kinds of sync come to the same if and only if no policy is overlooked. */
  lemma DomainSyncEqualsServiceSyncs(st: Stores, w: World, domain: string, current: seq<Cfg>, desired: seq<Cfg>,
                                     names: seq<string>)
    requires domain in w.domains && WellKeyed(w) && Routed(st, w.comp) && CaughtUp(st) && Decodable(domain)
    requires ShowsNamespace(current, st, DomainToNamespace(domain), w.comp) && DesiredInNamespace(desired, w, domain)
    requires NamesOf(names, st, w, DomainToNamespace(domain))
    ensures SamePolicies(DomainSync(st, w, current, desired).stores, KeySyncs(st, w, DomainToNamespace(domain), names))
            <==> forall name :: !Overlooked(st, w, domain, name)
  {
    DomainSyncEqualsKeySyncs(st, w, domain, current, desired, names);
    forall name ensures Agree(st, w, domain, name) <==> !Overlooked(st, w, domain, name) {
      AgreeIff(st, w, domain, name);
    }
  }

  lemma UnreadKeysAgree(st: Stores, w: World, domain: string)
    requires domain in w.domains && NamespaceToDomain(DomainToNamespace(domain)) !in w.domains
    ensures (forall name :: Agree(st, w, domain, name)) <==>
            forall name ::
              DomainNextAt(st, w, domain, name) == There(st, PolicyKey(DomainToNamespace(domain), name), w.comp)
  {
    forall name
      ensures Agree(st, w, domain, name) <==>
              DomainNextAt(st, w, domain, name) == There(st, PolicyKey(DomainToNamespace(domain), name), w.comp)
    {
    }
  }

  lemma UnreadKeysChangeNothing(st: Stores, w: World, domain: string, names: seq<string>)
    requires '/' !in domain && WellKeyed(w) && Routed(st, w.comp) && forall name :: name in names ==> ObjectName(name)
    requires NamespaceToDomain(DomainToNamespace(domain)) !in w.domains
    ensures SamePolicies(st, KeySyncs(st, w, DomainToNamespace(domain), names))
  {
    var ns := DomainToNamespace(domain);
    KeySyncsAt(st, w, domain, names);
    var b := KeySyncs(st, w, ns, names);
    forall k ensures Alike(st, b, k) {
      if k == PolicyKey(ns, k.name) {
        assert There(b, k, w.comp) == There(st, k, w.comp);
      }
    }
  }

  /** The service keys of an undecodable domain are read as keys of another one. When that is unknown, they change
      nothing; the two kinds of sync then come to the same only if the domain-level sync has nothing to do either. */
  lemma UndecodableDomainSync(st: Stores, w: World, domain: string, current: seq<Cfg>, desired: seq<Cfg>,
                              names: seq<string>)
    requires domain in w.domains && WellKeyed(w) && Routed(st, w.comp) && CaughtUp(st) && !Decodable(domain)
    requires NamespaceToDomain(DomainToNamespace(domain)) !in w.domains
    requires ShowsNamespace(current, st, DomainToNamespace(domain), w.comp) && DesiredInNamespace(desired, w, domain)
    requires NamesOf(names, st, w, DomainToNamespace(domain))
    ensures var ns := DomainToNamespace(domain); var b := KeySyncs(st, w, ns, names);
            && SamePolicies(st, b)
            && (SamePolicies(DomainSync(st, w, current, desired).stores, b) <==>
                forall name :: DomainNextAt(st, w, domain, name) == There(st, PolicyKey(ns, name), w.comp))
  {
    UnreadKeysChangeNothing(st, w, domain, names);
    DomainSyncEqualsKeySyncs(st, w, domain, current, desired, names);
    UnreadKeysAgree(st, w, domain);
  }

  /** Two domains that share a namespace want the same of the service of a name, or its policy is overridden. */
  ghost predicate SameWish(st: Stores, w: World, domain: string, other: string, name: string)
    requires domain in w.domains && other in w.domains
  {
    var ns := DomainToNamespace(domain);
    var key := ServiceKey(ns, name);
    key in w.services && HasAuthzEnabled(w.services[key]) ==>
      var there := There(st, PolicyKey(ns, name), w.comp);
      || (there.Some? && Overridden(there.value))
      || PolicyFor(w, domain, w.services[key]).spec == PolicyFor(w, other, w.services[key]).spec
  }

  lemma SameWishIff(there: Option<Cfg>, a: Option<Cfg>, b: Option<Cfg>)
    requires (a.Some? <==> b.Some?) && (a.Some? ==> a.value.meta == b.value.meta)
    ensures NextAt(there, a) == NextAt(there, b) <==>
            (a.Some? ==> (there.Some? && Overridden(there.value)) || a.value.spec == b.value.spec)
  {
  }

  lemma TwoWishes(w: World, a: string, b: string, name: string)
    requires a in w.domains && b in w.domains && WellKeyed(w) && DomainToNamespace(a) == DomainToNamespace(b)
    ensures var x, y := WantedAt(w, a, name), WantedAt(w, b, name);
            (x.Some? <==> y.Some?) && (x.Some? ==> x.value.meta == y.value.meta)
  {
  }

  lemma AgreeOfTwoIff(st: Stores, w: World, domain: string, name: string)
    requires domain in w.domains && WellKeyed(w) && Routed(st, w.comp) && CaughtUp(st) && !Overlooked(st, w, domain, name)
    requires NamespaceToDomain(DomainToNamespace(domain)) in w.domains
    ensures Agree(st, w, domain, name) <==> SameWish(st, w, domain, NamespaceToDomain(DomainToNamespace(domain)), name)
  {
    var ns := DomainToNamespace(domain);
    var other := NamespaceToDomain(ns);
    DomainNextIff(st, w, domain, name);
    NamespaceHasNoDot(domain);
    NamespaceRoundTrip(ns);
    TwoWishes(w, domain, other, name);
    SameWishIff(There(st, PolicyKey(ns, name), w.comp), WantedAt(w, domain, name), WantedAt(w, other, name));
  }

  /** When the other domain is known, the service keys bring its policies. Where no policy is overlooked, the two kinds
      of sync come to the same if and only if the two domains want the same of every annotated service whose policy is
      not overridden. */
  lemma SharedNamespaceSync(st: Stores, w: World, domain: string, current: seq<Cfg>, desired: seq<Cfg>, names: seq<string>)
    requires domain in w.domains && WellKeyed(w) && Routed(st, w.comp) && CaughtUp(st)
    requires NamespaceToDomain(DomainToNamespace(domain)) in w.domains
    requires ShowsNamespace(current, st, DomainToNamespace(domain), w.comp) && DesiredInNamespace(desired, w, domain)
    requires NamesOf(names, st, w, DomainToNamespace(domain)) && forall name :: !Overlooked(st, w, domain, name)
    ensures SamePolicies(DomainSync(st, w, current, desired).stores, KeySyncs(st, w, DomainToNamespace(domain), names))
            <==> forall name :: SameWish(st, w, domain, NamespaceToDomain(DomainToNamespace(domain)), name)
  {
    DomainSyncEqualsKeySyncs(st, w, domain, current, desired, names);
    forall name
      ensures Agree(st, w, domain, name) <==> SameWish(st, w, domain, NamespaceToDomain(DomainToNamespace(domain)), name)
    {
      AgreeOfTwoIff(st, w, domain, name);
    }
  }

  lemma WantedIsAService(w: World, domain: string, name: string)
    requires domain in w.domains && WellKeyed(w) && WantedAt(w, domain, name).Some?
    ensures ObjectName(name)
  {
    var ns := DomainToNamespace(domain);
    var s := w.services[ServiceKey(ns, name)];
    NamespaceHasNoSlash(domain);
    assert ServiceKey(ns, name) == ns + "/" + name == s.namespace + "/" + s.name;
    SplitAtSlash(ns, name, s.namespace, s.name);
  }

  /** The failing input: with one annotated service in the namespace of "a.-b", empty stores and no domain "a-.b", the
      domain-level sync writes the service's policy, and the service-level syncs do not. */
  lemma UndecodableDomainDiverges(w: World, name: string, current: seq<Cfg>, desired: seq<Cfg>)
    requires WellKeyed(w) && "a.-b" in w.domains && "a-.b" !in w.domains
    requires WantedAt(w, "a.-b", name).Some?
    requires var st := Stores(Store(map[], 0), map[], map[]);
             ShowsNamespace(current, st, DomainToNamespace("a.-b"), w.comp) && DesiredInNamespace(desired, w, "a.-b")
    ensures var st, ns := Stores(Store(map[], 0), map[], map[]), DomainToNamespace("a.-b");
            && There(DomainSync(st, w, current, desired).stores, PolicyKey(ns, name), w.comp) == WantedAt(w, "a.-b", name)
            && KeySync(st, w, ServiceKey(ns, name)) == st
            && !Overlooked(st, w, "a.-b", name)
  {
    var st := Stores(Store(map[], 0), map[], map[]);
    DomainSyncAt(st, w, "a.-b", current, desired);
    assert There(DomainSync(st, w, current, desired).stores, PolicyKey(DomainToNamespace("a.-b"), name), w.comp) ==
           DomainNextAt(st, w, "a.-b", name);
    NamespaceCollision();
    DomainRoundTrip("a-.b");
    WantedIsAService(w, "a.-b", name);
    ServiceKeyRead("a.-b", name);
  }

  /** A configuration that names a namespace as a service hides its dry-run policies from domain-level syncs: one
      that is no longer wanted stays, while the service-level sync of its name removes it. */
  lemma NamespaceEntryHidesDryRunPolicies(st: Stores, w: World, domain: string, current: seq<Cfg>, desired: seq<Cfg>,
                                          name: string)
    requires domain in w.domains && WellKeyed(w) && Routed(st, w.comp) && CaughtUp(st)
    requires ShowsNamespace(current, st, DomainToNamespace(domain), w.comp) && DesiredInNamespace(desired, w, domain)
    requires NamespaceNamedAsService(w.comp, DomainToNamespace(domain))
    requires var k := PolicyKey(DomainToNamespace(domain), name);
             k in st.dry && !Overridden(st.dry[k]) && WantedAt(w, domain, name).None?
    ensures var k := PolicyKey(DomainToNamespace(domain), name);
            && There(DomainSync(st, w, current, desired).stores, k, w.comp) == There(st, k, w.comp) != None
            && There(ServiceSync(st, w, domain, name).stores, k, w.comp) == None
  {
    ServiceSyncAt(st, w, domain, name);
    DomainSyncAt(st, w, domain, current, desired);
    assert There(DomainSync(st, w, current, desired).stores, PolicyKey(DomainToNamespace(domain), name), w.comp) ==
           DomainNextAt(st, w, domain, name);
  }
}
