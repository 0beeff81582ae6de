/** The ClusterRbacConfig controller: pkg/istio/onboarding/controller.go. `Get` is taken to return a private copy
    of the stored config, which the controller then edits in place. */
module Onboarding {
  import opened AthenzData
  import opened ChangeList
  import opened Configs
  import opened GoStrings
  import opened Sequences

  /** The one object that the controller looks after: ClusterRbacConfig//default. */
  const RBAC_KEY := Key(Kind.ClusterRbacConfig, "", "default")

  const AUTHZ_ENABLED := "true"
  const AUTHZ_ENABLED_ANNOTATION := "authz.istio.io/enabled"

  datatype Service = Service(name: string, namespace: string, annotations: map<string, string>)

  datatype Mode = Off | On | OnWithInclusion | OnWithExclusion

  /** v1alpha1.RbacConfig as stored; a target is its service list. */
  datatype RbacConfig = RbacConfig(mode: Mode, inclusion: Option<seq<string>>, exclusion: Option<seq<string>>)

  // ---- Lists. ----

  /** The elements of `a` that are not in `b`, in order and with repetitions. */
  function NotIn(a: seq<string>, b: seq<string>): seq<string> {
    if a == [] then []
    else
      var last := a[|a| - 1];
      NotIn(a[..|a| - 1], b) + (if last in b then [] else [last])
  }

  /** The element at `i` makes way for the last one. */
  function SwapRemove(s: seq<string>, i: nat): seq<string>
    requires i < |s|
  {
    s[i := s[|s| - 1]][..|s| - 1]
  }

  function IndexOf(s: seq<string>, x: string): (i: nat)
    ensures i <= |s| && x !in s[..i]
    ensures i < |s| ==> s[i] == x
  {
    if s == [] || s[0] == x then 0
    else
      var i := 1 + IndexOf(s[1..], x);
      assert s[..i] == s[..1] + s[1..][..i - 1];
      i
  }

  function RemoveFirst(s: seq<string>, x: string): seq<string> {
    if IndexOf(s, x) < |s| then SwapRemove(s, IndexOf(s, x)) else s
  }

  function RemoveEach(s: seq<string>, xs: seq<string>): seq<string> {
    if xs == [] then s else RemoveFirst(RemoveEach(s, xs[..|xs| - 1]), xs[|xs| - 1])
  }

  lemma SwapRemoveTakesOne(s: seq<string>, i: nat)
    requires i < |s|
    ensures multiset(SwapRemove(s, i)) == multiset(s) - multiset{s[i]}
  {
    var n := |s| - 1;
    assert s == s[..i] + [s[i]] + s[i + 1..];
    if i < n {
      assert SwapRemove(s, i) == s[..i] + [s[n]] + s[i + 1..n];
      assert s[i + 1..] == s[i + 1..n] + [s[n]];
    } else {
      assert SwapRemove(s, i) == s[..i];
    }
  }

  lemma RemoveFirstTakesOne(s: seq<string>, x: string)
    ensures multiset(RemoveFirst(s, x)) == multiset(s) - multiset{x}
  {
    var i := IndexOf(s, x);
    if i < |s| {
      SwapRemoveTakesOne(s, i);
    } else {
      assert s[..i] == s;
      assert x !in multiset(s);
    }
  }

  lemma LastCounts(xs: seq<string>)
    requires xs != []
    ensures multiset(xs) == multiset(xs[..|xs| - 1]) + multiset{xs[|xs| - 1]}
  {
    assert xs == xs[..|xs| - 1] + [xs[|xs| - 1]];
  }

  lemma TakeBoth(a: multiset<string>, b: multiset<string>, c: multiset<string>)
    ensures a - b - c == a - (b + c)
  {
  }

  lemma {:induction false} RemoveEachTakesAll(s: seq<string>, xs: seq<string>)
    ensures multiset(RemoveEach(s, xs)) == multiset(s) - multiset(xs)
  {
    if xs != [] {
      var init, x := xs[..|xs| - 1], xs[|xs| - 1];
      RemoveEachTakesAll(s, init);
      RemoveFirstTakesOne(RemoveEach(s, init), x);
      LastCounts(xs);
      TakeBoth(multiset(s), multiset(init), multiset{x});
    }
  }

  lemma {:induction false} NotInCounts(a: seq<string>, b: seq<string>, x: string)
    ensures multiset(NotIn(a, b))[x] == if x in b then 0 else multiset(a)[x]
  {
    if a != [] {
      var init, last := a[..|a| - 1], a[|a| - 1];
      NotInCounts(init, b, x);
      LastCounts(a);
    }
  }

  // ---- Go slices of services, edited in place. ----

  class ServiceList {
    var data: array<string>
    var len: nat

    ghost predicate Valid()
      reads this
    {
      len <= data.Length
    }

    ghost function Contents(): seq<string>
      reads this, data
      requires Valid()
    {
      data[..len]
    }

    constructor (services: seq<string>)
      ensures Valid() && fresh(data) && Contents() == services
    {
      data := new string[|services|](i requires 0 <= i < |services| => services[i]);
      len := |services|;
    }

    /** `append`: in place while there is room, in a larger array otherwise. */
    method Append(x: string)
      requires Valid()
      modifies this, data
      ensures Valid() && (data == old(data) || fresh(data))
      ensures Contents() == old(Contents()) + [x]
    {
      if len == data.Length {
        var full := data;
        var bigger := new string[2 * len + 1](i => "");
        for i := 0 to len
          invariant bigger.Length == 2 * len + 1 && bigger[..i] == full[..i]
          invariant fresh(bigger) && data == full && full[..] == old(data[..])
        {
          bigger[i] := full[i];
        }
        data := bigger;
      }
      data[len] := x;
      len := len + 1;
    }

    /** `removeIndexElement`. An index outside the list changes nothing, except the index just past its end, which
        the guard lets through to a failing access. */
    method RemoveIndexElement(index: int)
      requires Valid() && index != len
      modifies this`len, data
      ensures Valid()
      ensures Contents() == if 0 <= index < |old(Contents())| then SwapRemove(old(Contents()), index) else old(Contents())
    {
      if index > len || index < 0 {
        return;
      }
      data[len - 1], data[index] := data[index], data[len - 1];
      len := len - 1;
    }
  }

  /** The private copy that `sync` works on. */
  class RbacConfigCopy {
    var mode: Mode
    var inclusion: ServiceList?
    var exclusion: Option<seq<string>>

    ghost predicate Valid()
      reads this, inclusion
    {
      inclusion != null ==> inclusion.Valid()
    }

    ghost function Value(): RbacConfig
      reads this, inclusion, if inclusion == null then {} else {inclusion.data}
      requires Valid()
    {
      RbacConfig(mode, if inclusion == null then None else Some(inclusion.Contents()), exclusion)
    }

    constructor (config: RbacConfig)
      ensures Valid() && Value() == config
      ensures inclusion != null ==> fresh(inclusion) && fresh(inclusion.data)
    {
      mode, exclusion := config.mode, config.exclusion;
      if config.inclusion.Some? {
        inclusion := new ServiceList(config.inclusion.value);
      } else {
        inclusion := null;
      }
    }
  }

  /** `addServices`. */
  method AddServices(services: seq<string>, config: RbacConfigCopy)
    requires config.Valid()
    modifies config.inclusion, if config.inclusion == null then {} else {config.inclusion.data}
    ensures config.Valid()
    ensures config.inclusion == null || config.inclusion.data == old(config.inclusion.data) || fresh(config.inclusion.data)
    ensures config.inclusion != null ==> config.inclusion.Contents() == old(config.inclusion.Contents()) + services
  {
    if config.inclusion == null {
      return;
    }
    var list := config.inclusion;
    for i := 0 to |services|
      invariant config.inclusion == list && list.Valid()
      invariant list.data == old(config.inclusion.data) || fresh(list.data)
      invariant list.Contents() == old(config.inclusion.Contents()) + services[..i]
    {
      list.Append(services[i]);
      assert services[..i + 1] == services[..i] + [services[i]];
    }
    assert services[..|services|] == services;
  }

  lemma RemoveEachUpTo(s: seq<string>, xs: seq<string>, i: nat)
    requires i < |xs|
    ensures RemoveEach(s, xs[..i + 1]) == RemoveFirst(RemoveEach(s, xs[..i]), xs[i])
  {
    assert xs[..i + 1][..i] == xs[..i];
  }

  lemma FirstIsIndexOf(s: seq<string>, x: string, i: nat)
    requires i <= |s| && x !in s[..i] && (i < |s| ==> s[i] == x)
    ensures IndexOf(s, x) == i
  {
    var k := IndexOf(s, x);
    assert forall j :: 0 <= j < i ==> s[j] == s[..i][j] && s[j] != x;
    assert forall j :: 0 <= j < k ==> s[j] == s[..k][j] && s[j] != x;
  }

  /** The body of the loop of `deleteServices`. */
  method RemoveService(service: string, list: ServiceList)
    requires list.Valid()
    modifies list`len, list.data
    ensures list.Valid() && list.Contents() == RemoveFirst(old(list.Contents()), service)
  {
    var indexToRemove := -1;
    ghost var contents := list.Contents();
    for j := 0 to list.len
      invariant indexToRemove == -1
      invariant service !in contents[..j]
    {
      if list.data[j] == service {
        indexToRemove := j;
        break;
      }
      assert contents[..j + 1] == contents[..j] + [contents[j]];
    }
    FirstIsIndexOf(contents, service, if indexToRemove == -1 then |contents| else indexToRemove);
    if indexToRemove != -1 {
      list.RemoveIndexElement(indexToRemove);
    }
  }

  /** `deleteServices`. */
  method DeleteServices(services: seq<string>, config: RbacConfigCopy)
    requires config.Valid()
    modifies config.inclusion, if config.inclusion == null then {} else {config.inclusion.data}
    ensures config.Valid()
    ensures config.inclusion != null ==> config.inclusion.data == old(config.inclusion.data)
    ensures config.inclusion != null ==>
              config.inclusion.Contents() == RemoveEach(old(config.inclusion.Contents()), services)
  {
    if config.inclusion == null {
      return;
    }
    var list := config.inclusion;
    for i := 0 to |services|
      invariant config.inclusion == list && list.Valid() && list.data == old(config.inclusion.data)
      invariant list.Contents() == RemoveEach(old(config.inclusion.Contents()), services[..i])
    {
      RemoveEachUpTo(old(config.inclusion.Contents()), services, i);
      RemoveService(services[i], list);
    }
    assert services[..|services|] == services;
  }

  /** `compareServiceLists`. */
  method CompareServiceLists(a: seq<string>, b: seq<string>) returns (diff: seq<string>)
    ensures diff == NotIn(a, b)
  {
    var inB: set<string> := {};
    for i := 0 to |b|
      invariant forall x :: x in inB <==> x in b[..i]
    {
      assert b[..i + 1] == b[..i] + [b[i]];
      inB := inB + {b[i]};
    }
    assert b[..|b|] == b;
    diff := [];
    for i := 0 to |a|
      invariant diff == NotIn(a[..i], b)
    {
      assert a[..i + 1][..i] == a[..i];
      if a[i] !in inB {
        diff := diff + [a[i]];
      }
    }
    assert a[..|a|] == a;
  }

  // ---- Sync. ----

  predicate IsOnboarded(s: Service) {
    AUTHZ_ENABLED_ANNOTATION in s.annotations && s.annotations[AUTHZ_ENABLED_ANNOTATION] == AUTHZ_ENABLED
  }

  function HostName(s: Service, dnsSuffix: string): string {
    s.name + "." + s.namespace + "." + dnsSuffix
  }

  function OnboardedNames(services: seq<Service>, dnsSuffix: string): seq<string> {
    if services == [] then []
    else
      var last := services[|services| - 1];
      OnboardedNames(services[..|services| - 1], dnsSuffix)
      + (if IsOnboarded(last) then [HostName(last, dnsSuffix)] else [])
  }

  /** `getOnboardedServiceList`. */
  method GetOnboardedServiceList(services: seq<Service>, dnsSuffix: string) returns (names: seq<string>)
    ensures names == OnboardedNames(services, dnsSuffix)
  {
    names := [];
    for i := 0 to |services|
      invariant names == OnboardedNames(services[..i], dnsSuffix)
    {
      assert services[..i + 1][..i] == services[..i];
      if IsOnboarded(services[i]) {
        names := names + [HostName(services[i], dnsSuffix)];
      }
    }
    assert services[..|services|] == services;
  }

  function InclusionOf(services: seq<string>): RbacConfig {
    RbacConfig(OnWithInclusion, Some(services), None)
  }

  /** `newClusterRbacConfig`. */
  function NewRbacConfig(services: seq<string>): Config<RbacConfig> {
    NewConfig(Kind.ClusterRbacConfig, "", "default", InclusionOf(services))
  }

  /** The service list after the additions and removals. */
  function Merged(listed: seq<string>, services: seq<string>): seq<string> {
    var grown := listed + NotIn(services, listed);
    RemoveEach(grown, NotIn(grown, services))
  }

  /** The item that a sync hands to the processor, if any. */
  function Decide(stored: Option<Config<RbacConfig>>, services: seq<string>): Option<Item<RbacConfig>> {
    match stored
    case None => if services == [] then None else Some(Item(Add, NewRbacConfig(services)))
    case Some(Config(meta, c)) =>
      if services == [] then Some(Item(Delete, NewRbacConfig(services)))
      else if c.inclusion.None? || c.mode != OnWithInclusion then Some(Item(Update, Config(meta, InclusionOf(services))))
      else
        var grown := c.inclusion.value + NotIn(services, c.inclusion.value);
        if NotIn(services, c.inclusion.value) == [] && NotIn(grown, services) == [] then None
        else Some(Item(Update, Config(meta, c.(inclusion := Some(Merged(c.inclusion.value, services))))))
  }

  /** The part of `sync` that merges the services into the service list of the stored config. */
  method SyncInclusion(meta: Meta, config: RbacConfigCopy, serviceList: seq<string>) returns (item: Option<Item<RbacConfig>>)
    requires config.Valid() && config.inclusion != null && config.mode == OnWithInclusion && serviceList != []
    modifies config.inclusion, config.inclusion.data
    ensures item == Decide(Some(Config(meta, old(config.Value()))), serviceList)
  {
    ghost var c, listed := config.Value(), config.inclusion.Contents();
    assert c == RbacConfig(config.mode, Some(listed), config.exclusion);
    var list := config.inclusion;
    var newServices := CompareServiceLists(serviceList, list.data[..list.len]);
    if |newServices| > 0 {
      AddServices(newServices, config);
    }
    ghost var grown := listed + newServices;
    assert list.Contents() == grown;
    var oldServices := CompareServiceLists(list.data[..list.len], serviceList);
    if |oldServices| > 0 {
      DeleteServices(oldServices, config);
    }
    assert list.Contents() == RemoveEach(grown, oldServices);
    if |newServices| > 0 || |oldServices| > 0 {
      return Some(Item(Update, Config(meta, RbacConfig(config.mode, Some(list.data[..list.len]), config.exclusion))));
    }
    return None;
  }

  /** `sync`, on the stored config and the services of the cluster. */
  method Sync(stored: Option<Config<RbacConfig>>, cluster: seq<Service>, dnsSuffix: string)
    returns (item: Option<Item<RbacConfig>>)
    ensures item == Decide(stored, OnboardedNames(cluster, dnsSuffix))
  {
    var serviceList := GetOnboardedServiceList(cluster, dnsSuffix);
    if stored.None? && |serviceList| == 0 {
      return None;
    }
    if stored.None? {
      return Some(Item(Add, NewRbacConfig(serviceList)));
    }
    if |serviceList| == 0 {
      return Some(Item(Delete, NewRbacConfig(serviceList)));
    }
    var config := new RbacConfigCopy(stored.value.spec);
    if config.inclusion == null || config.mode != OnWithInclusion {
      return Some(Item(Update, Config(stored.value.meta, InclusionOf(serviceList))));
    }
    item := SyncInclusion(stored.value.meta, config, serviceList);
  }

  // ---- What a sync achieves. ----

  /** The item is carried out by the API server, which answers. */
  function Perform(st: Store<RbacConfig>, item: Option<Item<RbacConfig>>): (Store<RbacConfig>, Outcome) {
    if item.None? then (st, Success) else Execute(st, item.value)
  }

  function StoredConfig(st: Store<RbacConfig>): Option<Config<RbacConfig>> {
    Get(st.objects, RBAC_KEY)
  }

  /** The config has the mode and the services that onboard exactly these. */
  ghost predicate Onboards(c: RbacConfig, services: seq<string>) {
    c.mode == OnWithInclusion && c.inclusion.Some? && forall x :: x in c.inclusion.value <==> x in services
  }

  /** An item computed from a config that was seen earlier is accepted exactly when the server still has that version of it,
      any version for a removal, or still has none. */
  lemma SyncSucceedsIff(st: Store<RbacConfig>, seen: Option<Config<RbacConfig>>, services: seq<string>)
    requires seen.Some? ==> seen.value.meta.key == RBAC_KEY
    requires Decide(seen, services).Some?
    ensures Perform(st, Decide(seen, services)).1 == Success <==>
            match seen
            case None => RBAC_KEY !in st.objects
            case Some(c) =>
              && RBAC_KEY in st.objects
              && (services == [] || st.objects[RBAC_KEY].meta.resourceVersion == c.meta.resourceVersion)
  {
  }

  ghost predicate DuplicateFree(s: seq<string>) {
    forall x :: multiset(s)[x] <= 1
  }

  /** How often each service is listed after a merge: the offboarded ones are gone with all their occurrences, the
      ones already listed stay as often as they were, the new ones come as often as the cluster has them. */
  lemma MergeCounts(listed: seq<string>, services: seq<string>, x: string)
    ensures multiset(Merged(listed, services))[x] ==
            if x !in services then 0
            else if x in listed then multiset(listed)[x]
            else multiset(services)[x]
  {
    var added := NotIn(services, listed);
    var grown := listed + added;
    NotInCounts(services, listed, x);
    NotInCounts(grown, services, x);
    RemoveEachTakesAll(grown, NotIn(grown, services));
    assert multiset(grown)[x] == multiset(listed)[x] + multiset(added)[x];
  }

  lemma MergedHas(listed: seq<string>, services: seq<string>)
    ensures forall x :: x in Merged(listed, services) <==> x in services
  {
    forall x ensures x in Merged(listed, services) <==> x in services {
      MergeCounts(listed, services, x);
      assert x in Merged(listed, services) <==> x in multiset(Merged(listed, services));
      assert x in services <==> x in multiset(services);
      assert x in listed <==> x in multiset(listed);
    }
  }

  lemma {:induction false} NotInEmptyIff(a: seq<string>, b: seq<string>)
    ensures NotIn(a, b) == [] <==> forall x :: x in a ==> x in b
  {
    if a != [] {
      NotInEmptyIff(a[..|a| - 1], b);
      assert a == a[..|a| - 1] + [a[|a| - 1]];
    }
  }

  /** A sync acts exactly when the stored config does not onboard the services yet. */
  lemma SyncActsIff(stored: Option<Config<RbacConfig>>, services: seq<string>)
    ensures Decide(stored, services) == None <==>
            if services == [] then stored.None? else stored.Some? && Onboards(stored.value.spec, services)
  {
    if stored.Some? && stored.value.spec.inclusion.Some? {
      var listed := stored.value.spec.inclusion.value;
      NotInEmptyIff(services, listed);
      var grown := listed + NotIn(services, listed);
      NotInEmptyIff(grown, services);
      if NotIn(services, listed) == [] {
        assert grown == listed;
      }
    }
  }

  /** The excluded services that a config keeps: those of a config in inclusion mode, no others. */
  function KeptExclusion(stored: Option<Config<RbacConfig>>): Option<seq<string>> {
    if stored.Some? && stored.value.spec.mode == OnWithInclusion && stored.value.spec.inclusion.Some?
    then stored.value.spec.exclusion else None
  }

  /** The item of a sync has what it takes to onboard the services. */
  lemma ItemOnboards(stored: Option<Config<RbacConfig>>, services: seq<string>)
    requires services != [] && Decide(stored, services).Some?
    ensures Onboards(Decide(stored, services).value.resource.spec, services)
    ensures Decide(stored, services).value.resource.spec.exclusion == KeptExclusion(stored)
  {
    if stored.Some? && stored.value.spec.inclusion.Some? {
      MergedHas(stored.value.spec.inclusion.value, services);
    }
  }

  /** From every store, the item of a sync that has seen the stored config is accepted, onboards exactly the services, and
      touches no other object. */
  lemma OneSyncOnboards(st: Store<RbacConfig>, services: seq<string>)
    requires WellFormed(st)
    ensures var (after, outcome) := Perform(st, Decide(StoredConfig(st), services));
            && outcome == Success && WellFormed(after)
            && (StoredConfig(after).None? <==> services == [])
            && (services != [] ==>
                  && Onboards(StoredConfig(after).value.spec, services)
                  && StoredConfig(after).value.spec.exclusion == KeptExclusion(StoredConfig(st)))
            && forall k :: k != RBAC_KEY ==> Get(after.objects, k) == Get(st.objects, k)
  {
    var stored := StoredConfig(st);
    SyncActsIff(stored, services);
    if Decide(stored, services).Some? {
      SyncSucceedsIff(st, stored, services);
      if services != [] {
        ItemOnboards(stored, services);
      }
    }
  }

  lemma MergedPermutes(listed: seq<string>, services: seq<string>)
    requires DuplicateFree(listed) && DuplicateFree(services)
    ensures multiset(Merged(listed, services)) == multiset(services)
  {
    forall x ensures multiset(Merged(listed, services))[x] == multiset(services)[x] {
      MergeCounts(listed, services, x);
      assert x in services <==> x in multiset(services);
      assert x in listed <==> x in multiset(listed);
    }
  }

  lemma UnchangedIsMerged(listed: seq<string>, services: seq<string>)
    requires NotIn(services, listed) == [] && NotIn(listed + NotIn(services, listed), services) == []
    ensures Merged(listed, services) == listed
  {
    assert listed + [] == listed;
  }

  /** When neither the stored list nor the cluster repeats a service, the new list is a permutation of the cluster's. */
  lemma OneSyncPermutes(st: Store<RbacConfig>, services: seq<string>)
    requires WellFormed(st) && services != [] && DuplicateFree(services)
    requires StoredConfig(st).Some? && StoredConfig(st).value.spec.inclusion.Some? ==>
               DuplicateFree(StoredConfig(st).value.spec.inclusion.value)
    ensures var after := StoredConfig(Perform(st, Decide(StoredConfig(st), services)).0);
            && after.Some? && after.value.spec.inclusion.Some?
            && multiset(after.value.spec.inclusion.value) == multiset(services)
  {
    var stored := StoredConfig(st);
    OneSyncOnboards(st, services);
    if stored.Some? && stored.value.spec.inclusion.Some? && stored.value.spec.mode == OnWithInclusion {
      MergedPermutes(stored.value.spec.inclusion.value, services);
      if Decide(stored, services) == None {
        UnchangedIsMerged(stored.value.spec.inclusion.value, services);
      }
    }
  }

  /** The sync after that has nothing to do. */
  lemma NextSyncIsIdle(st: Store<RbacConfig>, services: seq<string>)
    requires WellFormed(st)
    ensures Decide(StoredConfig(Perform(st, Decide(StoredConfig(st), services)).0), services) == None
  {
    OneSyncOnboards(st, services);
    SyncActsIff(StoredConfig(Perform(st, Decide(StoredConfig(st), services)).0), services);
  }

  // ---- Which services those are. ----

  lemma {:induction false} OnboardedNamesAre(cluster: seq<Service>, dnsSuffix: string, x: string)
    ensures x in OnboardedNames(cluster, dnsSuffix) <==>
            exists s :: s in cluster && "authz.istio.io/enabled" in s.annotations &&
                        s.annotations["authz.istio.io/enabled"] == "true" && x == HostName(s, dnsSuffix)
  {
    if cluster != [] {
      var init, last := cluster[..|cluster| - 1], cluster[|cluster| - 1];
      OnboardedNamesAre(init, dnsSuffix, x);
      assert cluster == init + [last];
      assert forall s :: s in cluster <==> s in init || s == last;
    }
  }

  lemma FirstDot(head: string, tail: string)
    requires '.' !in head
    ensures var s := head + "." + tail; FirstIndex(s, '.') == |head| && s[..|head|] == head && s[|head| + 1..] == tail
  {
    var s := head + "." + tail;
    var k := FirstIndex(s, '.');
    assert s[|head|] == '.';
    assert forall i :: 0 <= i < |head| ==> s[i] == head[i] && s[i] != '.';
    assert forall i :: 0 <= i < k ==> s[i] == s[..k][i] && s[i] != '.';
  }

  /** A host name reads, up to its first dot, as the service's name, from there to the next as its namespace, and then as the
      suffix; so different services have different host names. */
  lemma HostNameReads(s: Service, dnsSuffix: string)
    requires '.' !in s.name && '.' !in s.namespace
    ensures var host := HostName(s, dnsSuffix);
            var i := FirstIndex(host, '.');
            && i < |host| && host[..i] == s.name
            && var rest := host[i + 1..];
               var j := FirstIndex(rest, '.');
               j < |rest| && rest[..j] == s.namespace && rest[j + 1..] == dnsSuffix
  {
    var rest := s.namespace + "." + dnsSuffix;
    AppendIsAssociative(s.name + ".", s.namespace + ".", dnsSuffix);
    AppendIsAssociative(s.name + ".", s.namespace, ".");
    assert HostName(s, dnsSuffix) == s.name + "." + rest;
    FirstDot(s.name, rest);
    FirstDot(s.namespace, dnsSuffix);
  }

  /** From every store, one sync of the cluster onboards exactly the host names of the annotated services. */
  lemma ClusterIsOnboarded(st: Store<RbacConfig>, cluster: seq<Service>, dnsSuffix: string, x: string)
    requires WellFormed(st)
    ensures var (after, outcome) := Perform(st, Decide(StoredConfig(st), OnboardedNames(cluster, dnsSuffix)));
            && outcome == Success
            && (StoredConfig(after).Some? ==>
                  StoredConfig(after).value.spec.mode == OnWithInclusion && StoredConfig(after).value.spec.inclusion.Some?)
            && ((StoredConfig(after).Some? && x in StoredConfig(after).value.spec.inclusion.value) <==>
                exists s :: s in cluster && "authz.istio.io/enabled" in s.annotations &&
                            s.annotations["authz.istio.io/enabled"] == "true" && x == HostName(s, dnsSuffix))
  {
    OneSyncOnboards(st, OnboardedNames(cluster, dnsSuffix));
    OnboardedNamesAre(cluster, dnsSuffix, x);
  }
}
