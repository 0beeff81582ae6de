/**
 Where authorization policies live and how the policy controller changes them: the item handlers of
 pkg/istio/rbac/common/util.go, the routing between the API server and the dry-run directory in
 pkg/istio/authorizationpolicy/controller.go, and `GetCurrentIstioRbac` of pkg/istio/rbac/v2/provider.go. The
 controller lists what the informer's cache holds, which may lag behind the server it writes to.
 */
module PolicyStores {
  import opened AthenzData
  import opened ChangeList
  import opened Configs
  import opened PolicyCompiler

  type Cfg = Config<PolicySpec>

  const OVERRIDE_ANNOTATION := "overrideAuthzPolicy"

  /** common/util.go, `ComponentEnabled`: the services ("namespace/service"), namespaces or whole cluster
      whose policies are enforced. */
  datatype ComponentEnabled = ComponentEnabled(services: set<string>, namespaces: set<string>, cluster: bool) {
    predicate IsEnabled(service: string, namespace: string) {
      cluster || namespace in namespaces || namespace + "/" + service in services
    }
  }

  /** The API server's policies, the informer's cache of them, and the dry-run directory. */
  datatype Stores = Stores(api: Store<PolicySpec>, cache: map<Key, Cfg>, dry: map<Key, Cfg>)

  predicate Overridden(c: Cfg) {
    OVERRIDE_ANNOTATION in c.meta.annotations && c.meta.annotations[OVERRIDE_ANNOTATION] == "true"
  }

  predicate EnabledKey(comp: ComponentEnabled, k: Key) {
    comp.IsEnabled(k.name, k.namespace)
  }

  /** How handling an item ends: with an answer of the API server or of the directory, or with the nil dereference
      of an update whose object the cache does not have. */
  datatype Ending = Ended(outcome: Outcome) | Panicked
  datatype Handled = Handled(stores: Stores, changed: set<Key>, ending: Ending)

  /** The API handler's update takes the version that the cache has. */
  function Sent(st: Stores, item: Item<PolicySpec>): Item<PolicySpec>
    requires item.operation.Update? ==> item.resource.meta.key in st.cache
  {
    if item.operation.Update? then
      var version := st.cache[item.resource.meta.key].meta.resourceVersion;
      item.(resource := item.resource.(meta := item.resource.meta.(resourceVersion := version)))
    else item
  }

  /** `processConfigChange`: the item goes to the dry-run directory or to the API server. */
  function Handle(st: Stores, item: Item<PolicySpec>, comp: ComponentEnabled, fault: Fault): Handled {
    var c := item.resource;
    var k := c.meta.key;
    if !EnabledKey(comp, k) then
      Handled(st.(dry := if item.operation.Delete? then st.dry - {k} else st.dry[k := c]), {}, Ended(Success))
    else if item.operation.Update? && k !in st.cache then Handled(st, {}, Panicked)
    else
      var (api, changed, outcome) := CallServer(st.api, Sent(st, item), fault);
      Handled(st.(api := api), changed, Ended(outcome))
  }

  /** The loop of `sync` over its change list, undisturbed: the first failure ends it. */
  function HandleAll(st: Stores, items: seq<Item<PolicySpec>>, comp: ComponentEnabled): Handled {
    if items == [] then Handled(st, {}, Ended(Success))
    else
      var before := HandleAll(st, items[..|items| - 1], comp);
      if before.ending != Ended(Success) then before
      else
        var last := Handle(before.stores, items[|items| - 1], comp, Answered);
        last.(changed := before.changed + last.changed)
  }

  /** The API server accepts the item; the dry-run directory always does. */
  predicate Succeeds(st: Stores, item: Item<PolicySpec>, comp: ComponentEnabled) {
    var k := item.resource.meta.key;
    EnabledKey(comp, k) ==>
      match item.operation
      case Add => k !in st.api.objects
      case Update =>
        && k in st.cache && k in st.api.objects
        && st.cache[k].meta.resourceVersion == st.api.objects[k].meta.resourceVersion
      case Delete => k in st.api.objects
  }

  /** Which items succeed, and which panic, in terms of the cache and the server. */
  lemma HandleSucceedsIff(st: Stores, item: Item<PolicySpec>, comp: ComponentEnabled)
    ensures Handle(st, item, comp, Answered).ending == Ended(Success) <==> Succeeds(st, item, comp)
    ensures forall fault :: Handle(st, item, comp, fault).ending == Panicked <==>
              EnabledKey(comp, item.resource.meta.key) && item.operation.Update? && item.resource.meta.key !in st.cache
  {
  }

  /** Enabled policies live only on the API server and others only in the dry-run directory, overridden API entries
      excepted. */
  ghost predicate Routed(st: Stores, comp: ComponentEnabled) {
    && (forall k :: k in st.api.objects ==>
          st.api.objects[k].meta.key == k && (EnabledKey(comp, k) || Overridden(st.api.objects[k])))
    && (forall k :: k in st.dry ==> st.dry[k].meta.key == k && !EnabledKey(comp, k))
  }

  /** The informer has heard of all changes. */
  predicate CaughtUp(st: Stores) {
    st.cache == st.api.objects
  }

  /** `list` shows each policy of `m` in the namespace once, in any order. */
  ghost predicate ListsOnce(list: seq<Cfg>, m: map<Key, Cfg>, namespace: string) {
    && (forall c :: c in list <==>
          && c.meta.key in m && c.meta.key.namespace == namespace && c.meta.key.kind == Kind.AuthorizationPolicy
          && m[c.meta.key] == c)
    && (forall i, j :: 0 <= i < j < |list| ==> list[i].meta.key != list[j].meta.key)
  }

  /** `GetCurrentIstioRbac` for a whole namespace: the cached policies, followed by the dry-run ones unless the
      namespace as such counts as enabled. */
  ghost predicate ShowsNamespace(current: seq<Cfg>, st: Stores, namespace: string, comp: ComponentEnabled) {
    exists api, dry ::
      && ListsOnce(api, st.cache, namespace) && ListsOnce(dry, st.dry, namespace)
      && current == if comp.IsEnabled("", namespace) then api else api + dry
  }

  /** `GetCurrentIstioRbac` for one service: from the cache or the directory, by where its policy belongs. */
  function CurrentOf(st: Stores, k: Key, comp: ComponentEnabled): Option<Cfg> {
    if EnabledKey(comp, k) then Get(st.cache, k) else Get(st.dry, k)
  }

  function AsSeq(c: Option<Cfg>): seq<Cfg> {
    if c.Some? then [c.value] else []
  }

  // ---- One key at a time. ----

  /** A policy without the version that the server gives it. */
  function Plain(c: Option<Cfg>): Option<Cfg> {
    if c.None? then None else Some(c.value.(meta := c.value.meta.(resourceVersion := 0)))
  }

  /** The policy that is in force, or dry-run, under a key. */
  function There(st: Stores, k: Key, comp: ComponentEnabled): Option<Cfg> {
    Plain(if EnabledKey(comp, k) then Get(st.api.objects, k) else Get(st.dry, k))
  }

  /** The policy that a sync leaves at a key, from the one it finds there and the one it wants. */
  function NextAt(current: Option<Cfg>, wanted: Option<Cfg>): Option<Cfg> {
    if current.None? then wanted
    else if Overridden(current.value) then current
    else if wanted.None? then None
    else if current.value.spec == wanted.value.spec then current
    else Some(current.value.(spec := wanted.value.spec))
  }

  ghost predicate DistinctItemKeys(items: seq<Item<PolicySpec>>) {
    forall i, j :: 0 <= i < j < |items| ==> items[i].resource.meta.key != items[j].resource.meta.key
  }

  /** Nothing has happened at a key, in either store. */
  predicate Untouched(a: Stores, b: Stores, k: Key) {
    Get(a.api.objects, k) == Get(b.api.objects, k) && Get(a.dry, k) == Get(b.dry, k)
  }

  /** Both stores have the same policy at a key, versions aside. */
  predicate Alike(a: Stores, b: Stores, k: Key) {
    Plain(Get(a.api.objects, k)) == Plain(Get(b.api.objects, k)) && Plain(Get(a.dry, k)) == Plain(Get(b.dry, k))
  }

  /** Handling an item depends on its own key and touches no other. */
  lemma HandleIsLocal(a: Stores, b: Stores, x: Item<PolicySpec>, comp: ComponentEnabled)
    requires Untouched(a, b, x.resource.meta.key) && a.cache == b.cache && Succeeds(a, x, comp)
    ensures Handle(b, x, comp, Answered).ending == Ended(Success)
    ensures Alike(Handle(a, x, comp, Answered).stores, Handle(b, x, comp, Answered).stores, x.resource.meta.key)
  {
    HandleSucceedsIff(b, x, comp);
  }

  lemma HandleTouchesItsKey(st: Stores, x: Item<PolicySpec>, comp: ComponentEnabled, fault: Fault, k: Key)
    requires k != x.resource.meta.key
    ensures Untouched(st, Handle(st, x, comp, fault).stores, k)
    ensures Handle(st, x, comp, fault).stores.cache == st.cache
  {
  }

  /** Items of other keys do not touch a key. */
  lemma {:induction false} HandleAllElsewhere(st: Stores, items: seq<Item<PolicySpec>>, comp: ComponentEnabled, k: Key)
    requires NoItemFor(items, k)
    ensures Untouched(st, HandleAll(st, items, comp).stores, k)
  {
    if items != [] {
      var n := |items| - 1;
      HandleAllElsewhere(st, items[..n], comp, k);
      HandleTouchesItsKey(HandleAll(st, items[..n], comp).stores, items[n], comp, Answered, k);
    }
  }

  lemma {:induction false} HandleAllKeepsCache(st: Stores, items: seq<Item<PolicySpec>>, comp: ComponentEnabled)
    ensures HandleAll(st, items, comp).stores.cache == st.cache
  {
    if items != [] {
      HandleAllKeepsCache(st, items[..|items| - 1], comp);
    }
  }

  lemma NoneBefore(items: seq<Item<PolicySpec>>, i: nat)
    requires DistinctItemKeys(items) && i < |items|
    ensures NoItemFor(items[..i], items[i].resource.meta.key)
  {
  }

  /** The item at an index finds its key as it was before the list. */
  lemma NextItemSucceeds(st: Stores, items: seq<Item<PolicySpec>>, comp: ComponentEnabled, i: nat)
    requires DistinctItemKeys(items) && i < |items| && Succeeds(st, items[i], comp)
    ensures var before := HandleAll(st, items[..i], comp).stores;
            && Handle(before, items[i], comp, Answered).ending == Ended(Success)
            && Alike(Handle(st, items[i], comp, Answered).stores, Handle(before, items[i], comp, Answered).stores,
                     items[i].resource.meta.key)
  {
    NoneBefore(items, i);
    HandleAllElsewhere(st, items[..i], comp, items[i].resource.meta.key);
    HandleAllKeepsCache(st, items[..i], comp);
    HandleIsLocal(st, HandleAll(st, items[..i], comp).stores, items[i], comp);
  }

  lemma {:induction false} HandleAllSucceeds(st: Stores, items: seq<Item<PolicySpec>>, comp: ComponentEnabled)
    requires DistinctItemKeys(items) && forall x :: x in items ==> Succeeds(st, x, comp)
    ensures HandleAll(st, items, comp).ending == Ended(Success)
  {
    if items != [] {
      var n := |items| - 1;
      HandleAllSucceeds(st, items[..n], comp);
      NextItemSucceeds(st, items, comp, n);
    }
  }

  lemma {:induction false} HandleAllAtItem(st: Stores, items: seq<Item<PolicySpec>>, comp: ComponentEnabled, i: nat)
    requires DistinctItemKeys(items) && (forall x :: x in items ==> Succeeds(st, x, comp)) && i < |items|
    ensures Alike(Handle(st, items[i], comp, Answered).stores, HandleAll(st, items, comp).stores,
                  items[i].resource.meta.key)
  {
    var n := |items| - 1;
    HandleAllSucceeds(st, items[..n], comp);
    if i == n {
      NextItemSucceeds(st, items, comp, n);
    } else {
      HandleAllAtItem(st, items[..n], comp, i);
      NoneBefore(items, n);
      assert items[..n][i] == items[i];
      HandleTouchesItsKey(HandleAll(st, items[..n], comp).stores, items[n], comp, Answered, items[i].resource.meta.key);
    }
  }

  /** Items with distinct keys do not get in each other's way. */
  lemma HandleAllAt(st: Stores, items: seq<Item<PolicySpec>>, comp: ComponentEnabled)
    requires DistinctItemKeys(items) && forall x :: x in items ==> Succeeds(st, x, comp)
    ensures HandleAll(st, items, comp).ending == Ended(Success)
    ensures forall k :: NoItemFor(items, k) ==> Untouched(st, HandleAll(st, items, comp).stores, k)
    ensures forall x :: x in items ==>
              Alike(Handle(st, x, comp, Answered).stores, HandleAll(st, items, comp).stores, x.resource.meta.key)
  {
    HandleAllSucceeds(st, items, comp);
    forall k | NoItemFor(items, k) ensures Untouched(st, HandleAll(st, items, comp).stores, k) {
      HandleAllElsewhere(st, items, comp, k);
    }
    forall x | x in items
      ensures Alike(Handle(st, x, comp, Answered).stores, HandleAll(st, items, comp).stores, x.resource.meta.key)
    {
      var i :| 0 <= i < |items| && items[i] == x;
      HandleAllAtItem(st, items, comp, i);
    }
  }

  // ---- The items of one key. ----

  ghost predicate KeysOnce(desired: seq<Cfg>) {
    forall i, j :: 0 <= i < j < |desired| ==> desired[i].meta.key != desired[j].meta.key
  }

  /** The current configs that may be changed have different keys. */
  ghost predicate UnflaggedOnce(current: seq<Cfg>) {
    forall i, j :: 0 <= i < j < |current| && !Overridden(current[i]) && !Overridden(current[j]) ==>
      current[i].meta.key != current[j].meta.key
  }

  /** The same for one key. */
  ghost predicate UnflaggedOnceAt(current: seq<Cfg>, k: Key) {
    forall i, j :: 0 <= i < j < |current| && !Overridden(current[i]) && !Overridden(current[j]) && current[i].meta.key == k ==>
      current[j].meta.key != k
  }

  ghost predicate OnceAt(items: seq<Item<PolicySpec>>, k: Key) {
    forall i, j :: 0 <= i < j < |items| && items[i].resource.meta.key == k ==> items[j].resource.meta.key != k
  }

  lemma {:induction false} UpsertsOnceAt(current: map<Key, Cfg>, desired: seq<Cfg>, k: Key)
    requires KeysOnce(desired) && forall k :: k in current ==> current[k].meta.key == k
    ensures OnceAt(Upserts(current, desired, Overridden), k)
  {
    if desired != [] {
      var n := |desired| - 1;
      UpsertsOnceAt(current, desired[..n], k);
      if desired[n].meta.key == k {
        forall x | x in Upserts(current, desired[..n], Overridden) ensures x.resource.meta.key != k {
          UpsertsContain(current, desired[..n], Overridden, x);
        }
      }
    }
  }

  lemma {:induction false} DeletesOnceAt(current: seq<Cfg>, desired: map<Key, Cfg>, k: Key)
    requires UnflaggedOnceAt(current, k)
    ensures OnceAt(Deletes(current, desired, Overridden), k)
  {
    if current != [] {
      var n := |current| - 1;
      DeletesOnceAt(current[..n], desired, k);
      if current[n].meta.key == k && !Overridden(current[n]) {
        forall x | x in Deletes(current[..n], desired, Overridden) ensures x.resource.meta.key != k {
          DeletesContain(current[..n], desired, Overridden, x);
        }
      }
    }
  }

  lemma OnceInTwoParts(a: seq<Item<PolicySpec>>, b: seq<Item<PolicySpec>>, k: Key)
    requires OnceAt(a, k) && OnceAt(b, k)
    requires forall i, j :: 0 <= i < |a| && 0 <= j < |b| ==> a[i].resource.meta.key != b[j].resource.meta.key
    ensures OnceAt(a + b, k)
  {
    forall i, j | 0 <= i < j < |a + b| && (a + b)[i].resource.meta.key == k ensures (a + b)[j].resource.meta.key != k {
      if |a| <= i {
        assert (a + b)[i] == b[i - |a|] && (a + b)[j] == b[j - |a|];
      } else if |a| <= j {
        assert (a + b)[i] == a[i] && (a + b)[j] == b[j - |a|];
      }
    }
  }

  lemma ChangesOnceAt(current: seq<Cfg>, desired: seq<Cfg>, k: Key)
    requires KeysOnce(desired) && UnflaggedOnceAt(current, k)
    ensures OnceAt(Changes(current, desired, Overridden), k)
  {
    var a, b := Upserts(KeyedMap(current), desired, Overridden), Deletes(current, KeyedMap(desired), Overridden);
    KeyedMapContains(current);
    KeyedMapContains(desired);
    UpsertsOnceAt(KeyedMap(current), desired, k);
    DeletesOnceAt(current, KeyedMap(desired), k);
    forall i | 0 <= i < |a| ensures a[i].resource.meta.key in KeyedMap(desired) {
      UpsertsContain(KeyedMap(current), desired, Overridden, a[i]);
    }
    forall i | 0 <= i < |b| ensures b[i].resource.meta.key !in KeyedMap(desired) {
      DeletesContain(current, KeyedMap(desired), Overridden, b[i]);
    }
    OnceInTwoParts(a, b, k);
  }

  lemma ChangeKeysDistinct(current: seq<Cfg>, desired: seq<Cfg>)
    requires KeysOnce(desired) && UnflaggedOnce(current)
    ensures DistinctItemKeys(Changes(current, desired, Overridden))
  {
    var changes := Changes(current, desired, Overridden);
    forall i, j | 0 <= i < j < |changes| ensures changes[i].resource.meta.key != changes[j].resource.meta.key {
      ChangesOnceAt(current, desired, changes[i].resource.meta.key);
    }
  }

  /** The one item that a key needs, given what is shown and what is wanted under it. */
  function DueItem(shown: Option<Cfg>, wanted: Option<Cfg>): Option<Item<PolicySpec>> {
    if shown.None? then (if wanted.None? then None else Some(Item(Add, wanted.value)))
    else if Overridden(shown.value) then None
    else if wanted.None? then Some(Item(Delete, shown.value))
    else if shown.value.spec == wanted.value.spec then None
    else Some(Item(Update, wanted.value.(meta := shown.value.meta)))
  }

  lemma {:induction false} KeyedMapOnce(desired: seq<Cfg>, d: Cfg)
    requires KeysOnce(desired) && d in desired
    ensures d.meta.key in KeyedMap(desired) && KeyedMap(desired)[d.meta.key] == d
  {
    KeyedMapContains(desired);
    var e := KeyedMap(desired)[d.meta.key];
    var i :| 0 <= i < |desired| && desired[i] == d;
    var j :| 0 <= j < |desired| && desired[j] == e;
  }

  lemma UpsertIsDue(current: seq<Cfg>, desired: seq<Cfg>, d: Cfg, x: Item<PolicySpec>)
    requires KeysOnce(desired) && d in desired && ItemFor(KeyedMap(current), d, Overridden) == Some(x)
    ensures x.resource.meta.key == d.meta.key
    ensures DueItem(Get(KeyedMap(current), d.meta.key), Get(KeyedMap(desired), d.meta.key)) == Some(x)
  {
    KeyedMapContains(current);
    KeyedMapOnce(desired, d);
  }

  lemma DueIsChange(current: seq<Cfg>, desired: seq<Cfg>, k: Key, x: Item<PolicySpec>)
    requires DueItem(Get(KeyedMap(current), k), Get(KeyedMap(desired), k)) == Some(x)
    ensures x in Changes(current, desired, Overridden) && x.resource.meta.key == k
  {
    ChangesContain(current, desired, Overridden, x);
    KeyedMapContains(current);
    KeyedMapContains(desired);
    if k in KeyedMap(desired) {
      assert KeyedMap(desired)[k] in desired;
    } else {
      assert KeyedMap(current)[k] in current;
    }
  }

  /** The items of a change list with a key are the one that the key needs. */
  lemma ChangesAt(current: seq<Cfg>, desired: seq<Cfg>, k: Key, x: Item<PolicySpec>)
    requires KeysOnce(desired)
    requires forall c :: c in current && c.meta.key == k && !Overridden(c) ==> Get(KeyedMap(current), k) == Some(c)
    ensures x in Changes(current, desired, Overridden) && x.resource.meta.key == k <==>
            DueItem(Get(KeyedMap(current), k), Get(KeyedMap(desired), k)) == Some(x)
  {
    ChangesContain(current, desired, Overridden, x);
    if x in Changes(current, desired, Overridden) && x.resource.meta.key == k {
      if d :| d in desired && ItemFor(KeyedMap(current), d, Overridden) == Some(x) {
        UpsertIsDue(current, desired, d, x);
      }
    }
    if DueItem(Get(KeyedMap(current), k), Get(KeyedMap(desired), k)) == Some(x) {
      DueIsChange(current, desired, k, x);
    }
  }

  lemma OneConfigMap(c: Option<Cfg>, k: Key)
    requires c.Some? ==> c.value.meta.key == k
    ensures Get(KeyedMap(AsSeq(c)), k) == c
    ensures forall k' :: k' != k ==> k' !in KeyedMap(AsSeq(c))
  {
    KeyedMapContains(AsSeq(c));
    if c.Some? {
      assert c.value in AsSeq(c) && k in KeyedMap(AsSeq(c));
    }
  }

  /** The change list of one key is the item that the key needs, if any. */
  lemma ChangesOfOne(shown: Option<Cfg>, wanted: Option<Cfg>, k: Key)
    requires (shown.Some? ==> shown.value.meta.key == k) && (wanted.Some? ==> wanted.value.meta.key == k)
    ensures var x := DueItem(shown, wanted);
            Changes(AsSeq(shown), AsSeq(wanted), Overridden) == if x.Some? then [x.value] else []
  {
    var current, desired := AsSeq(shown), AsSeq(wanted);
    OneConfigMap(shown, k);
    OneConfigMap(wanted, k);
    assert desired != [] ==> desired[..0] == [] && Upserts(KeyedMap(current), desired[..0], Overridden) == [];
    assert current != [] ==> current[..0] == [] && Deletes(current[..0], KeyedMap(desired), Overridden) == [];
    var item := if wanted.Some? then ItemFor(KeyedMap(current), wanted.value, Overridden) else None;
    assert Upserts(KeyedMap(current), desired, Overridden) == if item.Some? then [item.value] else [];
    assert Deletes(current, KeyedMap(desired), Overridden) ==
           if shown.Some? && !Overridden(shown.value) && wanted.None? then [Item(Delete, shown.value)] else [];
  }

  lemma ChangeOfOne(shown: Option<Cfg>, wanted: Option<Cfg>, k: Key, x: Item<PolicySpec>)
    requires (shown.Some? ==> shown.value.meta.key == k) && (wanted.Some? ==> wanted.value.meta.key == k)
    ensures x in Changes(AsSeq(shown), AsSeq(wanted), Overridden) <==> DueItem(shown, wanted) == Some(x)
    ensures DueItem(shown, wanted) == Some(x) ==> x.resource.meta.key == k
  {
    ChangesOfOne(shown, wanted, k);
  }

  // ---- What a sync that sees the stores as they are does to a key. ----

  /** The listing shows a key as its store has it, except that a policy which is not enabled may be missing, or hidden
      behind an overridden entry. */
  ghost predicate SeesKey(st: Stores, current: seq<Cfg>, comp: ComponentEnabled, k: Key) {
    var shown := Get(KeyedMap(current), k);
    && (|| shown == CurrentOf(st, k, comp)
        || (!EnabledKey(comp, k) && (shown.None? || Overridden(shown.value))))
    && forall c :: c in current && c.meta.key == k && !Overridden(c) ==> shown == Some(c)
  }

  /** A sync has something to say about a key. */
  predicate Concerns(current: seq<Cfg>, desired: seq<Cfg>, k: Key) {
    k in KeyedMap(current) || k in KeyedMap(desired)
  }

  ghost predicate Sees(st: Stores, current: seq<Cfg>, desired: seq<Cfg>, comp: ComponentEnabled) {
    forall k :: Concerns(current, desired, k) ==> SeesKey(st, current, comp, k)
  }

  /** What a sync leaves at a key where it is shown one policy and there is another: the next policy when they are
      the same; otherwise it adds what is missing, and does nothing under an overridden entry. */
  function LeftAt(there: Option<Cfg>, shown: Option<Cfg>, wanted: Option<Cfg>): Option<Cfg> {
    if shown == there then NextAt(there, wanted)
    else if shown.None? && wanted.Some? then wanted
    else there
  }

  function SyncedAt(st: Stores, current: seq<Cfg>, desired: seq<Cfg>, comp: ComponentEnabled, k: Key): Option<Cfg> {
    LeftAt(There(st, k, comp), Plain(Get(KeyedMap(current), k)), Plain(Get(KeyedMap(desired), k)))
  }

  /** The items of a sync suit what the cache has under their keys. */
  predicate SuitsCache(st: Stores, x: Item<PolicySpec>, comp: ComponentEnabled) {
    EnabledKey(comp, x.resource.meta.key) ==> (x.operation.Add? <==> x.resource.meta.key !in st.cache)
  }

  lemma SyncItemsSuit(st: Stores, current: seq<Cfg>, desired: seq<Cfg>, comp: ComponentEnabled, x: Item<PolicySpec>)
    requires Sees(st, current, desired, comp)
    requires x in Changes(current, desired, Overridden)
    ensures SuitsCache(st, x, comp)
  {
    ChangesContain(current, desired, Overridden, x);
    KeyedMapContains(current);
    KeyedMapContains(desired);
    assert Concerns(current, desired, x.resource.meta.key);
    assert SeesKey(st, current, comp, x.resource.meta.key);
  }

  /** Handling an item changes what is there as its operation says, and the other store not at all. */
  lemma HandledAt(st: Stores, x: Item<PolicySpec>, comp: ComponentEnabled)
    requires Succeeds(st, x, comp)
    ensures var k, after := x.resource.meta.key, Handle(st, x, comp, Answered).stores;
            && There(after, k, comp) == (if x.operation.Delete? then None else Plain(Some(x.resource)))
            && (if EnabledKey(comp, k) then after.dry == st.dry else after.api == st.api)
  {
  }

  lemma UpsertBringsDue(st: Stores, current: seq<Cfg>, desired: seq<Cfg>, comp: ComponentEnabled, d: Cfg,
                        x: Item<PolicySpec>)
    requires Sees(st, current, desired, comp) && KeysOnce(desired) && CaughtUp(st)
    requires d in desired && ItemFor(KeyedMap(current), d, Overridden) == Some(x)
    ensures !x.operation.Delete?
    ensures SyncedAt(st, current, desired, comp, x.resource.meta.key) == Plain(Some(x.resource))
  {
    KeyedMapContains(current);
    KeyedMapOnce(desired, d);
    assert Concerns(current, desired, d.meta.key);
    assert SeesKey(st, current, comp, d.meta.key);
  }

  lemma DeleteBringsDue(st: Stores, current: seq<Cfg>, desired: seq<Cfg>, comp: ComponentEnabled, x: Item<PolicySpec>)
    requires Sees(st, current, desired, comp) && CaughtUp(st)
    requires x.resource in current && !Overridden(x.resource) && x.resource.meta.key !in KeyedMap(desired)
    ensures SyncedAt(st, current, desired, comp, x.resource.meta.key) == None
  {
    KeyedMapContains(current);
    assert Concerns(current, desired, x.resource.meta.key);
    assert SeesKey(st, current, comp, x.resource.meta.key);
  }

  /** The item for a key, if there is one, brings about what the key is due. */
  lemma SyncItemAt(st: Stores, current: seq<Cfg>, desired: seq<Cfg>, comp: ComponentEnabled, x: Item<PolicySpec>)
    requires Sees(st, current, desired, comp) && CaughtUp(st)
    requires KeysOnce(desired) && x in Changes(current, desired, Overridden)
    ensures Succeeds(st, x, comp)
    ensures var k, after := x.resource.meta.key, Handle(st, x, comp, Answered).stores;
            && There(after, k, comp) == SyncedAt(st, current, desired, comp, k)
            && (if EnabledKey(comp, k) then after.dry == st.dry else after.api == st.api)
  {
    SyncItemsSuit(st, current, desired, comp, x);
    HandledAt(st, x, comp);
    ChangesContain(current, desired, Overridden, x);
    if d :| d in desired && ItemFor(KeyedMap(current), d, Overridden) == Some(x) {
      UpsertBringsDue(st, current, desired, comp, d, x);
    } else {
      DeleteBringsDue(st, current, desired, comp, x);
    }
  }

  /** A key without an item is due nothing. */
  lemma NoSyncItemAt(st: Stores, current: seq<Cfg>, desired: seq<Cfg>, comp: ComponentEnabled, k: Key)
    requires Sees(st, current, desired, comp) && CaughtUp(st)
    requires NoItemFor(Changes(current, desired, Overridden), k)
    ensures SyncedAt(st, current, desired, comp, k) == There(st, k, comp)
  {
    KeyedMapContains(current);
    KeyedMapContains(desired);
    var shown, wanted := Get(KeyedMap(current), k), Get(KeyedMap(desired), k);
    assert Concerns(current, desired, k) ==> SeesKey(st, current, comp, k);
    if wanted.Some? {
      var item := ItemFor(KeyedMap(current), wanted.value, Overridden);
      if item.Some? {
        ChangesContain(current, desired, Overridden, item.value);
      }
    } else if shown.Some? {
      ChangesContain(current, desired, Overridden, Item(Delete, shown.value));
    }
  }

  /** What a sync does to a key: it leaves what is due, and the other store keeps its entry. */
  ghost predicate SyncedKey(st: Stores, after: Stores, current: seq<Cfg>, desired: seq<Cfg>, comp: ComponentEnabled, k: Key) {
    && There(after, k, comp) == SyncedAt(st, current, desired, comp, k)
    && (if EnabledKey(comp, k) then Plain(Get(after.dry, k)) == Plain(Get(st.dry, k))
        else Plain(Get(after.api.objects, k)) == Plain(Get(st.api.objects, k)))
  }

  /** While the cache is caught up, an undisturbed sync meets no error and leaves at every key what the key is due. */
  lemma SyncAt(st: Stores, current: seq<Cfg>, desired: seq<Cfg>, comp: ComponentEnabled)
    requires KeysOnce(desired) && UnflaggedOnce(current) && Sees(st, current, desired, comp) && CaughtUp(st)
    ensures var r := HandleAll(st, Changes(current, desired, Overridden), comp);
            && r.ending == Ended(Success)
            && forall k :: SyncedKey(st, r.stores, current, desired, comp, k)
  {
    var changes := Changes(current, desired, Overridden);
    var r := HandleAll(st, changes, comp);
    ChangeKeysDistinct(current, desired);
    forall x | x in changes ensures Succeeds(st, x, comp) {
      SyncItemAt(st, current, desired, comp, x);
    }
    HandleAllAt(st, changes, comp);
    forall k ensures SyncedKey(st, r.stores, current, desired, comp, k) {
      if NoItemFor(changes, k) {
        NoSyncItemAt(st, current, desired, comp, k);
      } else {
        var x :| x in changes && x.resource.meta.key == k;
        SyncItemAt(st, current, desired, comp, x);
        assert Alike(Handle(st, x, comp, Answered).stores, r.stores, k);
      }
    }
  }

  // ---- The listings that syncs work from. ----

  /** The list names the namespace as a service, with an empty name. */
  predicate NamespaceNamedAsService(comp: ComponentEnabled, namespace: string) {
    !comp.cluster && namespace !in comp.namespaces && namespace + "/" in comp.services
  }

  /** Only overridden entries are cached of the policies that are not enabled. */
  ghost predicate CacheRouted(cache: map<Key, Cfg>, comp: ComponentEnabled) {
    forall k :: k in cache ==> cache[k].meta.key == k && (EnabledKey(comp, k) || Overridden(cache[k]))
  }

  predicate PolicyIn(k: Key, namespace: string) {
    k.namespace == namespace && k.kind == Kind.AuthorizationPolicy
  }

  lemma ListedOnceMap(list: seq<Cfg>, m: map<Key, Cfg>, namespace: string)
    requires ListsOnce(list, m, namespace) && forall k :: k in m ==> m[k].meta.key == k
    ensures forall k :: Get(KeyedMap(list), k) == if PolicyIn(k, namespace) then Get(m, k) else None
  {
    KeyedMapContains(list);
    forall k ensures Get(KeyedMap(list), k) == if PolicyIn(k, namespace) then Get(m, k) else None {
      if k in m && PolicyIn(k, namespace) {
        assert m[k] in list;
      }
    }
  }

  lemma {:induction false} KeyedMapInTwoParts(a: seq<Cfg>, b: seq<Cfg>)
    ensures forall k :: Get(KeyedMap(a + b), k) ==
              if k in KeyedMap(b) then Some(KeyedMap(b)[k]) else Get(KeyedMap(a), k)
  {
    if b == [] {
      assert a + b == a;
    } else {
      var ab := a + b;
      assert ab[..|ab| - 1] == a + b[..|b| - 1] && ab[|ab| - 1] == b[|b| - 1];
      KeyedMapInTwoParts(a, b[..|b| - 1]);
    }
  }

  /** What the listing of a namespace shows of a key in it. */
  function ShownAt(st: Stores, k: Key, comp: ComponentEnabled): Option<Cfg> {
    if EnabledKey(comp, k) || NamespaceNamedAsService(comp, k.namespace) || k !in st.dry then Get(st.cache, k)
    else Get(st.dry, k)
  }

  /** The listing of a namespace, whatever the cache holds. */
  lemma NamespaceListingShows(current: seq<Cfg>, st: Stores, namespace: string, comp: ComponentEnabled)
    requires (forall k :: k in st.cache ==> st.cache[k].meta.key == k)
    requires forall k :: k in st.dry ==> st.dry[k].meta.key == k && !EnabledKey(comp, k)
    requires ShowsNamespace(current, st, namespace, comp)
    ensures forall k: Key :: Get(KeyedMap(current), k) == if PolicyIn(k, namespace) then ShownAt(st, k, comp) else None
    ensures forall c :: c in current ==>
              && PolicyIn(c.meta.key, namespace)
              && (|| Get(st.cache, c.meta.key) == Some(c)
                  || (Get(st.dry, c.meta.key) == Some(c) && !NamespaceNamedAsService(comp, namespace)))
  {
    var api, dry :|
      && ListsOnce(api, st.cache, namespace) && ListsOnce(dry, st.dry, namespace)
      && current == if comp.IsEnabled("", namespace) then api else api + dry;
    ListedOnceMap(api, st.cache, namespace);
    ListedOnceMap(dry, st.dry, namespace);
    KeyedMapInTwoParts(api, dry);
    assert namespace + "/" + "" == namespace + "/";
    forall k: Key
      ensures Get(KeyedMap(current), k) == if PolicyIn(k, namespace) then ShownAt(st, k, comp) else None
    {
      assert k in st.dry ==> !EnabledKey(comp, k);
    }
  }

  /** A key is seen and its entries that may be changed are listed once, if it is enabled or the cache has only an
      overridden entry under it. */
  lemma NamespaceListingSeesKey(current: seq<Cfg>, st: Stores, namespace: string, comp: ComponentEnabled, k: Key)
    requires (forall k :: k in st.cache ==> st.cache[k].meta.key == k)
    requires forall k :: k in st.dry ==> st.dry[k].meta.key == k && !EnabledKey(comp, k)
    requires ShowsNamespace(current, st, namespace, comp) && PolicyIn(k, namespace)
    requires k in st.cache ==> EnabledKey(comp, k) || Overridden(st.cache[k])
    ensures SeesKey(st, current, comp, k)
  {
    NamespaceListingShows(current, st, namespace, comp);
  }

  lemma ListedUnflaggedOnceAt(api: seq<Cfg>, dry: seq<Cfg>, st: Stores, namespace: string, comp: ComponentEnabled, k: Key)
    requires ListsOnce(api, st.cache, namespace) && ListsOnce(dry, st.dry, namespace)
    requires forall k :: k in st.dry ==> !EnabledKey(comp, k)
    requires k in st.cache ==> EnabledKey(comp, k) || Overridden(st.cache[k])
    ensures UnflaggedOnceAt(api, k) && UnflaggedOnceAt(api + dry, k)
  {
    var both := api + dry;
    forall i, j | 0 <= i < j < |both| && !Overridden(both[i]) && !Overridden(both[j]) && both[i].meta.key == k
      ensures both[j].meta.key != k
    {
      if |api| <= i {
        assert both[i] == dry[i - |api|] && both[j] == dry[j - |api|];
      } else if |api| <= j {
        assert both[i] == api[i] && both[j] == dry[j - |api|];
        assert api[i] in api && dry[j - |api|] in dry;
      }
    }
  }

  lemma NamespaceListingOnceAt(current: seq<Cfg>, st: Stores, namespace: string, comp: ComponentEnabled, k: Key)
    requires ShowsNamespace(current, st, namespace, comp)
    requires forall k :: k in st.dry ==> !EnabledKey(comp, k)
    requires k in st.cache ==> EnabledKey(comp, k) || Overridden(st.cache[k])
    ensures UnflaggedOnceAt(current, k)
  {
    var api, dry :|
      && ListsOnce(api, st.cache, namespace) && ListsOnce(dry, st.dry, namespace)
      && current == if comp.IsEnabled("", namespace) then api else api + dry;
    ListedUnflaggedOnceAt(api, dry, st, namespace, comp, k);
  }

  /** Under the routing invariant the listing of a namespace shows the keys that syncs may change. */
  lemma NamespaceListingSees(current: seq<Cfg>, st: Stores, namespace: string, comp: ComponentEnabled)
    requires Routed(st, comp) && CacheRouted(st.cache, comp) && ShowsNamespace(current, st, namespace, comp)
    ensures UnflaggedOnce(current)
    ensures forall k: Key :: PolicyIn(k, namespace) ==>
              SeesKey(st, current, comp, k) && Get(KeyedMap(current), k) == ShownAt(st, k, comp)
    ensures forall c :: c in current ==> PolicyIn(c.meta.key, namespace)
  {
    NamespaceListingShows(current, st, namespace, comp);
    forall k: Key | PolicyIn(k, namespace) ensures SeesKey(st, current, comp, k) && UnflaggedOnceAt(current, k) {
      NamespaceListingSeesKey(current, st, namespace, comp, k);
      NamespaceListingOnceAt(current, st, namespace, comp, k);
    }
    forall i, j | 0 <= i < j < |current| && !Overridden(current[i]) && !Overridden(current[j])
      ensures current[i].meta.key != current[j].meta.key
    {
      assert current[i] in current;
      assert UnflaggedOnceAt(current, current[i].meta.key);
    }
  }
}
