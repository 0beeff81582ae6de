/** When the authorization policy controller has come to rest: pkg/istio/authorizationpolicy/controller.go. */
module PolicyConvergence {
  import opened AthenzData
  import opened AthenzModel
  import opened ChangeList
  import opened Configs
  import opened DomainNames
  import opened PolicyCompiler
  import opened PolicyController
  import opened PolicyReconciler
  import opened PolicyStores

  /** The sync of the key takes care of the policy of that name in the domain's namespace. */
  predicate Serves(key: string, domain: string, name: string) {
    DomainOfKey(key) == domain && (NameOfKey(key) == "" || NameOfKey(key) == name)
  }

  function KeyFor(domain: string, name: string): Key {
    PolicyKey(DomainToNamespace(domain), name)
  }

  /** The policies that the convergence claim is about. */
  ghost predicate Tracked(s: State, domain: string, name: string) {
    domain in s.world.domains && TrustFree(s.world.domains[domain]) && Decodable(domain) && ObjectName(name)
  }

  ghost predicate SomeServes(keys: set<string>, domain: string, name: string) {
    exists key :: key in keys && Serves(key, domain, name)
  }

  ghost predicate Queued(s: State, domain: string, name: string) {
    SomeServes(s.queue, domain, name)
  }

  /** News of the policy is on its way. */
  ghost predicate Pending(s: State, domain: string, name: string) {
    Queued(s, domain, name) || KeyFor(domain, name) in s.events
  }

  ghost predicate GivenUp(s: State, domain: string, name: string) {
    SomeServes(s.gaveUp, domain, name)
  }

  /** The item that a sync of the service key would handle now. */
  ghost function Due(s: State, domain: string, name: string): Option<Item<PolicySpec>>
    requires domain in s.world.domains
  {
    DueItem(CurrentOf(s.stores, KeyFor(domain, name), s.world.comp), WantedAt(s.world, domain, name))
  }

  /** The item that a sync of the domain key would handle now: it may see the policy otherwise. */
  ghost function DueByDomain(s: State, domain: string, name: string): Option<Item<PolicySpec>>
    requires domain in s.world.domains
  {
    DueItem(ShownAt(s.stores, KeyFor(domain, name), s.world.comp), WantedAt(s.world, domain, name))
  }

  ghost predicate IsDue(s: State, domain: string, name: string, x: Item<PolicySpec>)
    requires domain in s.world.domains
  {
    Due(s, domain, name) == Some(x) || DueByDomain(s, domain, name) == Some(x)
  }

  /** Items of the policy that are waiting come from a sync that serves it. */
  ghost predicate WorkServes(s: State, domain: string, name: string) {
    s.work.Some? ==>
      forall x :: x in s.work.value.items && x.resource.meta.key == KeyFor(domain, name) ==>
        Serves(s.work.value.key, domain, name)
  }

  /** They are what is due, unless there is news. */
  ghost predicate WorkIsDue(s: State, domain: string, name: string)
    requires domain in s.world.domains
  {
    s.work.Some? && !Pending(s, domain, name) ==>
      && OnceAt(s.work.value.items, KeyFor(domain, name))
      && forall x :: x in s.work.value.items && x.resource.meta.key == KeyFor(domain, name) ==> IsDue(s, domain, name, x)
  }

  ghost predicate ItemWaits(s: State, domain: string, name: string) {
    s.work.Some? && exists x :: x in s.work.value.items && x.resource.meta.key == KeyFor(domain, name)
  }

  /** One of the two kinds of sync has nothing to do about the policy. */
  ghost predicate Settled(s: State, domain: string, name: string)
    requires domain in s.world.domains
  {
    Due(s, domain, name) == None || DueByDomain(s, domain, name) == None
  }

  /** Work that is still to be done for the policy is on its way. */
  ghost predicate Covered(s: State, domain: string, name: string)
    requires domain in s.world.domains
  {
    || Pending(s, domain, name) || GivenUp(s, domain, name) || ItemWaits(s, domain, name)
    || Settled(s, domain, name)
  }

  ghost predicate Kept(s: State, domain: string, name: string) {
    && (Decodable(domain) ==> WorkServes(s, domain, name))
    && (Tracked(s, domain, name) ==> WorkIsDue(s, domain, name) && Covered(s, domain, name))
  }

  /** No other domain has the domain's namespace. */
  ghost predicate OwnsNamespace(w: World, domain: string) {
    forall other :: other in w.domains && DomainToNamespace(other) == DomainToNamespace(domain) ==> other == domain
  }

  ghost predicate StepKeepsOwner(step: Step, domain: string) {
    step.StepDomain? && DomainToNamespace(step.d.name) == DomainToNamespace(domain) ==> step.d.name == domain
  }

  /** The state is reached while the environment keeps to the routing and no other domain takes the namespace. */
  ghost predicate ReachableAlone(s: State, domain: string) {
    exists s0, steps ::
      && Init(s0) && Run(s0, steps, s) && AllOrderly(steps, s0.world.comp)
      && OwnsNamespace(s0.world, domain) && forall step :: step in steps ==> StepKeepsOwner(step, domain)
  }

  ghost predicate Inv(s: State, domain: string, name: string) {
    && Sound(s) && WorkSuits(s) && RoutedState(s) && OwnsNamespace(s.world, domain)
    && (!s.crashed ==> Kept(s, domain, name))
  }

  /** Keys that are taken away do not matter unless they serve the policy. */
  lemma StillServed(keys: set<string>, more: set<string>, key: string, domain: string, name: string)
    requires keys - {key} <= more && !Serves(key, domain, name)
    ensures SomeServes(keys, domain, name) ==> SomeServes(more, domain, name)
  {
    if other :| other in keys && Serves(other, domain, name) {
      assert other in more;
    }
  }

  lemma MoreServe(keys: set<string>, more: set<string>, domain: string, name: string)
    requires keys <= more
    ensures SomeServes(keys, domain, name) ==> SomeServes(more, domain, name)
  {
    if other :| other in keys && Serves(other, domain, name) {
      assert other in more;
    }
  }

  // ---- Syncs. ----

  lemma DomainItemsAt(s: State, domain: string, name: string, current: seq<Cfg>, desired: seq<Cfg>, x: Item<PolicySpec>)
    requires Sound(s) && RoutedState(s) && Tracked(s, domain, name) && KeyFor(domain, name) !in s.events
    requires ShowsNamespace(current, s.stores, DomainToNamespace(domain), s.world.comp)
    requires DesiredInNamespace(desired, s.world, domain)
    ensures x in Changes(current, desired, Overridden) && x.resource.meta.key == KeyFor(domain, name) <==>
            DueByDomain(s, domain, name) == Some(x)
  {
    var k := KeyFor(domain, name);
    NamespaceListingShows(current, s.stores, DomainToNamespace(domain), s.world.comp);
    NamespaceListingSeesKey(current, s.stores, DomainToNamespace(domain), s.world.comp, k);
    DesiredMap(s.world, domain, desired);
    ChangesAt(current, desired, k, x);
  }

  lemma CurrentKey(st: Stores, k: Key, comp: ComponentEnabled)
    requires DryRouted(st, comp) && forall k :: k in st.cache ==> st.cache[k].meta.key == k
    ensures CurrentOf(st, k, comp).Some? ==> CurrentOf(st, k, comp).value.meta.key == k
  {
  }

  lemma ServiceItemsAt(s: State, domain: string, name: string, x: Item<PolicySpec>)
    requires Sound(s) && Tracked(s, domain, name)
    ensures var current := CurrentOf(s.stores, KeyFor(domain, name), s.world.comp);
            x in Changes(AsSeq(current), AsSeq(WantedAt(s.world, domain, name)), Overridden) <==>
            Due(s, domain, name) == Some(x)
    ensures Due(s, domain, name) == Some(x) ==> x.resource.meta.key == KeyFor(domain, name)
  {
    WantedKey(s.world, domain, name);
    CurrentKey(s.stores, KeyFor(domain, name), s.world.comp);
    ChangeOfOne(CurrentOf(s.stores, KeyFor(domain, name), s.world.comp), WantedAt(s.world, domain, name),
                KeyFor(domain, name), x);
  }

  /** The items of the policy are the one that is due, if any. */
  ghost predicate ExactlyDue(due: Option<Item<PolicySpec>>, items: seq<Item<PolicySpec>>, k: Key) {
    forall x :: x in items && x.resource.meta.key == k <==> due == Some(x)
  }

  /** All items of the policy are due; if there is none, one of the two kinds of sync has nothing to do. */
  ghost predicate AllDue(s: State, domain: string, name: string, items: seq<Item<PolicySpec>>)
    requires domain in s.world.domains
  {
    || ExactlyDue(Due(s, domain, name), items, KeyFor(domain, name))
    || ExactlyDue(DueByDomain(s, domain, name), items, KeyFor(domain, name))
  }

  /** The items of a sync that serves a policy without news are what is due, for one of the two kinds of sync. */
  lemma ListedItemsAt(s: State, key: string, current: seq<Cfg>, desired: seq<Cfg>, domain: string, name: string)
    requires Sound(s) && RoutedState(s) && Tracked(s, domain, name) && KeyFor(domain, name) !in s.events
    requires Serves(key, domain, name) && Listed(s.world, s.stores, key, current, desired)
    ensures AllDue(s, domain, name, Changes(current, desired, Overridden))
  {
    var changes, k := Changes(current, desired, Overridden), KeyFor(domain, name);
    if NameOfKey(key) == "" {
      forall x ensures x in changes && x.resource.meta.key == k <==> DueByDomain(s, domain, name) == Some(x) {
        DomainItemsAt(s, domain, name, current, desired, x);
      }
      assert ExactlyDue(DueByDomain(s, domain, name), changes, k);
    } else {
      forall x ensures x in changes && x.resource.meta.key == k <==> Due(s, domain, name) == Some(x) {
        ServiceItemsAt(s, domain, name, x);
      }
      assert ExactlyDue(Due(s, domain, name), changes, k);
    }
  }

  lemma ListedOnceAt(s: State, key: string, current: seq<Cfg>, desired: seq<Cfg>, domain: string, name: string)
    requires Sound(s) && RoutedState(s) && Tracked(s, domain, name) && KeyFor(domain, name) !in s.events
    requires Serves(key, domain, name) && Listed(s.world, s.stores, key, current, desired)
    ensures OnceAt(Changes(current, desired, Overridden), KeyFor(domain, name))
  {
    if NameOfKey(key) == "" {
      NamespaceListingOnceAt(current, s.stores, DomainToNamespace(domain), s.world.comp, KeyFor(domain, name));
    }
    ChangesOnceAt(current, desired, KeyFor(domain, name));
  }

  /** Only a sync that serves a policy has items for it. */
  lemma ItemsAreServed(s: State, key: string, current: seq<Cfg>, desired: seq<Cfg>, domain: string, name: string,
                       x: Item<PolicySpec>)
    requires Sound(s) && OwnsNamespace(s.world, domain) && DomainOfKey(key) in s.world.domains
    requires Listed(s.world, s.stores, key, current, desired)
    requires x in Changes(current, desired, Overridden) && x.resource.meta.key == KeyFor(domain, name)
    ensures Serves(key, domain, name)
  {
    ListedItemsSuit(s.world, s.stores, key, current, desired, x);
  }

  /** Work that serves the policy and is what is due keeps it covered. */
  lemma DueWorkKeeps(s: State, s': State, key: string, items: seq<Item<PolicySpec>>, domain: string, name: string)
    requires Tracked(s, domain, name) && Serves(key, domain, name)
    requires s'.world == s.world && s'.stores == s.stores && s'.events == s.events
    requires s'.work == if items == [] then None else Some(Work(key, items))
    requires KeyFor(domain, name) !in s.events ==>
               OnceAt(items, KeyFor(domain, name)) && AllDue(s, domain, name, items)
    ensures Kept(s', domain, name)
  {
    assert Due(s', domain, name) == Due(s, domain, name) && DueByDomain(s', domain, name) == DueByDomain(s, domain, name);
  }

  lemma ServingSyncKeeps(s: State, key: string, current: seq<Cfg>, desired: seq<Cfg>, domain: string, name: string)
    requires Sound(s) && RoutedState(s) && Enabled(s, StepSync(key, current, desired))
    requires Tracked(s, domain, name) && Serves(key, domain, name)
    ensures Kept(Start(s, key, current, desired), domain, name)
  {
    if KeyFor(domain, name) !in s.events {
      ListedOnceAt(s, key, current, desired, domain, name);
      ListedItemsAt(s, key, current, desired, domain, name);
    }
    DueWorkKeeps(s, Start(s, key, current, desired), key, Changes(current, desired, Overridden), domain, name);
  }

  lemma StartTakesOneKey(s: State, key: string, current: seq<Cfg>, desired: seq<Cfg>)
    requires s.work.None?
    ensures var s' := Start(s, key, current, desired);
            && s'.world == s.world && s'.stores == s.stores && s'.past == s.past && s'.events == s.events
            && s.queue - {key} <= s'.queue && s.gaveUp - {key} <= s'.gaveUp
            && (s'.work.Some? ==>
                  DomainOfKey(key) in s.world.domains && s'.work == Some(Work(key, Changes(current, desired, Overridden))))
  {
  }

  /** What is due depends on the cache and the directory under the key, and on what is wanted. */
  lemma SameDue(s: State, s': State, domain: string, name: string)
    requires domain in s.world.domains && domain in s'.world.domains && s'.world.comp == s.world.comp
    requires WantedAt(s'.world, domain, name) == WantedAt(s.world, domain, name)
    requires Get(s'.stores.cache, KeyFor(domain, name)) == Get(s.stores.cache, KeyFor(domain, name))
    requires Get(s'.stores.dry, KeyFor(domain, name)) == Get(s.stores.dry, KeyFor(domain, name))
    ensures Due(s', domain, name) == Due(s, domain, name) && DueByDomain(s', domain, name) == DueByDomain(s, domain, name)
  {
  }

  /** Starting work that is not about the policy takes nothing away. */
  lemma ForeignWorkKeeps(s: State, s': State, key: string, domain: string, name: string)
    requires Decodable(domain) && !Serves(key, domain, name) && Kept(s, domain, name) && s.work.None?
    requires s'.world == s.world && s'.stores == s.stores && s'.events == s.events
    requires s.queue - {key} <= s'.queue && s.gaveUp - {key} <= s'.gaveUp
    requires s'.work.Some? ==> forall x :: x in s'.work.value.items ==> x.resource.meta.key != KeyFor(domain, name)
    ensures Kept(s', domain, name)
  {
    StillServed(s.queue, s'.queue, key, domain, name);
    StillServed(s.gaveUp, s'.gaveUp, key, domain, name);
    if Tracked(s, domain, name) {
      SameDue(s, s', domain, name);
    }
  }

  lemma OtherSyncKeeps(s: State, key: string, current: seq<Cfg>, desired: seq<Cfg>, domain: string, name: string)
    requires Sound(s) && RoutedState(s) && OwnsNamespace(s.world, domain) && Enabled(s, StepSync(key, current, desired))
    requires Decodable(domain) && !Serves(key, domain, name) && Kept(s, domain, name)
    ensures Kept(Start(s, key, current, desired), domain, name)
  {
    if DomainOfKey(key) in s.world.domains {
      forall x | x in Changes(current, desired, Overridden) ensures x.resource.meta.key != KeyFor(domain, name) {
        if x.resource.meta.key == KeyFor(domain, name) {
          ItemsAreServed(s, key, current, desired, domain, name, x);
        }
      }
    }
    StartTakesOneKey(s, key, current, desired);
    ForeignWorkKeeps(s, Start(s, key, current, desired), key, domain, name);
  }

  // ---- Items. ----

  lemma MoreIsQueued(s: State, s': State, domain: string, name: string)
    requires s.queue <= s'.queue && s.gaveUp <= s'.gaveUp && s.events <= s'.events
    ensures Pending(s, domain, name) ==> Pending(s', domain, name)
    ensures GivenUp(s, domain, name) ==> GivenUp(s', domain, name)
  {
    MoreServe(s.queue, s'.queue, domain, name);
    MoreServe(s.gaveUp, s'.gaveUp, domain, name);
  }

  lemma TailHas(items: seq<Item<PolicySpec>>, k: Key)
    requires items != [] && items[0].resource.meta.key != k && exists x :: x in items && x.resource.meta.key == k
    ensures |items| > 1 && exists x :: x in items[1..] && x.resource.meta.key == k
  {
    var x :| x in items && x.resource.meta.key == k;
    var i :| 0 <= i < |items| && items[i] == x;
    assert items[1..][i - 1] == x;
  }

  /** Whoever was waiting behind the item still is, or its sync has failed. */
  lemma RestWaits(s: State, fault: Fault, domain: string, name: string)
    requires Enabled(s, StepItem(fault)) && DryRouted(s.stores, s.world.comp) && WellFormed(s.stores.api)
    requires WorkServes(s, domain, name) && ItemWaits(s, domain, name)
    requires s.work.value.items[0].resource.meta.key != KeyFor(domain, name) && !HandleNext(s, fault).crashed
    ensures var s' := HandleNext(s, fault);
            ItemWaits(s', domain, name) || Queued(s', domain, name) || GivenUp(s', domain, name)
  {
    HandleNextEffects(s, fault);
    HandleKeepsLag(s.stores, s.work.value.items[0], s.world.comp, fault);
    TailHas(s.work.value.items, KeyFor(domain, name));
    assert Serves(s.work.value.key, domain, name);
  }

  lemma TailIsDue(s: State, s': State, domain: string, name: string)
    requires s.work.Some? && s.work.value.items != [] && domain in s.world.domains && s'.world == s.world
    requires s'.work.Some? ==> s'.work == Some(Work(s.work.value.key, s.work.value.items[1..]))
    requires WorkIsDue(s, domain, name) && !Pending(s, domain, name)
    requires Due(s', domain, name) == Due(s, domain, name) && DueByDomain(s', domain, name) == DueByDomain(s, domain, name)
    ensures WorkIsDue(s', domain, name)
  {
    var items := s.work.value.items;
    if s'.work.Some? {
      assert forall x :: x in items[1..] ==> x in items;
    }
  }

  lemma OtherItemKeeps(s: State, fault: Fault, domain: string, name: string)
    requires Sound(s) && Enabled(s, StepItem(fault)) && Tracked(s, domain, name)
    requires Kept(s, domain, name) && !Pending(s, domain, name)
    requires s.work.value.items[0].resource.meta.key != KeyFor(domain, name) && !HandleNext(s, fault).crashed
    ensures Kept(HandleNext(s, fault), domain, name)
  {
    var s', k := HandleNext(s, fault), KeyFor(domain, name);
    HandleNextEffects(s, fault);
    HandleKeepsLag(s.stores, s.work.value.items[0], s.world.comp, fault);
    HandleTouchesItsKey(s.stores, s.work.value.items[0], s.world.comp, fault, k);
    assert Get(s'.stores.dry, k) == Get(s.stores.dry, k) && s'.stores.cache == s.stores.cache;
    SameDue(s, s', domain, name);
    MoreIsQueued(s, s', domain, name);
    if ItemWaits(s, domain, name) {
      RestWaits(s, fault, domain, name);
    }
    TailIsDue(s, s', domain, name);
  }

  /** After an item has succeeded that was due, nothing is due, or an event is. */
  lemma DoneAt(st: Stores, x: Item<PolicySpec>, wanted: Option<Cfg>, comp: ComponentEnabled, fault: Fault)
    requires Handle(st, x, comp, fault).ending == Ended(Success)
    requires DueItem(CurrentOf(st, x.resource.meta.key, comp), wanted) == Some(x)
    requires wanted.Some? ==> wanted.value.meta.annotations == map[]
    ensures var k, h := x.resource.meta.key, Handle(st, x, comp, fault);
            k in h.changed || DueItem(CurrentOf(h.stores, k, comp), wanted) == None
  {
  }

  /** An item that only a domain-level sync has adds the wanted policy to the directory. */
  lemma DueByDomainOnly(s: State, domain: string, name: string)
    requires Sound(s) && RoutedState(s) && Tracked(s, domain, name) && KeyFor(domain, name) !in s.events
    requires DueByDomain(s, domain, name).Some? && DueByDomain(s, domain, name) != Due(s, domain, name)
    ensures !EnabledKey(s.world.comp, KeyFor(domain, name)) && WantedAt(s.world, domain, name).Some?
    ensures DueByDomain(s, domain, name) == Some(Item(Add, WantedAt(s.world, domain, name).value))
  {
  }

  lemma AddedByDomain(s: State, fault: Fault, domain: string, name: string)
    requires Enabled(s, StepItem(fault)) && Tracked(s, domain, name) && WellKeyed(s.world)
    requires WantedAt(s.world, domain, name).Some? && !EnabledKey(s.world.comp, KeyFor(domain, name))
    requires s.work.value.items[0] == Item(Add, WantedAt(s.world, domain, name).value)
    ensures Due(HandleNext(s, fault), domain, name) == None
  {
    WantedKey(s.world, domain, name);
    HandleNextEffects(s, fault);
  }

  lemma DueItemDone(s: State, fault: Fault, domain: string, name: string)
    requires Sound(s) && RoutedState(s) && Enabled(s, StepItem(fault)) && Tracked(s, domain, name)
    requires IsDue(s, domain, name, s.work.value.items[0]) && !Pending(s, domain, name)
    requires s.work.value.items[0].resource.meta.key == KeyFor(domain, name)
    requires Handle(s.stores, s.work.value.items[0], s.world.comp, fault).ending == Ended(Success)
    ensures var s' := HandleNext(s, fault);
            Pending(s', domain, name) || Due(s', domain, name) == None
  {
    if Due(s, domain, name) == Some(s.work.value.items[0]) {
      HandleNextEffects(s, fault);
      WantedIsPlain(s.world, domain, name);
      DoneAt(s.stores, s.work.value.items[0], WantedAt(s.world, domain, name), s.world.comp, fault);
    } else {
      DueByDomainOnly(s, domain, name);
      AddedByDomain(s, fault, domain, name);
    }
  }

  lemma OnlyTheFirst(items: seq<Item<PolicySpec>>, k: Key)
    requires items != [] && OnceAt(items, k) && items[0].resource.meta.key == k
    ensures forall y :: y in items[1..] ==> y.resource.meta.key != k
  {
    forall y | y in items[1..] ensures y.resource.meta.key != k {
      var i :| 0 <= i < |items[1..]| && items[1..][i] == y;
      assert items[i + 1] == y;
    }
  }

  /** The item that was due does what is due, causes an event, or fails its sync. */
  lemma DueItemKeeps(s: State, fault: Fault, domain: string, name: string)
    requires Sound(s) && RoutedState(s) && Enabled(s, StepItem(fault)) && Tracked(s, domain, name)
    requires Kept(s, domain, name) && !Pending(s, domain, name)
    requires s.work.value.items[0].resource.meta.key == KeyFor(domain, name) && !HandleNext(s, fault).crashed
    ensures Kept(HandleNext(s, fault), domain, name)
  {
    HandleNextEffects(s, fault);
    assert Serves(s.work.value.key, domain, name);
    OnlyTheFirst(s.work.value.items, KeyFor(domain, name));
    if Handle(s.stores, s.work.value.items[0], s.world.comp, fault).ending == Ended(Success) {
      DueItemDone(s, fault, domain, name);
    } else {
      assert Queued(HandleNext(s, fault), domain, name) || GivenUp(HandleNext(s, fault), domain, name);
    }
  }

  lemma ItemKeeps(s: State, fault: Fault, domain: string, name: string)
    requires Sound(s) && RoutedState(s) && Enabled(s, StepItem(fault)) && Kept(s, domain, name) && !HandleNext(s, fault).crashed
    ensures Kept(HandleNext(s, fault), domain, name)
  {
    var s' := HandleNext(s, fault);
    HandleNextEffects(s, fault);
    HandleKeepsLag(s.stores, s.work.value.items[0], s.world.comp, fault);
    assert forall x :: x in s.work.value.items[1..] ==> x in s.work.value.items;
    if Tracked(s, domain, name) {
      if Pending(s, domain, name) {
        MoreIsQueued(s, s', domain, name);
      } else if s.work.value.items[0].resource.meta.key == KeyFor(domain, name) {
        DueItemKeeps(s, fault, domain, name);
      } else {
        OtherItemKeeps(s, fault, domain, name);
      }
    }
  }

  // ---- The environment. ----

  /** A step that leaves the work as it is and the policy as the controller sees it takes nothing away. */
  lemma SameViewKeeps(s: State, s': State, domain: string, name: string)
    requires Kept(s, domain, name) && Tracked(s, domain, name) && Tracked(s', domain, name)
    requires s'.work == s.work && s.queue <= s'.queue && s.gaveUp <= s'.gaveUp && s'.world.comp == s.world.comp
    requires KeyFor(domain, name) in s.events ==> KeyFor(domain, name) in s'.events
    requires WantedAt(s'.world, domain, name) == WantedAt(s.world, domain, name)
    requires Get(s'.stores.cache, KeyFor(domain, name)) == Get(s.stores.cache, KeyFor(domain, name))
    requires Get(s'.stores.dry, KeyFor(domain, name)) == Get(s.stores.dry, KeyFor(domain, name))
    ensures Kept(s', domain, name)
  {
    MoreServe(s.queue, s'.queue, domain, name);
    MoreServe(s.gaveUp, s'.gaveUp, domain, name);
    SameDue(s, s', domain, name);
  }

  /** News of the policy covers it. */
  lemma NewsKeeps(s: State, s': State, domain: string, name: string)
    requires Pending(s', domain, name) && s'.work == s.work && Kept(s, domain, name)
    ensures Kept(s', domain, name)
  {
  }

  lemma ServiceKeyServes(domain: string, name: string)
    requires '/' !in domain && Decodable(domain) && ObjectName(name)
    ensures Serves(ServiceKey(DomainToNamespace(domain), name), domain, name)
  {
    ServiceKeyRead(domain, name);
  }

  lemma DeliverKeeps(s: State, k: Key, told: Option<Cfg>, isLast: bool, domain: string, name: string)
    requires Sound(s) && Enabled(s, StepDeliver(k, told, isLast)) && Kept(s, domain, name) && Tracked(s, domain, name)
    ensures Kept(Deliver(s, k, told, isLast), domain, name)
  {
    var s' := Deliver(s, k, told, isLast);
    if k == KeyFor(domain, name) {
      ServiceKeyServes(domain, name);
      assert ServiceKey(k.namespace, k.name) in s'.queue;
      NewsKeeps(s, s', domain, name);
    } else {
      SameViewKeeps(s, s', domain, name);
    }
  }

  lemma ExternalKeeps(s: State, k: Key, c: Option<Cfg>, domain: string, name: string)
    requires Kept(s, domain, name) && Tracked(s, domain, name)
    ensures Kept(ExternalWrite(s, k, c), domain, name)
  {
    SameViewKeeps(s, ExternalWrite(s, k, c), domain, name);
  }

  /** A change of another domain or service is none of the policy's, if the domain has no trust roles. */
  lemma WantedIsLocal(a: World, b: World, domain: string, name: string)
    requires domain in a.domains && domain in b.domains && b.domains[domain] == a.domains[domain]
    requires TrustFree(a.domains[domain]) && b == a.(domains := b.domains, services := b.services)
    requires var key := ServiceKey(DomainToNamespace(domain), name);
             (key in a.services <==> key in b.services) && (key in a.services ==> b.services[key] == a.services[key])
    ensures WantedAt(a, domain, name) == WantedAt(b, domain, name)
  {
    TrustFreeModelIsLocal(a.domains, b.domains, a.domains[domain]);
  }

  /** A change of the domains or of the services: of the policy's own, which queues its key, or of others. */
  lemma WorldKeeps(s: State, w: World, key: string, domain: string, name: string)
    requires Sound(s) && WellKeyed(w) && w == s.world.(domains := w.domains, services := w.services)
    requires Tracked(WorldEvent(s, w, key), domain, name)
    requires domain == key || ServiceKey(DomainToNamespace(domain), name) == key || (
      && domain in s.world.domains && w.domains[domain] == s.world.domains[domain]
      && var sk := ServiceKey(DomainToNamespace(domain), name);
         (sk in s.world.services <==> sk in w.services) && (sk in w.services ==> w.services[sk] == s.world.services[sk]))
    requires Kept(s, domain, name)
    ensures Kept(WorldEvent(s, w, key), domain, name)
  {
    var s' := WorldEvent(s, w, key);
    if domain == key || ServiceKey(DomainToNamespace(domain), name) == key {
      DomainKeyRead(w, domain);
      ServiceKeyServes(domain, name);
      assert key in s'.queue && Serves(key, domain, name);
      NewsKeeps(s, s', domain, name);
    } else {
      WantedIsLocal(s.world, w, domain, name);
      SameViewKeeps(s, s', domain, name);
    }
  }

  lemma DomainStepKeeps(s: State, step: Step, domain: string, name: string)
    requires Sound(s) && Enabled(s, step) && Kept(s, domain, name) && Tracked(Apply(s, step), domain, name)
    requires step.StepDomain? || step.StepDomainDeleted?
    ensures Kept(Apply(s, step), domain, name)
  {
    WorldKeepsSound(s, step);
    match step
    case StepDomain(d) =>
      WorldKeeps(s, s.world.(domains := s.world.domains[d.name := d]), d.name, domain, name);
    case StepDomainDeleted(key) =>
      WorldKeeps(s, s.world.(domains := s.world.domains - {key}), key, domain, name);
  }

  lemma ServiceStepKeeps(s: State, step: Step, domain: string, name: string)
    requires Sound(s) && Enabled(s, step) && Kept(s, domain, name) && Tracked(Apply(s, step), domain, name)
    requires step.StepService? || step.StepServiceDeleted?
    ensures Kept(Apply(s, step), domain, name)
  {
    WorldKeepsSound(s, step);
    match step
    case StepService(svc) =>
      var key := ServiceKey(svc.namespace, svc.name);
      WorldKeeps(s, s.world.(services := s.world.services[key := svc]), key, domain, name);
    case StepServiceDeleted(key) =>
      WorldKeeps(s, s.world.(services := s.world.services - {key}), key, domain, name);
  }

  lemma UntrackedSyncKeeps(s: State, key: string, current: seq<Cfg>, desired: seq<Cfg>, domain: string, name: string)
    requires Sound(s) && RoutedState(s) && OwnsNamespace(s.world, domain) && Enabled(s, StepSync(key, current, desired))
    requires Decodable(domain) && Kept(s, domain, name) && !(Tracked(s, domain, name) && Serves(key, domain, name))
    ensures Kept(Start(s, key, current, desired), domain, name)
  {
    if !Serves(key, domain, name) {
      OtherSyncKeeps(s, key, current, desired, domain, name);
    }
  }

  lemma SyncKeeps(s: State, key: string, current: seq<Cfg>, desired: seq<Cfg>, domain: string, name: string)
    requires Sound(s) && RoutedState(s) && OwnsNamespace(s.world, domain) && Enabled(s, StepSync(key, current, desired))
    requires Kept(s, domain, name)
    ensures Kept(Start(s, key, current, desired), domain, name)
  {
    if Tracked(s, domain, name) && Serves(key, domain, name) {
      ServingSyncKeeps(s, key, current, desired, domain, name);
    } else if Decodable(domain) {
      UntrackedSyncKeeps(s, key, current, desired, domain, name);
    }
  }

  lemma NewsStepKeeps(s: State, step: Step, domain: string, name: string)
    requires Sound(s) && Enabled(s, step) && Kept(s, domain, name) && Tracked(s, domain, name)
    requires step.StepDeliver? || step.StepExternal? || step.StepResync?
    ensures Kept(Apply(s, step), domain, name)
  {
    match step
    case StepDeliver(k, told, isLast) => DeliverKeeps(s, k, told, isLast, domain, name);
    case StepExternal(k, c) => ExternalKeeps(s, k, c, domain, name);
    case StepResync => SameViewKeeps(s, Apply(s, step), domain, name);
  }

  lemma UntrackedKeeps(s: State, s': State, domain: string, name: string)
    requires Kept(s, domain, name) && s'.work == s.work && !Tracked(s', domain, name)
    ensures Kept(s', domain, name)
  {
  }

  /** Every step keeps each policy covered. */
  lemma StepKeeps(s: State, step: Step, domain: string, name: string)
    requires Sound(s) && RoutedState(s) && OwnsNamespace(s.world, domain) && Enabled(s, step) && Kept(s, domain, name)
    requires !Apply(s, step).crashed
    ensures Kept(Apply(s, step), domain, name)
  {
    if step.StepSync? {
      SyncKeeps(s, step.key, step.current, step.desired, domain, name);
    } else if step.StepItem? {
      ItemKeeps(s, step.fault, domain, name);
    } else if !Tracked(Apply(s, step), domain, name) {
      UntrackedKeeps(s, Apply(s, step), domain, name);
    } else if step.StepDomain? || step.StepDomainDeleted? {
      DomainStepKeeps(s, step, domain, name);
    } else if step.StepService? || step.StepServiceDeleted? {
      ServiceStepKeeps(s, step, domain, name);
    } else {
      NewsStepKeeps(s, step, domain, name);
    }
  }

  lemma StepKeepsOwned(s: State, step: Step, domain: string)
    requires OwnsNamespace(s.world, domain) && Enabled(s, step) && StepKeepsOwner(step, domain)
    ensures OwnsNamespace(Apply(s, step).world, domain)
  {
  }

  lemma StepKeepsInv(s: State, step: Step, domain: string, name: string)
    requires Inv(s, domain, name) && Enabled(s, step) && Orderly(step, s.world.comp) && StepKeepsOwner(step, domain)
    ensures Inv(Apply(s, step), domain, name)
  {
    StepKeepsSound(s, step);
    StepKeepsWorkSuits(s, step);
    StepKeepsRouted(s, step);
    StepKeepsOwned(s, step, domain);
    if !Apply(s, step).crashed {
      StepKeeps(s, step, domain, name);
    }
  }

  lemma InitHasInv(s: State, domain: string, name: string)
    requires Init(s) && OwnsNamespace(s.world, domain)
    ensures Inv(s, domain, name)
  {
    InitIsSound(s);
    if Tracked(s, domain, name) {
      DomainKeyRead(s.world, domain);
      assert domain in s.queue && Serves(domain, domain, name);
    }
  }

  lemma {:induction false} RunKeepsInv(s: State, steps: seq<Step>, s': State, domain: string, name: string)
    requires Inv(s, domain, name) && Run(s, steps, s') && AllOrderly(steps, s.world.comp)
    requires forall step :: step in steps ==> StepKeepsOwner(step, domain)
    ensures Inv(s', domain, name) && s'.world.comp == s.world.comp
    decreases |steps|
  {
    if steps != [] {
      var n := |steps| - 1;
      var mid := LastOfRun(s, steps, s');
      RunKeepsInv(s, steps[..n], mid, domain, name);
      StepKeepsInv(mid, steps[n], domain, name);
      StepKeepsComp(mid, steps[n]);
    }
  }

  // ---- Convergence. ----

  /** Nothing is on its way for a policy. */
  ghost predicate Quiescent(s: State, domain: string, name: string) {
    !Pending(s, domain, name) && !GivenUp(s, domain, name) && !ItemWaits(s, domain, name)
  }

  /** Syncing again would leave the policy as it is: it is the wanted one, or overridden, or absent as it should be. */
  ghost predicate ConvergedAt(s: State, domain: string, name: string)
    requires domain in s.world.domains
  {
    var there := There(s.stores, KeyFor(domain, name), s.world.comp);
    match WantedAt(s.world, domain, name)
    case None => there.None? || Overridden(there.value)
    case Some(wanted) => there.Some? && (there.value.spec == wanted.spec || Overridden(there.value))
  }

  /** A domain-level sync has nothing to do about a policy that is not enabled, although a service-level one has: it
      takes an overridden API entry for the policy, or misses a dry-run policy because of an `ns/` entry. */
  ghost predicate Missed(s: State, domain: string, name: string)
    requires domain in s.world.domains
  {
    var k, wanted := KeyFor(domain, name), WantedAt(s.world, domain, name);
    !EnabledKey(s.world.comp, k) &&
    if k !in s.stores.dry then k in s.stores.cache && wanted.Some?
    else
      && NamespaceNamedAsService(s.world.comp, k.namespace) && !Overridden(s.stores.dry[k])
      && (wanted.None? || (k in s.stores.cache && wanted.value.spec != s.stores.dry[k].spec))
  }

  /** What convergence misses the comparison of the two kinds of sync overlooks; without an `ns/` entry they are one. */
  lemma MissedIsOverlooked(s: State, domain: string, name: string)
    requires domain in s.world.domains
    ensures Missed(s, domain, name) ==> Overlooked(s.stores, s.world, domain, name)
    ensures !NamespaceNamedAsService(s.world.comp, DomainToNamespace(domain)) ==>
              (Missed(s, domain, name) <==> Overlooked(s.stores, s.world, domain, name))
  {
  }

  lemma NothingDueIsConverged(s: State, domain: string, name: string)
    requires domain in s.world.domains
    requires Get(s.stores.cache, KeyFor(domain, name)) == Get(s.stores.api.objects, KeyFor(domain, name))
    ensures ConvergedAt(s, domain, name) <==> Due(s, domain, name) == None
  {
  }

  lemma MissedIsDue(s: State, domain: string, name: string)
    requires RoutedState(s) && Tracked(s, domain, name) && KeyFor(domain, name) !in s.events
    ensures Missed(s, domain, name) <==> DueByDomain(s, domain, name) == None && Due(s, domain, name) != None
  {
  }

  lemma RestDecidesConvergence(s: State, domain: string, name: string)
    requires Sound(s) && RoutedState(s) && Tracked(s, domain, name) && KeyFor(domain, name) !in s.events
    requires Settled(s, domain, name)
    ensures ConvergedAt(s, domain, name) <==> !Missed(s, domain, name)
  {
    assert Get(s.stores.cache, KeyFor(domain, name)) == Get(s.stores.api.objects, KeyFor(domain, name));
    NothingDueIsConverged(s, domain, name);
    MissedIsDue(s, domain, name);
  }

  lemma ReachableAloneHasInv(s: State, domain: string, name: string)
    requires ReachableAlone(s, domain)
    ensures Inv(s, domain, name)
  {
    var s0, steps :|
      && Init(s0) && Run(s0, steps, s) && AllOrderly(steps, s0.world.comp)
      && OwnsNamespace(s0.world, domain) && forall step :: step in steps ==> StepKeepsOwner(step, domain);
    InitHasInv(s0, domain, name);
    RunKeepsInv(s0, steps, s, domain, name);
  }

  /** In every state that is reached without foreign policies on the server, a policy of a trust-free domain with a
      decodable name and a namespace of its own, for which nothing is on its way, has converged in the store that it
      belongs to if and only if domain-level syncs do not miss it. */
  lemma QuiescenceDecidesConvergence(s: State, domain: string, name: string)
    requires ReachableAlone(s, domain) && !s.crashed && Tracked(s, domain, name) && Quiescent(s, domain, name)
    ensures ConvergedAt(s, domain, name) <==> !Missed(s, domain, name)
  {
    ReachableAloneHasInv(s, domain, name);
    RestDecidesConvergence(s, domain, name);
  }
}
