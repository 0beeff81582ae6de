/**
 Every run of the authorization policy controller comes to rest: once nobody else writes policies, no domain or service
 changes and API calls are answered, whatever the order of syncs, items and events.
 pkg/istio/authorizationpolicy/controller.go.
 */
module PolicyTermination {
  import opened AthenzData
  import opened ChangeList
  import opened Configs
  import opened DomainNames
  import opened PolicyCompiler
  import opened PolicyController
  import opened PolicyControllerObject
  import opened PolicyConvergence
  import opened PolicyReconciler
  import opened PolicyStores
  import opened Principals
  import opened Sequences

  /** The steps of an undisturbed system between two ticks of the resync. */
  predicate Settling(step: Step) {
    step.StepSync? || (step.StepItem? && step.fault == Answered) || (step.StepDeliver? && step.isLast)
  }

  ghost predicate AtRest(s: State) {
    s.crashed || (s.queue == {} && s.work == None && s.events == {})
  }

  ghost predicate NextState(s: State, step: Step, s': State) {
    if AtRest(s) then s' == s else Enabled(s, step) && Settling(step) && s' == Apply(s, step)
  }

  /** Until it rests, the system takes settling steps. */
  ghost predicate Undisturbed(states: nat -> State, steps: nat -> Step) {
    forall i: nat :: NextState(states(i), steps(i), states(i + 1))
  }

  /** Domains do not share namespaces. */
  ghost predicate Peaceful(w: World) {
    forall domain :: domain in w.domains ==> OwnsNamespace(w, domain)
  }

  // ---- What the cache knows. ----

  /** A policy of the version that the server has is the one that the server has. */
  ghost predicate Genuine(c: Cfg, api: Store<PolicySpec>) {
    && c.meta.resourceVersion <= api.revision
    && var k := c.meta.key;
       k in api.objects && api.objects[k].meta.resourceVersion == c.meta.resourceVersion ==> api.objects[k].spec == c.spec
  }

  ghost predicate AllGenuine(s: State) {
    && (forall c :: c in s.past ==> Genuine(c, s.stores.api))
    && (forall k :: k in s.stores.cache ==> Genuine(s.stores.cache[k], s.stores.api))
  }

  /** An enabled key has one item of a sync at most. */
  ghost predicate WorkOnce(s: State) {
    s.work.Some? ==> forall k :: EnabledKey(s.world.comp, k) ==> OnceAt(s.work.value.items, k)
  }

  /** A write gives the object a version that nobody has seen. */
  lemma WriteKeepsGenuine(api: Store<PolicySpec>, x: Item<PolicySpec>, c: Cfg)
    requires Genuine(c, api)
    ensures Genuine(c, Execute(api, x).0)
  {
  }

  lemma HandleKeepsGenuine(st: Stores, x: Item<PolicySpec>, comp: ComponentEnabled, fault: Fault, c: Cfg)
    requires Genuine(c, st.api)
    ensures Genuine(c, Handle(st, x, comp, fault).stores.api)
  {
    if EnabledKey(comp, x.resource.meta.key) && (x.operation.Update? ==> x.resource.meta.key in st.cache) {
      WriteKeepsGenuine(st.api, Sent(st, x), c);
    }
  }

  lemma StoredIsGenuine(api: Store<PolicySpec>, c: Cfg)
    requires WellFormed(api) && c in api.objects.Values
    ensures Genuine(c, api)
  {
  }

  lemma ItemKeepsGenuine(s: State, fault: Fault)
    requires Sound(s) && AllGenuine(s) && Enabled(s, StepItem(fault))
    ensures AllGenuine(HandleNext(s, fault))
  {
    var s', x := HandleNext(s, fault), s.work.value.items[0];
    HandleNextEffects(s, fault);
    HandleKeepsLag(s.stores, x, s.world.comp, fault);
    forall c | c in s'.past ensures Genuine(c, s'.stores.api) {
      if c in s.past {
        HandleKeepsGenuine(s.stores, x, s.world.comp, fault, c);
      } else {
        StoredIsGenuine(s'.stores.api, c);
      }
    }
    forall k | k in s'.stores.cache ensures Genuine(s'.stores.cache[k], s'.stores.api) {
      HandleKeepsGenuine(s.stores, x, s.world.comp, fault, s.stores.cache[k]);
    }
  }

  lemma ExternalKeepsGenuine(s: State, k: Key, c: Option<Cfg>)
    requires Sound(s) && AllGenuine(s)
    ensures AllGenuine(ExternalWrite(s, k, c))
  {
    ExternalKeepsSound(s, k, c);
    var s' := ExternalWrite(s, k, c);
    forall d | d in s'.past ensures Genuine(d, s'.stores.api) {
      if d !in s.past {
        StoredIsGenuine(s'.stores.api, d);
      }
    }
  }

  lemma DeliverKeepsGenuine(s: State, k: Key, told: Option<Cfg>, isLast: bool)
    requires Sound(s) && AllGenuine(s) && Enabled(s, StepDeliver(k, told, isLast))
    ensures AllGenuine(Deliver(s, k, told, isLast))
  {
    if isLast && told.Some? {
      StoredIsGenuine(s.stores.api, told.value);
    }
  }

  lemma StepKeepsGenuine(s: State, step: Step)
    requires Sound(s) && AllGenuine(s) && Enabled(s, step)
    ensures AllGenuine(Apply(s, step))
  {
    match step
    case StepSync(key, current, desired) => StartTakesOneKey(s, key, current, desired);
    case StepItem(fault) => ItemKeepsGenuine(s, fault);
    case StepDeliver(k, told, isLast) => DeliverKeepsGenuine(s, k, told, isLast);
    case StepExternal(k, c) => ExternalKeepsGenuine(s, k, c);
    case _ =>
  }

  lemma InitIsGenuine(s: State)
    requires Init(s)
    ensures AllGenuine(s) && WorkOnce(s)
  {
    forall c | c in s.past ensures Genuine(c, s.stores.api) {
      StoredIsGenuine(s.stores.api, c);
    }
    forall k | k in s.stores.cache ensures Genuine(s.stores.cache[k], s.stores.api) {
      assert k in s.stores.api.objects ==> Get(s.stores.cache, k) == Get(s.stores.api.objects, k);
    }
  }

  // ---- The items of a sync under an enabled key. ----

  /** They are what the cache calls for. */
  lemma EnabledItemsAt(w: World, st: Stores, key: string, current: seq<Cfg>, desired: seq<Cfg>, k: Key, x: Item<PolicySpec>)
    requires DomainOfKey(key) in w.domains && WellKeyed(w) && DryRouted(st, w.comp) && EnabledKey(w.comp, k)
    requires forall k :: k in st.cache ==> st.cache[k].meta.key == k
    requires Listed(w, st, key, current, desired) && OfKey(key, k)
    ensures OnceAt(Changes(current, desired, Overridden), k)
    ensures x in Changes(current, desired, Overridden) && x.resource.meta.key == k <==>
            DueItem(Get(st.cache, k), WantedAt(w, DomainOfKey(key), k.name)) == Some(x)
  {
    var ns := DomainToNamespace(DomainOfKey(key));
    if NameOfKey(key) == "" {
      NamespaceListingShows(current, st, ns, w.comp);
      NamespaceListingSeesKey(current, st, ns, w.comp, k);
      NamespaceListingOnceAt(current, st, ns, w.comp, k);
      DesiredMap(w, DomainOfKey(key), desired);
      ChangesOnceAt(current, desired, k);
      ChangesAt(current, desired, k, x);
    } else {
      WantedKey(w, DomainOfKey(key), k.name);
      ChangesOfOne(CurrentOf(st, k, w.comp), WantedAt(w, DomainOfKey(key), k.name), k);
      ChangeOfOne(CurrentOf(st, k, w.comp), WantedAt(w, DomainOfKey(key), k.name), k, x);
    }
  }

  lemma ListedOnce(w: World, st: Stores, key: string, current: seq<Cfg>, desired: seq<Cfg>, k: Key)
    requires DomainOfKey(key) in w.domains && WellKeyed(w) && DryRouted(st, w.comp) && EnabledKey(w.comp, k)
    requires forall k :: k in st.cache ==> st.cache[k].meta.key == k
    requires Listed(w, st, key, current, desired)
    ensures OnceAt(Changes(current, desired, Overridden), k)
  {
    var changes := Changes(current, desired, Overridden);
    if OfKey(key, k) {
      EnabledItemsAt(w, st, key, current, desired, k, Item(Delete, NewConfig(k.kind, k.namespace, k.name, PolicySpec("", []))));
    } else {
      forall i | 0 <= i < |changes| ensures changes[i].resource.meta.key != k {
        ListedItemsSuit(w, st, key, current, desired, changes[i]);
      }
    }
  }

  lemma StepKeepsWorkOnce(s: State, step: Step)
    requires Sound(s) && WorkOnce(s) && Enabled(s, step)
    ensures WorkOnce(Apply(s, step))
  {
    var s' := Apply(s, step);
    StepKeepsComp(s, step);
    match step
    case StepSync(key, current, desired) =>
      StartTakesOneKey(s, key, current, desired);
      if s'.work.Some? {
        forall k | EnabledKey(s.world.comp, k) ensures OnceAt(s'.work.value.items, k) {
          ListedOnce(s.world, s.stores, key, current, desired, k);
        }
      }
    case StepItem(fault) => HandleNextEffects(s, fault);
    case _ =>
  }

  lemma {:induction false} RunKeepsGenuine(s: State, steps: seq<Step>, s': State)
    requires Sound(s) && WorkSuits(s) && AllGenuine(s) && WorkOnce(s) && Run(s, steps, s')
    ensures Sound(s') && AllGenuine(s') && WorkOnce(s')
    decreases |steps|
  {
    if steps != [] {
      var n := |steps| - 1;
      var mid := LastOfRun(s, steps, s');
      RunKeepsGenuine(s, steps[..n], mid);
      StepKeepsSound(mid, steps[n]);
      StepKeepsGenuine(mid, steps[n]);
      StepKeepsWorkOnce(mid, steps[n]);
    }
  }

  lemma ReachableIsGenuine(s: State)
    requires Reachable(s)
    ensures Sound(s) && AllGenuine(s) && WorkOnce(s)
  {
    var s0, steps :| Init(s0) && Run(s0, steps, s);
    InitIsSound(s0);
    InitIsGenuine(s0);
    RunKeepsGenuine(s0, steps, s);
  }

  // ---- The measure: what is wrong on the server or in the cache, who made it so, and what the cache has yet to hear. ----

  ghost predicate Managed(w: World, k: Key) {
    exists domain :: domain in w.domains && k == KeyFor(domain, k.name)
  }

  /** The policy that the domain of the namespace wants under the key. */
  ghost function Wish(w: World, k: Key): Option<Cfg>
    requires Managed(w, k)
  {
    var domain :| domain in w.domains && k == KeyFor(domain, k.name);
    WantedAt(w, domain, k.name)
  }

  lemma WishOf(w: World, domain: string, name: string)
    requires Peaceful(w) && domain in w.domains
    ensures Managed(w, KeyFor(domain, name)) && Wish(w, KeyFor(domain, name)) == WantedAt(w, domain, name)
  {
    var k := KeyFor(domain, name);
    assert k == KeyFor(domain, k.name);
    forall other | other in w.domains && k == KeyFor(other, k.name) ensures other == domain {
      assert OwnsNamespace(w, domain);
    }
  }

  /** There is not what is wanted under the key, overrides aside. */
  ghost predicate Off(w: World, k: Key, c: Option<Cfg>) {
    Managed(w, k) &&
    match Wish(w, k)
    case None => c.Some?
    case Some(wanted) => c.None? || c.value.spec != wanted.spec
  }

  ghost function KeysInPlay(s: State): set<Key> {
    s.stores.api.objects.Keys + s.stores.cache.Keys
    + (set key | key in s.world.services :: PolicyKey(s.world.services[key].namespace, s.world.services[key].name))
  }

  ghost predicate ServerIsOff(s: State, k: Key) {
    Off(s.world, k, Get(s.stores.api.objects, k))
  }

  /** The server or the cache is off. */
  ghost predicate SomeoneIsOff(s: State, k: Key) {
    ServerIsOff(s, k) || Off(s.world, k, Get(s.stores.cache, k))
  }

  lemma OffIsInPlay(s: State, k: Key)
    requires WellKeyed(s.world) && SomeoneIsOff(s, k)
    ensures k in KeysInPlay(s)
  {
    if k !in s.stores.api.objects && k !in s.stores.cache {
      var domain :|
        domain in s.world.domains && k == KeyFor(domain, k.name) && Wish(s.world, k) == WantedAt(s.world, domain, k.name);
      var key := ServiceKey(DomainToNamespace(domain), k.name);
      var svc := s.world.services[key];
      NamespaceHasNoSlash(domain);
      SplitAtSlash(DomainToNamespace(domain), k.name, svc.namespace, svc.name);
      assert key in s.world.services;
    }
  }

  ghost function ServerOff(s: State): set<Key> {
    set k | k in KeysInPlay(s) && ServerIsOff(s, k)
  }

  ghost function SomeoneOff(s: State): set<Key> {
    set k | k in KeysInPlay(s) && SomeoneIsOff(s, k)
  }

  ghost predicate HasUpdate(items: seq<Item<PolicySpec>>, k: Key) {
    exists x :: x in items && x.operation.Update? && x.resource.meta.key == k
  }

  /** The keys for which the sync in progress has an update that the cache no longer calls for. */
  ghost function Overtaken(s: State): set<Key> {
    if s.work.None? then {}
    else
      set k | k in s.stores.cache && EnabledKey(s.world.comp, k) && Managed(s.world, k)
              && HasUpdate(s.work.value.items, k) && !Off(s.world, k, Get(s.stores.cache, k))
  }

  /** The item does what is wanted. */
  ghost predicate Good(w: World, x: Item<PolicySpec>) {
    var k := x.resource.meta.key;
    EnabledKey(w.comp, k) ==>
      && Managed(w, k)
      && match Wish(w, k)
         case None => x.operation.Delete?
         case Some(wanted) => !x.operation.Delete? && x.resource.spec == wanted.spec
  }

  ghost function BadCount(w: World, items: seq<Item<PolicySpec>>): nat {
    if items == [] then 0 else (if Good(w, items[0]) then 0 else 1) + BadCount(w, items[1..])
  }

  ghost function BadItems(s: State): nat {
    if s.work.None? then 0 else BadCount(s.world, s.work.value.items)
  }

  ghost function Unrest(s: State): nat {
    9 * BadItems(s) + 4 * |ServerOff(s)| + 3 * |SomeoneOff(s)| + 2 * |Overtaken(s)| + |s.events|
  }

  // ---- Between two changes of the server or the cache. ----

  /** A sync of the key would call the server, or fail. */
  ghost predicate Busy(s: State, key: string) {
    DomainOfKey(key) in s.world.domains ==>
      exists k :: EnabledKey(s.world.comp, k) && OfKey(key, k) &&
        DueItem(Get(s.stores.cache, k), WantedAt(s.world, DomainOfKey(key), k.name)) != None
  }

  /** The keys that are waiting, or that the sync in progress may bring back. */
  ghost function Callers(s: State): set<string> {
    s.queue + (if s.work.Some? then {s.work.value.key} else {})
  }

  /** The retries that busy keys have left. */
  ghost function Chances(s: State): set<(string, nat)> {
    set key, i: nat | key in Callers(s) && Busy(s, key) && 0 <= i < QUEUE_NUM_RETRIES && NumRequeues(s.requeues, key) <= i ::
      (key, i)
  }

  ghost function BusyKeys(s: State): set<string> {
    set key | key in s.queue && Busy(s, key)
  }

  /** The sync in progress is still to call the server. */
  ghost predicate CallsAhead(s: State) {
    s.work.Some? && exists x :: x in s.work.value.items && EnabledKey(s.world.comp, x.resource.meta.key)
  }

  ghost function Risk(s: State): nat {
    if CallsAhead(s) then 1 else 0
  }

  ghost function ItemsLeft(s: State): nat {
    if s.work.None? then 0 else |s.work.value.items|
  }

  ghost predicate CalmerWork(s': State, s: State) {
    || Risk(s') < Risk(s)
    || (Risk(s') == Risk(s) && (|s'.queue| < |s.queue| || (|s'.queue| == |s.queue| && ItemsLeft(s') < ItemsLeft(s))))
  }

  ghost predicate CalmerMeanwhile(s': State, s: State) {
    || |Chances(s')| < |Chances(s)|
    || (|Chances(s')| == |Chances(s)| &&
        (|| |BusyKeys(s')| < |BusyKeys(s)|
         || (|BusyKeys(s')| == |BusyKeys(s)| && CalmerWork(s', s))))
  }

  /** In this order: lower in the first of these that differs. */
  ghost predicate Calmer(s': State, s: State) {
    || Unrest(s') < Unrest(s)
    || (Unrest(s') == Unrest(s) && CalmerMeanwhile(s', s))
  }

  // ---- How the measure changes. ----

  lemma OffSets(s: State)
    requires WellKeyed(s.world)
    ensures forall k :: (k in ServerOff(s) <==> ServerIsOff(s, k)) && (k in SomeoneOff(s) <==> SomeoneIsOff(s, k))
  {
    forall k ensures (k in ServerOff(s) <==> ServerIsOff(s, k)) && (k in SomeoneOff(s) <==> SomeoneIsOff(s, k)) {
      if SomeoneIsOff(s, k) {
        OffIsInPlay(s, k);
      }
    }
  }

  /** Nothing else changes when the server changes at one key. */
  lemma OffAfterCall(s: State, s': State, k: Key)
    requires WellKeyed(s.world) && s'.world == s.world && s'.stores.cache == s.stores.cache
    requires forall k' :: k' != k ==> Get(s'.stores.api.objects, k') == Get(s.stores.api.objects, k')
    ensures |ServerOff(s')| <= |ServerOff(s)| + 1 && |SomeoneOff(s')| <= |SomeoneOff(s)| + 1
    ensures !ServerIsOff(s', k) ==> |ServerOff(s')| <= |ServerOff(s)| && |SomeoneOff(s')| <= |SomeoneOff(s)|
    ensures !ServerIsOff(s', k) && ServerIsOff(s, k) ==> |ServerOff(s')| < |ServerOff(s)|
  {
    OffSets(s);
    OffSets(s');
    forall k' | k' != k
      ensures ServerIsOff(s', k') <==> ServerIsOff(s, k')
      ensures SomeoneIsOff(s', k') <==> SomeoneIsOff(s, k')
    {
      assert Get(s'.stores.api.objects, k') == Get(s.stores.api.objects, k');
    }
    UnionIsAtMost(ServerOff(s'), ServerOff(s), {k});
    UnionIsAtMost(SomeoneOff(s'), SomeoneOff(s), {k});
    if !ServerIsOff(s', k) {
      SubsetIsSmaller(ServerOff(s'), ServerOff(s));
      SubsetIsSmaller(SomeoneOff(s'), SomeoneOff(s));
      if ServerIsOff(s, k) {
        ProperSubsetIsSmaller(ServerOff(s'), ServerOff(s));
      }
    }
  }

  lemma SameOff(s: State, s': State)
    requires WellKeyed(s.world) && s'.world == s.world
    requires s'.stores.cache == s.stores.cache && s'.stores.api == s.stores.api
    ensures ServerOff(s') == ServerOff(s) && SomeoneOff(s') == SomeoneOff(s)
  {
    OffSets(s);
    OffSets(s');
  }

  lemma FewerOvertaken(s: State, s': State)
    requires s'.world == s.world && s'.stores.cache == s.stores.cache
    requires s'.work.Some? ==> s.work.Some? && forall x :: x in s'.work.value.items ==> x in s.work.value.items
    ensures Overtaken(s') <= Overtaken(s) && |Overtaken(s')| <= |Overtaken(s)|
  {
    SubsetIsSmaller(Overtaken(s'), Overtaken(s));
  }

  /** The sync in progress has one item less, and is over when that was the last. */
  ghost predicate NextItem(s: State, s': State) {
    && s.work.Some? && s.work.value.items != [] && s'.world == s.world
    && var Work(key, items) := s.work.value;
       s'.work == if |items| == 1 then None else Some(Work(key, items[1..]))
  }

  lemma TailIsPart<T>(items: seq<T>)
    requires items != []
    ensures forall x :: x in items[1..] ==> x in items
  {
  }

  lemma BadItemLess(s: State, s': State)
    requires NextItem(s, s')
    ensures BadItems(s') == BadItems(s) - (if Good(s.world, s.work.value.items[0]) then 0 else 1)
  {
    var items, w := s.work.value.items, s.world;
    assert BadCount(w, items) == (if Good(w, items[0]) then 0 else 1) + BadCount(w, items[1..]);
    if |items| == 1 {
      assert items[1..] == [] && BadCount(w, items[1..]) == 0;
    }
  }

  lemma OneItemLess(s: State, s': State)
    requires NextItem(s, s')
    ensures s'.work.Some? ==> forall x :: x in s'.work.value.items ==> x in s.work.value.items
    ensures ItemsLeft(s') < ItemsLeft(s) && Risk(s') <= Risk(s)
  {
    TailIsPart(s.work.value.items);
    if CallsAhead(s') {
      var x :| x in s'.work.value.items && EnabledKey(s'.world.comp, x.resource.meta.key);
      assert x in s.work.value.items;
    }
  }

  // ---- Items. ----

  /** What a call of the server does that succeeds. */
  lemma SuccessfulCall(s: State)
    requires Sound(s) && Enabled(s, StepItem(Answered))
    requires Handle(s.stores, s.work.value.items[0], s.world.comp, Answered).ending == Ended(Success)
    ensures var s', x := HandleNext(s, Answered), s.work.value.items[0];
            var Work(key, items), k := s.work.value, x.resource.meta.key;
            && s'.world == s.world && s'.stores.cache == s.stores.cache && s'.queue == s.queue && s'.requeues == s.requeues
            && s'.work == (if |items| == 1 then None else Some(Work(key, items[1..])))
            && (forall k' :: k' != k ==> Get(s'.stores.api.objects, k') == Get(s.stores.api.objects, k'))
            && (if EnabledKey(s.world.comp, k)
                then s'.events == s.events + {k} && (x.operation.Update? ==> k in s.stores.cache)
                     && s'.stores.api == Execute(s.stores.api, Sent(s.stores, x)).0
                     && Execute(s.stores.api, Sent(s.stores, x)).1 == Success
                else s'.events == s.events && s'.stores.api == s.stores.api)
  {
    HandleKeepsLag(s.stores, s.work.value.items[0], s.world.comp, Answered);
  }

  lemma GoodExecution(w: World, api: Store<PolicySpec>, x: Item<PolicySpec>, sent: Item<PolicySpec>)
    requires Good(w, x) && EnabledKey(w.comp, x.resource.meta.key) && Execute(api, sent).1 == Success
    requires sent.operation == x.operation && sent.resource.spec == x.resource.spec
    requires sent.resource.meta.key == x.resource.meta.key
    ensures !Off(w, x.resource.meta.key, Get(Execute(api, sent).0.objects, x.resource.meta.key))
  {
  }

  /** A good item that succeeds puts the server right. */
  lemma GoodCallPutsRight(s: State)
    requires Sound(s) && Enabled(s, StepItem(Answered)) && Good(s.world, s.work.value.items[0])
    requires EnabledKey(s.world.comp, s.work.value.items[0].resource.meta.key)
    requires Handle(s.stores, s.work.value.items[0], s.world.comp, Answered).ending == Ended(Success)
    ensures !ServerIsOff(HandleNext(s, Answered), s.work.value.items[0].resource.meta.key)
  {
    SuccessfulCall(s);
    GoodExecution(s.world, s.stores.api, s.work.value.items[0], Sent(s.stores, s.work.value.items[0]));
  }

  /** And it was off before, or else the cache had overtaken the item. */
  lemma GoodCallFindsOff(s: State)
    requires Sound(s) && AllGenuine(s) && Enabled(s, StepItem(Answered)) && Good(s.world, s.work.value.items[0])
    requires EnabledKey(s.world.comp, s.work.value.items[0].resource.meta.key)
    requires Handle(s.stores, s.work.value.items[0], s.world.comp, Answered).ending == Ended(Success)
    ensures var k := s.work.value.items[0].resource.meta.key; ServerIsOff(s, k) || k in Overtaken(s)
  {
    SuccessfulCall(s);
    var x := s.work.value.items[0];
    var k := x.resource.meta.key;
    if !ServerIsOff(s, k) {
      assert x.operation.Update? && HasUpdate(s.work.value.items, k);
      assert Genuine(s.stores.cache[k], s.stores.api);
    }
  }

  lemma OvertakenItemIsGone(s: State, s': State)
    requires WorkOnce(s) && NextItem(s, s')
    requires EnabledKey(s.world.comp, s.work.value.items[0].resource.meta.key)
    ensures s.work.value.items[0].resource.meta.key !in Overtaken(s')
  {
    OnlyTheFirst(s.work.value.items, s.work.value.items[0].resource.meta.key);
  }

  lemma GoodCallCalms(s: State)
    requires Sound(s) && AllGenuine(s) && WorkOnce(s) && Enabled(s, StepItem(Answered))
    requires EnabledKey(s.world.comp, s.work.value.items[0].resource.meta.key) && Good(s.world, s.work.value.items[0])
    requires Handle(s.stores, s.work.value.items[0], s.world.comp, Answered).ending == Ended(Success)
    ensures var s' := HandleNext(s, Answered);
            4 * |ServerOff(s')| + 3 * |SomeoneOff(s')| + 2 * |Overtaken(s')| <=
            4 * |ServerOff(s)| + 3 * |SomeoneOff(s)| + 2 * |Overtaken(s)| - 2
  {
    var s', k := HandleNext(s, Answered), s.work.value.items[0].resource.meta.key;
    SuccessfulCall(s);
    OneItemLess(s, s');
    FewerOvertaken(s, s');
    OffAfterCall(s, s', k);
    GoodCallPutsRight(s);
    GoodCallFindsOff(s);
    if !ServerIsOff(s, k) {
      OvertakenItemIsGone(s, s');
      ProperSubsetIsSmaller(Overtaken(s'), Overtaken(s));
    }
  }

  lemma CallCalms(s: State)
    requires Sound(s) && AllGenuine(s) && WorkOnce(s) && Enabled(s, StepItem(Answered))
    requires EnabledKey(s.world.comp, s.work.value.items[0].resource.meta.key)
    requires Handle(s.stores, s.work.value.items[0], s.world.comp, Answered).ending == Ended(Success)
    ensures Unrest(HandleNext(s, Answered)) < Unrest(s)
  {
    var s', k := HandleNext(s, Answered), s.work.value.items[0].resource.meta.key;
    SuccessfulCall(s);
    BadItemLess(s, s');
    UnionIsAtMost(s'.events, s.events, {k});
    if Good(s.world, s.work.value.items[0]) {
      GoodCallCalms(s);
    } else {
      OneItemLess(s, s');
      FewerOvertaken(s, s');
      OffAfterCall(s, s', k);
    }
  }

  lemma BusyStays(s: State, s': State)
    requires s'.world == s.world && s'.stores.cache == s.stores.cache
    ensures forall key :: Busy(s', key) <==> Busy(s, key)
  {
  }

  lemma FewerChances(s: State, s': State)
    requires s'.world == s.world && s'.stores.cache == s.stores.cache && Callers(s') <= Callers(s)
    requires forall key :: Busy(s, key) ==> NumRequeues(s'.requeues, key) >= NumRequeues(s.requeues, key)
    ensures Chances(s') <= Chances(s) && |Chances(s')| <= |Chances(s)|
  {
    BusyStays(s, s');
    SubsetIsSmaller(Chances(s'), Chances(s));
  }

  /** A busy key that has used up a retry. */
  lemma OneChanceLess(s: State, s': State, key: string)
    requires s'.world == s.world && s'.stores.cache == s.stores.cache && Callers(s') <= Callers(s)
    requires key in Callers(s) && Busy(s, key) && NumRequeues(s.requeues, key) < QUEUE_NUM_RETRIES
    requires s'.requeues == s.requeues[key := NumRequeues(s.requeues, key) + 1]
    ensures |Chances(s')| < |Chances(s)|
  {
    FewerChances(s, s');
    var n := NumRequeues(s.requeues, key);
    assert (key, n) in Chances(s) && (key, n) !in Chances(s');
    ProperSubsetIsSmaller(Chances(s'), Chances(s));
  }

  lemma FewerBusyKeys(s: State, s': State)
    requires s'.world == s.world && s'.stores.cache == s.stores.cache
    requires forall key :: key in s'.queue && Busy(s, key) ==> key in s.queue
    ensures |BusyKeys(s')| <= |BusyKeys(s)|
  {
    BusyStays(s, s');
    SubsetIsSmaller(BusyKeys(s'), BusyKeys(s));
  }

  /** An item for the directory is one item less. */
  lemma DryItemCalms(s: State)
    requires Sound(s) && Enabled(s, StepItem(Answered))
    requires !EnabledKey(s.world.comp, s.work.value.items[0].resource.meta.key)
    ensures Calmer(HandleNext(s, Answered), s)
  {
    var s' := HandleNext(s, Answered);
    SuccessfulCall(s);
    BadItemLess(s, s');
    OneItemLess(s, s');
    FewerOvertaken(s, s');
    SameOff(s, s');
    FewerChances(s, s');
    FewerBusyKeys(s, s');
  }

  /** What a call of the server does that fails. */
  lemma FailedCall(s: State)
    requires Enabled(s, StepItem(Answered))
    requires var ending := Handle(s.stores, s.work.value.items[0], s.world.comp, Answered).ending;
             ending.Ended? && ending.outcome != Success
    ensures var s', key := HandleNext(s, Answered), s.work.value.key;
            var n := NumRequeues(s.requeues, key);
            && s'.world == s.world && s'.stores == s.stores && s'.events == s.events && s'.work == None
            && (if n < QUEUE_NUM_RETRIES then s'.queue == s.queue + {key} && s'.requeues == s.requeues[key := n + 1]
                else s'.queue == s.queue && s'.requeues == s.requeues)
            && EnabledKey(s.world.comp, s.work.value.items[0].resource.meta.key)
  {
    var x := s.work.value.items[0];
    assert Execute(s.stores.api, Sent(s.stores, x)).1 != Success;
  }

  lemma FailedCallKeepsUnrest(s: State)
    requires Sound(s) && Enabled(s, StepItem(Answered))
    requires var ending := Handle(s.stores, s.work.value.items[0], s.world.comp, Answered).ending;
             ending.Ended? && ending.outcome != Success
    ensures Unrest(HandleNext(s, Answered)) <= Unrest(s)
  {
    var s' := HandleNext(s, Answered);
    FailedCall(s);
    FewerOvertaken(s, s');
    SameOff(s, s');
  }

  lemma NoCallsAhead(s: State, s': State)
    requires s.work.Some? && s.work.value.items != [] && s'.work == None
    requires EnabledKey(s.world.comp, s.work.value.items[0].resource.meta.key)
    ensures Risk(s') < Risk(s)
  {
    assert s.work.value.items[0] in s.work.value.items;
  }

  /** A sync has failed and its key may be queued again. */
  lemma FailedWorkCalms(s: State, s': State)
    requires s'.world == s.world && s'.stores.cache == s.stores.cache && s'.work == None
    requires s.work.Some? && s.work.value.items != []
    requires EnabledKey(s.world.comp, s.work.value.items[0].resource.meta.key)
    requires var key := s.work.value.key; var n := NumRequeues(s.requeues, key);
             if n < QUEUE_NUM_RETRIES then s'.queue == s.queue + {key} && s'.requeues == s.requeues[key := n + 1]
             else s'.queue == s.queue && s'.requeues == s.requeues
    ensures CalmerMeanwhile(s', s)
  {
    var key := s.work.value.key;
    assert Callers(s') <= Callers(s);
    if NumRequeues(s.requeues, key) < QUEUE_NUM_RETRIES && Busy(s, key) {
      OneChanceLess(s, s', key);
    } else {
      FewerChances(s, s');
      FewerBusyKeys(s, s');
      NoCallsAhead(s, s');
    }
  }

  lemma ItemCalms(s: State)
    requires Sound(s) && AllGenuine(s) && WorkOnce(s) && Enabled(s, StepItem(Answered)) && !HandleNext(s, Answered).crashed
    ensures Calmer(HandleNext(s, Answered), s)
  {
    HandleNextEffects(s, Answered);
    if !EnabledKey(s.world.comp, s.work.value.items[0].resource.meta.key) {
      DryItemCalms(s);
    } else if Handle(s.stores, s.work.value.items[0], s.world.comp, Answered).ending == Ended(Success) {
      CallCalms(s);
    } else {
      FailedCallKeepsUnrest(s);
      FailedCall(s);
      FailedWorkCalms(s, HandleNext(s, Answered));
    }
  }

  // ---- Syncs. ----

  lemma {:induction false} AllGood(w: World, items: seq<Item<PolicySpec>>)
    requires forall x :: x in items ==> Good(w, x)
    ensures BadCount(w, items) == 0
  {
    if items != [] {
      AllGood(w, items[1..]);
    }
  }

  lemma DueIsGood(w: World, domain: string, k: Key, cached: Option<Cfg>, x: Item<PolicySpec>)
    requires Peaceful(w) && domain in w.domains && k == KeyFor(domain, k.name) && x.resource.meta.key == k
    requires DueItem(cached, WantedAt(w, domain, k.name)) == Some(x)
    ensures Good(w, x) && (x.operation.Update? ==> Off(w, k, cached))
  {
    WishOf(w, domain, k.name);
  }

  /** The items of a sync are good, and no update among them is overtaken. */
  lemma SyncedItemIsGood(s: State, key: string, current: seq<Cfg>, desired: seq<Cfg>, x: Item<PolicySpec>)
    requires Sound(s) && Peaceful(s.world) && DomainOfKey(key) in s.world.domains
    requires Listed(s.world, s.stores, key, current, desired) && x in Changes(current, desired, Overridden)
    ensures Good(s.world, x)
    ensures EnabledKey(s.world.comp, x.resource.meta.key) ==> Busy(s, key)
    ensures EnabledKey(s.world.comp, x.resource.meta.key) && x.operation.Update? ==>
              Off(s.world, x.resource.meta.key, Get(s.stores.cache, x.resource.meta.key))
  {
    var k := x.resource.meta.key;
    if EnabledKey(s.world.comp, k) {
      ListedItemsSuit(s.world, s.stores, key, current, desired, x);
      EnabledItemsAt(s.world, s.stores, key, current, desired, k, x);
      DueIsGood(s.world, DomainOfKey(key), k, Get(s.stores.cache, k), x);
    }
  }

  lemma BusySyncHasItems(s: State, key: string, current: seq<Cfg>, desired: seq<Cfg>)
    requires Sound(s) && DomainOfKey(key) in s.world.domains && Busy(s, key)
    requires Listed(s.world, s.stores, key, current, desired)
    ensures Changes(current, desired, Overridden) != []
  {
    var k :| EnabledKey(s.world.comp, k) && OfKey(key, k) &&
      DueItem(Get(s.stores.cache, k), WantedAt(s.world, DomainOfKey(key), k.name)) != None;
    var x := DueItem(Get(s.stores.cache, k), WantedAt(s.world, DomainOfKey(key), k.name)).value;
    EnabledItemsAt(s.world, s.stores, key, current, desired, k, x);
  }

  lemma SyncKeepsUnrest(s: State, key: string, current: seq<Cfg>, desired: seq<Cfg>)
    requires Sound(s) && Peaceful(s.world) && Enabled(s, StepSync(key, current, desired))
    ensures Unrest(Start(s, key, current, desired)) == Unrest(s)
  {
    var s' := Start(s, key, current, desired);
    StartTakesOneKey(s, key, current, desired);
    SameOff(s, s');
    if s'.work.Some? {
      var items := s'.work.value.items;
      forall x | x in items
        ensures Good(s.world, x)
        ensures EnabledKey(s.world.comp, x.resource.meta.key) && x.operation.Update? ==>
                  Off(s.world, x.resource.meta.key, Get(s.stores.cache, x.resource.meta.key))
      {
        SyncedItemIsGood(s, key, current, desired, x);
      }
      AllGood(s.world, items);
      assert Overtaken(s') == {};
    }
  }

  lemma StartQueue(s: State, key: string, current: seq<Cfg>, desired: seq<Cfg>)
    requires s.work.None? && key in s.queue
    ensures var s', n := Start(s, key, current, desired), NumRequeues(s.requeues, key);
            if DomainOfKey(key) !in s.world.domains && n < QUEUE_NUM_RETRIES
            then s'.queue == s.queue && s'.requeues == s.requeues[key := n + 1] && s'.work == None
            else
              && s'.queue == s.queue - {key}
              && s'.requeues == if DomainOfKey(key) in s.world.domains && Changes(current, desired, Overridden) == []
                                then s.requeues - {key} else s.requeues
  {
  }

  lemma QueueWithout(s: State, s': State, key: string)
    requires s'.world == s.world && s'.stores.cache == s.stores.cache && key in s.queue && s'.queue == s.queue - {key}
    ensures |s'.queue| < |s.queue| && |BusyKeys(s')| <= |BusyKeys(s)|
    ensures Busy(s, key) ==> |BusyKeys(s')| < |BusyKeys(s)|
  {
    ProperSubsetIsSmaller(s'.queue, s.queue);
    FewerBusyKeys(s, s');
    if Busy(s, key) {
      BusyStays(s, s');
      assert key in BusyKeys(s) && key !in BusyKeys(s');
      ProperSubsetIsSmaller(BusyKeys(s'), BusyKeys(s));
    }
  }

  /** A sync of a key that is not busy does not call the server. */
  lemma IdleSyncIsHarmless(s: State, key: string, current: seq<Cfg>, desired: seq<Cfg>)
    requires Sound(s) && Peaceful(s.world) && Enabled(s, StepSync(key, current, desired)) && !Busy(s, key)
    ensures !CallsAhead(Start(s, key, current, desired))
  {
    var s' := Start(s, key, current, desired);
    StartTakesOneKey(s, key, current, desired);
    if s'.work.Some? {
      forall x | x in s'.work.value.items ensures !EnabledKey(s.world.comp, x.resource.meta.key) {
        SyncedItemIsGood(s, key, current, desired, x);
      }
    }
  }

  lemma BusySyncKeepsCounters(s: State, key: string, current: seq<Cfg>, desired: seq<Cfg>)
    requires Sound(s) && Enabled(s, StepSync(key, current, desired))
    ensures forall other :: Busy(s, other) ==>
              NumRequeues(Start(s, key, current, desired).requeues, other) >= NumRequeues(s.requeues, other)
  {
    StartQueue(s, key, current, desired);
    if DomainOfKey(key) in s.world.domains && Busy(s, key) {
      BusySyncHasItems(s, key, current, desired);
    }
  }

  lemma SyncCalmsMeanwhile(s: State, key: string, current: seq<Cfg>, desired: seq<Cfg>)
    requires Sound(s) && Peaceful(s.world) && Enabled(s, StepSync(key, current, desired))
    ensures CalmerMeanwhile(Start(s, key, current, desired), s)
  {
    var s' := Start(s, key, current, desired);
    StartTakesOneKey(s, key, current, desired);
    StartQueue(s, key, current, desired);
    assert Callers(s') <= Callers(s);
    BusySyncKeepsCounters(s, key, current, desired);
    if DomainOfKey(key) !in s.world.domains && NumRequeues(s.requeues, key) < QUEUE_NUM_RETRIES {
      OneChanceLess(s, s', key);
    } else {
      FewerChances(s, s');
      QueueWithout(s, s', key);
      if !Busy(s, key) {
        IdleSyncIsHarmless(s, key, current, desired);
      }
    }
  }

  // ---- Events. ----

  lemma OffElsewhere(s: State, k: Key, k': Key)
    requires k' != k
    ensures var s' := Deliver(s, k, Get(s.stores.api.objects, k), true);
            (SomeoneIsOff(s', k') <==> SomeoneIsOff(s, k')) && (k' in Overtaken(s') <==> k' in Overtaken(s))
  {
    var s' := Deliver(s, k, Get(s.stores.api.objects, k), true);
    assert Get(s'.stores.cache, k') == Get(s.stores.cache, k');
  }

  /** What the cache is told is what the server has. */
  lemma OffAtDelivered(s: State, k: Key)
    ensures var s' := Deliver(s, k, Get(s.stores.api.objects, k), true);
            && (SomeoneIsOff(s', k) ==> SomeoneIsOff(s, k))
            && (k in Overtaken(s') ==> !SomeoneIsOff(s', k) && (k in Overtaken(s) || SomeoneIsOff(s, k)))
  {
    var s' := Deliver(s, k, Get(s.stores.api.objects, k), true);
    assert Get(s'.stores.cache, k) == Get(s.stores.api.objects, k);
  }

  /** A key that the cache puts right may have an update that is overtaken; one that it does not, may not. */
  lemma OffAfterDelivery(s: State, k: Key)
    requires WellKeyed(s.world)
    ensures var s' := Deliver(s, k, Get(s.stores.api.objects, k), true);
            3 * |SomeoneOff(s')| + 2 * |Overtaken(s')| <= 3 * |SomeoneOff(s)| + 2 * |Overtaken(s)|
  {
    var s' := Deliver(s, k, Get(s.stores.api.objects, k), true);
    OffSets(s);
    OffSets(s');
    OffAtDelivered(s, k);
    forall k' | k' != k
      ensures k' in SomeoneOff(s') <==> k' in SomeoneOff(s)
      ensures k' in Overtaken(s') <==> k' in Overtaken(s)
    {
      OffElsewhere(s, k, k');
    }
    SubsetIsSmaller(SomeoneOff(s'), SomeoneOff(s));
    if k in SomeoneOff(s) && k !in SomeoneOff(s') {
      ProperSubsetIsSmaller(SomeoneOff(s'), SomeoneOff(s));
      UnionIsAtMost(Overtaken(s'), Overtaken(s), {k});
    } else {
      SubsetIsSmaller(Overtaken(s'), Overtaken(s));
    }
  }

  lemma SameServerOff(s: State, s': State)
    requires WellKeyed(s.world) && s'.world == s.world && s'.stores.api == s.stores.api
    ensures ServerOff(s') == ServerOff(s)
  {
    OffSets(s);
    OffSets(s');
  }

  lemma DeliveryCalms(s: State, k: Key)
    requires WellKeyed(s.world) && k in s.events
    ensures Unrest(Deliver(s, k, Get(s.stores.api.objects, k), true)) < Unrest(s)
  {
    OffAfterDelivery(s, k);
    SameServerOff(s, Deliver(s, k, Get(s.stores.api.objects, k), true));
    ProperSubsetIsSmaller(s.events - {k}, s.events);
  }

  // ---- Runs. ----

  /** What the measure relies on. */
  ghost predicate Calming(s: State) {
    Sound(s) && AllGenuine(s) && WorkOnce(s) && Peaceful(s.world)
  }

  lemma StepCalms(s: State, step: Step)
    requires Calming(s) && Enabled(s, step) && Settling(step) && !Apply(s, step).crashed
    ensures Calmer(Apply(s, step), s)
  {
    match step
    case StepSync(key, current, desired) =>
      SyncKeepsUnrest(s, key, current, desired);
      SyncCalmsMeanwhile(s, key, current, desired);
    case StepItem(_) => ItemCalms(s);
    case StepDeliver(k, _, _) => DeliveryCalms(s, k);
  }

  lemma SettlingKeepsWorld(s: State, step: Step)
    requires Enabled(s, step) && Settling(step)
    ensures Apply(s, step).world == s.world
  {
    match step
    case StepSync(key, current, desired) => StartTakesOneKey(s, key, current, desired);
    case StepItem(fault) => HandleNextEffects(s, fault);
    case StepDeliver(_, _, _) =>
  }

  lemma StepKeepsCalming(s: State, step: Step)
    requires Calming(s) && Enabled(s, step) && Settling(step)
    ensures Calming(Apply(s, step)) && Apply(s, step).world == s.world
  {
    StepKeepsSound(s, step);
    StepKeepsGenuine(s, step);
    StepKeepsWorkOnce(s, step);
    SettlingKeepsWorld(s, step);
  }

  lemma {:induction false} ListingExists(m: map<Key, Cfg>, namespace: string) returns (list: seq<Cfg>)
    requires forall k :: k in m ==> m[k].meta.key == k
    ensures ListsOnce(list, m, namespace)
    decreases |m|
  {
    if m == map[] {
      list := [];
    } else {
      var k :| k in m;
      var rest := m - {k};
      assert rest.Keys == m.Keys - {k};
      var others := ListingExists(rest, namespace);
      list := if PolicyIn(k, namespace) then others + [m[k]] else others;
      assert forall i :: 0 <= i < |others| ==> others[i] in others;
      forall c ensures c in list <==> c.meta.key in m && PolicyIn(c.meta.key, namespace) && m[c.meta.key] == c {
        assert c in others <==> c.meta.key in rest && PolicyIn(c.meta.key, namespace) && rest[c.meta.key] == c;
      }
    }
  }

  lemma {:induction false} ServicesExist(w: World, namespace: string, todo: set<string>) returns (list: seq<Service>)
    requires WellKeyed(w) && todo <= w.services.Keys
    ensures ListsServices(list, w, namespace, todo)
    decreases w.services.Keys - todo
  {
    if todo == w.services.Keys {
      list := [];
    } else {
      var key :| key in w.services && key !in todo;
      var others := ServicesExist(w, namespace, todo + {key});
      OneMoreService(others, w, namespace, todo + {key}, key);
      assert todo + {key} - {key} == todo;
      list := if w.services[key].namespace == namespace then others + [w.services[key]] else others;
    }
  }

  lemma NamespaceIsListed(s: State, domain: string) returns (current: seq<Cfg>, desired: seq<Cfg>)
    requires Sound(s) && domain in s.world.domains
    ensures ShowsNamespace(current, s.stores, DomainToNamespace(domain), s.world.comp)
    ensures DesiredInNamespace(desired, s.world, domain)
  {
    var ns := DomainToNamespace(domain);
    var api := ListingExists(s.stores.cache, ns);
    var dry := ListingExists(s.stores.dry, ns);
    var services := ServicesExist(s.world, ns, {});
    DesiredPolicies(s.world, domain, "", services);
    current := if s.world.comp.IsEnabled("", ns) then api else api + dry;
    desired := PoliciesFor(s.world, domain, services);
  }

  lemma SyncIsPossible(s: State, key: string) returns (step: Step)
    requires Sound(s) && !s.crashed && s.work.None? && key in s.queue
    ensures Enabled(s, step) && Settling(step)
  {
    var domain, name := DomainOfKey(key), NameOfKey(key);
    if domain !in s.world.domains {
      step := StepSync(key, [], []);
    } else if name == "" {
      var current, desired := NamespaceIsListed(s, domain);
      step := StepSync(key, current, desired);
    } else {
      step := StepSync(key, AsSeq(CurrentOf(s.stores, PolicyKey(DomainToNamespace(domain), name), s.world.comp)),
                       AsSeq(WantedAt(s.world, domain, name)));
    }
  }

  /** A system that does not rest has a settling step to take. */
  lemma SomethingToDo(s: State) returns (step: Step)
    requires Sound(s) && !AtRest(s)
    ensures Enabled(s, step) && Settling(step)
  {
    if s.work.Some? {
      step := StepItem(Answered);
    } else if s.events != {} {
      var k :| k in s.events;
      step := StepDeliver(k, Get(s.stores.api.objects, k), true);
    } else {
      var key :| key in s.queue;
      step := SyncIsPossible(s, key);
    }
  }

  lemma {:induction false} RunRests(states: nat -> State, steps: nat -> Step, i: nat) returns (n: nat)
    requires Undisturbed(states, steps) && Calming(states(i))
    ensures AtRest(states(n)) && states(n).world == states(i).world
    ensures forall domain, name :: Inv(states(i), domain, name) ==> Inv(states(n), domain, name)
    decreases if states(i).crashed then 0 else 1,
              Unrest(states(i)), |Chances(states(i))|, |BusyKeys(states(i))|,
              Risk(states(i)), |states(i).queue|, ItemsLeft(states(i))
  {
    if AtRest(states(i)) {
      n := i;
    } else {
      var s, step := states(i), steps(i);
      assert NextState(s, step, states(i + 1));
      if !states(i + 1).crashed {
        StepCalms(s, step);
      }
      StepKeepsCalming(s, step);
      forall domain, name | Inv(s, domain, name) ensures Inv(states(i + 1), domain, name) {
        StepKeepsInv(s, step, domain, name);
      }
      n := RunRests(states, steps, i + 1);
    }
  }

  lemma RestingPolicy(s: State, domain: string, name: string)
    requires AtRest(s) && !s.crashed && Inv(s, domain, name) && Tracked(s, domain, name) && !GivenUp(s, domain, name)
    ensures ConvergedAt(s, domain, name) <==> !Missed(s, domain, name)
  {
    RestDecidesConvergence(s, domain, name);
  }

  /** From every reachable state, every undisturbed run comes to rest or crashes, in whatever order it takes its steps, when
      the domains have namespaces of their own. A tracked policy for which no retry limit was hit has then converged if and
      only if domain-level syncs do not miss it. */
  lemma EveryRunComesToRest(states: nat -> State, steps: nat -> Step) returns (n: nat)
    requires Reachable(states(0)) && Peaceful(states(0).world) && Undisturbed(states, steps)
    ensures AtRest(states(n)) && states(n).world == states(0).world
    ensures forall domain, name ::
              && ReachableAlone(states(0), domain) && Tracked(states(0), domain, name)
              && !states(n).crashed && !GivenUp(states(n), domain, name) ==>
                (ConvergedAt(states(n), domain, name) <==> !Missed(states(n), domain, name))
  {
    ReachableIsGenuine(states(0));
    n := RunRests(states, steps, 0);
    forall domain, name |
      && ReachableAlone(states(0), domain) && Tracked(states(0), domain, name)
      && !states(n).crashed && !GivenUp(states(n), domain, name)
      ensures ConvergedAt(states(n), domain, name) <==> !Missed(states(n), domain, name)
    {
      ReachableAloneHasInv(states(0), domain, name);
      RestingPolicy(states(n), domain, name);
    }
  }
}
