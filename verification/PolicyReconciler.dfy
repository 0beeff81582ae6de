/**
 The authorization policy controller, the API server, the informers and the dry-run directory as one step system:
 pkg/istio/authorizationpolicy/controller.go. The one worker lists the informer's cache, computes a change list, and
 handles its items one by one; anything else may happen in between.
 */
module PolicyReconciler {
  import opened AthenzData
  import opened AthenzModel
  import opened ChangeList
  import opened Configs
  import opened DomainNames
  import opened GoStrings
  import opened PolicyCompiler
  import opened PolicyController
  import opened PolicyStores
  import opened Sequences

  const QUEUE_NUM_RETRIES := 3

  /** The sync in progress: its key and the items still to be handled. */
  datatype Work = Work(key: string, items: seq<Item<PolicySpec>>)

  datatype State = State(
    world: World,                  // the domain and service informers' stores; configuration and clock
    stores: Stores,                // the API server's policies, the informer's cache, the dry-run directory
    past: set<Cfg>,                // history: the policies that the server has held
    removed: set<Key>,             // history: the keys of which it has lost a policy
    events: set<Key>,              // changes of the server that the cache has yet to hear of
    queue: set<string>,            // keys waiting, at once or after a delay
    requeues: map<string, nat>,    // their requeue counters
    work: Option<Work>,
    heard: set<Key>,               // history: keys of which the cache has heard since the last sync began
    gaveUp: set<string>,           // history: keys that hit the retry limit since their last sync
    crashed: bool)

  function NumRequeues(requeues: map<string, nat>, key: string): nat {
    if key in requeues then requeues[key] else 0
  }

  // ---- The steps. ----

  /** What the sync of a key lists and wants: the whole namespace of a domain key, or the one policy of a service key. */
  ghost predicate Listed(w: World, st: Stores, key: string, current: seq<Cfg>, desired: seq<Cfg>)
    requires DomainOfKey(key) in w.domains
  {
    var domain, name := DomainOfKey(key), NameOfKey(key);
    if name == "" then
      ShowsNamespace(current, st, DomainToNamespace(domain), w.comp) && DesiredInNamespace(desired, w, domain)
    else
      && current == AsSeq(CurrentOf(st, PolicyKey(DomainToNamespace(domain), name), w.comp))
      && desired == AsSeq(WantedAt(w, domain, name))
  }

  /** A sync that returned an error: its key is queued again, three times at most. */
  function Fail(s: State, key: string): State {
    var n := NumRequeues(s.requeues, key);
    if n < QUEUE_NUM_RETRIES then
      s.(work := None, queue := s.queue + {key}, requeues := s.requeues[key := n + 1])
    else s.(work := None, gaveUp := s.gaveUp + {key})
  }

  /** `processNextItem` and `sync` up to the change list. */
  function Start(s: State, key: string, current: seq<Cfg>, desired: seq<Cfg>): State {
    var taken := s.(queue := s.queue - {key}, heard := {});
    if DomainOfKey(key) !in s.world.domains then Fail(taken, key)
    else
      var changes := Changes(current, desired, Overridden);
      if changes == [] then taken.(gaveUp := s.gaveUp - {key}, requeues := s.requeues - {key})
      else taken.(gaveUp := s.gaveUp - {key}, work := Some(Work(key, changes)))
  }

  /** What becomes of the sync after an item. */
  function Finish(s: State, ending: Ending): State
    requires s.work.Some? && s.work.value.items != []
  {
    var Work(key, items) := s.work.value;
    match ending
    case Panicked => s.(crashed := true)
    case Ended(outcome) =>
      if outcome != Success then Fail(s, key)
      else s.(work := if |items| == 1 then None else Some(Work(key, items[1..])))
  }

  /** The stores have changed, on the server at some keys. */
  function Changed(s: State, stores: Stores, keys: set<Key>): State {
    s.(stores := stores, past := s.past + stores.api.objects.Values, removed := s.removed + (keys - stores.api.objects.Keys),
       events := s.events + keys)
  }

  /** One turn of the loop of `sync`: `processConfigChange` on the next item. */
  function HandleNext(s: State, fault: Fault): State
    requires s.work.Some? && s.work.value.items != []
  {
    var h := Handle(s.stores, s.work.value.items[0], s.world.comp, fault);
    Finish(Changed(s, h.stores, h.changed), h.ending)
  }

  /** An event of a policy: the informer stores what it was told and `EventHandler` queues the service key. The last
      event of a key brings the server's content, earlier ones what it once held, or the removal of that. */
  function Deliver(s: State, k: Key, told: Option<Cfg>, isLast: bool): State {
    s.(stores := s.stores.(cache := Put(s.stores.cache, k, told)),
       events := if isLast then s.events - {k} else s.events,
       heard := s.heard + {k},
       queue := s.queue + {ServiceKey(k.namespace, k.name)})
  }

  /** Someone else writes or deletes a policy on the server. */
  function ExternalWrite(s: State, k: Key, c: Option<Cfg>): State {
    var revision := s.stores.api.revision + 1;
    var stored := if c.Some? then Some(c.value.(meta := c.value.meta.(key := k, resourceVersion := revision))) else None;
    Changed(s, s.stores.(api := Store(Put(s.stores.api.objects, k, stored), revision)), {k})
  }

  /** A domain or service appears, changes or goes; `processEvent` queues its key. */
  function WorldEvent(s: State, w: World, key: string): State {
    s.(world := w, queue := s.queue + {key})
  }

  datatype Step =
    | StepSync(key: string, current: seq<Cfg>, desired: seq<Cfg>)
    | StepItem(fault: Fault)
    | StepDeliver(k: Key, told: Option<Cfg>, isLast: bool)
    | StepExternal(k: Key, c: Option<Cfg>)
    | StepDomain(d: DomainValue)
    | StepDomainDeleted(key: string)
    | StepService(s: Service)
    | StepServiceDeleted(key: string)
    | StepResync

  ghost predicate Enabled(s: State, step: Step) {
    match step
    case StepSync(key, current, desired) =>
      && !s.crashed && s.work.None? && key in s.queue
      && (DomainOfKey(key) in s.world.domains ==> Listed(s.world, s.stores, key, current, desired))
    case StepItem(_) => !s.crashed && s.work.Some? && s.work.value.items != []
    case StepDeliver(k, told, isLast) =>
      && k in s.events
      && (if isLast then told == Get(s.stores.api.objects, k)
          else if told.None? then k in s.removed
          else told.value.meta.key == k && told.value in s.past)
    case StepExternal(k, c) => c.Some? || k in s.stores.api.objects
    case StepDomain(d) => '/' !in d.name
    case StepService(svc) => '/' !in svc.namespace && ObjectName(svc.name)
    case _ => true
  }

  function Apply(s: State, step: Step): State
    requires step.StepItem? ==> s.work.Some? && s.work.value.items != []
  {
    match step
    case StepSync(key, current, desired) => Start(s, key, current, desired)
    case StepItem(fault) => HandleNext(s, fault)
    case StepDeliver(k, told, isLast) => Deliver(s, k, told, isLast)
    case StepExternal(k, c) => ExternalWrite(s, k, c)
    case StepDomain(d) => WorldEvent(s, s.world.(domains := s.world.domains[d.name := d]), d.name)
    case StepDomainDeleted(key) => WorldEvent(s, s.world.(domains := s.world.domains - {key}), key)
    case StepService(svc) =>
      var key := ServiceKey(svc.namespace, svc.name);
      WorldEvent(s, s.world.(services := s.world.services[key := svc]), key)
    case StepServiceDeleted(key) => WorldEvent(s, s.world.(services := s.world.services - {key}), key)
    case StepResync => s.(queue := s.queue + s.world.domains.Keys)
  }

  ghost predicate PastHolds(s: State) {
    && (forall c :: c in s.past ==> EnabledKey(s.world.comp, c.meta.key) || Overridden(c))
    && (forall k :: k in s.stores.api.objects ==> s.stores.api.objects[k] in s.past)
  }

  /** The cache differs from the server only where an event is pending. */
  ghost predicate CacheLags(s: State) {
    && (forall k :: k in s.stores.cache ==> s.stores.cache[k].meta.key == k)
    && (forall k :: Get(s.stores.cache, k) != Get(s.stores.api.objects, k) ==> k in s.events)
  }

  ghost predicate CacheRoutedButFor(cache: map<Key, Cfg>, comp: ComponentEnabled, events: set<Key>) {
    forall k :: k in cache ==> EnabledKey(comp, k) || Overridden(cache[k]) || k in events
  }

  /** The controller starts its work when the process has emptied the dry-run directory, the caches have synced, and
      the clean-up has removed from the server what it should not have; events of the clean-up may be pending. */
  ghost predicate Init(s: State) {
    && s.stores.dry == map[] && WellFormed(s.stores.api) && Routed(s.stores, s.world.comp)
    && WellFormed(Store(s.stores.cache, s.stores.api.revision))
    && CacheLags(s) && CacheRoutedButFor(s.stores.cache, s.world.comp, s.events)
    && s.past == s.stores.api.objects.Values && s.removed == s.events && s.events !! s.stores.api.objects.Keys
    && WellKeyed(s.world)
    && s.world.domains.Keys <= s.queue && s.world.services.Keys <= s.queue
    && s.requeues == map[] && s.work == None && s.gaveUp == {} && !s.crashed
  }

  /** The state that a run of enabled steps leads to. */
  ghost predicate Run(s: State, steps: seq<Step>, s': State)
    decreases |steps|
  {
    if steps == [] then s' == s
    else
      var n := |steps| - 1;
      exists mid :: Run(s, steps[..n], mid) && Enabled(mid, steps[n]) && s' == Apply(mid, steps[n])
  }

  lemma RunOfOne(s: State, step: Step)
    requires Enabled(s, step)
    ensures Run(s, [step], Apply(s, step))
  {
    assert [step][..0] == [];
    assert Run(s, [], s);
  }

  lemma RunOneMore(s: State, steps: seq<Step>, mid: State, step: Step)
    requires Run(s, steps, mid) && Enabled(mid, step)
    ensures Run(s, steps + [step], Apply(mid, step))
  {
    assert (steps + [step])[..|steps|] == steps;
  }

  lemma LastOfRun(s: State, steps: seq<Step>, s': State) returns (mid: State)
    requires Run(s, steps, s') && steps != []
    ensures var n := |steps| - 1;
            Run(s, steps[..n], mid) && Enabled(mid, steps[n]) && s' == Apply(mid, steps[n])
  {
    var n := |steps| - 1;
    mid :| Run(s, steps[..n], mid) && Enabled(mid, steps[n]) && s' == Apply(mid, steps[n]);
  }

  lemma RunOneMoreAfter(s: State, a: seq<Step>, init: seq<Step>, last: State, step: Step)
    requires Run(s, a + init, last) && Enabled(last, step)
    ensures Run(s, a + (init + [step]), Apply(last, step))
  {
    RunOneMore(s, a + init, last, step);
    AppendIsAssociative(a, init, [step]);
  }

  lemma RunJoined(s: State, a: seq<Step>, b: seq<Step>, last: State, s': State)
    requires b != [] && Run(s, a + b[..|b| - 1], last) && Enabled(last, b[|b| - 1]) && s' == Apply(last, b[|b| - 1])
    ensures Run(s, a + b, s')
  {
    assert b[..|b| - 1] + [b[|b| - 1]] == b;
    RunOneMoreAfter(s, a, b[..|b| - 1], last, b[|b| - 1]);
  }

  lemma {:induction false} RunConcat(s: State, a: seq<Step>, mid: State, b: seq<Step>, s': State)
    requires Run(s, a, mid) && Run(mid, b, s')
    ensures Run(s, a + b, s')
    decreases |b|
  {
    if b == [] {
      assert a + b == a;
    } else {
      var last := LastOfRun(mid, b, s');
      RunConcat(s, a, mid, b[..|b| - 1], last);
      RunJoined(s, a, b, last, s');
    }
  }

  /** The environment keeps to the routing: nobody else puts a policy that is neither enabled nor overridden on the
      server. */
  ghost predicate Orderly(step: Step, comp: ComponentEnabled) {
    step.StepExternal? && step.c.Some? ==> EnabledKey(comp, step.k) || Overridden(step.c.value)
  }

  ghost predicate AllOrderly(steps: seq<Step>, comp: ComponentEnabled) {
    forall step :: step in steps ==> Orderly(step, comp)
  }

  ghost predicate Reachable(s: State) {
    exists s0, steps :: Init(s0) && Run(s0, steps, s)
  }

  ghost predicate OrderlyReachable(s: State) {
    exists s0, steps :: Init(s0) && Run(s0, steps, s) && AllOrderly(steps, s0.world.comp)
  }

  // ---- What every step keeps. ----

  ghost predicate DryRouted(st: Stores, comp: ComponentEnabled) {
    forall k :: k in st.dry ==> st.dry[k].meta.key == k && !EnabledKey(comp, k)
  }

  ghost predicate Sound(s: State) {
    && WellFormed(s.stores.api) && CacheLags(s) && DryRouted(s.stores, s.world.comp) && WellKeyed(s.world)
    && (forall key :: key in s.requeues ==> s.requeues[key] <= QUEUE_NUM_RETRIES)
    && (s.work.Some? ==> s.work.value.items != [])
  }

  /** An item that is waiting suits what the cache has under its key, unless news of the key is on its way or has arrived
      since the sync began. */
  ghost predicate ItemSuits(s: State, x: Item<PolicySpec>) {
    var k := x.resource.meta.key;
    EnabledKey(s.world.comp, k) ==>
      k in s.events || k in s.heard || (x.operation.Add? <==> k !in s.stores.cache)
  }

  ghost predicate WorkSuits(s: State) {
    s.work.Some? ==>
      && (forall x :: x in s.work.value.items ==> ItemSuits(s, x))
      && (forall k :: k in s.heard ==> ServiceKey(k.namespace, k.name) in s.queue)
  }

  /** A call of the server keeps it well formed and announces what it changes. */
  lemma CallIsAnnounced(api: Store<PolicySpec>, x: Item<PolicySpec>, fault: Fault)
    requires WellFormed(api)
    ensures var (after, changed, _) := CallServer(api, x, fault);
            && WellFormed(after) && changed <= {x.resource.meta.key}
            && forall k :: k !in changed ==> Get(after.objects, k) == Get(api.objects, k)
  {
  }

  lemma HandleKeepsLag(st: Stores, x: Item<PolicySpec>, comp: ComponentEnabled, fault: Fault)
    requires WellFormed(st.api) && DryRouted(st, comp)
    ensures var h := Handle(st, x, comp, fault);
            && WellFormed(h.stores.api) && DryRouted(h.stores, comp) && h.stores.cache == st.cache
            && h.changed <= {x.resource.meta.key}
            && forall k :: k !in h.changed ==> Get(h.stores.api.objects, k) == Get(st.api.objects, k)
  {
    if EnabledKey(comp, x.resource.meta.key) && (x.operation.Update? ==> x.resource.meta.key in st.cache) {
      CallIsAnnounced(st.api, Sent(st, x), fault);
    }
  }

  /** A failed sync is noted and changes nothing else. */
  lemma FailEffects(s: State, key: string)
    ensures var s' := Fail(s, key);
            && s' == s.(work := None, queue := s'.queue, requeues := s'.requeues, gaveUp := s'.gaveUp)
            && s.queue <= s'.queue && s.gaveUp <= s'.gaveUp && (key in s'.queue || key in s'.gaveUp)
  {
  }

  lemma FinishEffects(s: State, ending: Ending)
    requires s.work.Some? && s.work.value.items != []
    ensures var s', Work(key, items) := Finish(s, ending), s.work.value;
            && s'.world == s.world && s'.stores == s.stores && s'.past == s.past && s'.removed == s.removed
            && s'.events == s.events && s'.heard == s.heard
            && s.queue <= s'.queue && s.gaveUp <= s'.gaveUp && s'.crashed == (s.crashed || ending.Panicked?)
            && match ending
               case Panicked => s'.work == s.work
               case Ended(outcome) =>
                 if outcome == Success then s'.work == if |items| == 1 then None else Some(Work(key, items[1..]))
                 else s'.work == None && (key in s'.queue || key in s'.gaveUp)
  {
    FailEffects(s, s.work.value.key);
  }

  /** What handling the next item does: to the stores what its handler does, and to the sync what its ending asks for. */
  lemma HandleNextEffects(s: State, fault: Fault)
    requires s.work.Some? && s.work.value.items != []
    ensures var s', Work(key, items) := HandleNext(s, fault), s.work.value;
            var h := Handle(s.stores, items[0], s.world.comp, fault);
            && s'.world == s.world && s'.stores == h.stores && s'.past == s.past + h.stores.api.objects.Values
            && s'.events == s.events + h.changed && s'.heard == s.heard
            && s.queue <= s'.queue && s.gaveUp <= s'.gaveUp && s'.crashed == (s.crashed || h.ending.Panicked?)
            && match h.ending
               case Panicked => s'.work == s.work
               case Ended(outcome) =>
                 if outcome == Success then s'.work == if |items| == 1 then None else Some(Work(key, items[1..]))
                 else s'.work == None && (key in s'.queue || key in s'.gaveUp)
  {
    var h := Handle(s.stores, s.work.value.items[0], s.world.comp, fault);
    FinishEffects(Changed(s, h.stores, h.changed), h.ending);
  }

  lemma FailKeepsSound(s: State, key: string)
    requires Sound(s)
    ensures Sound(Fail(s, key))
  {
  }

  lemma FinishKeepsSound(s: State, ending: Ending)
    requires Sound(s) && s.work.Some?
    ensures Sound(Finish(s, ending))
  {
    FailKeepsSound(s, s.work.value.key);
  }

  lemma HandleNextKeepsSound(s: State, fault: Fault)
    requires Sound(s) && s.work.Some?
    ensures Sound(HandleNext(s, fault))
  {
    var h := Handle(s.stores, s.work.value.items[0], s.world.comp, fault);
    HandleKeepsLag(s.stores, s.work.value.items[0], s.world.comp, fault);
    FinishKeepsSound(Changed(s, h.stores, h.changed), h.ending);
  }

  lemma PutChangesOneKey(m: map<Key, Cfg>, k: Key, c: Option<Cfg>)
    ensures Get(Put(m, k, c), k) == c && forall k' :: k' != k ==> Get(Put(m, k, c), k') == Get(m, k')
  {
  }

  lemma DeliverKeepsSound(s: State, k: Key, told: Option<Cfg>, isLast: bool)
    requires Sound(s) && Enabled(s, StepDeliver(k, told, isLast))
    ensures Sound(Deliver(s, k, told, isLast))
  {
    var s' := Deliver(s, k, told, isLast);
    assert WellKeyed(s'.world) && DryRouted(s'.stores, s'.world.comp);
    PutChangesOneKey(s.stores.cache, k, told);
  }

  lemma ExternalKeepsSound(s: State, k: Key, c: Option<Cfg>)
    requires Sound(s)
    ensures Sound(ExternalWrite(s, k, c))
  {
    var s' := ExternalWrite(s, k, c);
    forall k' | k' != k ensures Get(s'.stores.api.objects, k') == Get(s.stores.api.objects, k') {
    }
  }

  lemma WorldKeepsSound(s: State, step: Step)
    requires Sound(s) && Enabled(s, step)
    requires step.StepDomain? || step.StepDomainDeleted? || step.StepService? || step.StepServiceDeleted?
    ensures Sound(Apply(s, step))
  {
  }

  lemma StartKeepsSound(s: State, key: string, current: seq<Cfg>, desired: seq<Cfg>)
    requires Sound(s)
    ensures Sound(Start(s, key, current, desired))
  {
    if DomainOfKey(key) !in s.world.domains {
      FailKeepsSound(s.(queue := s.queue - {key}, heard := {}), key);
    }
  }

  lemma StepKeepsSound(s: State, step: Step)
    requires Sound(s) && Enabled(s, step)
    ensures Sound(Apply(s, step))
  {
    match step
    case StepSync(key, current, desired) => StartKeepsSound(s, key, current, desired);
    case StepItem(fault) => HandleNextKeepsSound(s, fault);
    case StepDeliver(k, told, isLast) => DeliverKeepsSound(s, k, told, isLast);
    case StepExternal(k, c) => ExternalKeepsSound(s, k, c);
    case StepResync =>
    case _ => WorldKeepsSound(s, step);
  }

  /** What a sync lists and wants is of its namespace, and of its name if it has one. */
  predicate OfKey(key: string, k: Key) {
    PolicyIn(k, DomainToNamespace(DomainOfKey(key))) && (NameOfKey(key) == "" || k.name == NameOfKey(key))
  }

  /** Under an enabled key a listing shows what the cache has. */
  ghost predicate ShowsCache(w: World, st: Stores, current: seq<Cfg>, k: Key) {
    EnabledKey(w.comp, k) ==> Get(KeyedMap(current), k) == Get(st.cache, k)
  }

  lemma DomainListedKeys(w: World, st: Stores, domain: string, current: seq<Cfg>, desired: seq<Cfg>, k: Key)
    requires domain in w.domains && DryRouted(st, w.comp) && forall k :: k in st.cache ==> st.cache[k].meta.key == k
    requires ShowsNamespace(current, st, DomainToNamespace(domain), w.comp) && DesiredInNamespace(desired, w, domain)
    ensures forall c :: c in current || c in desired ==> PolicyIn(c.meta.key, DomainToNamespace(domain))
    ensures PolicyIn(k, DomainToNamespace(domain)) ==> ShowsCache(w, st, current, k)
  {
    NamespaceListingShows(current, st, DomainToNamespace(domain), w.comp);
  }

  lemma ServiceListedKeys(w: World, st: Stores, domain: string, name: string, k: Key)
    requires domain in w.domains && WellKeyed(w) && DryRouted(st, w.comp)
    requires forall k :: k in st.cache ==> st.cache[k].meta.key == k
    ensures var own := PolicyKey(DomainToNamespace(domain), name);
            var current, desired := AsSeq(CurrentOf(st, own, w.comp)), AsSeq(WantedAt(w, domain, name));
            && (forall c :: c in current || c in desired ==> c.meta.key == own)
            && (k == own ==> ShowsCache(w, st, current, k))
  {
    var own := PolicyKey(DomainToNamespace(domain), name);
    WantedKey(w, domain, name);
    OneConfigMap(CurrentOf(st, own, w.comp), own);
  }

  lemma ListedKeys(w: World, st: Stores, key: string, current: seq<Cfg>, desired: seq<Cfg>, k: Key)
    requires DomainOfKey(key) in w.domains && WellKeyed(w) && DryRouted(st, w.comp)
    requires forall k :: k in st.cache ==> st.cache[k].meta.key == k
    requires Listed(w, st, key, current, desired)
    ensures forall c :: c in current || c in desired ==> OfKey(key, c.meta.key)
    ensures OfKey(key, k) ==> ShowsCache(w, st, current, k)
  {
    if NameOfKey(key) == "" {
      DomainListedKeys(w, st, DomainOfKey(key), current, desired, k);
    } else {
      ServiceListedKeys(w, st, DomainOfKey(key), NameOfKey(key), k);
    }
  }

  /** An item's key is that of a listed or of a desired policy. */
  lemma ChangeKey(current: seq<Cfg>, desired: seq<Cfg>, x: Item<PolicySpec>)
    requires x in Changes(current, desired, Overridden)
    ensures exists c :: (c in current || c in desired) && c.meta.key == x.resource.meta.key
    ensures x.operation.Add? <==> x.resource.meta.key !in KeyedMap(current)
  {
    ChangesContain(current, desired, Overridden, x);
    KeyedMapContains(current);
  }

  /** The items of a sync are of its key and suit the cache that it has listed. */
  lemma ListedItemsSuit(w: World, st: Stores, key: string, current: seq<Cfg>, desired: seq<Cfg>, x: Item<PolicySpec>)
    requires DomainOfKey(key) in w.domains && WellKeyed(w) && DryRouted(st, w.comp)
    requires forall k :: k in st.cache ==> st.cache[k].meta.key == k
    requires Listed(w, st, key, current, desired) && x in Changes(current, desired, Overridden)
    ensures OfKey(key, x.resource.meta.key)
    ensures EnabledKey(w.comp, x.resource.meta.key) ==> (x.operation.Add? <==> x.resource.meta.key !in st.cache)
  {
    ChangeKey(current, desired, x);
    ListedKeys(w, st, key, current, desired, x.resource.meta.key);
  }

  lemma StartKeepsWorkSuits(s: State, key: string, current: seq<Cfg>, desired: seq<Cfg>)
    requires Sound(s) && Enabled(s, StepSync(key, current, desired))
    ensures WorkSuits(Start(s, key, current, desired))
  {
    var s' := Start(s, key, current, desired);
    if s'.work.Some? {
      forall x | x in s'.work.value.items ensures ItemSuits(s', x) {
        ListedItemsSuit(s.world, s.stores, key, current, desired, x);
      }
    }
  }

  lemma FewerItemsSuit(s: State, s': State)
    requires WorkSuits(s) && s.work.Some? && s.queue <= s'.queue && s.events <= s'.events
    requires s'.world == s.world && s'.stores.cache == s.stores.cache && s'.heard == s.heard
    requires s'.work.Some? ==> forall x :: x in s'.work.value.items ==> x in s.work.value.items
    ensures WorkSuits(s')
  {
    if s'.work.Some? {
      forall x | x in s'.work.value.items ensures ItemSuits(s', x) {
        assert ItemSuits(s, x);
      }
    }
  }

  lemma HandleNextKeepsWorkSuits(s: State, fault: Fault)
    requires Sound(s) && WorkSuits(s) && s.work.Some?
    ensures WorkSuits(HandleNext(s, fault))
  {
    HandleNextEffects(s, fault);
    HandleKeepsLag(s.stores, s.work.value.items[0], s.world.comp, fault);
    FewerItemsSuit(s, HandleNext(s, fault));
  }

  lemma StepKeepsWorkSuits(s: State, step: Step)
    requires Sound(s) && WorkSuits(s) && Enabled(s, step)
    ensures WorkSuits(Apply(s, step))
  {
    match step
    case StepSync(key, current, desired) => StartKeepsWorkSuits(s, key, current, desired);
    case StepItem(fault) => HandleNextKeepsWorkSuits(s, fault);
    case _ =>
      var s' := Apply(s, step);
      if s'.work.Some? {
        forall x | x in s'.work.value.items ensures ItemSuits(s', x) {
          assert ItemSuits(s, x);
        }
      }
  }

  lemma InitIsSound(s: State)
    requires Init(s)
    ensures Sound(s) && WorkSuits(s)
  {
  }

  lemma {:induction false} RunKeepsSound(s: State, steps: seq<Step>, s': State)
    requires Sound(s) && WorkSuits(s) && Run(s, steps, s')
    ensures Sound(s') && WorkSuits(s')
    decreases |steps|
  {
    if steps != [] {
      var n := |steps| - 1;
      var mid :| Run(s, steps[..n], mid) && Enabled(mid, steps[n]) && s' == Apply(mid, steps[n]);
      RunKeepsSound(s, steps[..n], mid);
      StepKeepsSound(mid, steps[n]);
      StepKeepsWorkSuits(mid, steps[n]);
    }
  }

  /** When the next item of a sync would not succeed, news of its key is on its way, or has arrived since the sync began
      and queued the service key; a sync that no news disturbs meets its objects. */
  lemma ItemsFailOnNewsOnly(s: State)
    requires Reachable(s) && s.work.Some? && s.work.value.items != []
    ensures var x := s.work.value.items[0]; var k := x.resource.meta.key;
            Handle(s.stores, x, s.world.comp, Answered).ending != Ended(Success) ==>
              k in s.events || (k in s.heard && ServiceKey(k.namespace, k.name) in s.queue)
  {
    var s0, steps :| Init(s0) && Run(s0, steps, s);
    InitIsSound(s0);
    RunKeepsSound(s0, steps, s);
    var x := s.work.value.items[0];
    var k := x.resource.meta.key;
    HandleSucceedsIff(s.stores, x, s.world.comp);
    assert ItemSuits(s, x);
    if k !in s.events {
      assert Get(s.stores.cache, k) == Get(s.stores.api.objects, k);
    }
  }

  /** In every reachable state no requeue counter exceeds the limit. */
  lemma RetriesAreBounded(s: State)
    requires Reachable(s)
    ensures forall key :: NumRequeues(s.requeues, key) <= QUEUE_NUM_RETRIES
  {
    var s0, steps :| Init(s0) && Run(s0, steps, s);
    InitIsSound(s0);
    RunKeepsSound(s0, steps, s);
  }

  // ---- Routing. ----

  /** Enabled policies are only on the server and others only in the directory, overridden API entries excepted; so
      was it in the past, and so it will be in the cache when it has heard of everything. */
  ghost predicate RoutedState(s: State) {
    && Routed(s.stores, s.world.comp) && PastHolds(s)
    && CacheRoutedButFor(s.stores.cache, s.world.comp, s.events)
  }

  lemma RoutedValues(objects: map<Key, Cfg>, comp: ComponentEnabled)
    requires forall k :: k in objects ==> objects[k].meta.key == k && (EnabledKey(comp, k) || Overridden(objects[k]))
    ensures forall c :: c in objects.Values ==> EnabledKey(comp, c.meta.key) || Overridden(c)
  {
  }

  /** With new stores that are routed and the same cache, the state stays routed. */
  lemma NewStoresRouted(s: State, s': State)
    requires RoutedState(s) && Routed(s'.stores, s.world.comp) && s'.world == s.world && s'.stores.cache == s.stores.cache
    requires s.events <= s'.events && s'.past == s.past + s'.stores.api.objects.Values
    ensures RoutedState(s')
  {
    RoutedValues(s'.stores.api.objects, s.world.comp);
  }

  lemma HandleNextKeepsRouted(s: State, fault: Fault)
    requires Sound(s) && RoutedState(s) && s.work.Some?
    ensures RoutedState(HandleNext(s, fault))
  {
    var x, comp := s.work.value.items[0], s.world.comp;
    HandleKeepsRouted(s.stores, x, comp, fault);
    HandleKeepsLag(s.stores, x, comp, fault);
    HandleNextEffects(s, fault);
    NewStoresRouted(s, HandleNext(s, fault));
  }

  lemma ExternalKeepsRouted(s: State, k: Key, c: Option<Cfg>)
    requires Sound(s) && RoutedState(s) && Orderly(StepExternal(k, c), s.world.comp)
    ensures RoutedState(ExternalWrite(s, k, c))
  {
    var s', comp := ExternalWrite(s, k, c), s.world.comp;
    var objects := s'.stores.api.objects;
    forall k' | k' in objects
      ensures objects[k'].meta.key == k' && (EnabledKey(comp, k') || Overridden(objects[k']))
    {
      if k' != k {
        assert objects[k'] == s.stores.api.objects[k'];
      }
    }
    NewStoresRouted(s, s');
  }

  lemma DeliverKeepsRouted(s: State, k: Key, told: Option<Cfg>, isLast: bool)
    requires Sound(s) && RoutedState(s) && Enabled(s, StepDeliver(k, told, isLast))
    ensures RoutedState(Deliver(s, k, told, isLast))
  {
  }

  lemma StepKeepsRouted(s: State, step: Step)
    requires Sound(s) && RoutedState(s) && Enabled(s, step) && Orderly(step, s.world.comp)
    ensures RoutedState(Apply(s, step))
  {
    match step
    case StepSync(key, current, desired) => FailEffects(s.(queue := s.queue - {key}, heard := {}), key);
    case StepItem(fault) => HandleNextKeepsRouted(s, fault);
    case StepDeliver(k, told, isLast) => DeliverKeepsRouted(s, k, told, isLast);
    case StepExternal(k, c) => ExternalKeepsRouted(s, k, c);
    case _ =>
  }

  lemma StepKeepsComp(s: State, step: Step)
    requires Enabled(s, step)
    ensures Apply(s, step).world.comp == s.world.comp
  {
  }

  lemma {:induction false} RunKeepsRouted(s: State, steps: seq<Step>, s': State)
    requires Sound(s) && WorkSuits(s) && RoutedState(s) && Run(s, steps, s') && AllOrderly(steps, s.world.comp)
    ensures RoutedState(s') && s'.world.comp == s.world.comp
    decreases |steps|
  {
    if steps != [] {
      var n := |steps| - 1;
      var mid :| Run(s, steps[..n], mid) && Enabled(mid, steps[n]) && s' == Apply(mid, steps[n]);
      RunKeepsSound(s, steps[..n], mid);
      RunKeepsRouted(s, steps[..n], mid);
      StepKeepsRouted(mid, steps[n]);
      StepKeepsComp(mid, steps[n]);
    }
  }

  /** The two-store invariant: in every reachable state, however syncs and events interleave and wherever API calls
      fail, enabled policies are only on the API server and others only in the dry-run directory, overridden API
      entries excepted, as long as nobody else puts others on the server. */
  lemma ReachableStoresAreRouted(s: State)
    requires OrderlyReachable(s)
    ensures Routed(s.stores, s.world.comp)
  {
    var s0, steps :| Init(s0) && Run(s0, steps, s) && AllOrderly(steps, s0.world.comp);
    InitIsSound(s0);
    RunKeepsRouted(s0, steps, s);
  }

  // ---- The failing inputs. ----

  /** A world in which one service of a namespace is annotated and enabled. */
  ghost predicate OneService(w: World, domain: string, name: string) {
    && WellKeyed(w) && domain in w.domains && Decodable(domain) && ObjectName(name)
    && w.comp.IsEnabled(name, DomainToNamespace(domain))
    && forall n :: WantedAt(w, domain, n).Some? <==> n == name
  }

  lemma AdditionIsWritten(s: State, key: string, c: Cfg)
    requires s.work == Some(Work(key, [Item(Add, c)])) && s.stores == Stores(Store(map[], 0), map[], map[])
    requires EnabledKey(s.world.comp, c.meta.key)
    ensures var s' := HandleNext(s, Answered);
            && c.meta.key in s'.stores.api.objects && s'.stores.cache == map[] && s'.stores.dry == map[]
            && s' == s.(stores := s'.stores, past := s'.past, removed := s'.removed, events := s'.events, work := None)
            && s'.stores.api.objects.Values <= s'.past
  {
  }

  lemma SecondAdditionFails(s: State, key: string, c: Cfg)
    requires s.work == Some(Work(key, [Item(Add, c)])) && EnabledKey(s.world.comp, c.meta.key)
    requires c.meta.key in s.stores.api.objects && s.stores.api.objects.Values <= s.past
    ensures Handle(s.stores, Item(Add, c), s.world.comp, Answered) == Handled(s.stores, {}, Ended(AlreadyExists))
    ensures HandleNext(s, Answered) == Fail(s, key)
  {
    assert s.past + s.stores.api.objects.Values == s.past;
    assert s.events + {} == s.events && s.removed + ({} - s.stores.api.objects.Keys) == s.removed;
  }

  lemma DomainKeyRead(w: World, domain: string)
    requires WellKeyed(w) && domain in w.domains
    ensures DomainOfKey(domain) == domain && NameOfKey(domain) == ""
  {
  }

  lemma EmptyListing(st: Stores, namespace: string, comp: ComponentEnabled)
    requires st.cache == map[] && st.dry == map[]
    ensures ShowsNamespace([], st, namespace, comp)
  {
    var none: seq<Cfg> := [];
    assert ListsOnce(none, st.cache, namespace) && ListsOnce(none, st.dry, namespace);
    assert none == none + none;
  }

  lemma OneDesired(w: World, domain: string, name: string)
    requires OneService(w, domain, name)
    ensures DesiredInNamespace(AsSeq(WantedAt(w, domain, name)), w, domain)
  {
    var c := WantedAt(w, domain, name).value;
    WantedKey(w, domain, name);
    forall d ensures d in [c] <==>
      d.meta.key == PolicyKey(DomainToNamespace(domain), d.meta.key.name) && WantedAt(w, domain, d.meta.key.name) == Some(d)
    {
    }
  }

  lemma FirstSync(s: State, domain: string, name: string) returns (s1: State, s2: State)
    requires Sound(s) && !s.crashed && s.work.None? && OneService(s.world, domain, name)
    requires s.stores == Stores(Store(map[], 0), map[], map[]) && ServiceKey(DomainToNamespace(domain), name) in s.queue
    ensures var key, wanted := ServiceKey(DomainToNamespace(domain), name), WantedAt(s.world, domain, name);
            && Enabled(s, StepSync(key, [], AsSeq(wanted))) && s1 == Start(s, key, [], AsSeq(wanted))
            && Enabled(s1, StepItem(Answered)) && s2 == HandleNext(s1, Answered)
            && s2 == s.(queue := s.queue - {key}, gaveUp := s.gaveUp - {key}, heard := {}, stores := s2.stores,
                        past := s2.past, removed := s2.removed, events := s2.events)
            && s2.stores.cache == map[] && s2.stores.dry == map[] && s2.stores.api.objects.Values <= s2.past
            && wanted.value.meta.key in s2.stores.api.objects
  {
    var ns := DomainToNamespace(domain);
    var key, wanted := ServiceKey(ns, name), WantedAt(s.world, domain, name);
    WantedKey(s.world, domain, name);
    ServiceKeyRead(domain, name);
    ChangesOfOne(None, wanted, PolicyKey(ns, name));
    s1 := Start(s, key, [], AsSeq(wanted));
    s2 := HandleNext(s1, Answered);
    AdditionIsWritten(s1, key, wanted.value);
  }

  lemma SecondSync(s: State, domain: string, name: string) returns (s': State)
    requires WellKeyed(s.world) && !s.crashed && s.work.None? && OneService(s.world, domain, name) && domain in s.queue
    requires s.stores.cache == map[] && s.stores.dry == map[] && s.stores.api.objects.Values <= s.past
    requires WantedAt(s.world, domain, name).value.meta.key in s.stores.api.objects
    ensures var desired := AsSeq(WantedAt(s.world, domain, name));
            && Enabled(s, StepSync(domain, [], desired)) && s' == Start(s, domain, [], desired)
            && Enabled(s', StepItem(Answered)) && HandleNext(s', Answered) == Fail(s', domain)
            && Handle(s'.stores, s'.work.value.items[0], s.world.comp, Answered).ending == Ended(AlreadyExists)
  {
    var ns, wanted := DomainToNamespace(domain), WantedAt(s.world, domain, name);
    WantedKey(s.world, domain, name);
    DomainKeyRead(s.world, domain);
    ChangesOfOne(None, wanted, PolicyKey(ns, name));
    EmptyListing(s.stores, ns, s.world.comp);
    OneDesired(s.world, domain, name);
    s' := Start(s, domain, [], AsSeq(wanted));
    SecondAdditionFails(s', domain, wanted.value);
  }

  lemma DomainHasNoSlash(w: World, domain: string, namespace: string, name: string)
    requires WellKeyed(w) && domain in w.domains
    ensures domain != ServiceKey(namespace, name)
  {
    assert ServiceKey(namespace, name)[|namespace|] == '/';
  }

  /** Two keys of one service are queued: the service's and the domain's. The first sync creates the policy; the
      second, which runs before the cache hears of it, computes the same addition, and the server refuses it. */
  lemma StaleAdditionFails(s: State, domain: string, name: string) returns (s1: State, s2: State, s3: State)
    requires Sound(s) && !s.crashed && s.work.None? && OneService(s.world, domain, name)
    requires s.stores == Stores(Store(map[], 0), map[], map[])
    requires ServiceKey(DomainToNamespace(domain), name) in s.queue && domain in s.queue
    ensures var key, desired := ServiceKey(DomainToNamespace(domain), name), AsSeq(WantedAt(s.world, domain, name));
            && Enabled(s, StepSync(key, [], desired)) && s1 == Start(s, key, [], desired)
            && Enabled(s1, StepItem(Answered)) && s2 == HandleNext(s1, Answered)
            && Enabled(s2, StepSync(domain, [], desired)) && s3 == Start(s2, domain, [], desired)
            && Enabled(s3, StepItem(Answered)) && HandleNext(s3, Answered) == Fail(s3, domain)
            && Handle(s3.stores, s3.work.value.items[0], s.world.comp, Answered).ending == Ended(AlreadyExists)
  {
    s1, s2 := FirstSync(s, domain, name);
    assert domain in s2.queue by {
      DomainHasNoSlash(s.world, domain, DomainToNamespace(domain), name);
    }
    s3 := SecondSync(s2, domain, name);
  }

  /** A start of the system at which an addition fails so: an enabled service "s" of a domain "d". */
  function FailingStart(): State {
    var svc := Service("s", "d", map[AUTHZ_ENABLED_ANNOTATION := AUTHZ_ENABLED], map[]);
    var w := World(map["d" := DomainValue("d", [], [], [])], map["d/s" := svc], ComponentEnabled({}, {}, true), false, 0,
                   (pattern, svcLabel) => Matches);
    State(w, Stores(Store(map[], 0), map[], map[]), {}, {}, {}, {"d", "d/s"}, map[], None, {}, {}, false)
  }

  lemma FailingNamespace()
    ensures DomainToNamespace("d") == "d"
  {
    assert "d"[..1] == "d" && "d"[1..] == "" && "d" != "-" && "d" != ".";
    assert ReplaceAll("d", "-", "--") == "d" && ReplaceAll("d", ".", "-") == "d";
  }

  lemma FailingService(n: string)
    ensures WantedAt(FailingStart().world, "d", n).Some? <==> n == "s"
  {
    FailingNamespace();
    var w := FailingStart().world;
    assert ServiceKey("d", "s") == "d/s";
    if ServiceKey("d", n) in w.services {
      assert ServiceKey("d", n) == "d/s";
      assert ServiceKey("d", n)[2..] == n && "d/s"[2..] == "s";
    }
  }

  lemma FailingStartIsPossible()
    ensures var s := FailingStart();
            Init(s) && OneService(s.world, "d", "s") && ServiceKey(DomainToNamespace("d"), "s") in s.queue
  {
    FailingNamespace();
    assert ServiceKey("d", "s") == "d/s";
    forall n ensures WantedAt(FailingStart().world, "d", n).Some? <==> n == "s" {
      FailingService(n);
    }
  }

  /** An enabled policy of an annotated service, neither wanted as it is nor overridden, on the server and in the cache. */
  ghost predicate Outdated(s: State, domain: string, name: string) {
    && WellKeyed(s.world) && domain in s.world.domains && Decodable(domain) && ObjectName(name)
    && var k, wanted := PolicyKey(DomainToNamespace(domain), name), WantedAt(s.world, domain, name);
       && EnabledKey(s.world.comp, k) && k in s.stores.api.objects && k in s.stores.cache && wanted.Some?
       && s.stores.cache[k].meta.key == k && !Overridden(s.stores.cache[k]) && s.stores.cache[k].spec != wanted.value.spec
  }

  /** The update that a sync has for a policy that is not the wanted one. */
  lemma OutdatedNeedsUpdate(s: State, domain: string, name: string) returns (s': State)
    requires Outdated(s, domain, name) && !s.crashed && s.work.None?
    requires ServiceKey(DomainToNamespace(domain), name) in s.queue
    ensures var key, k := ServiceKey(DomainToNamespace(domain), name), PolicyKey(DomainToNamespace(domain), name);
            var current, desired := [s.stores.cache[k]], AsSeq(WantedAt(s.world, domain, name));
            && Enabled(s, StepSync(key, current, desired)) && s' == Start(s, key, current, desired)
            && s'.work.Some? && |s'.work.value.items| == 1 && s'.work.value.items[0].operation.Update?
            && s'.work.value.items[0].resource.meta.key == k
            && s'.stores == s.stores && s'.world == s.world && !s'.crashed
  {
    var ns := DomainToNamespace(domain);
    var k, wanted := PolicyKey(ns, name), WantedAt(s.world, domain, name);
    WantedKey(s.world, domain, name);
    ServiceKeyRead(domain, name);
    ChangesOfOne(Some(s.stores.cache[k]), wanted, k);
    s' := Start(s, ServiceKey(ns, name), [s.stores.cache[k]], AsSeq(wanted));
  }

  lemma RemovalReachesCache(s: State, k: Key) returns (s1: State, s2: State)
    requires k in s.stores.api.objects
    ensures Enabled(s, StepExternal(k, None)) && s1 == ExternalWrite(s, k, None)
    ensures Enabled(s1, StepDeliver(k, None, true)) && s2 == Deliver(s1, k, None, true)
    ensures k !in s2.stores.cache && s2.work == s.work && s2.world == s.world && s2.crashed == s.crashed
  {
    s1 := ExternalWrite(s, k, None);
    s2 := Deliver(s1, k, None, true);
  }

  lemma MissingObjectPanics(s: State, fault: Fault)
    requires Enabled(s, StepItem(fault)) && s.work.value.items[0].operation.Update?
    requires var k := s.work.value.items[0].resource.meta.key; EnabledKey(s.world.comp, k) && k !in s.stores.cache
    ensures HandleNext(s, fault).crashed
  {
  }

  /** A policy that a sync is about to update goes from the server, and the cache hears of that between the listing and
      the update, which then dereferences nil. */
  lemma DroppedObjectPanics(s: State, domain: string, name: string, fault: Fault)
    returns (s1: State, s2: State, s3: State, s4: State)
    requires Outdated(s, domain, name) && !s.crashed && s.work.None?
    requires ServiceKey(DomainToNamespace(domain), name) in s.queue
    ensures var key, k := ServiceKey(DomainToNamespace(domain), name), PolicyKey(DomainToNamespace(domain), name);
            var current, desired := [s.stores.cache[k]], AsSeq(WantedAt(s.world, domain, name));
            && Enabled(s, StepSync(key, current, desired)) && s1 == Start(s, key, current, desired)
            && Enabled(s1, StepExternal(k, None)) && s2 == ExternalWrite(s1, k, None)
            && Enabled(s2, StepDeliver(k, None, true)) && s3 == Deliver(s2, k, None, true)
            && Enabled(s3, StepItem(fault)) && s4 == HandleNext(s3, fault) && s4.crashed
  {
    var k := PolicyKey(DomainToNamespace(domain), name);
    s1 := OutdatedNeedsUpdate(s, domain, name);
    s2, s3 := RemovalReachesCache(s1, k);
    s4 := HandleNext(s3, fault);
    MissingObjectPanics(s3, fault);
  }

  lemma RunOfFour(s: State, a: Step, s1: State, b: Step, s2: State, c: Step, s3: State, d: Step, s4: State)
    requires Enabled(s, a) && s1 == Apply(s, a) && Enabled(s1, b) && s2 == Apply(s1, b)
    requires Enabled(s2, c) && s3 == Apply(s2, c) && Enabled(s3, d) && s4 == Apply(s3, d)
    ensures Run(s, [a] + [b] + [c] + [d], s4)
  {
    RunOfOne(s, a);
    RunOneMore(s, [a], s1, b);
    RunOneMore(s, [a] + [b], s2, c);
    RunOneMore(s, [a] + [b] + [c], s3, d);
  }

  lemma DroppedObjectRuns(s: State, domain: string, name: string, fault: Fault) returns (steps: seq<Step>, s': State)
    requires Outdated(s, domain, name) && !s.crashed && s.work.None?
    requires ServiceKey(DomainToNamespace(domain), name) in s.queue
    ensures Run(s, steps, s') && s'.crashed
  {
    var key, k := ServiceKey(DomainToNamespace(domain), name), PolicyKey(DomainToNamespace(domain), name);
    var sync := StepSync(key, [s.stores.cache[k]], AsSeq(WantedAt(s.world, domain, name)));
    var s1, s2, s3;
    s1, s2, s3, s' := DroppedObjectPanics(s, domain, name, fault);
    RunOfFour(s, sync, s1, StepExternal(k, None), s2, StepDeliver(k, None, true), s3, StepItem(fault), s');
    steps := [sync] + [StepExternal(k, None)] + [StepDeliver(k, None, true)] + [StepItem(fault)];
  }

  /** A start from which this can happen: the service of the other start, with a policy for another workload. */
  function PanickingStart(): State {
    var policy := Config(Meta(PolicyKey("d", "s"), 1, map[]), PolicySpec("x", []));
    var objects := map[PolicyKey("d", "s") := policy];
    FailingStart().(stores := Stores(Store(objects, 1), objects, map[]), past := objects.Values)
  }

  lemma OutdatedPolicy(domain: string, name: string, s: State)
    requires OneService(s.world, domain, name) && s.stores.cache == s.stores.api.objects
    requires var k := PolicyKey(DomainToNamespace(domain), name);
             && k in s.stores.cache && s.stores.cache[k].meta.key == k && !Overridden(s.stores.cache[k])
             && ServiceKey(k.namespace, name) in s.world.services
             && s.stores.cache[k].spec.app != Label(s.world.services[ServiceKey(k.namespace, name)], "app")
    ensures Outdated(s, domain, name)
  {
  }

  lemma PanickingStartIsPossible()
    ensures var s := PanickingStart();
            Init(s) && Outdated(s, "d", "s") && ServiceKey(DomainToNamespace("d"), "s") in s.queue
  {
    FailingStartIsPossible();
    FailingNamespace();
    OutdatedPolicy("d", "s", PanickingStart());
  }

  /** So the controller crashes in a reachable state, whatever the server answers. */
  lemma PanicIsReachable(fault: Fault) returns (s': State)
    ensures Reachable(s') && s'.crashed
  {
    PanickingStartIsPossible();
    var steps;
    steps, s' := DroppedObjectRuns(PanickingStart(), "d", "s", fault);
  }

  // ---- Syncs that nothing disturbs. ----

  /** Handling the first items of a sync one by one is handling them all, as long as they succeed. */
  lemma {:induction false} UndisturbedItems(s: State, key: string, items: seq<Item<PolicySpec>>, i: nat)
    returns (steps: seq<Step>, s': State)
    requires s.work == Some(Work(key, items)) && !s.crashed && i <= |items|
    requires HandleAll(s.stores, items[..i], s.world.comp).ending == Ended(Success)
    ensures Run(s, steps, s') && !s'.crashed && s'.world == s.world && s'.queue == s.queue
    ensures s'.stores == HandleAll(s.stores, items[..i], s.world.comp).stores
    ensures s'.work == if i == |items| && i > 0 then None else Some(Work(key, items[i..]))
  {
    if i == 0 {
      steps, s' := [], s;
      assert items[0..] == items;
    } else {
      assert items[..i][..i - 1] == items[..i - 1];
      var before, mid := UndisturbedItems(s, key, items, i - 1);
      steps, s' := before + [StepItem(Answered)], HandleNext(mid, Answered);
      assert mid.work == Some(Work(key, items[i - 1..])) && items[i - 1..][1..] == items[i..];
      RunOneMore(s, before, mid, StepItem(Answered));
    }
  }

  /** A sync whose items all succeed is a run of the step system that handles them all. */
  lemma UndisturbedSync(s: State, key: string, current: seq<Cfg>, desired: seq<Cfg>)
    returns (steps: seq<Step>, s': State)
    requires Enabled(s, StepSync(key, current, desired)) && DomainOfKey(key) in s.world.domains
    requires HandleAll(s.stores, Changes(current, desired, Overridden), s.world.comp).ending == Ended(Success)
    ensures Run(s, steps, s') && s'.work == None && s'.queue == s.queue - {key}
    ensures s'.stores == HandleAll(s.stores, Changes(current, desired, Overridden), s.world.comp).stores
  {
    var changes := Changes(current, desired, Overridden);
    var s1 := Start(s, key, current, desired);
    RunOfOne(s, StepSync(key, current, desired));
    if changes == [] {
      steps, s' := [StepSync(key, current, desired)], s1;
    } else {
      assert changes[..|changes|] == changes;
      var rest;
      rest, s' := UndisturbedItems(s1, key, changes, |changes|);
      steps := [StepSync(key, current, desired)] + rest;
      RunConcat(s, [StepSync(key, current, desired)], s1, rest, s');
    }
  }

  /** From a caught-up state the sync of a service key, undisturbed, is the one that the comparison of the two kinds of
      sync is about; when its domain is unknown it changes neither store. */
  lemma ServiceKeySyncRuns(s: State, key: string) returns (steps: seq<Step>, s': State)
    requires Sound(s) && Routed(s.stores, s.world.comp) && CaughtUp(s.stores)
    requires key in s.queue && s.work.None? && !s.crashed && NameOfKey(key) != ""
    ensures Run(s, steps, s') && s'.work == None && s'.stores == KeySync(s.stores, s.world, key)
  {
    var domain, name := DomainOfKey(key), NameOfKey(key);
    if domain !in s.world.domains {
      steps, s' := [StepSync(key, [], [])], Start(s, key, [], []);
      RunOfOne(s, StepSync(key, [], []));
    } else {
      ServiceSyncAt(s.stores, s.world, domain, name);
      steps, s' := UndisturbedSync(s, key, AsSeq(CurrentOf(s.stores, PolicyKey(DomainToNamespace(domain), name), s.world.comp)),
                                   AsSeq(WantedAt(s.world, domain, name)));
    }
  }

  /** The same for the sync of a domain key. */
  lemma DomainKeySyncRuns(s: State, domain: string, current: seq<Cfg>, desired: seq<Cfg>)
    returns (steps: seq<Step>, s': State)
    requires Sound(s) && Routed(s.stores, s.world.comp) && CaughtUp(s.stores) && domain in s.world.domains
    requires Enabled(s, StepSync(domain, current, desired))
    ensures Run(s, steps, s') && s'.work == None && s'.stores == DomainSync(s.stores, s.world, current, desired).stores
  {
    DomainKeyRead(s.world, domain);
    DomainSyncAt(s.stores, s.world, domain, current, desired);
    steps, s' := UndisturbedSync(s, domain, current, desired);
  }
}
