/**
 Every run comes to rest: once nobody writes to the server, no domain changes and API calls are answered, whatever the
 order of syncs, items and events. pkg/controller/controller.go and pkg/istio/processor/controller.go.
 */
module Termination {
  import opened AthenzData
  import opened AthenzModel
  import opened ChangeList
  import opened Configs
  import opened DomainNames
  import opened Reconciler
  import opened Recovery
  import opened Sequences
  import opened ServiceRoles

  /** The steps of an undisturbed system between two ticks of the resync. */
  predicate Settling(step: Step) {
    step.StepSync? || (step.StepItem? && step.fault == Answered) || (step.StepDeliver? && step.isLast)
  }

  ghost predicate AtRest(s: State) {
    s.queue == {} && s.items == map[] && s.events == {}
  }

  ghost predicate NextState(s: State, step: Step, s': State, env: V1Settings) {
    if AtRest(s) then s' == s else Enabled(s, step) && Settling(step) && s' == Apply(s, step, env)
  }

  /** Until it rests, the system takes settling steps. */
  ghost predicate Undisturbed(states: nat -> State, steps: nat -> Step, env: V1Settings) {
    forall i: nat :: NextState(states(i), steps(i), states(i + 1), env)
  }

  /** Domains do not share namespaces, and what each of them wants can be had. */
  ghost predicate Peaceful(domains: map<string, DomainValue>, env: V1Settings) {
    && (forall a, b :: a in domains && b in domains && DomainToNamespace(a) == DomainToNamespace(b) ==> a == b)
    && forall key :: key in domains ==> Consistent(Desired(domains, key, env))
  }

  // ---- What the cache knows. ----

  /** A config of the version that the server has is the one that the server has. */
  ghost predicate Genuine(c: Config<Spec>, store: Store<Spec>) {
    && c.meta.resourceVersion <= store.revision
    && var k := c.meta.key;
       k in store.objects && store.objects[k].meta.resourceVersion == c.meta.resourceVersion ==> store.objects[k].spec == c.spec
  }

  ghost predicate CacheIsGenuine(s: State) {
    forall k :: k in s.cache ==> Genuine(s.cache[k], s.store)
  }

  /** Earlier events bring what the server once held. */
  ghost predicate TellsThePast(s: State, step: Step) {
    step.StepDeliver? && step.told.Some? ==> Genuine(step.told.value, s.store)
  }

  ghost predicate GenuineRun(s: State, steps: seq<Step>, s': State, env: V1Settings)
    decreases |steps|
  {
    if steps == [] then s' == s
    else
      var n := |steps| - 1;
      exists mid ::
        && GenuineRun(s, steps[..n], mid, env) && Enabled(mid, steps[n]) && TellsThePast(mid, steps[n])
        && s' == Apply(mid, steps[n], env)
  }

  ghost predicate GenuinelyReachable(s: State, env: V1Settings) {
    exists s0, steps :: Init(s0) && GenuineRun(s0, steps, s, env)
  }

  /** A write gives the object a version that nobody has seen. */
  lemma ExecuteKeepsGenuine(store: Store<Spec>, x: Item<Spec>, c: Config<Spec>)
    requires Genuine(c, store)
    ensures Genuine(c, Execute(store, x).0)
  {
  }

  lemma ProcessedStore(s: State, id: nat, fault: Fault)
    requires id in s.items
    ensures var store := ProcessItem(s, id, fault).store; store == s.store || store == Execute(s.store, s.items[id].item).0
  {
  }

  lemma StepKeepsGenuine(s: State, step: Step, env: V1Settings)
    requires Sound(s) && CacheIsGenuine(s) && Enabled(s, step) && TellsThePast(s, step)
    ensures CacheIsGenuine(Apply(s, step, env))
  {
    var s' := Apply(s, step, env);
    match step
    case StepSync(key, current) => SyncEffects(s, key, current, env);
    case StepItem(id, fault) =>
      ProcessKeepsTheRest(s, id, fault);
      ProcessedStore(s, id, fault);
      forall k | k in s'.cache ensures Genuine(s'.cache[k], s'.store) {
        ExecuteKeepsGenuine(s.store, s.items[id].item, s.cache[k]);
      }
    case _ =>
  }

  lemma {:induction false} GenuineRunKeeps(s: State, steps: seq<Step>, s': State, env: V1Settings)
    requires Inv(s, env) && CacheIsGenuine(s) && GenuineRun(s, steps, s', env)
    ensures Inv(s', env) && CacheIsGenuine(s')
    decreases |steps|
  {
    if steps != [] {
      var n := |steps| - 1;
      var mid :|
        && GenuineRun(s, steps[..n], mid, env) && Enabled(mid, steps[n]) && TellsThePast(mid, steps[n])
        && s' == Apply(mid, steps[n], env);
      GenuineRunKeeps(s, steps[..n], mid, env);
      StepKeepsInv(mid, steps[n], env);
      StepKeepsGenuine(mid, steps[n], env);
    }
  }

  lemma ReachableIsGenuine(s: State, env: V1Settings)
    requires GenuinelyReachable(s, env)
    ensures Inv(s, env) && CacheIsGenuine(s)
  {
    var s0, steps :| Init(s0) && GenuineRun(s0, steps, s, env);
    InitHasInv(s0, env);
    GenuineRunKeeps(s0, steps, s, env);
  }

  // ---- The measure: what is wrong on the server, who made it so, and what the cache has yet to hear. ----

  /** The server does not have what the domain wants at the key. */
  ghost predicate WrongFor(s: State, key: string, k: Key, env: V1Settings)
    requires key in s.domains
  {
    InScope(ScopeOf(key), k) &&
    if k in s.store.objects then !AsksFor(Desired(s.domains, key, env), k, s.store.objects[k].spec)
    else k in KeyedMap(Desired(s.domains, key, env))
  }

  ghost predicate Wrong(s: State, k: Key, env: V1Settings) {
    exists key :: key in s.domains && WrongFor(s, key, k, env)
  }

  ghost function KeysInPlay(s: State, env: V1Settings): set<Key> {
    s.store.objects.Keys + (set key, d | key in s.domains && d in Desired(s.domains, key, env) :: d.meta.key)
  }

  ghost function WrongKeys(s: State, env: V1Settings): set<Key> {
    set k | k in KeysInPlay(s, env) && Wrong(s, k, env)
  }

  ghost predicate MakesADifference(store: Store<Spec>, x: Item<Spec>) {
    && x.resource.meta.resourceVersion <= store.revision
    && var k := x.resource.meta.key;
       k in store.objects && store.objects[k].meta.resourceVersion == x.resource.meta.resourceVersion ==>
         store.objects[k].spec != x.resource.spec
  }

  /** The item does what its owner wants, and an update that succeeds makes a difference. */
  ghost predicate Good(s: State, q: QueuedItem, env: V1Settings) {
    var x, k := q.item, q.item.resource.meta.key;
    && q.owner in s.domains && InScope(ScopeOf(q.owner), k)
    && match x.operation
       case Add => AsksFor(Desired(s.domains, q.owner, env), k, x.resource.spec)
       case Update => AsksFor(Desired(s.domains, q.owner, env), k, x.resource.spec) && MakesADifference(s.store, x)
       case Delete => k !in KeyedMap(Desired(s.domains, q.owner, env))
  }

  ghost function BadItems(s: State, env: V1Settings): set<nat> {
    set id | id in s.items && !Good(s, s.items[id], env)
  }

  ghost function Unrest(s: State, env: V1Settings): nat {
    4 * |BadItems(s, env)| + 2 * |WrongKeys(s, env)| + |s.events|
  }

  // ---- Between two changes of the server or the cache. ----

  /** A sync of the key would not find everything in order. */
  ghost predicate Busy(s: State, key: string, env: V1Settings) {
    key !in s.domains || !NothingNeeded(Visible(s.cache, ScopeOf(key)), Desired(s.domains, key, env))
  }

  /** The keys that are waiting, or that an item may bring back. */
  ghost function Callers(s: State): set<string> {
    s.queue + (set id | id in s.items :: s.items[id].owner)
  }

  /** The retries that busy keys have left. */
  ghost function Chances(s: State, env: V1Settings): set<(string, nat)> {
    set key, i: nat |
      key in Callers(s) && Busy(s, key, env) && 0 <= i < QUEUE_NUM_RETRIES && NumRequeues(s.requeues, key) <= i :: (key, i)
  }

  ghost function BusyKeys(s: State, env: V1Settings): set<string> {
    set key | key in s.queue && Busy(s, key, env)
  }

  ghost predicate CalmerMeanwhile(s': State, s: State, env: V1Settings) {
    || |Chances(s', env)| < |Chances(s, env)|
    || (|Chances(s', env)| == |Chances(s, env)| &&
        (|| |BusyKeys(s', env)| < |BusyKeys(s, env)|
         || (|BusyKeys(s', env)| == |BusyKeys(s, env)| &&
             (|| |s'.items| < |s.items|
              || (|s'.items| == |s.items| && |s'.queue| < |s.queue|)))))
  }

  /** In this order: lower in the first of these that differs. */
  ghost predicate Calmer(s': State, s: State, env: V1Settings) {
    || Unrest(s', env) < Unrest(s, env)
    || (Unrest(s', env) == Unrest(s, env) && CalmerMeanwhile(s', s, env))
  }

  // ---- Items. ----

  /** What an answered item changes. */
  lemma AnsweredItem(s: State, id: nat)
    requires id in s.items
    ensures var s', q := ProcessItem(s, id, Answered), s.items[id];
            var (store, outcome) := Execute(s.store, q.item);
            && s'.items == s.items - {id} && s'.domains == s.domains && s'.cache == s.cache && s'.store == store
            && s'.events == s.events + (if outcome == Success then {q.item.resource.meta.key} else {})
            && (outcome != Success ==> store == s.store)
            && var n := NumRequeues(s.requeues, q.owner);
               if outcome == Conflict && n < QUEUE_NUM_RETRIES
               then s'.queue == s.queue + {q.owner} && s'.requeues == s.requeues[q.owner := n + 1]
               else s'.queue == s.queue && s'.requeues == s.requeues
  {
  }

  lemma ExecuteAtOneKey(store: Store<Spec>, x: Item<Spec>)
    ensures forall k :: k != x.resource.meta.key ==> Get(Execute(store, x).0.objects, k) == Get(store.objects, k)
  {
  }

  lemma DifferenceStays(store: Store<Spec>, x: Item<Spec>, y: Item<Spec>)
    requires MakesADifference(store, y)
    ensures MakesADifference(Execute(store, x).0, y)
  {
    ExecuteAtOneKey(store, x);
  }

  /** An execution leaves good items good. */
  lemma GoodStaysGood(s: State, s': State, x: Item<Spec>, q: QueuedItem, env: V1Settings)
    requires s'.domains == s.domains && s'.store == Execute(s.store, x).0 && Good(s, q, env)
    ensures Good(s', q, env)
  {
    if q.item.operation.Update? {
      DifferenceStays(s.store, x, q.item);
    }
  }

  /** Nothing becomes wrong, or right, at other keys. */
  lemma WrongElsewhere(s: State, s': State, x: Item<Spec>, k: Key, env: V1Settings)
    requires s'.domains == s.domains && s'.store == Execute(s.store, x).0 && k != x.resource.meta.key
    ensures k in WrongKeys(s', env) <==> k in WrongKeys(s, env)
  {
    ExecuteAtOneKey(s.store, x);
    assert Get(s'.store.objects, k) == Get(s.store.objects, k);
    forall key | key in s.domains ensures WrongFor(s', key, k, env) <==> WrongFor(s, key, k, env) {
    }
  }

  lemma AskedIsInPlay(s: State, key: string, k: Key, spec: Spec, env: V1Settings)
    requires key in s.domains && AsksFor(Desired(s.domains, key, env), k, spec)
    ensures k in KeyedMap(Desired(s.domains, key, env)) && k in KeysInPlay(s, env)
  {
    KeyedMapContains(Desired(s.domains, key, env));
  }

  lemma NotAskedAbsent(desired: seq<Config<Spec>>, k: Key, spec: Spec)
    requires k !in KeyedMap(desired)
    ensures !AsksFor(desired, k, spec)
  {
    KeyedMapContains(desired);
  }

  /** Where a good item succeeds, the server was wrong. */
  lemma GoodItemFindsWrong(s: State, q: QueuedItem, env: V1Settings)
    requires Good(s, q, env) && Execute(s.store, q.item).1 == Success && Peaceful(s.domains, env)
    ensures q.item.resource.meta.key in WrongKeys(s, env)
  {
    var x, k, desired := q.item, q.item.resource.meta.key, Desired(s.domains, q.owner, env);
    if x.operation.Delete? {
      NotAskedAbsent(desired, k, s.store.objects[k].spec);
    } else {
      AskedIsInPlay(s, q.owner, k, x.resource.spec, env);
      assert Consistent(desired);
    }
    assert WrongFor(s, q.owner, k, env);
  }

  lemma GoodItemServesItsOwner(s: State, s': State, q: QueuedItem, env: V1Settings)
    requires Good(s, q, env) && Execute(s.store, q.item).1 == Success
    requires s'.domains == s.domains && s'.store == Execute(s.store, q.item).0
    ensures !WrongFor(s', q.owner, q.item.resource.meta.key, env)
  {
  }

  /** And it is right afterwards. */
  lemma GoodItemPutsRight(s: State, s': State, q: QueuedItem, env: V1Settings)
    requires Good(s, q, env) && Execute(s.store, q.item).1 == Success && Peaceful(s.domains, env)
    requires s'.domains == s.domains && s'.store == Execute(s.store, q.item).0
    ensures q.item.resource.meta.key !in WrongKeys(s', env)
  {
    var k := q.item.resource.meta.key;
    GoodItemServesItsOwner(s, s', q, env);
    forall key | key in s.domains ensures !WrongFor(s', key, k, env) {
      if InScope(ScopeOf(key), k) {
        assert key == q.owner;
      }
    }
  }

  lemma WrongAfter(s: State, s': State, q: QueuedItem, env: V1Settings)
    requires s'.domains == s.domains && s'.store == Execute(s.store, q.item).0
    requires Execute(s.store, q.item).1 == Success && Peaceful(s.domains, env)
    ensures |WrongKeys(s', env)| <= |WrongKeys(s, env)| + 1
    ensures Good(s, q, env) ==> |WrongKeys(s', env)| < |WrongKeys(s, env)|
  {
    var k := q.item.resource.meta.key;
    forall k' | k' != k ensures k' in WrongKeys(s', env) <==> k' in WrongKeys(s, env) {
      WrongElsewhere(s, s', q.item, k', env);
    }
    UnionIsAtMost(WrongKeys(s', env), WrongKeys(s, env), {k});
    if Good(s, q, env) {
      GoodItemFindsWrong(s, q, env);
      GoodItemPutsRight(s, s', q, env);
      ProperSubsetIsSmaller(WrongKeys(s', env), WrongKeys(s, env));
    }
  }

  lemma BadItemsAfter(s: State, s': State, id: nat, env: V1Settings)
    requires id in s.items && s'.items == s.items - {id}
    requires s'.domains == s.domains && s'.store == Execute(s.store, s.items[id].item).0
    ensures BadItems(s', env) <= BadItems(s, env) - {id}
    ensures |BadItems(s', env)| <= |BadItems(s, env)|
    ensures !Good(s, s.items[id], env) ==> |BadItems(s', env)| < |BadItems(s, env)|
  {
    forall i | i in s'.items && Good(s, s.items[i], env) ensures Good(s', s'.items[i], env) {
      GoodStaysGood(s, s', s.items[id].item, s.items[i], env);
    }
    SubsetIsSmaller(BadItems(s', env), BadItems(s, env));
    if !Good(s, s.items[id], env) {
      assert id in BadItems(s, env) && id !in BadItems(s', env);
      ProperSubsetIsSmaller(BadItems(s', env), BadItems(s, env));
    }
  }

  lemma SuccessCalms(s: State, id: nat, env: V1Settings)
    requires id in s.items && Execute(s.store, s.items[id].item).1 == Success && Peaceful(s.domains, env)
    ensures Unrest(ProcessItem(s, id, Answered), env) < Unrest(s, env)
  {
    var s', q := ProcessItem(s, id, Answered), s.items[id];
    AnsweredItem(s, id);
    BadItemsAfter(s, s', id, env);
    WrongAfter(s, s', q, env);
    UnionIsAtMost(s'.events, s.events, {q.item.resource.meta.key});
  }

  /** What is wrong depends on the server and the domains. */
  lemma SameServerSameWrong(s: State, s': State, env: V1Settings)
    requires s'.domains == s.domains && s'.store == s.store
    ensures WrongKeys(s', env) == WrongKeys(s, env)
    ensures forall q :: Good(s', q, env) <==> Good(s, q, env)
  {
    assert KeysInPlay(s', env) == KeysInPlay(s, env);
    forall k ensures Wrong(s', k, env) <==> Wrong(s, k, env) {
      forall key | key in s.domains ensures WrongFor(s', key, k, env) <==> WrongFor(s, key, k, env) {
      }
    }
  }

  lemma BusyStays(s: State, s': State, env: V1Settings)
    requires s'.domains == s.domains && s'.cache == s.cache
    ensures forall key :: Busy(s', key, env) <==> Busy(s, key, env)
  {
  }

  lemma FewerChances(s: State, s': State, env: V1Settings)
    requires s'.domains == s.domains && s'.cache == s.cache && Callers(s') <= Callers(s)
    requires forall key :: Busy(s, key, env) ==> NumRequeues(s'.requeues, key) >= NumRequeues(s.requeues, key)
    ensures Chances(s', env) <= Chances(s, env) && |Chances(s', env)| <= |Chances(s, env)|
  {
    BusyStays(s, s', env);
    SubsetIsSmaller(Chances(s', env), Chances(s, env));
  }

  /** A busy key that has used up a retry. */
  lemma OneChanceLess(s: State, s': State, key: string, env: V1Settings)
    requires s'.domains == s.domains && s'.cache == s.cache && Callers(s') <= Callers(s)
    requires key in Callers(s) && Busy(s, key, env) && NumRequeues(s.requeues, key) < QUEUE_NUM_RETRIES
    requires s'.requeues == s.requeues[key := NumRequeues(s.requeues, key) + 1]
    ensures |Chances(s', env)| < |Chances(s, env)|
  {
    FewerChances(s, s', env);
    var n := NumRequeues(s.requeues, key);
    assert (key, n) in Chances(s, env) && (key, n) !in Chances(s', env);
    ProperSubsetIsSmaller(Chances(s', env), Chances(s, env));
  }

  lemma FewerCallers(s: State, s': State, id: nat)
    requires id in s.items && s'.items == s.items - {id} && s'.queue <= s.queue + {s.items[id].owner}
    ensures s.items[id].owner in Callers(s) && Callers(s') <= Callers(s)
  {
    forall key | key in Callers(s') ensures key in Callers(s) {
      if key !in s'.queue {
        var i :| i in s'.items && s'.items[i].owner == key;
        assert i in s.items && s.items[i] == s'.items[i];
      }
    }
  }

  lemma OneItemLess(s: State, s': State, id: nat, env: V1Settings)
    requires id in s.items && s'.items == s.items - {id} && s'.domains == s.domains && s'.cache == s.cache
    requires s'.queue <= s.queue || (s'.queue <= s.queue + {s.items[id].owner} && !Busy(s, s.items[id].owner, env))
    ensures |s'.items| < |s.items| && |BusyKeys(s', env)| <= |BusyKeys(s, env)|
  {
    BusyStays(s, s', env);
    SubsetIsSmaller(BusyKeys(s', env), BusyKeys(s, env));
    assert s'.items.Keys == s.items.Keys - {id};
  }

  lemma FailureCalmsMeanwhile(s: State, id: nat, env: V1Settings)
    requires id in s.items && Execute(s.store, s.items[id].item).1 != Success
    ensures CalmerMeanwhile(ProcessItem(s, id, Answered), s, env)
  {
    var s', owner := ProcessItem(s, id, Answered), s.items[id].owner;
    AnsweredItem(s, id);
    FewerCallers(s, s', id);
    if s'.requeues != s.requeues && Busy(s, owner, env) {
      OneChanceLess(s, s', owner, env);
    } else {
      FewerChances(s, s', env);
      OneItemLess(s, s', id, env);
    }
  }

  /** An item that does not succeed leaves less to do, or uses up a retry of a busy key. */
  lemma FailureCalms(s: State, id: nat, env: V1Settings)
    requires id in s.items && Execute(s.store, s.items[id].item).1 != Success
    ensures Calmer(ProcessItem(s, id, Answered), s, env)
  {
    var s', owner := ProcessItem(s, id, Answered), s.items[id].owner;
    AnsweredItem(s, id);
    SameServerSameWrong(s, s', env);
    SubsetIsSmaller(BadItems(s', env), BadItems(s, env));
    if Unrest(s', env) == Unrest(s, env) {
      FailureCalmsMeanwhile(s, id, env);
    }
  }

  // ---- Syncs. ----

  lemma AskedByDesired(desired: seq<Config<Spec>>, d: Config<Spec>)
    requires d in desired
    ensures AsksFor(desired, d.meta.key, d.spec)
  {
  }

  /** The items of a sync are good. */
  lemma NeededIsGood(s: State, key: string, x: Item<Spec>, env: V1Settings)
    requires Sound(s) && CacheIsGenuine(s) && key in s.domains
    requires Needed(Visible(s.cache, ScopeOf(key)), Desired(s.domains, key, env), x)
    ensures Good(s, QueuedItem(x, key, 0), env)
  {
    var desired, visible := Desired(s.domains, key, env), Visible(s.cache, ScopeOf(key));
    DesiredInScope(s.domains, key, env);
    if d :| d in desired && ItemFor(visible, d, NeverFlagged) == Some(x) {
      AskedByDesired(desired, d);
      if x.operation.Update? {
        assert Genuine(s.cache[d.meta.key], s.store);
      }
    }
  }

  lemma SyncedItemIsGood(s: State, key: string, current: seq<Config<Spec>>, env: V1Settings, id: nat)
    requires Sound(s) && CacheIsGenuine(s) && key in s.domains && Lists(current, s.cache, ScopeOf(key))
    requires id in SyncKey(s, key, current, env).items && (id in s.items ==> Good(s, s.items[id], env))
    ensures Good(s, SyncKey(s, key, current, env).items[id], env)
  {
    var changes := Changes(current, Desired(s.domains, key, env), NeverFlagged);
    SyncEffects(s, key, current, env);
    EnqueuedAt(s.items, s.nextId, changes, key, id);
    if id !in s.items {
      ListingShowsVisible(current, s.cache, ScopeOf(key), Desired(s.domains, key, env), changes[id - s.nextId]);
      NeededIsGood(s, key, changes[id - s.nextId], env);
    }
  }

  lemma SyncBadItems(s: State, key: string, current: seq<Config<Spec>>, env: V1Settings)
    requires Sound(s) && CacheIsGenuine(s) && key in s.domains && Lists(current, s.cache, ScopeOf(key))
    ensures BadItems(SyncKey(s, key, current, env), env) <= BadItems(s, env)
  {
    var s' := SyncKey(s, key, current, env);
    SyncEffects(s, key, current, env);
    SameServerSameWrong(s, s', env);
    forall id | id in s'.items && id !in BadItems(s, env) ensures Good(s', s'.items[id], env) {
      SyncedItemIsGood(s, key, current, env, id);
    }
  }

  lemma SyncKeepsUnrest(s: State, key: string, current: seq<Config<Spec>>, env: V1Settings)
    requires Sound(s) && CacheIsGenuine(s) && Lists(current, s.cache, ScopeOf(key))
    ensures Unrest(SyncKey(s, key, current, env), env) <= Unrest(s, env)
  {
    var s' := SyncKey(s, key, current, env);
    SyncEffects(s, key, current, env);
    SameServerSameWrong(s, s', env);
    if key in s.domains {
      SyncBadItems(s, key, current, env);
    }
    SubsetIsSmaller(BadItems(s', env), BadItems(s, env));
  }

  lemma SyncQueue(s: State, key: string, current: seq<Config<Spec>>, env: V1Settings)
    requires key in s.queue
    ensures var s', n := SyncKey(s, key, current, env), NumRequeues(s.requeues, key);
            if key !in s.domains && n < QUEUE_NUM_RETRIES
            then s'.queue == s.queue && s'.requeues == s.requeues[key := n + 1] && s'.items == s.items
            else
              && s'.queue == s.queue - {key}
              && s'.requeues == if key in s.domains && Changes(current, Desired(s.domains, key, env), NeverFlagged) == []
                                then s.requeues - {key} else s.requeues
  {
  }

  lemma CallersOfSync(s: State, key: string, current: seq<Config<Spec>>, env: V1Settings)
    requires Sound(s) && key in s.queue
    ensures Callers(SyncKey(s, key, current, env)) <= Callers(s)
  {
    var s' := SyncKey(s, key, current, env);
    SyncEffects(s, key, current, env);
    SyncQueue(s, key, current, env);
    if key in s.domains {
      forall id | id in s'.items ensures s'.items[id].owner in Callers(s) {
        EnqueuedAt(s.items, s.nextId, Changes(current, Desired(s.domains, key, env), NeverFlagged), key, id);
        if id in s.items {
          assert s.items[id].owner in Callers(s);
        }
      }
    }
  }

  lemma IdleSyncForgets(s: State, key: string, current: seq<Config<Spec>>, env: V1Settings)
    requires Sound(s) && Enabled(s, StepSync(key, current)) && key in s.domains
    ensures Busy(s, key, env) <==> Changes(current, Desired(s.domains, key, env), NeverFlagged) != []
    ensures !Busy(s, key, env) ==> SyncKey(s, key, current, env).items == s.items
  {
    var changes := Changes(current, Desired(s.domains, key, env), NeverFlagged);
    forall x ensures x in changes <==> Needed(Visible(s.cache, ScopeOf(key)), Desired(s.domains, key, env), x) {
      ListingShowsVisible(current, s.cache, ScopeOf(key), Desired(s.domains, key, env), x);
    }
    if changes != [] {
      assert changes[0] in changes;
    }
  }

  lemma QueueWithout(s: State, s': State, key: string, env: V1Settings)
    requires s'.domains == s.domains && s'.cache == s.cache && key in s.queue && s'.queue == s.queue - {key}
    ensures |s'.queue| < |s.queue| && |BusyKeys(s', env)| <= |BusyKeys(s, env)|
    ensures Busy(s, key, env) ==> |BusyKeys(s', env)| < |BusyKeys(s, env)|
  {
    BusyStays(s, s', env);
    ProperSubsetIsSmaller(s'.queue, s.queue);
    SubsetIsSmaller(BusyKeys(s', env), BusyKeys(s, env));
    if Busy(s, key, env) {
      assert key in BusyKeys(s, env) && key !in BusyKeys(s', env);
      ProperSubsetIsSmaller(BusyKeys(s', env), BusyKeys(s, env));
    }
  }

  /** A busy key leaves the queue, or uses up a retry; any other only leaves the queue. */
  lemma SyncCalmsMeanwhile(s: State, key: string, current: seq<Config<Spec>>, env: V1Settings)
    requires Sound(s) && Enabled(s, StepSync(key, current))
    ensures CalmerMeanwhile(SyncKey(s, key, current, env), s, env)
  {
    var s' := SyncKey(s, key, current, env);
    SyncEffects(s, key, current, env);
    SyncQueue(s, key, current, env);
    CallersOfSync(s, key, current, env);
    BusyStays(s, s', env);
    if key !in s.domains && NumRequeues(s.requeues, key) < QUEUE_NUM_RETRIES {
      OneChanceLess(s, s', key, env);
    } else {
      if key in s.domains {
        IdleSyncForgets(s, key, current, env);
      }
      FewerChances(s, s', env);
      QueueWithout(s, s', key, env);
    }
  }

  // ---- Events. ----

  lemma DeliveryCalms(s: State, k: Key, told: Option<Config<Spec>>, env: V1Settings)
    requires k in s.events
    ensures Unrest(Deliver(s, k, told, true), env) < Unrest(s, env)
  {
    var s' := Deliver(s, k, told, true);
    SameServerSameWrong(s, s', env);
    assert BadItems(s', env) == BadItems(s, env);
    ProperSubsetIsSmaller(s'.events, s.events);
  }

  // ---- Runs. ----

  /** What the measure relies on. */
  ghost predicate Calming(s: State, env: V1Settings) {
    Sound(s) && CacheIsGenuine(s) && Peaceful(s.domains, env)
  }

  lemma StepCalms(s: State, step: Step, env: V1Settings)
    requires Calming(s, env) && Enabled(s, step) && Settling(step)
    ensures Calmer(Apply(s, step, env), s, env)
  {
    match step
    case StepSync(key, current) =>
      SyncKeepsUnrest(s, key, current, env);
      SyncCalmsMeanwhile(s, key, current, env);
    case StepItem(id, _) =>
      if Execute(s.store, s.items[id].item).1 == Success {
        SuccessCalms(s, id, env);
      } else {
        FailureCalms(s, id, env);
      }
    case StepDeliver(k, told, _) => DeliveryCalms(s, k, told, env);
  }

  lemma StepKeepsCalming(s: State, step: Step, env: V1Settings)
    requires Calming(s, env) && Enabled(s, step) && Settling(step)
    ensures Calming(Apply(s, step, env), env) && Apply(s, step, env).domains == s.domains
  {
    StepKeepsGenuine(s, step, env);
    match step
    case StepSync(key, current) =>
      SyncKeepsSound(s, key, current, env);
      SyncEffects(s, key, current, env);
    case StepItem(id, fault) =>
      ProcessKeepsSound(s, id, fault);
      ProcessKeepsTheRest(s, id, fault);
    case StepDeliver(k, told, isLast) => DeliverKeepsSound(s, k, told, isLast);
  }

  /** Work that is still to be done for a domain is on its way, whatever was given up. */
  ghost predicate Cared(s: State, key: string, env: V1Settings)
    requires key in s.domains
  {
    Covered(s.(gaveUp := {}), key, env)
  }

  lemma FailedWithoutHistory(s: State, key: string)
    ensures Failed(s.(gaveUp := {}), key).(gaveUp := {}) == Failed(s, key).(gaveUp := {})
    ensures Failed(s.(gaveUp := {}), key).gaveUp <= {key}
  {
  }

  lemma ChangesWithoutHistory(s: State, key: string, changes: seq<Item<Spec>>)
    ensures WithChanges(s.(gaveUp := {}), key, changes) == WithChanges(s, key, changes).(gaveUp := {})
  {
  }

  /** The history has no part in a sync. */
  lemma SyncWithoutHistory(s: State, key: string, current: seq<Config<Spec>>, env: V1Settings)
    ensures var s' := SyncKey(s.(gaveUp := {}), key, current, env);
            && s'.(gaveUp := {}) == SyncKey(s, key, current, env).(gaveUp := {})
            && s'.gaveUp <= (if key in s.domains then {} else {key})
  {
    var taken := s.(queue := s.queue - {key});
    if key !in s.domains {
      FailedWithoutHistory(taken, key);
    } else {
      ChangesWithoutHistory(taken, key, Changes(current, Desired(s.domains, key, env), NeverFlagged));
    }
  }

  lemma ForgottenStaysCovered(s: State, key: string, env: V1Settings)
    requires key in s.domains && key !in s.gaveUp && Covered(s, key, env)
    ensures Cared(s, key, env)
  {
    assert EventPending(s, key) ==> EventPending(s.(gaveUp := {}), key);
    assert FreshItemPending(s, key, env) ==> FreshItemPending(s.(gaveUp := {}), key, env);
  }

  lemma SyncKeepsCared(s: State, other: string, current: seq<Config<Spec>>, key: string, env: V1Settings)
    requires Sound(s) && Lists(current, s.cache, ScopeOf(other)) && key in s.domains && Cared(s, key, env)
    ensures key in SyncKey(s, other, current, env).domains && Cared(SyncKey(s, other, current, env), key, env)
  {
    var s0 := s.(gaveUp := {});
    SyncEffects(s, other, current, env);
    SyncEffects(s0, other, current, env);
    SyncWithoutHistory(s, other, current, env);
    if key == other {
      SyncCoversItsKey(s0, key, current, env);
    } else {
      SyncKeepsOthersCovered(s0, other, current, env, key);
    }
    ForgottenStaysCovered(SyncKey(s0, other, current, env), key, env);
  }

  /** An item that the cache calls for causes an event, as no other event is pending. */
  lemma ItemKeepsCared(s: State, id: nat, key: string, env: V1Settings)
    requires Sound(s) && id in s.items && key in s.domains && Cared(s, key, env)
    ensures key in ProcessItem(s, id, Answered).domains && Cared(ProcessItem(s, id, Answered), key, env)
  {
    var s' := ProcessItem(s, id, Answered);
    ProcessKeepsTheRest(s, id, Answered);
    AnsweredItem(s, id);
    if EventPending(s, key) {
      var k :| k in s.events && InScope(ScopeOf(key), k);
      assert k in s'.events;
    } else if FreshItemPending(s, key, env) {
      var i :| i in s.items && s.items[i].owner == key &&
        Needed(Visible(s.cache, ScopeOf(key)), Desired(s.domains, key, env), s.items[i].item);
      if i == id {
        FreshItemSucceeds(s, key, s.items[id].item, env);
        assert s.items[id].item.resource.meta.key in s'.events;
      } else {
        assert i in s'.items;
      }
    }
  }

  lemma StepKeepsCared(s: State, step: Step, key: string, env: V1Settings)
    requires Calming(s, env) && Enabled(s, step) && Settling(step) && Tracked(s, key) && Cared(s, key, env)
    ensures Tracked(Apply(s, step, env), key) && Cared(Apply(s, step, env), key, env)
  {
    StepKeepsCalming(s, step, env);
    match step
    case StepSync(other, current) => SyncKeepsCared(s, other, current, key, env);
    case StepItem(id, _) => ItemKeepsCared(s, id, key, env);
    case StepDeliver(k, told, isLast) => DeliverKeepsCovered(s.(gaveUp := {}), k, told, isLast, key, env);
  }

  /** A system that does not rest has a settling step to take. */
  lemma SomethingToDo(s: State) returns (step: Step)
    requires Sound(s) && !AtRest(s)
    ensures Enabled(s, step) && Settling(step)
  {
    if s.queue != {} {
      var key :| key in s.queue;
      var current := ListingExists(s.cache, ScopeOf(key));
      step := StepSync(key, current);
    } else if s.events != {} {
      var k :| k in s.events;
      step := StepDeliver(k, Get(s.store.objects, k), true);
    } else {
      var id :| id in s.items;
      step := StepItem(id, Answered);
    }
  }

  lemma {:induction false} RunRests(states: nat -> State, steps: nat -> Step, env: V1Settings, i: nat) returns (n: nat)
    requires Undisturbed(states, steps, env) && Calming(states(i), env)
    ensures AtRest(states(n)) && Calming(states(n), env) && states(n).domains == states(i).domains
    ensures forall key :: Tracked(states(i), key) && Cared(states(i), key, env) ==>
              key in states(n).domains && Cared(states(n), key, env)
    decreases Unrest(states(i), env), |Chances(states(i), env)|, |BusyKeys(states(i), env)|,
              |states(i).items|, |states(i).queue|
  {
    if AtRest(states(i)) {
      n := i;
    } else {
      var s, step := states(i), steps(i);
      assert NextState(s, step, states(i + 1), env);
      StepCalms(s, step, env);
      StepKeepsCalming(s, step, env);
      forall key | Tracked(s, key) && Cared(s, key, env)
        ensures Tracked(states(i + 1), key) && Cared(states(i + 1), key, env)
      {
        StepKeepsCared(s, step, key, env);
      }
      n := RunRests(states, steps, env, i + 1);
    }
  }

  lemma RestIsConverged(s: State, key: string, env: V1Settings)
    requires Sound(s) && AtRest(s) && key in s.domains && Cared(s, key, env)
    ensures Converged(s, key, env)
  {
    NothingNeededIsConverged(s, key, env);
  }

  /** From every reachable state, every undisturbed run comes to rest, in whatever order it takes its steps, when the
      domains have namespaces of their own and consistent desired configs. Each tracked domain that had not been given up
      has then converged. */
  lemma EveryRunComesToRest(states: nat -> State, steps: nat -> Step, env: V1Settings) returns (n: nat)
    requires GenuinelyReachable(states(0), env) && Peaceful(states(0).domains, env) && Undisturbed(states, steps, env)
    ensures AtRest(states(n)) && states(n).domains == states(0).domains
    ensures forall key :: Tracked(states(0), key) && key !in states(0).gaveUp ==> Converged(states(n), key, env)
  {
    ReachableIsGenuine(states(0), env);
    n := RunRests(states, steps, env, 0);
    forall key | Tracked(states(0), key) && key !in states(0).gaveUp ensures Converged(states(n), key, env) {
      ForgottenStaysCovered(states(0), key, env);
      RestIsConverged(states(n), key, env);
    }
  }
}
