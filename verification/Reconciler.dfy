/**
 The domain controller, the item processor, the API server and the informer caches as one step system:
 pkg/controller/controller.go and pkg/istio/processor/controller.go. A handler call is one step. The cache
 may lag behind the server, items may be stale when they run, and API calls may fail in any way.
 */
module Reconciler {
  import opened AthenzData
  import opened AthenzModel
  import opened ChangeList
  import opened Configs
  import opened DomainNames
  import opened Sequences
  import opened ServiceRoles

  const QUEUE_NUM_RETRIES := 3
  const KINDS: set<Kind> := {Kind.ServiceRole, Kind.ServiceRoleBinding}

  /** An item in the processor's queue, the domain key its callback captured, and its requeue counter. */
  datatype QueuedItem = QueuedItem(item: Item<Spec>, owner: string, requeues: nat)

  datatype State = State(
    domains: map<string, DomainValue>,       // the Athenz domain informer's store
    store: Store<Spec>,                      // the API server
    cache: map<Key, Config<Spec>>,           // the config informer's store
    events: set<Key>,                        // changes of the server that the cache has yet to hear of
    queue: set<string>,                      // domain keys waiting, at once or after a delay
    requeues: map<string, nat>,              // their requeue counters
    items: map<nat, QueuedItem>,             // items waiting, by identity
    nextId: nat,
    gaveUp: set<string>)                     // history: keys for which a retry limit was hit since their last sync

  function ScopeOf(domain: string): Scope {
    Scope(DomainToNamespace(domain), KINDS)
  }

  function NumRequeues(requeues: map<string, nat>, key: string): nat {
    if key in requeues then requeues[key] else 0
  }

  /** What `sync` wants to see in the store for a domain. */
  function Desired(domains: map<string, DomainValue>, key: string, env: V1Settings): seq<Config<Spec>>
    requires key in domains
  {
    var m := ModelOf(domains, domains[key]);
    ConfigsOf(m, m.roles, env)
  }

  // ---- The steps. ----

  function Enqueue(items: map<nat, QueuedItem>, nextId: nat, changes: seq<Item<Spec>>, owner: string): map<nat, QueuedItem> {
    if changes == [] then items
    else
      var n := |changes| - 1;
      Enqueue(items, nextId, changes[..n], owner)[nextId + n := QueuedItem(changes[n], owner, 0)]
  }

  /** What a sync that found its domain makes of its change list. */
  function WithChanges(s: State, key: string, changes: seq<Item<Spec>>): State {
    if changes == [] then s.(requeues := s.requeues - {key})
    else s.(items := Enqueue(s.items, s.nextId, changes, key), nextId := s.nextId + |changes|)
  }

  /** What becomes of a key whose sync returned an error. */
  function Failed(s: State, key: string): State {
    var n := NumRequeues(s.requeues, key);
    if n < QUEUE_NUM_RETRIES then s.(queue := s.queue + {key}, requeues := s.requeues[key := n + 1])
    else s.(gaveUp := s.gaveUp + {key})
  }

  /** `processNextItem` of the domain controller on a key, with the listing of the cache that `sync` got. */
  function SyncKey(s: State, key: string, current: seq<Config<Spec>>, env: V1Settings): State {
    var taken := s.(queue := s.queue - {key});
    if key !in s.domains then Failed(taken, key)
    else
      var changes := Changes(current, Desired(s.domains, key, env), NeverFlagged);
      WithChanges(taken, key, changes).(gaveUp := s.gaveUp - {key})
  }

  /** The callback of the domain controller and what the processor makes of its answer. */
  function Settle(s: State, id: nat, outcome: Outcome): State
    requires id in s.items
  {
    var q := s.items[id];
    var n := NumRequeues(s.requeues, q.owner);
    match outcome
    case Success => s.(items := s.items - {id})
    case NotFound => s.(items := s.items - {id})
    case AlreadyExists => s.(items := s.items - {id})
    case Transient =>
      if q.requeues < QUEUE_NUM_RETRIES then s.(items := s.items[id := q.(requeues := q.requeues + 1)])
      else s.(items := s.items - {id}, gaveUp := s.gaveUp + {q.owner})
    case Conflict =>
      if n >= QUEUE_NUM_RETRIES then s.(items := s.items - {id}, gaveUp := s.gaveUp + {q.owner})
      else s.(items := s.items - {id}, requeues := s.requeues[q.owner := n + 1], queue := s.queue + {q.owner})
  }

  /** `processNextItem` of the processor on an item. */
  function ProcessItem(s: State, id: nat, fault: Fault): State
    requires id in s.items
  {
    var (store, changed, outcome) := CallServer(s.store, s.items[id].item, fault);
    Settle(s.(store := store, events := s.events + changed), id, outcome)
  }

  /** A config event: the informer stores what it was told and `processConfigEvent` queues a domain. The last
      event of a key brings the server's content; earlier ones may bring anything. */
  function Deliver(s: State, k: Key, told: Option<Config<Spec>>, isLast: bool): State {
    s.(cache := Put(s.cache, k, told),
       events := if isLast then s.events - {k} else s.events,
       queue := if k.kind in KINDS then s.queue + {NamespaceToDomain(k.namespace)} else s.queue)
  }

  /** Someone else writes or deletes an object. */
  function ExternalWrite(s: State, k: Key, c: Option<Config<Spec>>): State {
    var revision := s.store.revision + 1;
    var stored := if c.Some? then Some(c.value.(meta := c.value.meta.(key := k, resourceVersion := revision))) else None;
    s.(store := Store(Put(s.store.objects, k, stored), revision), events := s.events + {k})
  }

  /** A domain appears or changes; `processEvent` queues its key. */
  function DomainEvent(s: State, d: DomainValue): State {
    s.(domains := s.domains[d.name := d], queue := s.queue + {d.name})
  }

  function DomainDeleted(s: State, key: string): State {
    s.(domains := s.domains - {key}, queue := s.queue + {key})
  }

  /** The periodic resync queues all domains. */
  function Resync(s: State): State {
    s.(queue := s.queue + s.domains.Keys)
  }

  datatype Step =
    | StepSync(key: string, current: seq<Config<Spec>>)
    | StepItem(id: nat, fault: Fault)
    | StepDeliver(k: Key, told: Option<Config<Spec>>, isLast: bool)
    | StepExternal(k: Key, c: Option<Config<Spec>>)
    | StepDomain(d: DomainValue)
    | StepDomainDeleted(key: string)
    | StepResync

  ghost predicate Enabled(s: State, step: Step) {
    match step
    case StepSync(key, current) => key in s.queue && Lists(current, s.cache, ScopeOf(key))
    case StepItem(id, _) => id in s.items
    case StepDeliver(k, told, isLast) =>
      && k in s.events
      && (told.Some? ==> told.value.meta.key == k)
      && (isLast ==> told == Get(s.store.objects, k))
    case _ => true
  }

  function Apply(s: State, step: Step, env: V1Settings): State
    requires step.StepItem? ==> step.id in s.items
  {
    match step
    case StepSync(key, current) => SyncKey(s, key, current, env)
    case StepItem(id, fault) => ProcessItem(s, id, fault)
    case StepDeliver(k, told, isLast) => Deliver(s, k, told, isLast)
    case StepExternal(k, c) => ExternalWrite(s, k, c)
    case StepDomain(d) => DomainEvent(s, d)
    case StepDomainDeleted(key) => DomainDeleted(s, key)
    case StepResync => Resync(s)
  }

  /** The controllers start with synced caches, all known domains queued and nothing else pending. */
  ghost predicate Init(s: State) {
    && WellFormed(s.store) && s.cache == s.store.objects && s.events == {}
    && (forall key :: key in s.domains ==> s.domains[key].name == key)
    && s.queue == s.domains.Keys && s.requeues == map[] && s.items == map[] && s.gaveUp == {}
  }

  /** The state that a run of enabled steps leads to. */
  ghost predicate Run(s: State, steps: seq<Step>, s': State, env: V1Settings)
    decreases |steps|
  {
    if steps == [] then s' == s
    else
      var n := |steps| - 1;
      exists mid :: Run(s, steps[..n], mid, env) && Enabled(mid, steps[n]) && s' == Apply(mid, steps[n], env)
  }

  lemma RunOfNone(s: State, env: V1Settings)
    ensures Run(s, [], s, env)
  {
  }

  lemma RunOneMore(s: State, steps: seq<Step>, mid: State, step: Step, env: V1Settings)
    requires Run(s, steps, mid, env) && Enabled(mid, step)
    ensures Run(s, steps + [step], Apply(mid, step, env), env)
  {
    assert (steps + [step])[..|steps|] == steps;
  }

  lemma LastOfRun(s: State, steps: seq<Step>, s': State, env: V1Settings) returns (mid: State)
    requires Run(s, steps, s', env) && steps != []
    ensures var n := |steps| - 1;
            Run(s, steps[..n], mid, env) && Enabled(mid, steps[n]) && s' == Apply(mid, steps[n], env)
  {
    var n := |steps| - 1;
    mid :| Run(s, steps[..n], mid, env) && Enabled(mid, steps[n]) && s' == Apply(mid, steps[n], env);
  }

  lemma RunOneMoreAfter(s: State, a: seq<Step>, init: seq<Step>, last: State, step: Step, env: V1Settings)
    requires Run(s, a + init, last, env) && Enabled(last, step)
    ensures Run(s, a + (init + [step]), Apply(last, step, env), env)
  {
    RunOneMore(s, a + init, last, step, env);
    AppendIsAssociative(a, init, [step]);
  }

  lemma RunJoined(s: State, a: seq<Step>, b: seq<Step>, last: State, s': State, env: V1Settings)
    requires b != [] && Run(s, a + b[..|b| - 1], last, env) && Enabled(last, b[|b| - 1]) && s' == Apply(last, b[|b| - 1], env)
    ensures Run(s, a + b, s', env)
  {
    assert b[..|b| - 1] + [b[|b| - 1]] == b;
    RunOneMoreAfter(s, a, b[..|b| - 1], last, b[|b| - 1], env);
  }

  lemma {:induction false} RunConcat(s: State, a: seq<Step>, mid: State, b: seq<Step>, s': State, env: V1Settings)
    requires Run(s, a, mid, env) && Run(mid, b, s', env)
    ensures Run(s, a + b, s', env)
    decreases |b|
  {
    if b == [] {
      assert a + b == a;
    } else {
      var last := LastOfRun(mid, b, s', env);
      RunConcat(s, a, mid, b[..|b| - 1], last, env);
      RunJoined(s, a, b, last, s', env);
    }
  }

  ghost predicate Reachable(s: State, env: V1Settings) {
    exists s0, steps :: Init(s0) && Run(s0, steps, s, env)
  }

  // ---- Invariants. ----

  ghost predicate ItemsSound(items: map<nat, QueuedItem>, nextId: nat) {
    forall id :: id in items ==> id < nextId && items[id].requeues <= QUEUE_NUM_RETRIES
  }

  /** The cache differs from the server only where an event is pending; counters stay within the limit. */
  ghost predicate Sound(s: State) {
    && WellFormed(s.store)
    && (forall k :: k in s.cache ==> s.cache[k].meta.key == k)
    && (forall k :: Get(s.cache, k) != Get(s.store.objects, k) ==> k in s.events)
    && (forall key :: key in s.domains ==> s.domains[key].name == key)
    && (forall key :: key in s.requeues ==> s.requeues[key] <= QUEUE_NUM_RETRIES)
    && ItemsSound(s.items, s.nextId)
  }

  /** What a listing of the cache shows. */
  function Visible(cache: map<Key, Config<Spec>>, sc: Scope): map<Key, Config<Spec>> {
    map k | k in cache && InScope(sc, k) :: cache[k]
  }

  /** `x` is one of the items that a sync would queue now. */
  ghost predicate Needed(visible: map<Key, Config<Spec>>, desired: seq<Config<Spec>>, x: Item<Spec>) {
    || (exists d :: d in desired && ItemFor(visible, d, NeverFlagged) == Some(x))
    || (x.operation == Delete && x.resource.meta.key in visible && visible[x.resource.meta.key] == x.resource
        && x.resource.meta.key !in KeyedMap(desired))
  }

  ghost predicate NothingNeeded(visible: map<Key, Config<Spec>>, desired: seq<Config<Spec>>) {
    forall x :: !Needed(visible, desired, x)
  }

  ghost predicate EventPending(s: State, key: string) {
    exists k :: k in s.events && InScope(ScopeOf(key), k)
  }

  ghost predicate FreshItemPending(s: State, key: string, env: V1Settings)
    requires key in s.domains
  {
    exists id :: id in s.items && s.items[id].owner == key &&
      Needed(Visible(s.cache, ScopeOf(key)), Desired(s.domains, key, env), s.items[id].item)
  }

  /** The domains the convergence claim is about. */
  predicate Tracked(s: State, key: string) {
    key in s.domains && TrustFree(s.domains[key]) && Decodable(key)
  }

  /** Work that is still to be done for a domain is on its way. */
  ghost predicate Covered(s: State, key: string, env: V1Settings)
    requires key in s.domains
  {
    || key in s.queue
    || EventPending(s, key)
    || key in s.gaveUp
    || NothingNeeded(Visible(s.cache, ScopeOf(key)), Desired(s.domains, key, env))
    || FreshItemPending(s, key, env)
  }

  ghost predicate Inv(s: State, env: V1Settings) {
    && Sound(s)
    && forall key :: Tracked(s, key) ==> Covered(s, key, env)
  }

  // ---- Preservation. ----

  lemma ListingShowsVisible(current: seq<Config<Spec>>, cache: map<Key, Config<Spec>>, sc: Scope,
                            desired: seq<Config<Spec>>, x: Item<Spec>)
    requires Lists(current, cache, sc) && forall k :: k in cache ==> cache[k].meta.key == k
    ensures x in Changes(current, desired, NeverFlagged) <==> Needed(Visible(cache, sc), desired, x)
  {
    ListingKeyedMap(current, cache, sc);
    ChangesContain(current, desired, NeverFlagged, x);
  }

  /** The items of a change list join the queue under new identities, in order. */
  lemma {:induction false} EnqueuedAt(items: map<nat, QueuedItem>, nextId: nat, changes: seq<Item<Spec>>,
                                      owner: string, id: nat)
    requires ItemsSound(items, nextId)
    ensures var all := Enqueue(items, nextId, changes, owner);
            && (id in all <==> id in items || nextId <= id < nextId + |changes|)
            && (id in items ==> all[id] == items[id])
            && (nextId <= id < nextId + |changes| ==> all[id] == QueuedItem(changes[id - nextId], owner, 0))
  {
    if changes != [] {
      EnqueuedAt(items, nextId, changes[..|changes| - 1], owner, id);
    }
  }

  lemma EnqueuedItemsAreSound(items: map<nat, QueuedItem>, nextId: nat, changes: seq<Item<Spec>>, owner: string)
    requires ItemsSound(items, nextId)
    ensures ItemsSound(Enqueue(items, nextId, changes, owner), nextId + |changes|)
  {
    var all := Enqueue(items, nextId, changes, owner);
    forall id | id in all ensures id < nextId + |changes| && all[id].requeues <= QUEUE_NUM_RETRIES {
      EnqueuedAt(items, nextId, changes, owner, id);
    }
  }

  lemma EnqueueKeepsItems(items: map<nat, QueuedItem>, nextId: nat, changes: seq<Item<Spec>>, owner: string)
    requires ItemsSound(items, nextId)
    ensures forall id :: id in items ==>
              id in Enqueue(items, nextId, changes, owner) && Enqueue(items, nextId, changes, owner)[id] == items[id]
  {
    forall id | id in items
      ensures id in Enqueue(items, nextId, changes, owner) && Enqueue(items, nextId, changes, owner)[id] == items[id]
    {
      EnqueuedAt(items, nextId, changes, owner, id);
    }
  }

  lemma FailedEffects(s: State, key: string)
    ensures var s' := Failed(s, key);
            && s' == s.(queue := s'.queue, requeues := s'.requeues, gaveUp := s'.gaveUp)
            && s.queue <= s'.queue && s.gaveUp <= s'.gaveUp
  {
  }

  lemma ChangesEffects(s: State, key: string, changes: seq<Item<Spec>>)
    ensures var s' := WithChanges(s, key, changes);
            && s' == s.(requeues := s'.requeues, items := s'.items, nextId := s'.nextId)
            && s'.items == Enqueue(s.items, s.nextId, changes, key) && s'.nextId == s.nextId + |changes|
  {
  }

  /** What a sync changes: the queue, the counters and the history, and the items when it finds its domain. */
  lemma SyncEffects(s: State, key: string, current: seq<Config<Spec>>, env: V1Settings)
    ensures var s' := SyncKey(s, key, current, env);
            && s' == s.(queue := s'.queue, requeues := s'.requeues, items := s'.items, nextId := s'.nextId, gaveUp := s'.gaveUp)
            && s.queue - {key} <= s'.queue && s.gaveUp - {key} <= s'.gaveUp
            && if key !in s.domains then s'.items == s.items && s'.nextId == s.nextId
               else
                 var changes := Changes(current, Desired(s.domains, key, env), NeverFlagged);
                 s'.items == Enqueue(s.items, s.nextId, changes, key) && s'.nextId == s.nextId + |changes|
  {
    var taken := s.(queue := s.queue - {key});
    if key !in s.domains {
      FailedEffects(taken, key);
    } else {
      ChangesEffects(taken, key, Changes(current, Desired(s.domains, key, env), NeverFlagged));
    }
  }

  lemma SyncKeepsCounters(s: State, key: string, current: seq<Config<Spec>>, env: V1Settings)
    requires forall k :: k in s.requeues ==> s.requeues[k] <= QUEUE_NUM_RETRIES
    ensures var after := SyncKey(s, key, current, env).requeues; forall k :: k in after ==> after[k] <= QUEUE_NUM_RETRIES
  {
  }

  lemma SyncKeepsSound(s: State, key: string, current: seq<Config<Spec>>, env: V1Settings)
    requires Sound(s)
    ensures Sound(SyncKey(s, key, current, env))
  {
    SyncEffects(s, key, current, env);
    SyncKeepsCounters(s, key, current, env);
    if key in s.domains {
      EnqueuedItemsAreSound(s.items, s.nextId, Changes(current, Desired(s.domains, key, env), NeverFlagged), key);
    }
  }

  lemma FirstItemIsPending(s: State, key: string, current: seq<Config<Spec>>, env: V1Settings)
    requires Sound(s) && key in s.domains
    requires var changes := Changes(current, Desired(s.domains, key, env), NeverFlagged);
             changes != [] && Needed(Visible(s.cache, ScopeOf(key)), Desired(s.domains, key, env), changes[0])
    ensures FreshItemPending(SyncKey(s, key, current, env), key, env)
  {
    var changes := Changes(current, Desired(s.domains, key, env), NeverFlagged);
    SyncEffects(s, key, current, env);
    EnqueuedAt(s.items, s.nextId, changes, key, s.nextId);
    assert s.nextId in SyncKey(s, key, current, env).items;
  }

  /** A sync leaves nothing to do, or queues an item that the cache calls for. */
  lemma SyncCoversItsKey(s: State, key: string, current: seq<Config<Spec>>, env: V1Settings)
    requires Sound(s) && key in s.domains && Lists(current, s.cache, ScopeOf(key))
    ensures Covered(SyncKey(s, key, current, env), key, env)
  {
    var desired, visible := Desired(s.domains, key, env), Visible(s.cache, ScopeOf(key));
    var changes := Changes(current, desired, NeverFlagged);
    forall x ensures x in changes <==> Needed(visible, desired, x) {
      ListingShowsVisible(current, s.cache, ScopeOf(key), desired, x);
    }
    if changes != [] {
      assert changes[0] in changes;
      FirstItemIsPending(s, key, current, env);
    }
  }

  /** All that may cover a key is still there. */
  ghost predicate KeepsWork(s: State, s': State, key: string) {
    && s'.cache == s.cache && s'.domains == s.domains && s.events <= s'.events
    && (key in s.queue ==> key in s'.queue) && (key in s.gaveUp ==> key in s'.gaveUp)
    && forall id :: id in s.items && s.items[id].owner == key ==> id in s'.items && s'.items[id] == s.items[id]
  }

  lemma KeptWorkCovers(s: State, s': State, key: string, env: V1Settings)
    requires key in s.domains && Covered(s, key, env) && KeepsWork(s, s', key)
    ensures Covered(s', key, env)
  {
    if EventPending(s, key) {
      var k :| k in s.events && InScope(ScopeOf(key), k);
      assert k in s'.events;
    } else if FreshItemPending(s, key, env) {
      var id :| id in s.items && s.items[id].owner == key &&
        Needed(Visible(s.cache, ScopeOf(key)), Desired(s.domains, key, env), s.items[id].item);
      assert id in s'.items;
    }
  }

  /** A sync of another key takes nothing away. */
  lemma SyncKeepsOthersCovered(s: State, key: string, current: seq<Config<Spec>>, env: V1Settings, other: string)
    requires Sound(s) && other in s.domains && Covered(s, other, env) && other != key
    ensures Covered(SyncKey(s, key, current, env), other, env)
  {
    SyncEffects(s, key, current, env);
    if key in s.domains {
      EnqueueKeepsItems(s.items, s.nextId, Changes(current, Desired(s.domains, key, env), NeverFlagged), key);
    }
    KeptWorkCovers(s, SyncKey(s, key, current, env), other, env);
  }

  /** The server stays well formed, and every change of it is announced. */
  lemma CallIsAnnounced(store: Store<Spec>, item: Item<Spec>, fault: Fault)
    requires WellFormed(store)
    ensures var (after, changed, _) := CallServer(store, item, fault);
            && WellFormed(after)
            && forall k :: k !in changed ==> Get(after.objects, k) == Get(store.objects, k)
  {
  }

  /** What the callback and the processor change. */
  lemma SettleEffects(s: State, id: nat, outcome: Outcome)
    requires id in s.items
    ensures var s' := Settle(s, id, outcome);
            && s' == s.(queue := s'.queue, requeues := s'.requeues, items := s'.items, gaveUp := s'.gaveUp)
            && s.queue <= s'.queue && s.gaveUp <= s'.gaveUp
            && (|| s'.items == s.items - {id}
                || (s.items[id].requeues < QUEUE_NUM_RETRIES
                    && s'.items == s.items[id := s.items[id].(requeues := s.items[id].requeues + 1)]))
  {
  }

  lemma SettleKeepsCounters(s: State, id: nat, outcome: Outcome)
    requires id in s.items && forall k :: k in s.requeues ==> s.requeues[k] <= QUEUE_NUM_RETRIES
    ensures var after := Settle(s, id, outcome).requeues; forall k :: k in after ==> after[k] <= QUEUE_NUM_RETRIES
  {
  }

  lemma SettleKeepsSound(s: State, id: nat, outcome: Outcome)
    requires Sound(s) && id in s.items
    ensures Sound(Settle(s, id, outcome))
  {
    SettleEffects(s, id, outcome);
    SettleKeepsCounters(s, id, outcome);
  }

  lemma ProcessKeepsSound(s: State, id: nat, fault: Fault)
    requires Sound(s) && id in s.items
    ensures Sound(ProcessItem(s, id, fault))
  {
    var (store, changed, outcome) := CallServer(s.store, s.items[id].item, fault);
    CallIsAnnounced(s.store, s.items[id].item, fault);
    SettleKeepsSound(s.(store := store, events := s.events + changed), id, outcome);
  }

  lemma DesiredInScope(domains: map<string, DomainValue>, key: string, env: V1Settings)
    requires key in domains && domains[key].name == key
    ensures forall d :: d in Desired(domains, key, env) ==> InScope(ScopeOf(key), d.meta.key)
  {
    var m := ModelOf(domains, domains[key]);
    OutputIsWellFormed(m, m.roles, env);
  }

  /** An item that the cache calls for is in scope, and succeeds where the server has what the cache has. */
  lemma NeededSucceeds(store: Store<Spec>, cache: map<Key, Config<Spec>>, sc: Scope, desired: seq<Config<Spec>>, x: Item<Spec>)
    requires (forall k :: k in cache ==> cache[k].meta.key == k) && Needed(Visible(cache, sc), desired, x)
    requires forall d :: d in desired ==> InScope(sc, d.meta.key)
    ensures var k := x.resource.meta.key;
            InScope(sc, k) && (Get(cache, k) == Get(store.objects, k) ==> Execute(store, x).1 == Success)
  {
  }

  /** While no event is pending in a domain's namespace, an item that the cache calls for succeeds. */
  lemma FreshItemSucceeds(s: State, key: string, x: Item<Spec>, env: V1Settings)
    requires Sound(s) && key in s.domains && !EventPending(s, key)
    requires Needed(Visible(s.cache, ScopeOf(key)), Desired(s.domains, key, env), x)
    ensures InScope(ScopeOf(key), x.resource.meta.key)
    ensures Execute(s.store, x).1 == Success
  {
    DesiredInScope(s.domains, key, env);
    NeededSucceeds(s.store, s.cache, ScopeOf(key), Desired(s.domains, key, env), x);
    assert x.resource.meta.key !in s.events;
  }

  /** Processing an item keeps what the informers know, all that was queued, and the other items. */
  lemma ProcessKeepsTheRest(s: State, id: nat, fault: Fault)
    requires id in s.items
    ensures var s' := ProcessItem(s, id, fault);
            && s'.domains == s.domains && s'.cache == s.cache
            && s.events <= s'.events && s.queue <= s'.queue && s.gaveUp <= s'.gaveUp
            && forall i :: i in s.items && i != id ==> i in s'.items && s'.items[i] == s.items[i]
  {
    var (store, changed, outcome) := CallServer(s.store, s.items[id].item, fault);
    SettleEffects(s.(store := store, events := s.events + changed), id, outcome);
  }

  /** An item that succeeds when it arrives causes an event, or stays, or hits its limit. */
  lemma ProcessedItemLeavesWork(s: State, id: nat, fault: Fault)
    requires id in s.items && Execute(s.store, s.items[id].item).1 == Success
    ensures var s', q := ProcessItem(s, id, fault), s.items[id];
            || q.item.resource.meta.key in s'.events
            || q.owner in s'.gaveUp
            || (id in s'.items && s'.items[id].item == q.item && s'.items[id].owner == q.owner)
  {
  }

  lemma ProcessKeepsCovered(s: State, id: nat, fault: Fault, env: V1Settings, key: string)
    requires Inv(s, env) && id in s.items && Tracked(ProcessItem(s, id, fault), key)
    ensures Covered(ProcessItem(s, id, fault), key, env)
  {
    var s' := ProcessItem(s, id, fault);
    ProcessKeepsTheRest(s, id, fault);
    assert Tracked(s, key) && Covered(s, key, env);
    if EventPending(s, key) {
      var k :| k in s.events && InScope(ScopeOf(key), k);
      assert k in s'.events;
    } else if FreshItemPending(s, key, env) {
      var i :| i in s.items && s.items[i].owner == key &&
        Needed(Visible(s.cache, ScopeOf(key)), Desired(s.domains, key, env), s.items[i].item);
      if i == id {
        FreshItemSucceeds(s, key, s.items[id].item, env);
        ProcessedItemLeavesWork(s, id, fault);
        assert s.items[id].item.resource.meta.key in s'.events ==> EventPending(s', key);
      }
      assert i in s'.items && s'.items[i].item == s.items[i].item && s'.items[i].owner == key ==>
          FreshItemPending(s', key, env);
    }
  }

  lemma DeliverKeepsSound(s: State, k: Key, told: Option<Config<Spec>>, isLast: bool)
    requires Sound(s) && Enabled(s, StepDeliver(k, told, isLast))
    ensures Sound(Deliver(s, k, told, isLast))
  {
    var s' := Deliver(s, k, told, isLast);
    forall k' | k' != k ensures Get(s'.cache, k') == Get(s.cache, k') {
    }
    assert Get(s'.cache, k) == told;
  }

  /** An event queues the domain that its namespace decodes to, and shows nothing to others. */
  lemma DeliverKeepsCovered(s: State, k: Key, told: Option<Config<Spec>>, isLast: bool, key: string, env: V1Settings)
    requires Tracked(s, key) && Covered(s, key, env)
    ensures Covered(Deliver(s, k, told, isLast), key, env)
  {
    var s' := Deliver(s, k, told, isLast);
    if InScope(ScopeOf(key), k) {
      DomainRoundTrip(key);
      assert key in s'.queue;
    } else {
      assert Visible(s'.cache, ScopeOf(key)) == Visible(s.cache, ScopeOf(key));
      if EventPending(s, key) {
        var k' :| k' in s.events && InScope(ScopeOf(key), k');
        assert k' in s'.events;
      }
    }
  }

  lemma DeliverKeepsInv(s: State, k: Key, told: Option<Config<Spec>>, isLast: bool, env: V1Settings)
    requires Inv(s, env) && Enabled(s, StepDeliver(k, told, isLast))
    ensures Inv(Deliver(s, k, told, isLast), env)
  {
    DeliverKeepsSound(s, k, told, isLast);
    forall key | Tracked(s, key) ensures Covered(Deliver(s, k, told, isLast), key, env) {
      DeliverKeepsCovered(s, k, told, isLast, key, env);
    }
  }

  lemma ExternalKeepsInv(s: State, k: Key, c: Option<Config<Spec>>, env: V1Settings)
    requires Inv(s, env)
    ensures Inv(ExternalWrite(s, k, c), env)
  {
    var s' := ExternalWrite(s, k, c);
    forall k' | k' != k ensures Get(s'.store.objects, k') == Get(s.store.objects, k') {
    }
    forall key | Tracked(s', key) ensures Covered(s', key, env) {
      assert Tracked(s, key) && Covered(s, key, env);
      if EventPending(s, key) {
        var k' :| k' in s.events && InScope(ScopeOf(key), k');
        assert k' in s'.events;
      }
    }
  }

  /** A change of the domains concerns a tracked domain only when it is that domain's own. */
  lemma DomainsKeepInv(s: State, s': State, env: V1Settings, changed: string)
    requires Inv(s, env)
    requires s' == s.(domains := s'.domains, queue := s'.queue)
    requires s.queue + {changed} <= s'.queue
    requires forall key :: key in s'.domains ==> s'.domains[key].name == key
    requires forall key :: key != changed ==> (key in s.domains <==> key in s'.domains)
    requires forall key :: key != changed && key in s.domains ==> s'.domains[key] == s.domains[key]
    ensures Inv(s', env)
  {
    forall key | Tracked(s', key) ensures Covered(s', key, env) {
      if key != changed {
        assert Tracked(s, key) && Covered(s, key, env);
        TrustFreeModelIsLocal(s.domains, s'.domains, s.domains[key]);
        assert Desired(s.domains, key, env) == Desired(s'.domains, key, env);
        if EventPending(s, key) {
          var k :| k in s.events && InScope(ScopeOf(key), k);
          assert k in s'.events;
        }
      }
    }
  }

  lemma SyncKeepsInv(s: State, key: string, current: seq<Config<Spec>>, env: V1Settings)
    requires Inv(s, env) && Lists(current, s.cache, ScopeOf(key))
    ensures Inv(SyncKey(s, key, current, env), env)
  {
    SyncKeepsSound(s, key, current, env);
    SyncEffects(s, key, current, env);
    forall other | Tracked(s, other) ensures Covered(SyncKey(s, key, current, env), other, env) {
      if other != key {
        SyncKeepsOthersCovered(s, key, current, env, other);
      } else {
        SyncCoversItsKey(s, key, current, env);
      }
    }
  }

  lemma ProcessKeepsInv(s: State, id: nat, fault: Fault, env: V1Settings)
    requires Inv(s, env) && id in s.items
    ensures Inv(ProcessItem(s, id, fault), env)
  {
    ProcessKeepsSound(s, id, fault);
    forall key | Tracked(ProcessItem(s, id, fault), key) ensures Covered(ProcessItem(s, id, fault), key, env) {
      ProcessKeepsCovered(s, id, fault, env, key);
    }
  }

  lemma ResyncKeepsInv(s: State, env: V1Settings)
    requires Inv(s, env)
    ensures Inv(Resync(s), env)
  {
    forall key | Tracked(s, key) ensures Covered(Resync(s), key, env) {
      assert key in Resync(s).queue;
    }
  }

  lemma StepKeepsInv(s: State, step: Step, env: V1Settings)
    requires Inv(s, env) && Enabled(s, step)
    ensures Inv(Apply(s, step, env), env)
  {
    match step
    case StepSync(key, current) => SyncKeepsInv(s, key, current, env);
    case StepItem(id, fault) => ProcessKeepsInv(s, id, fault, env);
    case StepDeliver(k, told, isLast) => DeliverKeepsInv(s, k, told, isLast, env);
    case StepExternal(k, c) => ExternalKeepsInv(s, k, c, env);
    case StepDomain(d) => DomainsKeepInv(s, DomainEvent(s, d), env, d.name);
    case StepDomainDeleted(key) => DomainsKeepInv(s, DomainDeleted(s, key), env, key);
    case StepResync => ResyncKeepsInv(s, env);
  }

  lemma InitHasInv(s: State, env: V1Settings)
    requires Init(s)
    ensures Inv(s, env)
  {
  }

  lemma {:induction false} RunKeepsInv(s: State, steps: seq<Step>, s': State, env: V1Settings)
    requires Inv(s, env) && Run(s, steps, s', env)
    ensures Inv(s', env)
    decreases |steps|
  {
    if steps != [] {
      var n := |steps| - 1;
      var mid :| Run(s, steps[..n], mid, env) && Enabled(mid, steps[n]) && s' == Apply(mid, steps[n], env);
      RunKeepsInv(s, steps[..n], mid, env);
      StepKeepsInv(mid, steps[n], env);
    }
  }

  lemma ReachableHasInv(s: State, env: V1Settings)
    requires Reachable(s, env)
    ensures Inv(s, env)
  {
    var s0, steps :| Init(s0) && Run(s0, steps, s, env);
    InitHasInv(s0, env);
    RunKeepsInv(s0, steps, s, env);
  }

  // ---- Convergence. ----

  /** Nothing is on its way for a domain. */
  ghost predicate Quiescent(s: State, key: string) {
    && key !in s.queue
    && !EventPending(s, key)
    && key !in s.gaveUp
    && forall id :: id in s.items ==> s.items[id].owner != key
  }

  /** Every desired spec is there, and every object in scope is desired. */
  ghost predicate Holds(objects: map<Key, Config<Spec>>, sc: Scope, desired: seq<Config<Spec>>) {
    && (forall d :: d in desired ==> d.meta.key in objects && objects[d.meta.key].spec == d.spec)
    && (forall k :: k in objects && InScope(sc, k) ==> k in KeyedMap(desired))
  }

  /** The server holds the desired specs of the domain's namespace, and nothing else of their kinds. */
  ghost predicate Converged(s: State, key: string, env: V1Settings)
    requires key in s.domains
  {
    Holds(s.store.objects, ScopeOf(key), Desired(s.domains, key, env))
  }

  /** What a cache without pending events asks nothing about is converged. */
  lemma NothingNeededIsConverged(s: State, key: string, env: V1Settings)
    requires Sound(s) && key in s.domains && !EventPending(s, key)
    requires NothingNeeded(Visible(s.cache, ScopeOf(key)), Desired(s.domains, key, env))
    ensures Converged(s, key, env)
  {
    var sc, desired := ScopeOf(key), Desired(s.domains, key, env);
    var visible := Visible(s.cache, sc);
    DesiredInScope(s.domains, key, env);
    forall k | InScope(sc, k) ensures Get(s.cache, k) == Get(s.store.objects, k) {
      assert k !in s.events;
    }
    forall d | d in desired ensures d.meta.key in s.store.objects && s.store.objects[d.meta.key].spec == d.spec {
      var item := ItemFor(visible, d, NeverFlagged);
      if item.Some? {
        assert Needed(visible, desired, item.value);
      }
      assert Get(s.cache, d.meta.key) == Get(s.store.objects, d.meta.key);
    }
    forall k | k in s.store.objects && InScope(sc, k) ensures k in KeyedMap(desired) {
      assert Get(s.cache, k) == Get(s.store.objects, k);
      assert !Needed(visible, desired, Item(Delete, visible[k]));
    }
  }

  /** In every reachable state, an existing trust-free domain with a decodable name for which nothing is pending
      and no retry limit was hit since its last sync has its desired configs in the server's store. */
  lemma QuiescenceImpliesConvergence(s: State, key: string, env: V1Settings)
    requires Reachable(s, env) && Tracked(s, key) && Quiescent(s, key)
    ensures Converged(s, key, env)
  {
    ReachableHasInv(s, env);
    assert Covered(s, key, env);
    NothingNeededIsConverged(s, key, env);
  }

  /** In every reachable state no requeue counter, of a key or of an item, exceeds the limit. */
  lemma RetriesAreBounded(s: State, env: V1Settings)
    requires Reachable(s, env)
    ensures forall key :: NumRequeues(s.requeues, key) <= QUEUE_NUM_RETRIES
    ensures forall id :: id in s.items ==> s.items[id].requeues <= QUEUE_NUM_RETRIES
  {
    ReachableHasInv(s, env);
  }

  // ---- What a round of answered items does. ----

  /** Without pending events a listing of the cache is a listing of the server. */
  lemma UpToDateListing(s: State, key: string, current: seq<Config<Spec>>)
    requires Sound(s) && Lists(current, s.cache, ScopeOf(key)) && !EventPending(s, key)
    ensures Lists(current, s.store.objects, ScopeOf(key))
  {
    forall k | InScope(ScopeOf(key), k) ensures Get(s.cache, k) == Get(s.store.objects, k) {
      assert k !in s.events;
    }
    forall c ensures c in current <==>
      c.meta.key in s.store.objects && InScope(ScopeOf(key), c.meta.key) && s.store.objects[c.meta.key] == c
    {
      if InScope(ScopeOf(key), c.meta.key) {
        assert Get(s.cache, c.meta.key) == Get(s.store.objects, c.meta.key);
      }
    }
  }

  /** An executed change list leaves the desired configs. */
  lemma ExecutedChangesHold(store: Store<Spec>, sc: Scope, current: seq<Config<Spec>>, desired: seq<Config<Spec>>)
    requires WellFormed(store) && Lists(current, store.objects, sc) && Consistent(desired)
    requires forall d :: d in desired ==> InScope(sc, d.meta.key)
    ensures Holds(ExecuteAll(store, Changes(current, desired, NeverFlagged)).objects, sc, desired)
  {
    var changes := Changes(current, desired, NeverFlagged);
    var st := ExecuteAll(store, changes);
    KeyedMapContains(desired);
    forall k ensures Reconciled(k, Get(store.objects, k), Get(st.objects, k), desired, NeverFlagged, sc) {
      ChangeListReconciles(store, current, desired, NeverFlagged, sc, changes, k);
    }
    forall d | d in desired ensures d.meta.key in st.objects && st.objects[d.meta.key].spec == d.spec {
      var k := d.meta.key;
      assert Reconciled(k, Get(store.objects, k), Get(st.objects, k), desired, NeverFlagged, sc);
    }
    forall k | k in st.objects && InScope(sc, k) ensures k in KeyedMap(desired) {
      assert Reconciled(k, Get(store.objects, k), Get(st.objects, k), desired, NeverFlagged, sc);
    }
  }

  // ---- Where the claim stops. ----

  ghost predicate AsksFor(desired: seq<Config<Spec>>, k: Key, spec: Spec) {
    exists d :: d in desired && d.meta.key == k && d.spec == spec
  }

  /** Two lists of desired configs ask for the same specs. */
  ghost predicate SameSpecs(a: seq<Config<Spec>>, b: seq<Config<Spec>>) {
    && (forall d :: d in a ==> AsksFor(b, d.meta.key, d.spec))
    && (forall d :: d in b ==> AsksFor(a, d.meta.key, d.spec))
  }

  /** What holds of a store determines the specs that were asked for. */
  lemma HoldsDeterminesSpecs(objects: map<Key, Config<Spec>>, sc: Scope, a: seq<Config<Spec>>, b: seq<Config<Spec>>)
    requires Holds(objects, sc, a)
    requires forall d :: d in a || d in b ==> InScope(sc, d.meta.key)
    ensures Holds(objects, sc, b) <==> SameSpecs(a, b)
  {
    KeyedMapContains(a);
    KeyedMapContains(b);
    if Holds(objects, sc, b) {
      forall d | d in a ensures AsksFor(b, d.meta.key, d.spec) {
        assert KeyedMap(b)[d.meta.key] in b;
      }
      forall d | d in b ensures AsksFor(a, d.meta.key, d.spec) {
        assert KeyedMap(a)[d.meta.key] in a;
      }
    }
    if SameSpecs(a, b) {
      forall k | k in objects && InScope(sc, k) ensures k in KeyedMap(b) {
        var d := KeyedMap(a)[k];
        assert AsksFor(b, d.meta.key, d.spec);
      }
      forall d | d in b ensures d.meta.key in objects && objects[d.meta.key].spec == d.spec {
        assert AsksFor(a, d.meta.key, d.spec);
      }
    }
  }

  /** A change of another domain leaves a quiescent domain quiescent. A trust role can make its desired configs
      depend on that domain; then it stays converged exactly when they ask for the same specs as before. */
  lemma OtherDomainsGoUnnoticed(s: State, key: string, d: DomainValue, env: V1Settings)
    requires key in s.domains && s.domains[key].name == key
    requires Quiescent(s, key) && Converged(s, key, env) && d.name != key
    ensures var s' := DomainEvent(s, d);
            && Quiescent(s', key)
            && (Converged(s', key, env) <==> SameSpecs(Desired(s.domains, key, env), Desired(s'.domains, key, env)))
  {
    var s' := DomainEvent(s, d);
    assert EventPending(s', key) ==> EventPending(s, key);
    DesiredInScope(s.domains, key, env);
    DesiredInScope(s'.domains, key, env);
    HoldsDeterminesSpecs(s.store.objects, ScopeOf(key), Desired(s.domains, key, env), Desired(s'.domains, key, env));
  }

  ghost predicate NoItemIn(items: map<nat, QueuedItem>, sc: Scope) {
    forall id :: id in items ==> !InScope(sc, items[id].item.resource.meta.key)
  }

  /** The domain is gone, no other has its namespace, and nothing that is waiting is about it. */
  ghost predicate Gone(s: State, key: string) {
    && (forall other :: other in s.domains ==> DomainToNamespace(other) != DomainToNamespace(key))
    && NoItemIn(s.items, ScopeOf(key))
  }

  /** The step neither brings a domain to the namespace nor writes there from outside. */
  ghost predicate LeavesGone(step: Step, key: string) {
    match step
    case StepExternal(k, _) => !InScope(ScopeOf(key), k)
    case StepDomain(d) => DomainToNamespace(d.name) != DomainToNamespace(key)
    case _ => true
  }

  ghost predicate SameInScope(a: Store<Spec>, b: Store<Spec>, sc: Scope) {
    forall k :: InScope(sc, k) ==> Get(a.objects, k) == Get(b.objects, k)
  }

  /** A sync changes the namespace of its own domain only. */
  lemma ChangesAreInScope(s: State, key: string, current: seq<Config<Spec>>, env: V1Settings, x: Item<Spec>)
    requires Sound(s) && key in s.domains && Lists(current, s.cache, ScopeOf(key))
    requires x in Changes(current, Desired(s.domains, key, env), NeverFlagged)
    ensures InScope(ScopeOf(key), x.resource.meta.key)
  {
    DesiredInScope(s.domains, key, env);
    ListingShowsVisible(current, s.cache, ScopeOf(key), Desired(s.domains, key, env), x);
  }

  lemma EnqueuedOutside(items: map<nat, QueuedItem>, nextId: nat, changes: seq<Item<Spec>>, owner: string, sc: Scope)
    requires ItemsSound(items, nextId) && NoItemIn(items, sc)
    requires forall x :: x in changes ==> !InScope(sc, x.resource.meta.key)
    ensures NoItemIn(Enqueue(items, nextId, changes, owner), sc)
  {
    var all := Enqueue(items, nextId, changes, owner);
    forall id | id in all ensures !InScope(sc, all[id].item.resource.meta.key) {
      EnqueuedAt(items, nextId, changes, owner, id);
    }
  }

  lemma SyncKeepsGone(s: State, key: string, current: seq<Config<Spec>>, env: V1Settings, gone: string)
    requires Sound(s) && Gone(s, gone) && Lists(current, s.cache, ScopeOf(key))
    ensures Gone(SyncKey(s, key, current, env), gone) && SyncKey(s, key, current, env).store == s.store
  {
    SyncEffects(s, key, current, env);
    if key in s.domains {
      var changes := Changes(current, Desired(s.domains, key, env), NeverFlagged);
      forall x | x in changes ensures !InScope(ScopeOf(gone), x.resource.meta.key) {
        ChangesAreInScope(s, key, current, env, x);
      }
      EnqueuedOutside(s.items, s.nextId, changes, key, ScopeOf(gone));
    }
  }

  lemma ItemKeepsGone(s: State, id: nat, fault: Fault, key: string)
    requires Gone(s, key) && id in s.items
    ensures Gone(ProcessItem(s, id, fault), key)
    ensures SameInScope(s.store, ProcessItem(s, id, fault).store, ScopeOf(key))
  {
    var (store, changed, outcome) := CallServer(s.store, s.items[id].item, fault);
    var called := s.(store := store, events := s.events + changed);
    assert SameInScope(s.store, store, ScopeOf(key));
    SettleEffects(called, id, outcome);
  }

  lemma ExternalKeepsGone(s: State, k: Key, c: Option<Config<Spec>>, key: string)
    requires Gone(s, key) && !InScope(ScopeOf(key), k)
    ensures Gone(ExternalWrite(s, k, c), key)
    ensures SameInScope(s.store, ExternalWrite(s, k, c).store, ScopeOf(key))
  {
  }

  lemma OtherStepsKeepGone(s: State, step: Step, env: V1Settings, key: string)
    requires step.StepDeliver? || step.StepDomain? || step.StepDomainDeleted? || step.StepResync?
    requires LeavesGone(step, key) && Gone(s, key)
    ensures Gone(Apply(s, step, env), key) && SameInScope(s.store, Apply(s, step, env).store, ScopeOf(key))
  {
  }

  lemma StepKeepsGone(s: State, step: Step, env: V1Settings, key: string)
    requires Sound(s) && Enabled(s, step) && LeavesGone(step, key) && Gone(s, key)
    ensures Gone(Apply(s, step, env), key)
    ensures SameInScope(s.store, Apply(s, step, env).store, ScopeOf(key))
  {
    match step
    case StepSync(other, current) => SyncKeepsGone(s, other, current, env, key);
    case StepItem(id, fault) => ItemKeepsGone(s, id, fault, key);
    case StepExternal(k, c) => ExternalKeepsGone(s, k, c, key);
    case _ => OtherStepsKeepGone(s, step, env, key);
  }

  /** A deleted domain leaves its resources behind: once its pending items are done, no run of the system touches them
      until someone else does or a domain comes to the namespace. */
  lemma {:induction false} DeletedDomainKeepsItsResources(s: State, steps: seq<Step>, s': State, env: V1Settings, key: string)
    requires Inv(s, env) && Run(s, steps, s', env)
    requires Gone(s, key) && forall step :: step in steps ==> LeavesGone(step, key)
    ensures Gone(s', key) && SameInScope(s.store, s'.store, ScopeOf(key))
    decreases |steps|
  {
    if steps != [] {
      var n := |steps| - 1;
      var mid :| Run(s, steps[..n], mid, env) && Enabled(mid, steps[n]) && s' == Apply(mid, steps[n], env);
      DeletedDomainKeepsItsResources(s, steps[..n], mid, env, key);
      RunKeepsInv(s, steps[..n], mid, env);
      StepKeepsGone(mid, steps[n], env, key);
    }
  }
}
