/**
 Coming to rest: from wherever the domain controller has got to, its own steps, answered API calls and the delivery of
 pending events lead to the desired configs. pkg/controller/controller.go and pkg/istio/processor/controller.go.
 */
module Recovery {
  import opened ChangeList
  import opened Configs
  import opened Reconciler
  import opened Sequences
  import opened ServiceRoles

  /** The steps of an undisturbed system. */
  predicate Undisturbed(step: Step) {
    || step.StepSync? || (step.StepItem? && step.fault == Answered) || (step.StepDeliver? && step.isLast) || step.StepResync?
  }

  /** A run of a number of undisturbed steps. */
  ghost predicate Rests(s: State, steps: seq<Step>, s': State, env: V1Settings) {
    Run(s, steps, s', env) && forall step :: step in steps ==> Undisturbed(step)
  }

  lemma RestsOfNone(s: State, env: V1Settings)
    ensures Rests(s, [], s, env)
  {
  }

  lemma RestsOfOne(s: State, step: Step, env: V1Settings)
    requires Enabled(s, step) && Undisturbed(step)
    ensures Rests(s, [step], Apply(s, step, env), env)
  {
    RunOfNone(s, env);
    RunOneMore(s, [], s, step, env);
    assert [] + [step] == [step];
  }

  lemma RestsOneMore(s: State, steps: seq<Step>, mid: State, step: Step, env: V1Settings)
    requires Rests(s, steps, mid, env) && Enabled(mid, step) && Undisturbed(step)
    ensures Rests(s, steps + [step], Apply(mid, step, env), env)
  {
    RunOneMore(s, steps, mid, step, env);
  }

  lemma RestsConcat(s: State, a: seq<Step>, mid: State, b: seq<Step>, s': State, env: V1Settings)
    requires Rests(s, a, mid, env) && Rests(mid, b, s', env)
    ensures Rests(s, a + b, s', env)
  {
    RunConcat(s, a, mid, b, s', env);
  }

  lemma RestsAfterOne(s: State, step: Step, rest: seq<Step>, s': State, env: V1Settings)
    requires Enabled(s, step) && Undisturbed(step) && Rests(Apply(s, step, env), rest, s', env)
    ensures Rests(s, [step] + rest, s', env)
  {
    RestsOfOne(s, step, env);
    RestsConcat(s, [step], Apply(s, step, env), rest, s', env);
  }

  // ---- Items. ----

  lemma OneEventMore(events: set<Key>, changed: set<Key>)
    requires |changed| <= 1
    ensures |events + changed| <= |events| + 1
  {
    assert |events + changed| <= |events| + |changed| by {
      assert events + changed == events + (changed - events);
    }
  }

  lemma OneObjectMore(store: Store<Spec>, item: Item<Spec>)
    ensures |Execute(store, item).0.objects| <= |store.objects| + 1
  {
    var after, k := Execute(store, item).0, item.resource.meta.key;
    assert after.objects.Keys <= store.objects.Keys + {k};
    SubsetIsSmaller(after.objects.Keys, store.objects.Keys + {k});
  }

  lemma AnsweredSettles(s: State, id: nat, outcome: Outcome)
    requires id in s.items && outcome != Transient
    ensures var s' := Settle(s, id, outcome);
            && s'.items == s.items - {id} && s'.domains == s.domains && s'.cache == s.cache
            && s'.store == s.store && s'.events == s.events
  {
  }

  /** An answered item is done with: it leaves the queue, and the server has at most one more object and the cache one
      more event to hear of. */
  lemma AnsweredItemLeaves(s: State, id: nat)
    requires id in s.items
    ensures var s' := ProcessItem(s, id, Answered);
            && s'.items == s.items - {id} && s'.domains == s.domains && s'.cache == s.cache
            && s'.store == Execute(s.store, s.items[id].item).0
            && |s'.events| <= |s.events| + 1 && |s'.store.objects| <= |s.store.objects| + 1
  {
    var (store, changed, outcome) := CallServer(s.store, s.items[id].item, Answered);
    AnsweredSettles(s.(store := store, events := s.events + changed), id, outcome);
    OneEventMore(s.events, changed);
    OneObjectMore(s.store, s.items[id].item);
  }

  lemma {:induction false} DrainItems(s: State, env: V1Settings) returns (steps: seq<Step>, s': State)
    requires Sound(s)
    ensures Rests(s, steps, s', env) && |steps| == |s.items|
    ensures Sound(s') && s'.items == map[] && s'.domains == s.domains
    ensures |s'.events| <= |s.events| + |s.items| && |s'.store.objects| <= |s.store.objects| + |s.items|
    decreases |s.items|
  {
    if s.items == map[] {
      RestsOfNone(s, env);
      steps, s' := [], s;
    } else {
      var id :| id in s.items;
      var mid := ProcessItem(s, id, Answered);
      ProcessKeepsSound(s, id, Answered);
      AnsweredItemLeaves(s, id);
      assert mid.items.Keys == s.items.Keys - {id};
      var rest;
      rest, s' := DrainItems(mid, env);
      RestsAfterOne(s, StepItem(id, Answered), rest, s', env);
      steps := [StepItem(id, Answered)] + rest;
    }
  }

  // ---- Events. ----

  lemma {:induction false} DeliverAll(s: State, env: V1Settings) returns (steps: seq<Step>, s': State)
    requires Sound(s)
    ensures Rests(s, steps, s', env) && |steps| == |s.events|
    ensures Sound(s') && s'.events == {} && s'.items == s.items && s'.domains == s.domains && s'.store == s.store
    decreases |s.events|
  {
    if s.events == {} {
      RestsOfNone(s, env);
      steps, s' := [], s;
    } else {
      var k :| k in s.events;
      var step := StepDeliver(k, Get(s.store.objects, k), true);
      var mid := Deliver(s, k, Get(s.store.objects, k), true);
      DeliverKeepsSound(s, k, Get(s.store.objects, k), true);
      var rest;
      rest, s' := DeliverAll(mid, env);
      RestsAfterOne(s, step, rest, s', env);
      steps := [step] + rest;
    }
  }

  lemma CaughtUp(s: State)
    requires Sound(s) && s.events == {}
    ensures s.cache == s.store.objects
  {
    forall k ensures k in s.cache <==> k in s.store.objects {
      assert Get(s.cache, k) == Get(s.store.objects, k);
    }
    forall k | k in s.cache ensures s.cache[k] == s.store.objects[k] {
      assert Get(s.cache, k) == Get(s.store.objects, k);
    }
  }

  // ---- Syncs. ----

  lemma {:induction false} ListingExists(cache: map<Key, Config<Spec>>, sc: Scope) returns (current: seq<Config<Spec>>)
    requires forall k :: k in cache ==> cache[k].meta.key == k
    ensures Lists(current, cache, sc) && |current| <= |cache|
    decreases |cache|
  {
    if cache == map[] {
      current := [];
    } else {
      var k :| k in cache;
      var rest := cache - {k};
      assert rest.Keys == cache.Keys - {k};
      var others := ListingExists(rest, sc);
      current := if InScope(sc, k) then others + [cache[k]] else others;
      forall c ensures c in current <==> c.meta.key in cache && InScope(sc, c.meta.key) && cache[c.meta.key] == c {
        assert c in others <==> c.meta.key in rest && InScope(sc, c.meta.key) && rest[c.meta.key] == c;
      }
    }
  }

  lemma {:induction false} UpsertsAreFew(current: map<Key, Config<Spec>>, desired: seq<Config<Spec>>)
    ensures |Upserts(current, desired, NeverFlagged)| <= |desired|
  {
    if desired != [] {
      UpsertsAreFew(current, desired[..|desired| - 1]);
    }
  }

  lemma {:induction false} DeletesAreFew(current: seq<Config<Spec>>, desired: map<Key, Config<Spec>>)
    ensures |Deletes(current, desired, NeverFlagged)| <= |current|
  {
    if current != [] {
      DeletesAreFew(current[..|current| - 1], desired);
    }
  }

  /** The round has executed the items from `first` on and taken them out of the queue; each has caused an event at most. */
  ghost predicate RoundDone(s: State, s': State, first: nat, items: seq<Item<Spec>>) {
    && Sound(s') && s'.domains == s.domains && |s'.events| <= |s.events| + |items|
    && s'.store == ExecuteAll(s.store, items)
    && (forall id :: id in s.items && !(first <= id < first + |items|) ==> id in s'.items && s'.items[id] == s.items[id])
    && (forall id :: id in s'.items ==> id in s.items && !(first <= id < first + |items|))
  }

  lemma NothingDone(s: State, first: nat)
    requires Sound(s)
    ensures RoundDone(s, s, first, [])
  {
  }

  lemma OneMoreDone(s: State, mid: State, s': State, first: nat, items: seq<Item<Spec>>, x: Item<Spec>)
    requires RoundDone(s, mid, first, items) && Sound(s')
    requires s'.items == mid.items - {first + |items|} && s'.domains == mid.domains && |s'.events| <= |mid.events| + 1
    requires s'.store == Execute(mid.store, x).0
    ensures RoundDone(s, s', first, items + [x])
  {
    assert (items + [x])[..|items|] == items;
  }

  lemma ItemAfter(s: State, before: seq<Step>, mid: State, id: nat, env: V1Settings) returns (steps: seq<Step>)
    requires Rests(s, before, mid, env) && id in mid.items
    ensures Rests(s, steps, ProcessItem(mid, id, Answered), env) && |steps| == |before| + 1
  {
    RestsOneMore(s, before, mid, StepItem(id, Answered), env);
    steps := before + [StepItem(id, Answered)];
  }

  /** The item that is next in the round is executed. */
  lemma NextOfRound(s: State, before: seq<Step>, mid: State, first: nat, items: seq<Item<Spec>>, x: Item<Spec>, env: V1Settings)
    returns (steps: seq<Step>, s': State)
    requires Rests(s, before, mid, env) && RoundDone(s, mid, first, items)
    requires first + |items| in mid.items && mid.items[first + |items|].item == x
    ensures Rests(s, steps, s', env) && |steps| == |before| + 1 && RoundDone(s, s', first, items + [x])
  {
    var id := first + |items|;
    s' := ProcessItem(mid, id, Answered);
    ProcessKeepsSound(mid, id, Answered);
    AnsweredItemLeaves(mid, id);
    OneMoreDone(s, mid, s', first, items, x);
    steps := ItemAfter(s, before, mid, id, env);
  }

  /** The items wait under consecutive identities. */
  ghost predicate Waiting(queued: map<nat, QueuedItem>, first: nat, items: seq<Item<Spec>>) {
    forall id :: first <= id < first + |items| ==> id in queued && queued[id].item == items[id - first]
  }

  lemma WaitingButLast(queued: map<nat, QueuedItem>, first: nat, init: seq<Item<Spec>>, last: Item<Spec>)
    requires Waiting(queued, first, init + [last])
    ensures Waiting(queued, first, init)
    ensures first + |init| in queued && queued[first + |init|].item == last
  {
    var items := init + [last];
    forall id | first <= id < first + |init| ensures id in queued && queued[id].item == init[id - first] {
      assert items[id - first] == init[id - first];
    }
    assert items[|init|] == last;
  }

  lemma LastStillWaits(s: State, mid: State, first: nat, items: seq<Item<Spec>>, id: nat)
    requires RoundDone(s, mid, first, items) && id in s.items && id == first + |items|
    ensures id in mid.items && mid.items[id] == s.items[id]
  {
  }

  lemma OneMoreOfRound(s: State, before: seq<Step>, mid: State, first: nat, init: seq<Item<Spec>>, last: Item<Spec>,
                       env: V1Settings)
    returns (steps: seq<Step>, s': State)
    requires Rests(s, before, mid, env) && RoundDone(s, mid, first, init) && Waiting(s.items, first, init + [last])
    ensures Rests(s, steps, s', env) && |steps| == |before| + 1 && RoundDone(s, s', first, init + [last])
  {
    WaitingButLast(s.items, first, init, last);
    LastStillWaits(s, mid, first, init, first + |init|);
    steps, s' := NextOfRound(s, before, mid, first, init, last, env);
  }

  /** Answered items that are taken from the queue in order are a run that executes them. */
  lemma {:induction false} RoundIsRun(s: State, first: nat, items: seq<Item<Spec>>, env: V1Settings)
    returns (steps: seq<Step>, s': State)
    requires Sound(s) && Waiting(s.items, first, items)
    ensures Rests(s, steps, s', env) && |steps| == |items| && RoundDone(s, s', first, items)
  {
    if items == [] {
      RestsOfNone(s, env);
      NothingDone(s, first);
      steps, s' := [], s;
    } else {
      var init, last := items[..|items| - 1], items[|items| - 1];
      assert items == init + [last];
      WaitingButLast(s.items, first, init, last);
      var before, mid := RoundIsRun(s, first, init, env);
      steps, s' := OneMoreOfRound(s, before, mid, first, init, last, env);
    }
  }

  lemma FewChanges(current: seq<Config<Spec>>, desired: seq<Config<Spec>>)
    ensures |Changes(current, desired, NeverFlagged)| <= |desired| + |current|
  {
    UpsertsAreFew(KeyedMap(current), desired);
    DeletesAreFew(current, KeyedMap(desired));
  }

  lemma ItemsAsListed(items: map<nat, QueuedItem>, nextId: nat, changes: seq<Item<Spec>>, owner: string)
    requires ItemsSound(items, nextId)
    ensures Waiting(Enqueue(items, nextId, changes, owner), nextId, changes)
  {
    var all := Enqueue(items, nextId, changes, owner);
    forall id | nextId <= id < nextId + |changes| ensures id in all && all[id].item == changes[id - nextId] {
      EnqueuedAt(items, nextId, changes, owner, id);
    }
  }

  lemma QueuedAsListed(s: State, key: string, current: seq<Config<Spec>>, env: V1Settings)
    requires Sound(s) && key in s.domains
    ensures var s1, changes := SyncKey(s, key, current, env), Changes(current, Desired(s.domains, key, env), NeverFlagged);
            && s1.store == s.store && s1.domains == s.domains && s1.events == s.events && s1.cache == s.cache
            && Waiting(s1.items, s.nextId, changes)
  {
    var changes := Changes(current, Desired(s.domains, key, env), NeverFlagged);
    SyncEffects(s, key, current, env);
    ItemsAsListed(s.items, s.nextId, changes, key);
  }

  /** Where an executed change list leads. */
  lemma ExecutedRoundConverges(s: State, key: string, current: seq<Config<Spec>>, after: State, env: V1Settings)
    requires Sound(s) && key in s.domains && Lists(current, s.cache, ScopeOf(key)) && !EventPending(s, key)
    requires Consistent(Desired(s.domains, key, env)) && after.domains == s.domains
    requires after.store == ExecuteAll(s.store, Changes(current, Desired(s.domains, key, env), NeverFlagged))
    ensures Converged(after, key, env)
  {
    DesiredInScope(s.domains, key, env);
    UpToDateListing(s, key, current);
    ExecutedChangesHold(s.store, ScopeOf(key), current, Desired(s.domains, key, env));
  }

  /** Starting from a cache that is up to date in the domain's namespace, a sync and one answered pass over the items that
      it queued bring the server to the desired configs, when those are consistent. */
  lemma OneRoundConverges(s: State, key: string, current: seq<Config<Spec>>, env: V1Settings)
    returns (steps: seq<Step>, s': State)
    requires Sound(s) && key in s.domains && Enabled(s, StepSync(key, current)) && !EventPending(s, key)
    requires Consistent(Desired(s.domains, key, env))
    ensures var changes := Changes(current, Desired(s.domains, key, env), NeverFlagged);
            && Rests(s, steps, s', env) && |steps| == 1 + |changes|
            && RoundDone(SyncKey(s, key, current, env), s', s.nextId, changes)
            && key in s'.domains && Converged(s', key, env)
  {
    var s1 := SyncKey(s, key, current, env);
    SyncKeepsSound(s, key, current, env);
    QueuedAsListed(s, key, current, env);
    var rest;
    rest, s' := RoundIsRun(s1, s.nextId, Changes(current, Desired(s.domains, key, env), NeverFlagged), env);
    RestsAfterOne(s, StepSync(key, current), rest, s', env);
    steps := [StepSync(key, current)] + rest;
    ExecutedRoundConverges(s, key, current, s', env);
  }

  lemma OnlyQueuedItems(s: State, key: string, current: seq<Config<Spec>>, env: V1Settings)
    requires Sound(s) && s.items == map[] && key in s.domains
    ensures var n := |Changes(current, Desired(s.domains, key, env), NeverFlagged)|;
            forall id :: id in SyncKey(s, key, current, env).items ==> s.nextId <= id < s.nextId + n
  {
    var changes := Changes(current, Desired(s.domains, key, env), NeverFlagged);
    SyncEffects(s, key, current, env);
    forall id | id in SyncKey(s, key, current, env).items ensures s.nextId <= id < s.nextId + |changes| {
      EnqueuedAt(s.items, s.nextId, changes, key, id);
    }
  }

  /** After a round that began with an empty queue the queue is empty, and few events are pending. */
  lemma RoundEmptiesQueue(s: State, key: string, current: seq<Config<Spec>>, s': State, env: V1Settings)
    requires Sound(s) && s.items == map[] && s.events == {} && key in s.domains
    requires RoundDone(SyncKey(s, key, current, env), s', s.nextId,
                       Changes(current, Desired(s.domains, key, env), NeverFlagged))
    ensures s'.items == map[] && s'.domains == s.domains
    ensures |s'.events| <= |Changes(current, Desired(s.domains, key, env), NeverFlagged)|
  {
    OnlyQueuedItems(s, key, current, env);
    SyncEffects(s, key, current, env);
  }

  /** With nothing pending, a resync, a sync and an answered pass over its items reach the desired configs. */
  lemma SyncAndRound(s: State, key: string, env: V1Settings) returns (steps: seq<Step>, s': State)
    requires Sound(s) && s.items == map[] && s.events == {} && key in s.domains && Consistent(Desired(s.domains, key, env))
    ensures Rests(s, steps, s', env) && Sound(s') && s'.items == map[] && s'.domains == s.domains
    ensures Converged(s', key, env)
    ensures |steps| <= 2 + |Desired(s.domains, key, env)| + |s.store.objects|
    ensures |s'.events| <= |Desired(s.domains, key, env)| + |s.store.objects|
  {
    CaughtUp(s);
    var current := ListingExists(s.cache, ScopeOf(key));
    FewChanges(current, Desired(s.domains, key, env));
    var s1 := Resync(s);
    var rest;
    rest, s' := OneRoundConverges(s1, key, current, env);
    RestsAfterOne(s, StepResync, rest, s', env);
    steps := [StepResync] + rest;
    RoundEmptiesQueue(s1, key, current, s', env);
  }

  /** A listing of the desired configs asks for no change. */
  lemma ConvergedListingIsIdle(s: State, key: string, current: seq<Config<Spec>>, env: V1Settings)
    requires Sound(s) && s.cache == s.store.objects && key in s.domains && Converged(s, key, env)
    requires Lists(current, s.cache, ScopeOf(key))
    ensures Changes(current, Desired(s.domains, key, env), NeverFlagged) == []
  {
    ListingKeyedMap(current, s.cache, ScopeOf(key));
    DesiredInScope(s.domains, key, env);
    NoChangesIff(current, Desired(s.domains, key, env), NeverFlagged);
  }

  lemma IdleSyncRests(s: State, key: string, current: seq<Config<Spec>>, env: V1Settings)
    requires s.items == map[] && s.events == {} && key in s.domains
    requires Changes(current, Desired(s.domains, key, env), NeverFlagged) == []
    ensures var s' := SyncKey(s, key, current, env);
            Quiescent(s', key) && s'.domains == s.domains && s'.store == s.store
  {
  }

  /** With nothing pending and the desired configs in place, a resync and a sync find nothing to do. */
  lemma IdleSync(s: State, key: string, env: V1Settings) returns (steps: seq<Step>, s': State)
    requires Sound(s) && s.items == map[] && s.events == {} && key in s.domains && Converged(s, key, env)
    ensures Rests(s, steps, s', env) && |steps| == 2
    ensures Quiescent(s', key) && key in s'.domains && Converged(s', key, env)
  {
    CaughtUp(s);
    var current := ListingExists(s.cache, ScopeOf(key));
    ConvergedListingIsIdle(s, key, current, env);
    var s1 := Resync(s);
    s' := SyncKey(s1, key, current, env);
    IdleSyncRests(s1, key, current, env);
    RestsOfOne(s1, StepSync(key, current), env);
    RestsAfterOne(s, StepResync, [StepSync(key, current)], s', env);
    steps := [StepResync] + [StepSync(key, current)];
  }

  /** From every reachable state a bounded number of undisturbed steps brings a domain with consistent desired configs to
      rest, and to those configs. */
  lemma RestIsWithinReach(s: State, key: string, env: V1Settings) returns (steps: seq<Step>, s': State)
    requires Reachable(s, env) && key in s.domains && Consistent(Desired(s.domains, key, env))
    ensures Rests(s, steps, s', env) && Quiescent(s', key) && key in s'.domains && Converged(s', key, env)
    ensures |steps| <= 4 * |s.items| + |s.events| + 2 * |Desired(s.domains, key, env)| + 2 * |s.store.objects| + 4
  {
    ReachableHasInv(s, env);
    var a, s1 := DrainItems(s, env);
    var b, s2 := DeliverAll(s1, env);
    var c, s3 := SyncAndRound(s2, key, env);
    var d, s4 := DeliverAll(s3, env);
    var e;
    e, s' := IdleSync(s4, key, env);
    RestsConcat(s, a, s1, b, s2, env);
    RestsConcat(s, a + b, s2, c, s3, env);
    RestsConcat(s, a + b + c, s3, d, s4, env);
    RestsConcat(s, a + b + c + d, s4, e, s', env);
    steps := a + b + c + d + e;
  }
}
