/**
 What the policy controller's queue does about errors: pkg/istio/authorizationpolicy/controller.go, `processNextItem` and
 `sync`.
 */
module PolicyRetries {
  import opened AthenzData
  import opened ChangeList
  import opened PolicyController
  import opened PolicyReconciler
  import opened PolicyStores

  /** A sync that fails at an item is over, and its key is queued again until it has had three retries; then it is given
      up. */
  ghost predicate SyncFailed(s: State, s': State, key: string) {
    var n := if key in s.requeues then s.requeues[key] else 0;
    && s'.work == None
    && if n < 3 then s'.queue == s.queue + {key} && s'.requeues == s.requeues[key := n + 1] && s'.gaveUp == s.gaveUp
       else s'.queue == s.queue && s'.requeues == s.requeues && s'.gaveUp == s.gaveUp + {key}
  }

  /** An item that succeeds makes way for the next one of the sync, one that fails ends the sync, whatever the server did. */
  lemma ItemEndsOrGoesOn(s: State, fault: Fault)
    requires Enabled(s, StepItem(fault))
    ensures var s', items := Apply(s, StepItem(fault)), s.work.value.items;
            var h := Handle(s.stores, items[0], s.world.comp, fault);
            && s'.stores == h.stores && s'.world == s.world
            && match h.ending
               case Panicked => s'.crashed
               case Ended(Success) =>
                 && s'.queue == s.queue && s'.requeues == s.requeues && s'.gaveUp == s.gaveUp
                 && s'.work == if items[1..] == [] then None else Some(s.work.value.(items := items[1..]))
               case Ended(_) => SyncFailed(s, s', s.work.value.key)
  {
  }

  /** The key of an unknown domain is queued again in the same way. */
  lemma UnknownKeyIsRetried(s: State, key: string, current: seq<Cfg>, desired: seq<Cfg>)
    requires Enabled(s, StepSync(key, current, desired)) && DomainOfKey(key) !in s.world.domains
    ensures var s' := Apply(s, StepSync(key, current, desired));
            s'.stores == s.stores && SyncFailed(s.(queue := s.queue - {key}), s', key)
  {
  }

  /** The key of a known domain leaves the queue, its sync has the items that the listing calls for, all of them and in order,
      and its retries are forgotten when there are none. */
  lemma KnownKeyIsTaken(s: State, key: string, current: seq<Cfg>, desired: seq<Cfg>)
    requires Enabled(s, StepSync(key, current, desired)) && DomainOfKey(key) in s.world.domains
    ensures var s', changes := Apply(s, StepSync(key, current, desired)), Changes(current, desired, Overridden);
            && s'.stores == s.stores && s'.queue == s.queue - {key} && s'.gaveUp == s.gaveUp - {key}
            && (if changes == [] then s'.work == None && s'.requeues == s.requeues - {key}
                else s'.requeues == s.requeues && s'.work.Some? && s'.work.value.key == key && s'.work.value.items == changes)
  {
  }

  /** What is heard of queues what it concerns: a changed or deleted domain or service its own key, a policy the key of its
      service, a tick every domain. Nothing leaves the queue, and no sync in progress is touched. */
  lemma NewsIsQueued(s: State, step: Step)
    requires Enabled(s, step) && !step.StepSync? && !step.StepItem?
    ensures var s' := Apply(s, step);
            && s.queue <= s'.queue && s'.work == s.work && s'.requeues == s.requeues && s'.gaveUp == s.gaveUp
            && s'.stores.dry == s.stores.dry
            && match step
               case StepDeliver(k, told, _) =>
                 && (k in s'.stores.cache <==> told.Some?) && (told.Some? ==> s'.stores.cache[k] == told.value)
                 && k.namespace + "/" + k.name in s'.queue
               case StepDomain(d) => d.name in s'.queue && d.name in s'.world.domains && s'.world.domains[d.name] == d
               case StepDomainDeleted(key) => key in s'.queue && key !in s'.world.domains
               case StepService(svc) =>
                 var key := svc.namespace + "/" + svc.name;
                 key in s'.queue && key in s'.world.services && s'.world.services[key] == svc
               case StepServiceDeleted(key) => key in s'.queue && key !in s'.world.services
               case StepResync => s'.queue == s.queue + s.world.domains.Keys
               case _ => s'.queue == s.queue
  {
  }
}
