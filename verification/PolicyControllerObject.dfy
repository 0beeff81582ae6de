/**
 The authorization policy controller as an object: pkg/istio/authorizationpolicy/controller.go. Each method is one of
 the steps of the step system, and a whole turn of the worker is a run of them.
 */
module PolicyControllerObject {
  import opened AthenzData
  import opened AthenzModel
  import opened ChangeList
  import opened Configs
  import opened DomainNames
  import opened GoStrings
  import opened PolicyCompiler
  import opened PolicyController
  import opened PolicyReconciler
  import opened PolicyStores
  import opened Principals

  /** The policies of the annotated services of a list, in order. */
  ghost function PoliciesFor(w: World, domain: string, list: seq<Service>): seq<Cfg>
    requires domain in w.domains
  {
    if list == [] then []
    else
      var last := list[|list| - 1];
      PoliciesFor(w, domain, list[..|list| - 1]) + (if HasAuthzEnabled(last) then [PolicyFor(w, domain, last)] else [])
  }

  lemma {:induction false} PoliciesContain(w: World, domain: string, list: seq<Service>, c: Cfg)
    requires domain in w.domains
    ensures c in PoliciesFor(w, domain, list) <==>
              exists s :: s in list && HasAuthzEnabled(s) && c == PolicyFor(w, domain, s)
  {
    if list != [] {
      var n := |list| - 1;
      PoliciesContain(w, domain, list[..n], c);
      assert list == list[..n] + [list[n]];
      assert forall s :: s in list <==> s in list[..n] || s == list[n];
    }
  }

  lemma PolicyForName(w: World, domain: string, s: Service)
    requires domain in w.domains
    ensures PolicyFor(w, domain, s).meta.key.name == s.name
  {
  }

  lemma {:induction false} PoliciesOnce(w: World, domain: string, list: seq<Service>)
    requires domain in w.domains
    requires forall i, j :: 0 <= i < j < |list| ==> list[i].name != list[j].name
    ensures KeysOnce(PoliciesFor(w, domain, list))
  {
    if list != [] {
      var n := |list| - 1;
      var init, last := list[..n], list[n];
      PoliciesOnce(w, domain, init);
      PolicyForName(w, domain, last);
      var before := PoliciesFor(w, domain, init);
      forall i | 0 <= i < |before| ensures before[i].meta.key.name != last.name {
        assert before[i] in before;
        PoliciesContain(w, domain, init, before[i]);
        var s :| s in init && before[i] == PolicyFor(w, domain, s);
        PolicyForName(w, domain, s);
        var j :| 0 <= j < n && list[j] == s;
      }
    }
  }

  /** `list` holds each service of the namespace once, in any order, but for those under the keys in `todo`. */
  ghost predicate ListsServices(list: seq<Service>, w: World, namespace: string, todo: set<string>) {
    && (forall s :: s in list <==>
          var key := ServiceKey(namespace, s.name);
          s.namespace == namespace && key in w.services && key !in todo && w.services[key] == s)
    && forall i, j :: 0 <= i < j < |list| ==> list[i].name != list[j].name
  }

  lemma OneMoreService(list: seq<Service>, w: World, namespace: string, todo: set<string>, key: string)
    requires WellKeyed(w) && ListsServices(list, w, namespace, todo) && key in todo && key in w.services
    ensures var s := w.services[key];
            ListsServices(if s.namespace == namespace then list + [s] else list, w, namespace, todo - {key})
  {
    assert forall i :: 0 <= i < |list| ==> list[i] in list;
  }

  /** The desired configs are the ones the specification asks for. */
  lemma DesiredPolicies(w: World, domain: string, serviceName: string, list: seq<Service>)
    requires domain in w.domains && WellKeyed(w)
    requires var ns := DomainToNamespace(domain);
             && (serviceName != "" ==>
                   list == if ServiceKey(ns, serviceName) in w.services then [w.services[ServiceKey(ns, serviceName)]] else [])
             && (serviceName == "" ==> ListsServices(list, w, ns, {}))
    ensures serviceName == "" ==> DesiredInNamespace(PoliciesFor(w, domain, list), w, domain)
    ensures serviceName != "" ==> PoliciesFor(w, domain, list) == AsSeq(WantedAt(w, domain, serviceName))
  {
    if serviceName == "" {
      var ns, desired := DomainToNamespace(domain), PoliciesFor(w, domain, list);
      PoliciesOnce(w, domain, list);
      forall c ensures c in desired <==>
        c.meta.key == PolicyKey(ns, c.meta.key.name) && WantedAt(w, domain, c.meta.key.name) == Some(c)
      {
        var name := c.meta.key.name;
        PoliciesContain(w, domain, list, c);
        WantedKey(w, domain, name);
        if WantedAt(w, domain, name) == Some(c) {
          var s := w.services[ServiceKey(ns, name)];
          NamespaceHasNoSlash(domain);
          SplitAtSlash(ns, name, s.namespace, s.name);
          assert s in list;
        }
      }
    } else if list != [] {
      assert list[..0] == [];
    }
  }

  /** What a clean-up has done so far: it has deleted some policies that are neither enabled nor overridden, and events
      of that are pending. */
  ghost predicate CleanedUp(before: map<Key, Cfg>, after: map<Key, Cfg>, comp: ComponentEnabled, events: set<Key>) {
    && (forall k :: k in after ==> k in before && after[k] == before[k])
    && (forall k :: k in before && k !in after ==> k in events && !EnabledKey(comp, k) && !Overridden(before[k]))
  }

  lemma DeletionCleansUp(before: map<Key, Cfg>, api: Store<PolicySpec>, comp: ComponentEnabled, events: set<Key>, c: Cfg,
                         fault: Fault)
    requires CleanedUp(before, api.objects, comp, events) && c.meta.key in before && before[c.meta.key] == c
    requires !EnabledKey(comp, c.meta.key) && !Overridden(c) && WellFormed(api)
    ensures var (after, changed, outcome) := CallServer(api, Item(Delete, c), fault);
            && CleanedUp(before, after.objects, comp, events + changed) && WellFormed(after)
            && (outcome == Success ==> c.meta.key !in after.objects)
            && changed !! after.objects.Keys && after.revision == api.revision
            && forall k :: k in after.objects ==> k in api.objects
  {
  }

  lemma CleanedUpIsRouted(before: map<Key, Cfg>, after: map<Key, Cfg>, comp: ComponentEnabled, events: set<Key>)
    requires CleanedUp(before, after, comp, events)
    requires forall k :: k in after ==> after[k].meta.key == k && (EnabledKey(comp, k) || Overridden(after[k]))
    ensures CacheRoutedButFor(before, comp, events)
    ensures forall k :: Get(before, k) != Get(after, k) ==> k in events
    ensures forall c :: c in after.Values ==> EnabledKey(comp, c.meta.key) || Overridden(c)
  {
    RoutedValues(after, comp);
  }

  /** Handling an item is one more step of a run, and leaves less to do. */
  lemma ItemIsStep(start: State, steps: seq<Step>, s: State, fault: Fault)
    requires Run(start, steps, s) && Sound(s) && s.work.Some? && !s.crashed
    ensures var s' := HandleNext(s, fault);
            && Run(start, steps + [StepItem(fault)], s') && Sound(s')
            && (s'.work.None? || s'.crashed || |s'.work.value.items| < |s.work.value.items|)
  {
    HandleNextKeepsSound(s, fault);
    HandleNextEffects(s, fault);
    RunOneMore(start, steps, s, StepItem(fault));
  }

  /** What lives outside the controller: the API server and the informers' stores. */
  class Cluster {
    var world: World
    var api: Store<PolicySpec>
    var cache: map<Key, Cfg>
    ghost var past: set<Cfg>
    ghost var removed: set<Key>
    ghost var events: set<Key>

    constructor (world: World, api: Store<PolicySpec>)
      ensures this.world == world && this.api == api && cache == api.objects
      ensures past == api.objects.Values && removed == {} && events == {}
    {
      this.world, this.api, cache := world, api, api.objects;
      past, removed, events := api.objects.Values, {}, {};
    }

    /** The API call of an item. `fault` is the environment's choice. */
    method Call(item: Item<PolicySpec>, fault: Fault) returns (outcome: Outcome)
      modifies this`api, this`past, this`removed, this`events
      ensures (api, events, outcome) ==
              var (after, changed, seen) := CallServer(old(api), item, fault); (after, old(events) + changed, seen)
      ensures past == old(past) + api.objects.Values
      ensures removed == old(removed) + (CallServer(old(api), item, fault).1 - api.objects.Keys)
    {
      var (after, changed, seen) := CallServer(api, item, fault);
      api, events, outcome := after, events + changed, seen;
      past, removed := past + api.objects.Values, removed + (changed - api.objects.Keys);
    }
  }

  class Controller {
    const cluster: Cluster
    var dry: map<Key, Cfg>
    var queue: set<string>
    var requeues: map<string, nat>
    var work: Option<Work>
    ghost var heard: set<Key>
    ghost var gaveUp: set<string>
    var crashed: bool

    function StoresNow(): Stores
      reads this, cluster
    {
      Stores(cluster.api, cluster.cache, dry)
    }

    ghost function Snapshot(): State
      reads this, cluster
    {
      State(cluster.world, StoresNow(), cluster.past, cluster.removed, cluster.events, queue, requeues, work, heard, gaveUp,
            crashed)
    }

    /** The process empties the dry-run directory when it starts; the synced informers queue what they have. */
    constructor (cluster: Cluster)
      ensures this.cluster == cluster && dry == map[]
      ensures queue == cluster.world.domains.Keys + cluster.world.services.Keys
      ensures requeues == map[] && work == None && gaveUp == {} && !crashed
    {
      this.cluster, dry, queue := cluster, map[], cluster.world.domains.Keys + cluster.world.services.Keys;
      requeues, work, gaveUp, crashed := map[], None, {}, false;
    }

    /** `cleanUpStaleAP`: deletes the listed policies that are neither enabled nor overridden. `faults` says how the API
        calls go. When all go well the step system can start. */
    method CleanUpStaleAP(faults: nat -> Fault) returns (ok: bool)
      requires WellKeyed(cluster.world) && WellFormed(cluster.api) && cluster.cache == cluster.api.objects
      requires cluster.events == {} && cluster.removed == {} && dry == map[]
      requires cluster.world.domains.Keys <= queue && cluster.world.services.Keys <= queue
      requires requeues == map[] && work == None && gaveUp == {} && !crashed
      modifies cluster`api, cluster`past, cluster`removed, cluster`events
      ensures forall k :: k in cluster.api.objects ==>
                k in old(cluster.api.objects) && cluster.api.objects[k] == old(cluster.api.objects)[k]
      ensures forall k :: k in old(cluster.api.objects) && k !in cluster.api.objects ==>
                !EnabledKey(cluster.world.comp, k) && !Overridden(old(cluster.api.objects)[k])
      ensures ok ==> Init(Snapshot())
    {
      var comp, todo, i := cluster.world.comp, cluster.cache.Keys, 0;
      while todo != {}
        invariant todo <= cluster.cache.Keys && WellFormed(cluster.api)
        invariant CleanedUp(old(cluster.api.objects), cluster.api.objects, comp, cluster.events)
        invariant cluster.removed == cluster.events && cluster.events !! cluster.api.objects.Keys
        invariant cluster.api.revision == old(cluster.api.revision)
        invariant forall k :: k in cluster.api.objects && k !in todo ==>
                    EnabledKey(comp, k) || Overridden(cluster.api.objects[k])
        decreases todo
      {
        var k :| k in todo;
        todo := todo - {k};
        var currAP := cluster.cache[k];
        if !comp.IsEnabled(k.name, k.namespace) && !Overridden(currAP) {
          ghost var before, events := cluster.api, cluster.events;
          var outcome := cluster.Call(Item(Delete, currAP), faults(i));
          DeletionCleansUp(old(cluster.api.objects), before, comp, events, currAP, faults(i));
          i := i + 1;
          if outcome != Success {
            return false;
          }
        }
      }
      cluster.past := cluster.api.objects.Values;
      CleanedUpIsRouted(old(cluster.api.objects), cluster.api.objects, comp, cluster.events);
      return true;
    }

    /** `processConfigChange` with the API and dry-run handlers; a nil dereference is reported as such. */
    method ProcessConfigChange(item: Item<PolicySpec>, fault: Fault) returns (ending: Ending)
      modifies this`dry, cluster`api, cluster`past, cluster`removed, cluster`events
      ensures var h := Handle(old(StoresNow()), item, cluster.world.comp, fault);
              && StoresNow() == h.stores && ending == h.ending
              && cluster.events == old(cluster.events) + h.changed
              && cluster.removed == old(cluster.removed) + (h.changed - cluster.api.objects.Keys)
      ensures cluster.past == old(cluster.past) + cluster.api.objects.Values
    {
      var c := item.resource;
      var k := c.meta.key;
      if !cluster.world.comp.IsEnabled(k.name, k.namespace) {
        dry := if item.operation.Delete? then dry - {k} else dry[k := c];
        cluster.past := cluster.past + cluster.api.objects.Values;
        return Ended(Success);
      }
      var sent := item;
      if item.operation.Update? {
        if k !in cluster.cache {
          cluster.past := cluster.past + cluster.api.objects.Values;
          return Panicked;
        }
        var version := cluster.cache[k].meta.resourceVersion;
        sent := item.(resource := c.(meta := c.meta.(resourceVersion := version)));
      }
      var outcome := cluster.Call(sent, fault);
      return Ended(outcome);
    }

    /** The cached, or dry-run, policies of one namespace. */
    static method List(m: map<Key, Cfg>, namespace: string) returns (out: seq<Cfg>)
      requires forall k :: k in m ==> m[k].meta.key == k
      ensures ListsOnce(out, m, namespace)
    {
      out := [];
      var todo := m.Keys;
      while todo != {}
        invariant todo <= m.Keys
        invariant forall c :: c in out <==>
                    c.meta.key in m && c.meta.key !in todo && PolicyIn(c.meta.key, namespace) && m[c.meta.key] == c
        invariant forall i, j :: 0 <= i < j < |out| ==> out[i].meta.key != out[j].meta.key
        decreases todo
      {
        var k :| k in todo;
        assert forall i :: 0 <= i < |out| ==> out[i] in out;
        todo := todo - {k};
        if k.namespace == namespace && k.kind == Kind.AuthorizationPolicy {
          out := out + [m[k]];
        }
      }
    }

    /** `GetCurrentIstioRbac` of the v2 provider. */
    method GetCurrentIstioRbac(namespace: string, serviceName: string) returns (current: seq<Cfg>)
      requires forall k :: k in cluster.cache ==> cluster.cache[k].meta.key == k
      requires forall k :: k in dry ==> dry[k].meta.key == k
      ensures var st, comp := StoresNow(), cluster.world.comp;
              if serviceName == "" then ShowsNamespace(current, st, namespace, comp)
              else current == AsSeq(CurrentOf(st, PolicyKey(namespace, serviceName), comp))
    {
      var comp := cluster.world.comp;
      if serviceName == "" {
        var apList := List(cluster.cache, namespace);
        var configList := List(dry, namespace);
        if comp.IsEnabled(serviceName, namespace) {
          return apList;
        }
        return apList + configList;
      }
      var k := PolicyKey(namespace, serviceName);
      if !comp.IsEnabled(serviceName, namespace) {
        return if k in dry then [dry[k]] else [];
      }
      return if k in cluster.cache then [cluster.cache[k]] else [];
    }

    /** The services a sync is about: the one named, or all of the namespace. */
    static method ServicesFor(w: World, namespace: string, serviceName: string) returns (list: seq<Service>)
      requires WellKeyed(w) && '/' !in namespace
      ensures var key := ServiceKey(namespace, serviceName);
              serviceName != "" ==> list == if key in w.services then [w.services[key]] else []
      ensures serviceName == "" ==> ListsServices(list, w, namespace, {})
    {
      list := [];
      if serviceName != "" {
        var svcKey := ServiceKey(namespace, serviceName);
        if svcKey in w.services {
          list := [w.services[svcKey]];
        }
        return;
      }
      var todo := w.services.Keys;
      while todo != {}
        invariant todo <= w.services.Keys
        invariant ListsServices(list, w, namespace, todo)
        decreases todo
      {
        var svcKey :| svcKey in todo;
        var s := w.services[svcKey];
        SplitOfTwo(s.namespace, s.name, '/');
        OneMoreService(list, w, namespace, todo, svcKey);
        todo := todo - {svcKey};
        if Split(svcKey, '/')[0] == namespace {
          list := list + [s];
        }
      }
    }

    /** The desired configs for a list of services. */
    static method DesiredFor(w: World, domain: string, list: seq<Service>) returns (desired: seq<Cfg>)
      requires WellKeyed(w) && domain in w.domains
      ensures desired == PoliciesFor(w, domain, list)
    {
      var m := ModelOf(w.domains, w.domains[domain]);
      desired := [];
      for i := 0 to |list|
        invariant desired == PoliciesFor(w, domain, list[..i])
      {
        assert list[..i + 1][..i] == list[..i];
        var service := list[i];
        if !HasAuthzEnabled(service) {
          continue;
        }
        var desiredCR := PolicyCompiler.ConvertAthenzModelIntoIstioRbac(
          m, service.name, Label(service, "app"), SettingsFor(w, service));
        desired := desired + desiredCR;
      }
      assert list[..|list|] == list;
    }

    /** The part of `sync` that lists the policies that are there and computes the desired ones. */
    method ListAndCompile(key: string) returns (current: seq<Cfg>, desired: seq<Cfg>)
      requires Sound(Snapshot()) && DomainOfKey(key) in cluster.world.domains
      ensures Listed(cluster.world, StoresNow(), key, current, desired)
    {
      var domain, serviceName := DomainOfKey(key), NameOfKey(key);
      var namespace := DomainToNamespace(domain);
      NamespaceHasNoSlash(domain);
      var serviceList := ServicesFor(cluster.world, namespace, serviceName);
      desired := DesiredFor(cluster.world, domain, serviceList);
      DesiredPolicies(cluster.world, domain, serviceName, serviceList);
      current := GetCurrentIstioRbac(namespace, serviceName);
    }

    /** `processNextItem` and `sync` of a key up to the change list. */
    method StartSync(key: string) returns (ghost current: seq<Cfg>, ghost desired: seq<Cfg>)
      requires Sound(Snapshot()) && key in queue && work.None? && !crashed
      modifies this`queue, this`requeues, this`work, this`heard, this`gaveUp
      ensures Enabled(old(Snapshot()), StepSync(key, current, desired))
      ensures Snapshot() == Start(old(Snapshot()), key, current, desired)
    {
      current, desired := [], [];
      if DomainOfKey(key) !in cluster.world.domains {
        queue, heard := queue - {key}, {};
        Retry(key);
        return;
      }
      var currentCRs, desiredCRs := ListAndCompile(key);
      current, desired := currentCRs, desiredCRs;
      var changeList := ComputeChangeList(currentCRs, desiredCRs, Overridden);
      TakeUp(key, currentCRs, desiredCRs, changeList);
    }

    /** A sync that has found its domain has a change list to handle, or is complete. */
    method TakeUp(key: string, ghost current: seq<Cfg>, ghost desired: seq<Cfg>, changeList: seq<Item<PolicySpec>>)
      requires DomainOfKey(key) in cluster.world.domains && changeList == Changes(current, desired, Overridden)
      modifies this`queue, this`requeues, this`work, this`heard, this`gaveUp
      ensures Snapshot() == Start(old(Snapshot()), key, current, desired)
    {
      queue, heard, gaveUp := queue - {key}, {}, gaveUp - {key};
      if |changeList| == 0 {
        requeues := requeues - {key};
      } else {
        work := Some(Work(key, changeList));
      }
    }

    /** What `processNextItem` does about an error. */
    method Retry(key: string)
      modifies this`queue, this`requeues, this`work, this`gaveUp
      ensures Snapshot() == Fail(old(Snapshot()), key)
    {
      work := None;
      var n := NumRequeues(requeues, key);
      if n < QUEUE_NUM_RETRIES {
        queue, requeues := queue + {key}, requeues[key := n + 1];
      } else {
        gaveUp := gaveUp + {key};
      }
    }

    /** One turn of the loop of `sync`. */
    method HandleItem(fault: Fault)
      requires work.Some? && work.value.items != [] && !crashed
      modifies this, cluster`api, cluster`past, cluster`removed, cluster`events
      ensures Snapshot() == HandleNext(old(Snapshot()), fault)
    {
      var Work(key, items) := work.value;
      ghost var before := Snapshot();
      var ending := ProcessConfigChange(items[0], fault);
      ghost var h := Handle(before.stores, items[0], before.world.comp, fault);
      assert Snapshot() == Changed(before, h.stores, h.changed);
      if ending.Panicked? {
        crashed := true;
        return;
      }
      if ending.outcome != Success {
        Retry(key);
        return;
      }
      work := if |items| == 1 then None else Some(Work(key, items[1..]));
    }

    /** The loop of `sync`, when nothing else runs meanwhile; `start` and `before` are the run so far. */
    method HandleItems(faults: nat -> Fault, ghost start: State, ghost before: seq<Step>) returns (ghost steps: seq<Step>)
      requires Sound(Snapshot()) && !crashed && Run(start, before, Snapshot())
      modifies this, cluster`api, cluster`past, cluster`removed, cluster`events
      ensures Run(start, steps, Snapshot()) && Sound(Snapshot()) && (work.None? || crashed)
    {
      steps := before;
      var i := 0;
      while work.Some? && !crashed
        invariant Run(start, steps, Snapshot()) && Sound(Snapshot())
        decreases if crashed then 0 else 1, if work.Some? then |work.value.items| else 0
      {
        ghost var s := Snapshot();
        HandleItem(faults(i));
        ItemIsStep(start, steps, s, faults(i));
        steps := steps + [StepItem(faults(i))];
        i := i + 1;
      }
    }

    /** `processNextItem` when nothing else runs meanwhile: a run of the step system, whatever the API answers. It ends
        with the sync complete, or failed, or in a crash. */
    method ProcessNextItem(faults: nat -> Fault) returns (key: string, ghost steps: seq<Step>)
      requires Sound(Snapshot()) && work.None? && !crashed && queue != {}
      modifies this, cluster`api, cluster`past, cluster`removed, cluster`events
      ensures key in old(queue) && Run(old(Snapshot()), steps, Snapshot())
      ensures Sound(Snapshot()) && (work.None? || crashed)
    {
      key :| key in queue;
      ghost var s, current, desired := Snapshot(), [], [];
      current, desired := StartSync(key);
      StepKeepsSound(s, StepSync(key, current, desired));
      RunOfOne(s, StepSync(key, current, desired));
      steps := HandleItems(faults, s, [StepSync(key, current, desired)]);
    }

    /** The informer hears of a change and `EventHandler` queues the key of the policy. */
    method HearPolicy(k: Key, told: Option<Cfg>, isLast: bool)
      modifies this`queue, this`heard, cluster`cache, cluster`events
      ensures Snapshot() == Deliver(old(Snapshot()), k, told, isLast)
    {
      cluster.cache := Put(cluster.cache, k, told);
      cluster.events := if isLast then cluster.events - {k} else cluster.events;
      queue, heard := queue + {k.namespace + "/" + k.name}, heard + {k};
    }

    /** `processEvent` when the domain informer hears of a domain. */
    method HearDomain(d: DomainValue)
      modifies this`queue, cluster`world
      ensures Snapshot() == Apply(old(Snapshot()), StepDomain(d))
    {
      cluster.world := cluster.world.(domains := cluster.world.domains[d.name := d]);
      queue := queue + {d.name};
    }

    method HearDomainDeleted(key: string)
      modifies this`queue, cluster`world
      ensures Snapshot() == Apply(old(Snapshot()), StepDomainDeleted(key))
    {
      cluster.world := cluster.world.(domains := cluster.world.domains - {key});
      queue := queue + {key};
    }

    /** `processEvent` when the service informer hears of a service. */
    method HearService(svc: Service)
      modifies this`queue, cluster`world
      ensures Snapshot() == Apply(old(Snapshot()), StepService(svc))
    {
      var key := svc.namespace + "/" + svc.name;
      cluster.world := cluster.world.(services := cluster.world.services[key := svc]);
      queue := queue + {key};
    }

    method HearServiceDeleted(key: string)
      modifies this`queue, cluster`world
      ensures Snapshot() == Apply(old(Snapshot()), StepServiceDeleted(key))
    {
      cluster.world := cluster.world.(services := cluster.world.services - {key});
      queue := queue + {key};
    }

    /** `resync` at a tick. */
    method Resync()
      modifies this`queue
      ensures Snapshot() == Apply(old(Snapshot()), StepResync)
    {
      var todo := cluster.world.domains.Keys;
      while todo != {}
        invariant todo <= cluster.world.domains.Keys
        invariant queue == old(queue) + (cluster.world.domains.Keys - todo)
        decreases todo
      {
        var key :| key in todo;
        queue, todo := queue + {key}, todo - {key};
      }
    }
  }
}
