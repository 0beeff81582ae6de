/**
 The controllers as objects: pkg/controller/controller.go and pkg/istio/processor/controller.go. They start in an
 initial state of the step system, and what the two workers, the event handlers and the resync do is one of its steps
 each, so every claim about its reachable states is a claim about them.
 */
module Controllers {
  import opened AthenzData
  import opened AthenzModel
  import opened ChangeList
  import opened Configs
  import opened DomainNames
  import opened Reconciler
  import opened ServiceRoles

  /** What lives outside the controllers: the API server and the informers' stores. */
  class Cluster {
    var domains: map<string, DomainValue>
    var store: Store<Spec>
    var cache: map<Key, Config<Spec>>
    var events: set<Key>

    /** The API call of an item. `fault` is the environment's choice. */
    method Call(item: Item<Spec>, fault: Fault) returns (outcome: Outcome)
      modifies this`store, this`events
      ensures (store, events, outcome) ==
              var (after, changed, seen) := CallServer(old(store), item, fault); (after, old(events) + changed, seen)
    {
      var (after, changed, seen) := CallServer(store, item, fault);
      store, events, outcome := after, events + changed, seen;
    }

    /** `ConfigStoreCache.List`: the cached configs of one kind in a namespace, in any order. */
    method List(kind: Kind, namespace: string) returns (out: seq<Config<Spec>>)
      requires forall k :: k in cache ==> cache[k].meta.key == k
      ensures forall c :: c in out <==>
                c.meta.key in cache && c.meta.key.kind == kind && c.meta.key.namespace == namespace
                && cache[c.meta.key] == c
    {
      out := [];
      var todo := cache.Keys;
      while todo != {}
        invariant todo <= cache.Keys
        invariant forall c :: c in out <==>
                    c.meta.key in cache && c.meta.key !in todo && c.meta.key.kind == kind
                    && c.meta.key.namespace == namespace && cache[c.meta.key] == c
        decreases todo
      {
        var k :| k in todo;
        todo := todo - {k};
        if k.kind == kind && k.namespace == namespace {
          out := out + [cache[k]];
        }
      }
    }

    /** `GetCurrentIstioRbac` of the v1 provider. */
    method GetCurrentIstioRbac(domain: string) returns (current: seq<Config<Spec>>)
      requires forall k :: k in cache ==> cache[k].meta.key == k
      ensures Lists(current, cache, ScopeOf(domain))
    {
      var sr := List(Kind.ServiceRole, DomainToNamespace(domain));
      var srb := List(Kind.ServiceRoleBinding, DomainToNamespace(domain));
      current := sr + srb;
    }
  }

  ghost predicate WithinLimit(items: map<nat, QueuedItem>) {
    forall id :: id in items ==> items[id].requeues <= QUEUE_NUM_RETRIES
  }

  /** How many more syncs the waiting items can take. */
  ghost function Budget(items: map<nat, QueuedItem>): nat
    requires WithinLimit(items)
  {
    if items == map[] then 0
    else
      var id :| id in items;
      (QUEUE_NUM_RETRIES + 1 - items[id].requeues) + Budget(items - {id})
  }

  lemma {:induction false} BudgetWithout(items: map<nat, QueuedItem>, id: nat)
    requires WithinLimit(items)
    requires id in items
    ensures Budget(items) == (QUEUE_NUM_RETRIES + 1 - items[id].requeues) + Budget(items - {id})
    decreases |items|
  {
    var first :| first in items &&
      Budget(items) == (QUEUE_NUM_RETRIES + 1 - items[first].requeues) + Budget(items - {first});
    if first != id {
      BudgetWithout(items - {first}, id);
      BudgetWithout(items - {id}, first);
      assert items - {first} - {id} == items - {id} - {first};
    }
  }

  lemma {:induction false} BudgetIsAtMostFourEach(items: map<nat, QueuedItem>)
    requires WithinLimit(items)
    ensures Budget(items) <= 4 * |items|
    decreases |items|
  {
    if items != map[] {
      var id :| id in items;
      BudgetWithout(items, id);
      BudgetIsAtMostFourEach(items - {id});
      assert (items - {id}).Keys == items.Keys - {id};
    }
  }

  lemma DroppingLowersBudget(items: map<nat, QueuedItem>, id: nat)
    requires WithinLimit(items) && id in items
    ensures WithinLimit(items - {id}) && Budget(items - {id}) < Budget(items)
  {
    BudgetWithout(items, id);
  }

  lemma RetryingLowersBudget(items: map<nat, QueuedItem>, id: nat)
    requires WithinLimit(items) && id in items && items[id].requeues < QUEUE_NUM_RETRIES
    ensures var after := items[id := items[id].(requeues := items[id].requeues + 1)];
            WithinLimit(after) && Budget(after) < Budget(items)
  {
    var after := items[id := items[id].(requeues := items[id].requeues + 1)];
    BudgetWithout(items, id);
    BudgetWithout(after, id);
    assert after - {id} == items - {id};
  }

  /** A processed item is dropped, or waits with one more retry on its counter. */
  lemma ItemsAfter(s: State, id: nat, fault: Fault)
    requires id in s.items
    ensures var q, after := s.items[id], ProcessItem(s, id, fault).items;
            || after == s.items - {id}
            || (q.requeues < QUEUE_NUM_RETRIES && after == s.items[id := q.(requeues := q.requeues + 1)])
  {
  }

  /** Processing an item uses up some of the budget, whatever the API server answers. */
  lemma BudgetFalls(s: State, id: nat, fault: Fault)
    requires WithinLimit(s.items) && id in s.items
    ensures var after := ProcessItem(s, id, fault).items;
            && after.Keys <= s.items.Keys && WithinLimit(after) && Budget(after) < Budget(s.items)
  {
    ItemsAfter(s, id, fault);
    if ProcessItem(s, id, fault).items == s.items - {id} {
      DroppingLowersBudget(s.items, id);
    } else {
      RetryingLowersBudget(s.items, id);
    }
  }

  /** pkg/istio/processor/controller.go */
  class Processor {
    const cluster: Cluster
    var items: map<nat, QueuedItem>
    var nextId: nat

    ghost predicate Valid()
      reads this
    {
      WithinLimit(items) && forall id :: id in items ==> id < nextId
    }

    constructor (cluster: Cluster)
      ensures this.cluster == cluster && items == map[] && nextId == 0
    {
      this.cluster, items, nextId := cluster, map[], 0;
    }

    /** `ProcessConfigChange`: each item is a new object, so it joins the queue under a new identity. */
    method ProcessConfigChange(item: Item<Spec>, owner: string)
      modifies this
      ensures items == old(items)[old(nextId) := QueuedItem(item, owner, 0)] && nextId == old(nextId) + 1
    {
      items, nextId := items[nextId := QueuedItem(item, owner, 0)], nextId + 1;
    }

    /** The loop over the change list in the domain controller's `sync`. */
    method ProcessChangeList(changeList: seq<Item<Spec>>, owner: string)
      modifies this
      ensures items == Enqueue(old(items), old(nextId), changeList, owner)
      ensures nextId == old(nextId) + |changeList|
    {
      for i := 0 to |changeList|
        invariant items == Enqueue(old(items), old(nextId), changeList[..i], owner)
        invariant nextId == old(nextId) + i
      {
        assert changeList[..i + 1][..i] == changeList[..i];
        ProcessConfigChange(changeList[i], owner);
      }
      assert changeList[..|changeList|] == changeList;
    }

    /** `processNextItem`: some waiting item is synced, its callback is told, and the item is dropped or requeued. */
    method ProcessNextItem(handler: Controller, fault: Fault) returns (id: nat)
      requires handler.processor == this && handler.cluster == cluster && items != map[]
      modifies this, handler`queue, handler`requeues, handler`gaveUp, cluster`store, cluster`events
      ensures id in old(items)
      ensures handler.Snapshot() == ProcessItem(old(handler.Snapshot()), id, fault)
    {
      assert items.Keys != {} by {
        var i :| i in items;
      }
      id :| id in items.Keys;
      ghost var s := handler.Snapshot();
      var outcome := cluster.Call(items[id].item, fault);
      assert handler.Snapshot() == s.(store := cluster.store, events := cluster.events);
      Conclude(handler, id, outcome);
    }

    /** What becomes of an item after its API call. */
    method Conclude(handler: Controller, id: nat, outcome: Outcome)
      requires handler.processor == this && handler.cluster == cluster && id in items
      modifies this`items, handler`queue, handler`requeues, handler`gaveUp
      ensures handler.Snapshot() == Settle(old(handler.Snapshot()), id, outcome)
    {
      var q := items[id];
      var retry := handler.HandleResult(q.owner, outcome);
      if !retry {
        items := items - {id};
      } else if q.requeues < QUEUE_NUM_RETRIES {
        items := items[id := q.(requeues := q.requeues + 1)];
      } else {
        items := items - {id};
        handler.gaveUp := handler.gaveUp + {q.owner};
      }
    }

    /** `runWorker` while nothing is added: the queue drains, in at most four syncs for each waiting item, whatever
        the API server answers. */
    method RunWorker(handler: Controller, faults: nat -> Fault) returns (syncs: nat)
      requires handler.processor == this && handler.cluster == cluster && Valid()
      modifies this, handler`queue, handler`requeues, handler`gaveUp, cluster`store, cluster`events
      ensures items == map[]
      ensures syncs <= old(Budget(items)) && old(Budget(items)) <= 4 * old(|items|)
    {
      BudgetIsAtMostFourEach(items);
      syncs := 0;
      while items != map[]
        invariant Valid() && syncs + Budget(items) <= old(Budget(items))
        decreases Budget(items)
      {
        ghost var before := handler.Snapshot();
        var id := ProcessNextItem(handler, faults(syncs));
        BudgetFalls(before, id, faults(syncs));
        syncs := syncs + 1;
      }
    }
  }

  /** pkg/controller/controller.go */
  class Controller {
    const cluster: Cluster
    const processor: Processor
    const env: V1Settings
    var queue: set<string>
    var requeues: map<string, nat>
    ghost var gaveUp: set<string>

    ghost function Snapshot(): State
      reads this, processor, cluster
    {
      State(cluster.domains, cluster.store, cluster.cache, cluster.events, queue, requeues,
            processor.items, processor.nextId, gaveUp)
    }

    constructor (cluster: Cluster, processor: Processor, env: V1Settings)
      ensures this.cluster == cluster && this.processor == processor && this.env == env
      ensures queue == cluster.domains.Keys && requeues == map[] && gaveUp == {}
      ensures WellFormed(cluster.store) && cluster.cache == cluster.store.objects && cluster.events == {}
                && (forall key :: key in cluster.domains ==> cluster.domains[key].name == key) && processor.items == map[]
              ==> Init(Snapshot())
    {
      this.cluster, this.processor, this.env := cluster, processor, env;
      queue, requeues, gaveUp := cluster.domains.Keys, map[], {};
    }

    /** The handler that `getCallbackHandler(key)` returns; the result says whether the item is to be retried. */
    method HandleResult(key: string, outcome: Outcome) returns (retry: bool)
      modifies this`queue, this`requeues, this`gaveUp
      ensures retry <==> outcome == Transient
      ensures if outcome != Conflict then queue == old(queue) && requeues == old(requeues) && gaveUp == old(gaveUp)
              else if NumRequeues(old(requeues), key) >= QUEUE_NUM_RETRIES then
                queue == old(queue) && requeues == old(requeues) && gaveUp == old(gaveUp) + {key}
              else
                && queue == old(queue) + {key} && gaveUp == old(gaveUp)
                && requeues == old(requeues)[key := NumRequeues(old(requeues), key) + 1]
    {
      if outcome == Success {
        return false;
      }
      if outcome == NotFound || outcome == AlreadyExists {
        return false;
      }
      if outcome != Conflict {
        return true;
      }
      if NumRequeues(requeues, key) >= QUEUE_NUM_RETRIES {
        gaveUp := gaveUp + {key};
        return false;
      }
      AddRateLimited(key);
      return false;
    }

    method AddRateLimited(key: string)
      modifies this`queue, this`requeues
      ensures queue == old(queue) + {key}
      ensures requeues == old(requeues)[key := NumRequeues(old(requeues), key) + 1]
    {
      queue, requeues := queue + {key}, requeues[key := NumRequeues(requeues, key) + 1];
    }

    /** `sync`: false is the error for a domain that is not in the informer's store. The ghost result is the
        listing the change list was computed from. */
    method Sync(key: string) returns (ok: bool, ghost current: seq<Config<Spec>>)
      requires Sound(Snapshot()) && processor.cluster == cluster
      modifies this`requeues, processor
      ensures ok <==> key in cluster.domains
      ensures Lists(current, cluster.cache, ScopeOf(key))
      ensures if ok then
                var changes := Changes(current, Desired(cluster.domains, key, env), NeverFlagged);
                Snapshot() == WithChanges(old(Snapshot()), key, changes)
              else Snapshot() == old(Snapshot())
    {
      if key !in cluster.domains {
        current := cluster.GetCurrentIstioRbac(key);
        return false, current;
      }
      var domainRBAC := ModelOf(cluster.domains, cluster.domains[key]);
      var desiredCRs := ServiceRoles.ConvertAthenzModelIntoIstioRbac(domainRBAC, env);
      var currentCRs := cluster.GetCurrentIstioRbac(key);
      var changeList := ComputeChangeList(currentCRs, desiredCRs, NeverFlagged);
      ok, current := true, currentCRs;
      if |changeList| == 0 {
        requeues := requeues - {key};
        return;
      }
      processor.ProcessChangeList(changeList, key);
    }

    /** `processNextItem`: one step of the system on some waiting key. */
    method ProcessNextItem() returns (key: string, ghost current: seq<Config<Spec>>)
      requires Sound(Snapshot()) && processor.cluster == cluster && queue != {}
      modifies this, processor
      ensures Enabled(old(Snapshot()), StepSync(key, current))
      ensures Snapshot() == SyncKey(old(Snapshot()), key, current, env)
    {
      key :| key in queue;
      queue := queue - {key};
      var ok;
      ok, current := Sync(key);
      if ok {
        gaveUp := gaveUp - {key};
      } else {
        Retry(key);
      }
    }

    /** What `processNextItem` does about an error. */
    method Retry(key: string)
      modifies this`queue, this`requeues, this`gaveUp
      ensures Snapshot() == Failed(old(Snapshot()), key)
    {
      if NumRequeues(requeues, key) < QUEUE_NUM_RETRIES {
        AddRateLimited(key);
      } else {
        gaveUp := gaveUp + {key};
      }
    }

    /** The config informer hears of a change of an object, stores it, and calls `processConfigEvent`, which is registered
        for the two kinds. */
    method HearConfig(k: Key, told: Option<Config<Spec>>, isLast: bool)
      modifies this`queue, cluster`cache, cluster`events
      ensures Snapshot() == Deliver(old(Snapshot()), k, told, isLast)
    {
      cluster.cache := Put(cluster.cache, k, told);
      if isLast {
        cluster.events := cluster.events - {k};
      }
      if k.kind == Kind.ServiceRole || k.kind == Kind.ServiceRoleBinding {
        ProcessConfigEvent(k);
      }
    }

    method ProcessConfigEvent(k: Key)
      modifies this`queue
      ensures queue == old(queue) + {NamespaceToDomain(k.namespace)}
    {
      var domain := NamespaceToDomain(k.namespace);
      queue := queue + {domain};
    }

    /** `processEvent` when the domain informer hears of a domain. */
    method HearDomain(d: DomainValue)
      modifies this`queue, cluster`domains
      ensures Snapshot() == DomainEvent(old(Snapshot()), d)
    {
      cluster.domains := cluster.domains[d.name := d];
      queue := queue + {d.name};
    }

    method HearDomainDeleted(key: string)
      modifies this`queue, cluster`domains
      ensures Snapshot() == DomainDeleted(old(Snapshot()), key)
    {
      cluster.domains := cluster.domains - {key};
      queue := queue + {key};
    }

    /** `resync` at a tick. */
    method Resync()
      modifies this`queue
      ensures Snapshot() == Reconciler.Resync(old(Snapshot()))
    {
      var todo := cluster.domains.Keys;
      while todo != {}
        invariant todo <= cluster.domains.Keys
        invariant queue == old(queue) + (cluster.domains.Keys - todo)
        decreases todo
      {
        var key :| key in todo;
        queue, todo := queue + {key}, todo - {key};
      }
    }
  }
}
