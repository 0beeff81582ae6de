/**
 What the two queues do about errors: the processor tries a lost API call again before it gives up, the domain controller a
 key that failed. pkg/istio/processor/controller.go and pkg/controller/controller.go, `processNextItem`.
 */
module Retries {
  import opened ChangeList
  import opened Configs
  import opened DomainNames
  import opened Reconciler
  import opened ServiceRoles

  /** An item whose call is lost waits on with one more retry on its counter, until it has had three; then it is dropped and
      its owner given up. Nothing else is queued, counted or given up. */
  lemma LostCallIsRetried(s: State, id: nat, fault: Fault, env: V1Settings)
    requires id in s.items && fault != Answered
    ensures var s', q := Apply(s, StepItem(id, fault), env), s.items[id];
            && s'.queue == s.queue && s'.requeues == s.requeues && s'.nextId == s.nextId
            && if q.requeues < 3
               then s'.items == s.items[id := QueuedItem(q.item, q.owner, q.requeues + 1)] && s'.gaveUp == s.gaveUp
               else s'.items == s.items - {id} && s'.gaveUp == s.gaveUp + {q.owner}
  {
  }

  lemma AnswerSettles(s: State, id: nat, outcome: Outcome)
    requires id in s.items && outcome != Transient
    ensures var s', q := Settle(s, id, outcome), s.items[id];
            var n := if q.owner in s.requeues then s.requeues[q.owner] else 0;
            && s'.items == s.items - {id}
            && if outcome != Conflict
               then s'.queue == s.queue && s'.requeues == s.requeues && s'.gaveUp == s.gaveUp
               else if n < 3
               then s'.queue == s.queue + {q.owner} && s'.requeues == s.requeues[q.owner := n + 1] && s'.gaveUp == s.gaveUp
               else s'.queue == s.queue && s'.requeues == s.requeues && s'.gaveUp == s.gaveUp + {q.owner}
  {
  }

  /** An item whose call is answered is dropped. A conflict queues its owner again, until that has had three retries; then
      it is given up. */
  lemma AnsweredCallIsDone(s: State, id: nat, env: V1Settings)
    requires id in s.items
    ensures var s', q := Apply(s, StepItem(id, Answered), env), s.items[id];
            var n := if q.owner in s.requeues then s.requeues[q.owner] else 0;
            && s'.items == s.items - {id}
            && if Execute(s.store, q.item).1 != Conflict
               then s'.queue == s.queue && s'.requeues == s.requeues && s'.gaveUp == s.gaveUp
               else if n < 3
               then s'.queue == s.queue + {q.owner} && s'.requeues == s.requeues[q.owner := n + 1] && s'.gaveUp == s.gaveUp
               else s'.queue == s.queue && s'.requeues == s.requeues && s'.gaveUp == s.gaveUp + {q.owner}
  {
    var (store, changed, outcome) := CallServer(s.store, s.items[id].item, Answered);
    AnswerSettles(s.(store := store, events := s.events + changed), id, outcome);
  }

  /** The syncs of an item in a run. */
  function SyncsOf(steps: seq<Step>, id: nat): nat {
    if steps == [] then 0
    else
      var last := steps[|steps| - 1];
      SyncsOf(steps[..|steps| - 1], id) + if last.StepItem? && last.id == id then 1 else 0
  }

  /** Other steps leave a waiting item as it is, and never bring one back. */
  lemma OtherStepsLeaveItem(s: State, step: Step, id: nat, env: V1Settings)
    requires Inv(s, env) && Enabled(s, step) && id < s.nextId && !(step.StepItem? && step.id == id)
    ensures var s' := Apply(s, step, env);
            id < s'.nextId && (id in s'.items <==> id in s.items) && (id in s.items ==> s'.items[id] == s.items[id])
  {
    match step
    case StepSync(key, current) =>
      SyncEffects(s, key, current, env);
      if key in s.domains {
        EnqueuedAt(s.items, s.nextId, Changes(current, Desired(s.domains, key, env), NeverFlagged), key, id);
      }
    case StepItem(other, fault) =>
      var (store, changed, outcome) := CallServer(s.store, s.items[other].item, fault);
      SettleEffects(s.(store := store, events := s.events + changed), other, outcome);
    case _ =>
  }

  /** An item whose every call is lost is synced exactly four times, whatever else the system does meanwhile: until then it
      waits, as it was but for its counter, and afterwards it is gone. */
  lemma {:induction false} LostItemIsSyncedFourTimes(s: State, steps: seq<Step>, s': State, id: nat, env: V1Settings)
    requires Inv(s, env) && Run(s, steps, s', env) && id in s.items && s.items[id].requeues == 0
    requires forall step :: step in steps && step.StepItem? && step.id == id ==> step.fault != Answered
    ensures SyncsOf(steps, id) <= 4 && id < s'.nextId && (id in s'.items <==> SyncsOf(steps, id) < 4)
    ensures id in s'.items ==> s'.items[id] == s.items[id].(requeues := SyncsOf(steps, id))
    decreases |steps|
  {
    if steps != [] {
      var init, last := steps[..|steps| - 1], steps[|steps| - 1];
      var mid := LastOfRun(s, steps, s', env);
      LostItemIsSyncedFourTimes(s, init, mid, id, env);
      RunKeepsInv(s, init, mid, env);
      if last.StepItem? && last.id == id {
        LostCallIsRetried(mid, id, last.fault, env);
      } else {
        OtherStepsLeaveItem(mid, last, id, env);
      }
    }
  }

  /** The key of an unknown domain is synced again, until it has had three retries; then it is given up. */
  lemma UnknownKeyIsRetried(s: State, key: string, current: seq<Config<Spec>>, env: V1Settings)
    requires Enabled(s, StepSync(key, current)) && key !in s.domains
    ensures var s', n := Apply(s, StepSync(key, current), env), if key in s.requeues then s.requeues[key] else 0;
            && s'.items == s.items && s'.store == s.store
            && if n < 3 then s'.queue == s.queue && s'.requeues == s.requeues[key := n + 1] && s'.gaveUp == s.gaveUp
               else s'.queue == s.queue - {key} && s'.requeues == s.requeues && s'.gaveUp == s.gaveUp + {key}
  {
    if NumRequeues(s.requeues, key) < 3 {
      assert s.queue - {key} + {key} == s.queue;
    }
  }

  lemma EnqueuedExactly(items: map<nat, QueuedItem>, nextId: nat, changes: seq<Item<Spec>>, owner: string)
    requires ItemsSound(items, nextId)
    ensures var all := Enqueue(items, nextId, changes, owner);
            && (forall id :: nextId <= id < nextId + |changes| ==>
                  id in all && all[id] == QueuedItem(changes[id - nextId], owner, 0))
            && (forall id :: id in items ==> id in all && all[id] == items[id])
            && forall id :: id in all ==> id in items || nextId <= id < nextId + |changes|
  {
    var all := Enqueue(items, nextId, changes, owner);
    forall id | nextId <= id < nextId + |changes| ensures id in all && all[id] == QueuedItem(changes[id - nextId], owner, 0) {
      EnqueuedAt(items, nextId, changes, owner, id);
    }
    EnqueueKeepsItems(items, nextId, changes, owner);
    forall id | id in all ensures id in items || nextId <= id < nextId + |changes| {
      EnqueuedAt(items, nextId, changes, owner, id);
    }
  }

  /** The key of a known domain leaves the queue. A sync that finds nothing to do forgets its retries, any other queues the
      items that the listing calls for, in order and with their retries ahead of them. */
  lemma KnownKeyIsDone(s: State, key: string, current: seq<Config<Spec>>, env: V1Settings)
    requires Inv(s, env) && Enabled(s, StepSync(key, current)) && key in s.domains
    ensures var changes := Changes(current, Desired(s.domains, key, env), NeverFlagged);
            var s' := Apply(s, StepSync(key, current), env);
            && s'.queue == s.queue - {key} && s'.gaveUp == s.gaveUp - {key}
            && s'.requeues == (if changes == [] then s.requeues - {key} else s.requeues)
            && (forall id :: s.nextId <= id < s.nextId + |changes| ==>
                  id in s'.items && s'.items[id] == QueuedItem(changes[id - s.nextId], key, 0))
            && (forall id :: id in s.items ==> id in s'.items && s'.items[id] == s.items[id])
            && forall id :: id in s'.items ==> id in s.items || s.nextId <= id < s.nextId + |changes|
  {
    SyncEffects(s, key, current, env);
    EnqueuedExactly(s.items, s.nextId, Changes(current, Desired(s.domains, key, env), NeverFlagged), key);
  }

  /** What is heard of queues what it concerns: a changed or deleted domain its own key, a ServiceRole or a binding the domain
      that its namespace decodes to, a tick every domain. Nothing leaves the queue, and nothing else happens. */
  lemma NewsIsQueued(s: State, step: Step, env: V1Settings)
    requires Enabled(s, step) && !step.StepSync? && !step.StepItem?
    ensures var s' := Apply(s, step, env);
            && s.queue <= s'.queue && s'.items == s.items && s'.requeues == s.requeues && s'.gaveUp == s.gaveUp
            && match step
               case StepDeliver(k, told, _) =>
                 && (k in s'.cache <==> told.Some?) && (told.Some? ==> s'.cache[k] == told.value)
                 && (k.kind == Kind.ServiceRole || k.kind == Kind.ServiceRoleBinding ==>
                       NamespaceToDomain(k.namespace) in s'.queue)
               case StepDomain(d) => d.name in s'.queue && d.name in s'.domains && s'.domains[d.name] == d
               case StepDomainDeleted(key) => key in s'.queue && key !in s'.domains
               case StepResync => s'.queue == s.queue + s.domains.Keys
               case _ => s'.queue == s.queue
  {
  }
}
