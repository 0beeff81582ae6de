/** Change lists and what executing them does: pkg/istio/rbac/common/util.go, `ComputeChangeList`, and
    pkg/istio/processor/controller.go, `sync`. */
module ChangeList {
  import opened AthenzData
  import opened Configs

  datatype Operation = Add | Update | Delete
  datatype Item<+S> = Item(operation: Operation, resource: Config<S>)

  /** `ConvertSliceToKeyedMap`: the last config of a key wins. */
  function KeyedMap<S>(configs: seq<Config<S>>): map<Key, Config<S>> {
    if configs == [] then map[]
    else
      var last := configs[|configs| - 1];
      KeyedMap(configs[..|configs| - 1])[last.meta.key := last]
  }

  /** The item a desired config needs against the current ones. */
  function ItemFor<S(==)>(current: map<Key, Config<S>>, d: Config<S>, flagged: Config<S> -> bool): Option<Item<S>> {
    var key := d.meta.key;
    if key !in current then Some(Item(Add, d))
    else if current[key].spec == d.spec || flagged(current[key]) then None
    else Some(Item(Update, d.(meta := current[key].meta)))
  }

  function Upserts<S(==)>(current: map<Key, Config<S>>, desired: seq<Config<S>>, flagged: Config<S> -> bool): seq<Item<S>> {
    if desired == [] then []
    else
      var item := ItemFor(current, desired[|desired| - 1], flagged);
      Upserts(current, desired[..|desired| - 1], flagged) + (if item.Some? then [item.value] else [])
  }

  function Deletes<S>(current: seq<Config<S>>, desired: map<Key, Config<S>>, flagged: Config<S> -> bool): seq<Item<S>> {
    if current == [] then []
    else
      var c := current[|current| - 1];
      Deletes(current[..|current| - 1], desired, flagged)
      + (if !flagged(c) && c.meta.key !in desired then [Item(Delete, c)] else [])
  }

  /** The change list from the current to the desired configs; flagged current configs are left alone. */
  function Changes<S(==)>(current: seq<Config<S>>, desired: seq<Config<S>>, flagged: Config<S> -> bool): seq<Item<S>> {
    Upserts(KeyedMap(current), desired, flagged) + Deletes(current, KeyedMap(desired), flagged)
  }

  method ConvertSliceToKeyedMap<S>(configs: seq<Config<S>>) returns (out: map<Key, Config<S>>)
    ensures out == KeyedMap(configs)
  {
    out := map[];
    for i := 0 to |configs|
      invariant out == KeyedMap(configs[..i])
    {
      assert configs[..i + 1][..i] == configs[..i];
      out := out[configs[i].meta.key := configs[i]];
    }
    assert configs[..|configs|] == configs;
  }

  method ComputeChangeList<S(==)>(current: seq<Config<S>>, desired: seq<Config<S>>, flagged: Config<S> -> bool)
    returns (changes: seq<Item<S>>)
    ensures changes == Changes(current, desired, flagged)
  {
    var currMap := ConvertSliceToKeyedMap(current);
    var desiredMap := ConvertSliceToKeyedMap(desired);
    changes := [];
    for i := 0 to |desired|
      invariant changes == Upserts(currMap, desired[..i], flagged)
    {
      var desiredConfig := desired[i];
      assert desired[..i + 1][..i] == desired[..i];
      var key := desiredConfig.meta.key;
      if key !in currMap {
        changes := changes + [Item(Add, desiredConfig)];
        continue;
      }
      var existing := currMap[key];
      if existing.spec != desiredConfig.spec {
        if flagged(existing) {
          continue;
        }
        changes := changes + [Item(Update, Config(existing.meta, desiredConfig.spec))];
      }
    }
    assert desired[..|desired|] == desired;
    ghost var upserts := changes;
    for i := 0 to |current|
      invariant changes == upserts + Deletes(current[..i], desiredMap, flagged)
    {
      assert current[..i + 1][..i] == current[..i];
      if flagged(current[i]) {
        continue;
      }
      if current[i].meta.key !in desiredMap {
        changes := changes + [Item(Delete, current[i])];
      }
    }
    assert current[..|current|] == current;
  }

  // ---- What is in a change list. ----

  lemma {:induction false} KeyedMapContains<S>(configs: seq<Config<S>>)
    ensures forall k :: k in KeyedMap(configs) <==> exists c :: c in configs && c.meta.key == k
    ensures forall k :: k in KeyedMap(configs) ==> KeyedMap(configs)[k] in configs && KeyedMap(configs)[k].meta.key == k
  {
    if configs != [] {
      var init, last := configs[..|configs| - 1], configs[|configs| - 1];
      KeyedMapContains(init);
      assert configs == init + [last];
      assert forall c :: c in configs <==> c in init || c == last;
    }
  }

  lemma {:induction false} UpsertsContain<S>(current: map<Key, Config<S>>, desired: seq<Config<S>>,
                                             flagged: Config<S> -> bool, x: Item<S>)
    ensures x in Upserts(current, desired, flagged) <==>
            exists d :: d in desired && ItemFor(current, d, flagged) == Some(x)
  {
    if desired != [] {
      var init, last := desired[..|desired| - 1], desired[|desired| - 1];
      UpsertsContain(current, init, flagged, x);
      assert desired == init + [last];
      assert forall d :: d in desired <==> d in init || d == last;
    }
  }

  lemma {:induction false} DeletesContain<S>(current: seq<Config<S>>, desired: map<Key, Config<S>>,
                                             flagged: Config<S> -> bool, x: Item<S>)
    ensures x in Deletes(current, desired, flagged) <==>
            x.operation == Delete && x.resource in current && !flagged(x.resource) && x.resource.meta.key !in desired
  {
    if current != [] {
      var init, last := current[..|current| - 1], current[|current| - 1];
      DeletesContain(init, desired, flagged, x);
      assert current == init + [last];
      assert forall c :: c in current <==> c in init || c == last;
    }
  }

  lemma ChangesContain<S>(current: seq<Config<S>>, desired: seq<Config<S>>, flagged: Config<S> -> bool, x: Item<S>)
    ensures x in Changes(current, desired, flagged) <==>
            || (exists d :: d in desired && ItemFor(KeyedMap(current), d, flagged) == Some(x))
            || (x.operation == Delete && x.resource in current && !flagged(x.resource)
                && x.resource.meta.key !in KeyedMap(desired))
  {
    UpsertsContain(KeyedMap(current), desired, flagged, x);
    DeletesContain(current, KeyedMap(desired), flagged, x);
  }

  // ---- The store. ----

  /** What the API server answers. `Transient` stands for every other error. */
  datatype Outcome = Success | NotFound | AlreadyExists | Conflict | Transient

  /** The API server's objects. Every accepted write of an object gets a new revision as its version. */
  datatype Store<+S> = Store(objects: map<Key, Config<S>>, revision: nat)

  ghost predicate WellFormed<S>(st: Store<S>) {
    forall k :: k in st.objects ==>
      st.objects[k].meta.key == k && st.objects[k].meta.resourceVersion <= st.revision
  }

  function Written<S>(st: Store<S>, c: Config<S>): Store<S> {
    var version := st.revision + 1;
    Store(st.objects[c.meta.key := c.(meta := c.meta.(resourceVersion := version))], version)
  }

  /** `sync` of the processor: the API call of an item, when the server is reached. */
  function Execute<S>(st: Store<S>, item: Item<S>): (Store<S>, Outcome) {
    var c := item.resource;
    var key := c.meta.key;
    match item.operation
    case Add => if key in st.objects then (st, AlreadyExists) else (Written(st, c), Success)
    case Update =>
      if key !in st.objects then (st, NotFound)
      else if st.objects[key].meta.resourceVersion != c.meta.resourceVersion then (st, Conflict)
      else (Written(st, c), Success)
    case Delete => if key !in st.objects then (st, NotFound) else (Store(st.objects - {key}, st.revision), Success)
  }

  /** How an API call goes: it gets its answer, it never arrives, or it is carried out and the answer is lost. */
  datatype Fault = Answered | RequestLost | ReplyLost

  /** The API call of an item: the server's new content, the keys that events will report, and what the caller sees. */
  function CallServer<S>(store: Store<S>, item: Item<S>, fault: Fault): (Store<S>, set<Key>, Outcome) {
    var (after, answer) := Execute(store, item);
    var changed := if answer == Success then {item.resource.meta.key} else {};
    match fault
    case Answered => (after, changed, answer)
    case RequestLost => (store, {}, Transient)
    case ReplyLost => (after, changed, Transient)
  }

  /** Storing an object under a key, or removing it. */
  function Put<S>(m: map<Key, Config<S>>, k: Key, c: Option<Config<S>>): map<Key, Config<S>> {
    if c.Some? then m[k := c.value] else m - {k}
  }

  function ExecuteAll<S>(st: Store<S>, items: seq<Item<S>>): Store<S> {
    if items == [] then st
    else Execute(ExecuteAll(st, items[..|items| - 1]), items[|items| - 1]).0
  }

  /** The resources a controller manages for one domain. */
  datatype Scope = Scope(namespace: string, kinds: set<Kind>)

  predicate InScope(sc: Scope, key: Key) {
    key.namespace == sc.namespace && key.kind in sc.kinds
  }

  /** `current` lists the objects in scope, in any order. */
  ghost predicate Lists<S(!new)>(current: seq<Config<S>>, objects: map<Key, Config<S>>, sc: Scope) {
    forall c :: c in current <==> c.meta.key in objects && InScope(sc, c.meta.key) && objects[c.meta.key] == c
  }

  lemma ListingKeyedMap<S(!new)>(current: seq<Config<S>>, objects: map<Key, Config<S>>, sc: Scope)
    requires Lists(current, objects, sc) && forall k :: k in objects ==> objects[k].meta.key == k
    ensures KeyedMap(current) == map k | k in objects && InScope(sc, k) :: objects[k]
  {
    KeyedMapContains(current);
    var m := KeyedMap(current);
    forall k ensures k in m <==> k in objects && InScope(sc, k) {
      if k in objects && InScope(sc, k) {
        assert objects[k] in current;
      }
    }
    forall k | k in m ensures m[k] == objects[k] {
      assert m[k] in current;
    }
  }

  // ---- Executing a change list. ----

  /** Desired configs with the same key have the same spec. */
  ghost predicate Consistent<S(!new)>(desired: seq<Config<S>>) {
    forall a, b :: a in desired && b in desired && a.meta.key == b.meta.key ==> a.spec == b.spec
  }

  /** Looking an object up. */
  function Get<S>(objects: map<Key, Config<S>>, k: Key): Option<Config<S>> {
    if k in objects then Some(objects[k]) else None
  }

  /** What must be at a key after the change list, given what was there: the desired spec, under the metadata
      that was there but for the version; nothing when nothing is desired; and the old config as it was when
      it is flagged, equal already, or not in scope. */
  ghost predicate Reconciled<S>(k: Key, before: Option<Config<S>>, after: Option<Config<S>>,
                                desired: seq<Config<S>>, flagged: Config<S> -> bool, sc: Scope) {
    var wanted := KeyedMap(desired);
    if before.Some? && (!InScope(sc, k) || flagged(before.value)) then after == before
    else if k in wanted then
      && after.Some? && after.value.spec == wanted[k].spec
      && (before.Some? ==> after.value.meta == before.value.meta.(resourceVersion := after.value.meta.resourceVersion))
      && (before.Some? && before.value.spec == wanted[k].spec ==> after == before)
    else after == None
  }

  /** A key that needs no item. */
  ghost predicate NoItemFor<S>(items: seq<Item<S>>, k: Key) {
    forall x :: x in items ==> x.resource.meta.key != k
  }

  /** During execution a key either has its old content or is reconciled under a new version. */
  ghost predicate PartwayAt<S>(st0: Store<S>, st: Store<S>, done: seq<Item<S>>,
                               desired: seq<Config<S>>, flagged: Config<S> -> bool, sc: Scope, k: Key) {
    var before, after := Get(st0.objects, k), Get(st.objects, k);
    if NoItemFor(done, k) then after == before
    else Reconciled(k, before, after, desired, flagged, sc) && after != before &&
         (after.Some? ==> after.value.meta.resourceVersion > st0.revision)
  }

  ghost predicate Partway<S>(st0: Store<S>, st: Store<S>, done: seq<Item<S>>,
                             desired: seq<Config<S>>, flagged: Config<S> -> bool, sc: Scope) {
    && WellFormed(st) && st0.revision <= st.revision
    && forall k :: PartwayAt(st0, st, done, desired, flagged, sc, k)
  }

  /** Every item of the list is the one its key needs. */
  lemma ItemIsNeeded<S(!new)>(st0: Store<S>, current: seq<Config<S>>, desired: seq<Config<S>>,
                        flagged: Config<S> -> bool, sc: Scope, x: Item<S>)
    requires WellFormed(st0) && Lists(current, st0.objects, sc) && Consistent(desired)
    requires forall d :: d in desired ==> InScope(sc, d.meta.key)
    requires x in Changes(current, desired, flagged)
    ensures var k, wanted := x.resource.meta.key, KeyedMap(desired);
            && InScope(sc, k)
            && match x.operation
               case Add => k !in st0.objects && k in wanted && wanted[k].spec == x.resource.spec
               case Update =>
                 && k in st0.objects && k in wanted && wanted[k].spec == x.resource.spec != st0.objects[k].spec
                 && x.resource.meta == st0.objects[k].meta && !flagged(st0.objects[k])
               case Delete => k in st0.objects && k !in wanted && !flagged(st0.objects[k])
  {
    ChangesContain(current, desired, flagged, x);
    ListingKeyedMap(current, st0.objects, sc);
    KeyedMapContains(desired);
  }

  /** The first item of a key succeeds and does what the key needs; later ones are refused. */
  lemma ExecuteAtItsKey<S(!new)>(st0: Store<S>, st: Store<S>, current: seq<Config<S>>, desired: seq<Config<S>>,
                           flagged: Config<S> -> bool, sc: Scope, done: seq<Item<S>>, x: Item<S>)
    requires WellFormed(st0) && Lists(current, st0.objects, sc) && Consistent(desired)
    requires forall d :: d in desired ==> InScope(sc, d.meta.key)
    requires x in Changes(current, desired, flagged)
    requires Partway(st0, st, done, desired, flagged, sc)
    ensures var k, st' := x.resource.meta.key, Execute(st, x).0;
            if !NoItemFor(done, k) then st' == st
            else
              var before, after := Get(st0.objects, k), Get(st'.objects, k);
              && Reconciled(k, before, after, desired, flagged, sc) && after != before
              && (after.Some? ==> after.value.meta.resourceVersion > st0.revision)
  {
    ItemIsNeeded(st0, current, desired, flagged, sc, x);
    var k := x.resource.meta.key;
    assert PartwayAt(st0, st, done, desired, flagged, sc, k);
    if NoItemFor(done, k) {
      assert Execute(st, x).1 == Success;
    }
  }

  lemma ExecuteTouchesItsKey<S>(st: Store<S>, x: Item<S>)
    requires WellFormed(st)
    ensures var st' := Execute(st, x).0;
            && WellFormed(st') && st.revision <= st'.revision
            && forall k :: k != x.resource.meta.key ==> Get(st'.objects, k) == Get(st.objects, k)
  {
  }

  lemma OneMoreItemFor<S(!new)>(done: seq<Item<S>>, x: Item<S>)
    ensures forall k :: NoItemFor(done + [x], k) <==> NoItemFor(done, k) && k != x.resource.meta.key
  {
    assert forall y :: y in done + [x] <==> y in done || y == x;
  }

  lemma ExecuteOne<S(!new)>(st0: Store<S>, st: Store<S>, current: seq<Config<S>>, desired: seq<Config<S>>,
                      flagged: Config<S> -> bool, sc: Scope, done: seq<Item<S>>, x: Item<S>)
    requires WellFormed(st0) && Lists(current, st0.objects, sc) && Consistent(desired)
    requires forall d :: d in desired ==> InScope(sc, d.meta.key)
    requires x in Changes(current, desired, flagged)
    requires Partway(st0, st, done, desired, flagged, sc)
    ensures Partway(st0, Execute(st, x).0, done + [x], desired, flagged, sc)
  {
    ExecuteAtItsKey(st0, st, current, desired, flagged, sc, done, x);
    ExecuteTouchesItsKey(st, x);
    OneMoreItemFor(done, x);
    forall k ensures PartwayAt(st0, Execute(st, x).0, done + [x], desired, flagged, sc, k) {
      assert PartwayAt(st0, st, done, desired, flagged, sc, k);
    }
  }

  lemma {:induction false} ExecuteSome<S(!new)>(st0: Store<S>, current: seq<Config<S>>, desired: seq<Config<S>>,
                                          flagged: Config<S> -> bool, sc: Scope, items: seq<Item<S>>)
    requires WellFormed(st0) && Lists(current, st0.objects, sc) && Consistent(desired)
    requires forall d :: d in desired ==> InScope(sc, d.meta.key)
    requires forall x :: x in items ==> x in Changes(current, desired, flagged)
    ensures Partway(st0, ExecuteAll(st0, items), items, desired, flagged, sc)
  {
    if items != [] {
      var init, x := items[..|items| - 1], items[|items| - 1];
      assert items == init + [x];
      ExecuteSome(st0, current, desired, flagged, sc, init);
      ExecuteOne(st0, ExecuteAll(st0, init), current, desired, flagged, sc, init, x);
    }
  }

  /** Executing the items of a change list in any order, with or without repetitions, reconciles every key. */
  lemma ChangeListReconciles<S(!new)>(st0: Store<S>, current: seq<Config<S>>, desired: seq<Config<S>>,
                                flagged: Config<S> -> bool, sc: Scope, items: seq<Item<S>>, k: Key)
    requires WellFormed(st0) && Lists(current, st0.objects, sc) && Consistent(desired)
    requires forall d :: d in desired ==> InScope(sc, d.meta.key)
    requires forall x :: x in items <==> x in Changes(current, desired, flagged)
    ensures WellFormed(ExecuteAll(st0, items))
    ensures Reconciled(k, Get(st0.objects, k), Get(ExecuteAll(st0, items).objects, k), desired, flagged, sc)
  {
    ExecuteSome(st0, current, desired, flagged, sc, items);
    assert PartwayAt(st0, ExecuteAll(st0, items), items, desired, flagged, sc, k);
    if NoItemFor(items, k) {
      ListingKeyedMap(current, st0.objects, sc);
      KeyedMapContains(desired);
      var wanted := KeyedMap(desired);
      if k in wanted {
        var d := wanted[k];
        var item := ItemFor(KeyedMap(current), d, flagged);
        if item.Some? {
          ChangesContain(current, desired, flagged, item.value);
        }
      } else if k in st0.objects && InScope(sc, k) {
        var x := Item(Delete, st0.objects[k]);
        ChangesContain(current, desired, flagged, x);
        assert !flagged(st0.objects[k]) ==> x in items;
      }
    }
  }

  // ---- The empty change list. ----

  /** Nothing to do: every desired config is there or stands against a flagged one, and nothing else is. */
  ghost predicate Settled<S(!new)>(current: seq<Config<S>>, desired: seq<Config<S>>, flagged: Config<S> -> bool) {
    && (forall d :: d in desired ==>
          && d.meta.key in KeyedMap(current)
          && (KeyedMap(current)[d.meta.key].spec == d.spec || flagged(KeyedMap(current)[d.meta.key])))
    && (forall c :: c in current ==> c.meta.key in KeyedMap(desired) || flagged(c))
  }

  lemma NoChangesIff<S(!new)>(current: seq<Config<S>>, desired: seq<Config<S>>, flagged: Config<S> -> bool)
    ensures Changes(current, desired, flagged) == [] <==> Settled(current, desired, flagged)
  {
    var changes := Changes(current, desired, flagged);
    if changes == [] {
      forall d | d in desired
        ensures d.meta.key in KeyedMap(current)
        ensures KeyedMap(current)[d.meta.key].spec == d.spec || flagged(KeyedMap(current)[d.meta.key])
      {
        var item := ItemFor(KeyedMap(current), d, flagged);
        if item.Some? {
          ChangesContain(current, desired, flagged, item.value);
        }
      }
      forall c | c in current ensures c.meta.key in KeyedMap(desired) || flagged(c) {
        ChangesContain(current, desired, flagged, Item(Delete, c));
      }
    }
    if Settled(current, desired, flagged) {
      if changes != [] {
        ChangesContain(current, desired, flagged, changes[0]);
      }
    }
  }

  /** When every key is reconciled, nothing is left to do. */
  lemma ReconciledIsSettled<S(!new)>(before: map<Key, Config<S>>, after: map<Key, Config<S>>, desired: seq<Config<S>>,
                                     flagged: Config<S> -> bool, sc: Scope, next: seq<Config<S>>)
    requires forall k :: k in after ==> after[k].meta.key == k
    requires forall k :: Reconciled(k, Get(before, k), Get(after, k), desired, flagged, sc)
    requires forall d :: d in desired ==> InScope(sc, d.meta.key)
    requires Consistent(desired) && Lists(next, after, sc)
    ensures Settled(next, desired, flagged)
  {
    ListingKeyedMap(next, after, sc);
    KeyedMapContains(desired);
    forall d | d in desired
      ensures d.meta.key in KeyedMap(next)
      ensures KeyedMap(next)[d.meta.key].spec == d.spec || flagged(KeyedMap(next)[d.meta.key])
    {
      var k := d.meta.key;
      assert Reconciled(k, Get(before, k), Get(after, k), desired, flagged, sc);
    }
    forall c | c in next ensures c.meta.key in KeyedMap(desired) || flagged(c) {
      var k := c.meta.key;
      assert Reconciled(k, Get(before, k), Get(after, k), desired, flagged, sc);
    }
  }

  /** After a change list has been executed, in any order, the next one is empty. */
  lemma RecomputedChangesAreEmpty<S(!new)>(st0: Store<S>, current: seq<Config<S>>, desired: seq<Config<S>>,
                                     flagged: Config<S> -> bool, sc: Scope, items: seq<Item<S>>, next: seq<Config<S>>)
    requires WellFormed(st0) && Lists(current, st0.objects, sc) && Consistent(desired)
    requires forall d :: d in desired ==> InScope(sc, d.meta.key)
    requires forall x :: x in items <==> x in Changes(current, desired, flagged)
    requires Lists(next, ExecuteAll(st0, items).objects, sc)
    ensures Changes(next, desired, flagged) == []
  {
    var after := ExecuteAll(st0, items).objects;
    forall k
      ensures Reconciled(k, Get(st0.objects, k), Get(after, k), desired, flagged, sc)
    {
      ChangeListReconciles(st0, current, desired, flagged, sc, items, k);
    }
    ExecuteSome(st0, current, desired, flagged, sc, items);
    ReconciledIsSettled(st0.objects, after, desired, flagged, sc, next);
    NoChangesIff(next, desired, flagged);
  }

  /** The check of a controller that leaves nothing alone. */
  predicate NeverFlagged<S>(c: Config<S>) {
    false
  }

  ghost predicate NothingToDo<S>(current: seq<Config<S>>, desired: seq<Config<S>>) {
    Changes(current, desired, NeverFlagged) == []
  }

  /** Some current configs leave nothing to do exactly when the desired ones are consistent. */
  lemma SatisfiableIffConsistent<S(!new)>(desired: seq<Config<S>>)
    ensures (exists current :: NothingToDo(current, desired)) <==> Consistent(desired)
  {
    if current :| NothingToDo(current, desired) {
      NoChangesIff(current, desired, NeverFlagged);
    }
    if Consistent(desired) {
      KeyedMapContains(desired);
      NoChangesIff(desired, desired, NeverFlagged);
      assert NothingToDo(desired, desired);
    }
  }
}
