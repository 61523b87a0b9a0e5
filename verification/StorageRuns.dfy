/**
 What the factory's steps do to the stored tokens (vault/client_factory.go): when an entry goes,
 and that a stored token comes back after a cache miss.
 */
module StorageRuns {
  import opened Results
  import opened CacheKeys
  import opened ClientTiers
  import opened FactoryRuns
  import opened FactoryAnswers

  // ---------------------------------------------------------------- when an entry goes

  /**
   Before a shutdown, `Prune` deletes a storage entry exactly when there is storage, the
   callbacks are skipped, a pruned client has that key, and the API lets it go.  The callbacks
   make up for none of it.
   */
  lemma PrunedEntryGoesIff(w: World, filter: Client -> bool, skipCallbacks: bool, k: Key)
    requires !w.shutDown && !w.tiers.pruneStorageOnEvict && k in w.tiers.stored
    ensures k !in PruneStep(w, filter, skipCallbacks).tiers.stored <==>
      && w.tiers.persist && skipCallbacks
      && k in KeysOf(Selected(w.tiers.parents, filter)) && k !in w.tiers.stuck
    ensures !skipCallbacks ==> PruneStep(w, filter, skipCallbacks).tiers.stored == w.tiers.stored
  {
  }

  /**
   The callback handler deletes a storage entry exactly when there is storage, a lifetime watcher
   is done, the entry is that of the client or its parent, and the API lets it go; a removal
   request changes nothing.
   */
  lemma CallbackEntryGoesIff(w: World, req: Request, k: Key)
    requires k in w.tiers.stored
    ensures k !in CallbackStep(w, req).tiers.stored <==>
      && w.tiers.persist && req.on.LifetimeWatcherDone?
      && k == HandledKey(req.client) && k !in w.tiers.stuck
    ensures req.on.CacheRemoval? ==> CallbackStep(w, req) == w
  {
  }

  lemma StepKeepsSwitchOff(w: World, ev: Event)
    requires !w.shutDown ==> !w.tiers.pruneStorageOnEvict
    ensures !Step(w, ev).shutDown ==> !Step(w, ev).tiers.pruneStorageOnEvict
  {
  }

  /** No step before a shutdown turns on the pruning of storage on eviction, whatever the configuration asks for. */
  lemma {:induction false} SwitchOffUntilShutDown(w: World, events: seq<Event>)
    requires Initial(w)
    ensures !Run(w, events).shutDown ==> !Run(w, events).tiers.pruneStorageOnEvict
  {
    if events != [] {
      SwitchOffUntilShutDown(w, events[..|events| - 1]);
      StepKeepsSwitchOff(Run(w, events[..|events| - 1]), events[|events| - 1]);
    }
  }

  /** So in every reachable state `Prune` deletes an entry exactly under that condition. */
  lemma {:induction false} PrunedEntryGoesOverRunsIff(
    w: World, events: seq<Event>, filter: Client -> bool, skipCallbacks: bool, k: Key)
    requires Initial(w) && k in Run(w, events).tiers.stored
    ensures var w' := Run(w, events);
      k !in PruneStep(w', filter, skipCallbacks).tiers.stored <==>
        && !w'.shutDown && w'.tiers.persist && skipCallbacks
        && k in KeysOf(Selected(w'.tiers.parents, filter)) && k !in w'.tiers.stuck
  {
    SwitchOffUntilShutDown(w, events);
    if !Run(w, events).shutDown {
      PrunedEntryGoesIff(Run(w, events), filter, skipCallbacks, k);
    }
  }

  // ---------------------------------------------------------------- a stored token comes back

  /** `Get` gets as far as the login. */
  predicate LogsIn(w: World, call: GetCall) {
    && !w.shutDown && call.key.Ok? && call.login.Some?
    && var key := call.key.value;
       if Lookup(w.tiers, key).1.Some? then !call.valid
       else !(w.tiers.persist && key in w.tiers.stored && call.restored.Restored?)
  }

  /** `Get` finds the entry of `k` unusable. */
  predicate Discards(w: World, call: GetCall, k: Key) {
    call.key == Ok(k) && Lookup(w.tiers, k).1.None? && call.restored.Unusable?
  }

  /** Before a shutdown, these events delete the stored token of `k` or write another one. */
  predicate Disturbs(w: World, ev: Event, k: Key) {
    match ev
    case GetEvent(call) =>
      Discards(w, call, k) || (LogsIn(w, call) && call.login.value.key == k && !call.saving.Unsaved?)
    case RestoreEvent(key, restored) => key == k && restored.Unusable?
    case PruneEvent(filter, skip) => skip && k in KeysOf(Selected(w.tiers.parents, filter)) && k !in w.tiers.stuck
    case CallbackEvent(req) => req.on.LifetimeWatcherDone? && HandledKey(req.client) == k && k !in w.tiers.stuck
    case ShutDownEvent(_) => true
    case ApiEvent(_) => false
  }

  predicate Keeps(w: World, w': World, k: Key) {
    k in w.tiers.stored ==> k in w'.tiers.stored && w'.tiers.stored[k] == w.tiers.stored[k]
  }

  /** Caching a client touches the storage through `storeClient` alone. */
  lemma CacheKeepsStored(w: World, c: Client, persist: bool, saving: Saving, k: Key)
    requires !w.tiers.pruneStorageOnEvict && (!persist || saving.Unsaved? || c.key != k)
    ensures Keeps(w, CacheClient(w, c, persist, saving), k)
  {
    AddKeepsStored(w.(tiers := Vacated(w.tiers, c.key)), c, persist, saving, k);
  }

  lemma AddKeepsStored(w: World, c: Client, persist: bool, saving: Saving, k: Key)
    requires !w.tiers.pruneStorageOnEvict && (!persist || saving.Unsaved? || c.key != k)
    ensures Keeps(w, AddAndStore(w, c, persist, saving), k)
  {
  }

  lemma NamespacedKeepsStored(w: World, c: Client, key: Key, namespace: string, cloneOk: bool, k: Key)
    requires !w.tiers.pruneStorageOnEvict
    ensures Keeps(w, NamespacedClient(w, c, key, namespace, cloneOk).0, k)
  {
    if CloneKey(key, namespace).Ok? {
      var t := Lookup(w.tiers, CloneKey(key, namespace).value).0;
      var clone := Client(w.nextId, c.key + "-" + namespace, true, namespace, c.id, c.token);
      CacheKeepsStored(w.(tiers := t, nextId := w.nextId + 1), clone, false, Unsaved, k);
    }
  }

  lemma ArriveKeepsStored(w: World, a: Arrival, persist: bool, saving: Saving, k: Key)
    requires !w.tiers.pruneStorageOnEvict && (!persist || saving.Unsaved? || a.key != k)
    ensures Keeps(w, Arrive(w, a, persist, saving).0, k)
  {
    var c := Client(w.nextId, a.key, false, a.namespace, w.nextId, a.token);
    CacheKeepsStored(w.(nextId := w.nextId + 1), c, persist, saving, k);
  }

  lemma LoginKeepsStored(w: World, call: GetCall, k: Key)
    requires !w.tiers.pruneStorageOnEvict
    requires call.login.Some? && call.login.value.key == k ==> call.saving.Unsaved?
    ensures Keeps(w, LoginAndCache(w, call).0, k)
  {
    if call.login.Some? {
      ArriveKeepsStored(w, call.login.value, w.tiers.persist, call.saving, k);
      var (w', c) := Arrive(w, call.login.value, w.tiers.persist, call.saving);
      NamespacedKeepsStored(w', c, c.key, call.namespace, call.cloneOk, k);
    }
  }

  lemma MissKeepsStored(w: World, key: Key, call: GetCall, k: Key)
    requires !w.tiers.pruneStorageOnEvict
    requires key == k ==> !call.restored.Unusable?
    requires
      (w.tiers.persist && key in w.tiers.stored && call.restored.Restored?) ||
      (call.login.Some? && call.login.value.key == k ==> call.saving.Unsaved?)
    ensures Keeps(w, RestoreOrLogin(w, key, call).0, k)
  {
    if w.tiers.persist && key in w.tiers.stored && call.restored.Restored? {
      var a := Arrival(key, call.restored.namespace, w.tiers.stored[key]);
      ArriveKeepsStored(w, a, false, Unsaved, k);
      var (w', c) := Arrive(w, a, false, Unsaved);
      NamespacedKeepsStored(w', c, key, call.namespace, call.cloneOk, k);
    } else {
      LoginKeepsStored(w, call, k);
      LoginKeepsStored(w.(tiers := w.tiers.(stored := w.tiers.stored - {key})), call, k);
    }
  }

  lemma GetKeepsStored(w: World, call: GetCall, k: Key)
    requires !w.tiers.pruneStorageOnEvict && !Disturbs(w, GetEvent(call), k)
    ensures Keeps(w, Get(w, call).0, k)
  {
    if !w.shutDown && call.key.Ok? {
      var key := call.key.value;
      var (t, hit) := Lookup(w.tiers, key);
      var w' := w.(tiers := t);
      if hit.Some? && call.valid {
        NamespacedKeepsStored(w', hit.value, key, call.namespace, call.cloneOk, k);
      } else if hit.Some? {
        LoginKeepsStored(
          w'.(tiers := Remove(t, key), requests := w.requests + [Request(CacheRemoval, hit.value)]), call, k);
      } else {
        MissKeepsStored(w', key, call, k);
      }
    }
  }

  lemma UndisturbedStep(w: World, ev: Event, k: Key)
    requires !w.tiers.pruneStorageOnEvict && !Disturbs(w, ev, k)
    ensures Keeps(w, Step(w, ev), k) && !Step(w, ev).tiers.pruneStorageOnEvict
  {
    match ev
    case GetEvent(call) => GetKeepsStored(w, call, k);
    case RestoreEvent(key, restored) =>
      if restored.Restored? && key in w.tiers.stored {
        ArriveKeepsStored(w, Arrival(key, restored.namespace, w.tiers.stored[key]), false, Unsaved, k);
      }
    case PruneEvent(filter, skip) =>
    case CallbackEvent(req) =>
    case ApiEvent(_) =>
  }

  lemma {:induction false} UndisturbedRun(w: World, events: seq<Event>, k: Key)
    requires !w.tiers.pruneStorageOnEvict
    requires forall i :: 0 <= i < |events| ==> !Disturbs(Run(w, events[..i]), events[i], k)
    ensures Keeps(w, Run(w, events), k) && !Run(w, events).tiers.pruneStorageOnEvict
  {
    if events != [] {
      var n := |events| - 1;
      assert forall i :: 0 <= i < n ==> events[..n][..i] == events[..i];
      UndisturbedRun(w, events[..n], k);
      UndisturbedStep(Run(w, events[..n]), events[n], k);
    }
  }

  /** A `Get` that logs in and saves its client leaves that client's token in storage. */
  lemma SavedTokenIsStored(w: World, call: GetCall)
    requires Invariant(w) && ValidEvent(GetEvent(call)) && !w.tiers.pruneStorageOnEvict && w.tiers.persist
    requires LogsIn(w, call) && call.saving.Saved?
    ensures var stored := Get(w, call).0.tiers.stored; var a := call.login.value;
      a.key in stored && stored[a.key] == a.token
  {
    var (t, hit) := Lookup(w.tiers, call.key.value);
    var w' := w.(tiers := t);
    if hit.Some? {
      LoginStores(
        w'.(tiers := Remove(t, call.key.value), requests := w.requests + [Request(CacheRemoval, hit.value)]), call);
    } else {
      LoginStores(w', call);
      LoginStores(w'.(tiers := t.(stored := t.stored - {call.key.value})), call);
    }
  }

  lemma LoginStores(w: World, call: GetCall)
    requires !w.tiers.pruneStorageOnEvict && w.tiers.persist && call.login.Some? && call.saving.Saved?
    ensures var stored := LoginAndCache(w, call).0.tiers.stored; var a := call.login.value;
      a.key in stored && stored[a.key] == a.token
  {
    var a := call.login.value;
    var (w', c) := Arrive(w, a, w.tiers.persist, call.saving);
    assert a.key in w'.tiers.stored && w'.tiers.stored[a.key] == a.token;
    NamespacedKeepsStored(w', c, c.key, call.namespace, call.cloneOk, a.key);
  }

  /**
   A client that logged in and was saved comes back with its token: whatever happens to the cache
   in between, as long as nothing disturbs its storage entry, a later `Get` that misses and
   restores hands out that very token under that very key, for every namespace asked for.
   */
  lemma {:induction false} TokenComesBack(w: World, first: GetCall, events: seq<Event>, later: GetCall)
    requires Invariant(w) && ValidEvent(GetEvent(first)) && !w.tiers.pruneStorageOnEvict && w.tiers.persist
    requires LogsIn(w, first) && first.saving.Saved?
    requires var w1 := Get(w, first).0; var k := first.login.value.key;
      && (forall i :: 0 <= i < |events| ==> ValidEvent(events[i]) && !Disturbs(Run(w1, events[..i]), events[i], k))
      && later.key == Ok(k) && !Run(w1, events).shutDown && !Has(Run(w1, events).tiers.parents, k)
    requires later.restored.Restored?
    ensures var w2 := Run(Get(w, first).0, events); var k := first.login.value.key;
      var (w3, r) := Get(w2, later);
      r.Ok? ==> r.value.token == first.login.value.token && Answers(w3, k, later.namespace, r.value)
  {
    var w1, k := Get(w, first).0, first.login.value.key;
    GetKeepsInvariant(w, first);
    SavedTokenIsStored(w, first);
    InvariantFrom(w1, events);
    UndisturbedRun(w1, events, k);
    PersistFrom(w1, events);
    RestoredAnswers(Run(w1, events), k, later);
  }

  /** A miss that restores hands out the stored token. */
  lemma RestoredAnswers(w: World, k: Key, call: GetCall)
    requires Invariant(w) && ComputedKey(k) && !w.shutDown && !Has(w.tiers.parents, k)
    requires w.tiers.persist && k in w.tiers.stored && call.key == Ok(k) && call.restored.Restored?
    ensures var (w', r) := Get(w, call);
      r.Ok? ==> r.value.token == w.tiers.stored[k] && Answers(w', k, call.namespace, r.value)
  {
    ComputedKeyIsNoClone(k);
    ArrivalAnswers(w, Arrival(k, call.restored.namespace, w.tiers.stored[k]), false, Unsaved,
                   call.namespace, call.cloneOk);
  }

  lemma {:induction false} InvariantFrom(w: World, events: seq<Event>)
    requires Invariant(w) && forall i :: 0 <= i < |events| ==> ValidEvent(events[i])
    ensures Invariant(Run(w, events))
  {
    if events != [] {
      InvariantFrom(w, events[..|events| - 1]);
      StepKeepsInvariant(Run(w, events[..|events| - 1]), events[|events| - 1]);
    }
  }

  lemma {:induction false} PersistFrom(w: World, events: seq<Event>)
    ensures Run(w, events).tiers.persist == w.tiers.persist
  {
    if events != [] {
      PersistFrom(w, events[..|events| - 1]);
    }
  }
}
