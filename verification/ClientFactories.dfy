/**
 The caching client factory as an object (vault/client_factory.go).  Each method is one
 atomic call; it is proved to take the matching step of `FactoryRuns`, so the theorems over
 runs there hold of every sequence of calls.
 */
module ClientFactories {
  import opened Results
  import opened CacheKeys
  import opened ClientTiers
  import opened ClientCaches
  import FR = FactoryRuns

  class ClientFactory {
    const cache: ClientCache
    var requests: seq<FR.Request>   // sent on callbackHandlerCh
    var nextId: nat                 // identity of the next client object
    var shutDown: bool
    ghost var inserted: seq<Client>

    ghost predicate Valid()
      reads this, cache.cache, cache.cloneCache
    {
      cache.Valid()
    }

    ghost function View(): FR.World
      reads this, cache.cache, cache.cloneCache, cache.handler
    {
      FR.World(cache.View(), inserted, requests, nextId, shutDown)
    }

    constructor (size: Capacity, persist: bool, stored: map<Key, nat>)
      ensures Valid() && FR.Initial(View())
      ensures cache.View().persist == persist && cache.View().stored == stored
      ensures fresh(cache.cache) && fresh(cache.cloneCache) && fresh(cache.handler)
    {
      var handler := new EvictHandler(persist, stored);
      cache := new ClientCache(size, handler);
      requests, nextId, shutDown, inserted := [], 0, false, [];
    }

    /** Removal makes sure that the eviction handler sees the client that is being replaced. */
    method Vacate(k: Key)
      requires Valid()
      modifies cache.cache, cache.cloneCache, cache.handler`closings, cache.handler`stored
      ensures Valid() && cache.View() == FR.Vacated(old(cache.View()), k)
    {
      var hit := cache.Get(k);
      if hit.Some? {
        var _ := cache.Remove(k);
      }
    }

    method CacheClient(c: Client, persist: bool, saving: FR.Saving)
      requires Valid() && (IsClone(c.key) ==> c.isClone)
      modifies this`inserted, cache.cache, cache.cloneCache, cache.handler`closings, cache.handler`stored
      ensures Valid() && View() == FR.CacheClient(old(View()), c, persist, saving)
    {
      Vacate(c.key);
      AddAndStore(c, persist, saving);
    }

    method AddAndStore(c: Client, persist: bool, saving: FR.Saving)
      requires Valid() && (IsClone(c.key) ==> c.isClone)
      modifies this`inserted, cache.cache, cache.cloneCache, cache.handler`closings, cache.handler`stored
      ensures Valid() && View() == FR.AddAndStore(old(View()), c, persist, saving)
    {
      var added := cache.Add(c);
      if added.Err? {
        return; // the source returns a nil error here
      }
      if !c.isClone {
        inserted := inserted + [c];
      }
      Save(c, if persist then saving else FR.Unsaved);
    }

    /** `storeClient`, whose failure is only logged. */
    method Save(c: Client, saving: FR.Saving)
      requires Valid()
      modifies cache.handler`stored
      ensures Valid() && cache.View() == FR.WithStored(old(cache.View()), c, saving)
    {
      if cache.handler.persist {
        match saving
        case Saved => cache.handler.stored := cache.handler.stored[c.key := c.token];
        case Unsaved =>
        case Lost => cache.handler.stored := cache.handler.stored - {c.key};
      }
    }

    method NamespacedClient(c: Client, key: Key, namespace: string, cloneOk: bool)
      returns (r: Result<Client, FR.FactoryError>)
      requires Valid()
      modifies this`inserted, this`nextId
      modifies cache.cache, cache.cloneCache, cache.handler`closings, cache.handler`stored
      ensures Valid() && (View(), r) == FR.NamespacedClient(old(View()), c, key, namespace, cloneOk)
    {
      if namespace != "" && namespace != c.namespace {
        var cloneKey := CloneKey(key, namespace);
        if cloneKey.Err? {
          return Err(FR.BadKey(cloneKey.error));
        }
        var hit := cache.Get(cloneKey.value);
        if hit.Some? {
          return Ok(hit.value);
        }
        if !cloneOk {
          return Err(FR.CloneFailed);
        }
        var clone := CloneAndCache(c, namespace);
        return Ok(clone);
      }
      return Ok(c);
    }

    method CloneAndCache(c: Client, namespace: string) returns (clone: Client)
      requires Valid()
      modifies this`inserted, this`nextId
      modifies cache.cache, cache.cloneCache, cache.handler`closings, cache.handler`stored
      ensures Valid() && (View(), clone) == FR.CloneAndCache(old(View()), c, namespace)
    {
      clone := Client(nextId, c.key + "-" + namespace, true, namespace, c.id, c.token);
      nextId := nextId + 1;
      CacheClient(clone, false, FR.Unsaved);
    }

    method Arrive(a: FR.Arrival, persist: bool, saving: FR.Saving) returns (c: Client)
      requires Valid() && !IsClone(a.key)
      modifies this`inserted, this`nextId
      modifies cache.cache, cache.cloneCache, cache.handler`closings, cache.handler`stored
      ensures Valid() && (View(), c) == FR.Arrive(old(View()), a, persist, saving)
    {
      c := Client(nextId, a.key, false, a.namespace, nextId, a.token);
      nextId := nextId + 1;
      CacheClient(c, persist, saving);
    }

    /** `Get`, in the order of the source: hit, restoration, login. */
    method Get(call: FR.GetCall) returns (r: Result<Client, FR.FactoryError>)
      requires Valid() && FR.ValidEvent(FR.GetEvent(call))
      modifies this`inserted, this`nextId, this`requests
      modifies cache.cache, cache.cloneCache, cache.handler`closings, cache.handler`stored
      ensures Valid() && (View(), r) == FR.Get(old(View()), call)
      ensures FR.Invariant(old(View())) ==> FR.Invariant(View())
    {
      ghost var before := View();
      if FR.Invariant(before) {
        FR.GetKeepsInvariant(before, call);
      }
      if shutDown {
        return Err(FR.Disabled);
      }
      if call.key.Err? {
        return Err(FR.BadKey(call.key.error));
      }
      var key := call.key.value;
      ComputedKeyIsNoClone(key);
      var hit := cache.Get(key);
      if hit.Some? {
        if call.valid {
          r := NamespacedClient(hit.value, key, call.namespace, call.cloneOk);
          return;
        }
        var _ := cache.Remove(key);
        requests := requests + [FR.Request(FR.CacheRemoval, hit.value)];
        r := LoginAndCache(call);
      } else {
        r := RestoreOrLogin(key, call);
      }
    }

    method RestoreOrLogin(key: Key, call: FR.GetCall) returns (r: Result<Client, FR.FactoryError>)
      requires Valid() && FR.ValidEvent(FR.GetEvent(call)) && !IsClone(key)
      modifies this`inserted, this`nextId
      modifies cache.cache, cache.cloneCache, cache.handler`closings, cache.handler`stored
      ensures Valid() && (View(), r) == FR.RestoreOrLogin(old(View()), key, call)
    {
      if cache.handler.persist && key in cache.handler.stored {
        if call.restored.Restored? {
          var c := Arrive(FR.Arrival(key, call.restored.namespace, cache.handler.stored[key]), false, FR.Unsaved);
          r := NamespacedClient(c, key, call.namespace, call.cloneOk);
          return;
        }
        if call.restored.Unusable? {
          cache.handler.stored := cache.handler.stored - {key};
        }
      }
      r := LoginAndCache(call);
    }

    method LoginAndCache(call: FR.GetCall) returns (r: Result<Client, FR.FactoryError>)
      requires Valid() && FR.ValidEvent(FR.GetEvent(call))
      modifies this`inserted, this`nextId
      modifies cache.cache, cache.cloneCache, cache.handler`closings, cache.handler`stored
      ensures Valid() && (View(), r) == FR.LoginAndCache(old(View()), call)
    {
      if call.login.None? {
        return Err(FR.LoginFailed);
      }
      ComputedKeyIsNoClone(call.login.value.key);
      var c := Arrive(call.login.value, cache.handler.persist, call.saving);
      r := NamespacedClient(c, c.key, call.namespace, call.cloneOk);
    }

    method Restore(key: Key, restored: FR.Restoration) returns (r: Option<Client>)
      requires Valid() && ComputedKey(key)
      modifies this`inserted, this`nextId
      modifies cache.cache, cache.cloneCache, cache.handler`closings, cache.handler`stored
      ensures Valid() && (View(), r) == FR.Restore(old(View()), key, restored)
    {
      if !cache.handler.persist || key !in cache.handler.stored {
        return None;
      }
      if restored.Unreadable? {
        return None;
      }
      if restored.Unusable? {
        cache.handler.stored := cache.handler.stored - {key};
        return None;
      }
      ComputedKeyIsNoClone(key);
      var c := Arrive(FR.Arrival(key, restored.namespace, cache.handler.stored[key]), false, FR.Unsaved);
      return Some(c);
    }

    /** `failed` is the error of a storage entry that could not be deleted; the clients are pruned all the same. */
    method Prune(filter: Client -> bool, skipCallbacks: bool)
      returns (r: Result<nat, FR.FactoryError>, failed: bool)
      requires Valid()
      modifies this`requests
      modifies cache.cache, cache.cloneCache, cache.handler`closings, cache.handler`stored
      ensures Valid() && View() == FR.PruneStep(old(View()), filter, skipCallbacks)
      ensures r == if old(shutDown) then Err(FR.Disabled)
                   else Ok(|Selected(old(cache.cache.entries), filter)|)
      ensures failed <==>
        && !old(shutDown) && skipCallbacks && cache.handler.persist
        && FR.KeysOf(Selected(old(cache.cache.entries), filter)) * cache.handler.stuck != {}
      ensures FR.Invariant(old(View())) ==> FR.Invariant(View())
    {
      if FR.Invariant(View()) {
        FR.PruneKeepsInvariant(View(), filter, skipCallbacks);
      }
      if shutDown {
        return Err(FR.Disabled), false;
      }
      var pruned := cache.Prune(filter);
      failed := false;
      if !skipCallbacks {
        SendRemovals(pruned);
      } else if cache.handler.persist {
        failed := PruneStorage(pruned);
      }
      r := Ok(|pruned|);
    }

    method SendRemovals(pruned: seq<Client>)
      modifies this`requests
      ensures requests == old(requests) + FR.RemovalRequests(pruned)
    {
      for i := 0 to |pruned|
        invariant requests == old(requests) + FR.RemovalRequests(pruned[..i])
      {
        requests := requests + [FR.Request(FR.CacheRemoval, pruned[i])];
        assert FR.RemovalRequests(pruned[..i + 1]) ==
          FR.RemovalRequests(pruned[..i]) + [FR.Request(FR.CacheRemoval, pruned[i])];
      }
      assert pruned[..|pruned|] == pruned;
    }

    method PruneStorage(pruned: seq<Client>) returns (failed: bool)
      modifies cache.handler`stored
      ensures cache.handler.stored == PruneStored(old(cache.handler.stored), FR.KeysOf(pruned), cache.handler.stuck)
      ensures failed <==> FR.KeysOf(pruned) * cache.handler.stuck != {}
    {
      failed := false;
      ghost var keys: set<Key> := {};
      for i := 0 to |pruned|
        invariant keys == set j | 0 <= j < i :: pruned[j].key
        invariant cache.handler.stored == PruneStored(old(cache.handler.stored), keys, cache.handler.stuck)
        invariant failed <==> keys * cache.handler.stuck != {}
      {
        var key := pruned[i].key;
        PruneOneMore(old(cache.handler.stored), keys, key, cache.handler.stuck);
        cache.handler.stored := PruneStored(cache.handler.stored, {key}, cache.handler.stuck);
        failed := failed || key in cache.handler.stuck;
        keys := keys + {key};
      }
    }

    /** One turn of the callback handler's loop. */
    method HandleCallback(req: FR.Request)
      requires Valid()
      modifies cache.cache, cache.cloneCache, cache.handler`closings, cache.handler`stored
      ensures Valid() && View() == FR.CallbackStep(old(View()), req)
      ensures FR.Invariant(old(View())) ==> FR.Invariant(View())
    {
      if FR.Invariant(View()) {
        FR.CallbackKeepsInvariant(View(), req);
      }
      var key := req.client.key;
      if IsClone(key) {
        key := Parent(key).value;
      }
      if req.on.LifetimeWatcherDone? {
        var _ := cache.Remove(key);
        if cache.handler.persist {
          cache.handler.stored := PruneStored(cache.handler.stored, {key}, cache.handler.stuck);
        }
      }
    }

    method ShutDown(revoke: bool)
      requires Valid()
      modifies this`shutDown, cache.cache, cache.cloneCache, cache.handler
      ensures Valid() && View() == FR.ShutDownStep(old(View()), revoke)
      ensures FR.Invariant(old(View())) ==>
        FR.Invariant(View()) && cache.cache.entries == cache.cloneCache.entries == []
    {
      if FR.Invariant(View()) {
        FR.ShutDownKeepsInvariant(View(), revoke);
        PurgeEmptiesBothTiers(View().tiers.(revokeOnEvict := revoke, pruneStorageOnEvict := revoke));
      }
      shutDown := true;
      cache.handler.revokeOnEvict := revoke;
      cache.handler.pruneStorageOnEvict := revoke;
      var _ := cache.Purge();
    }

    /** The surroundings change: from now on these storage entries cannot be deleted. */
    method ApiChanges(stuck: set<Key>)
      requires Valid()
      modifies cache.handler`stuck
      ensures Valid() && View() == FR.Step(old(View()), FR.ApiEvent(stuck))
    {
      cache.handler.stuck := stuck;
    }
  }

  lemma PruneOneMore(stored: map<Key, nat>, keys: set<Key>, key: Key, stuck: set<Key>)
    ensures PruneStored(PruneStored(stored, keys, stuck), {key}, stuck) == PruneStored(stored, keys + {key}, stuck)
    ensures (keys + {key}) * stuck != {} <==> keys * stuck != {} || key in stuck
  {
    if key in stuck {
      assert key in (keys + {key}) * stuck;
    } else {
      assert (keys + {key}) * stuck == keys * stuck;
    }
  }
}
