/**
 The client cache as the objects it is made of (vault/cache.go): two LRU lists changed in
 place, and the evict callback of the parent list.  Every method is proved against the
 functions of `ClientTiers`.
 */
module ClientCaches {
  import opened Results
  import opened CacheKeys
  import opened ClientTiers

  /** A bounded list of clients ordered by recency, without the callback of `lru.NewWithEvict`. */
  class Lru {
    const size: Capacity
    var entries: seq<Entry>

    ghost predicate Valid()
      reads this
    {
      Unique(entries) && |entries| <= size
    }

    constructor (size: Capacity)
      ensures Valid() && entries == [] && this.size == size
    {
      this.size := size;
      entries := [];
    }

    /** Returns the entry that had to make room, for which the caller runs the callback. */
    method Add(k: Key, c: Client) returns (evicted: Option<Entry>)
      requires Valid()
      modifies this
      ensures Valid()
      ensures (entries, evicted) == Inserted(old(entries), size, Entry(k, c))
    {
      var i := Index(entries, k);
      var e := Entry(k, c);
      WithoutMembers(entries, k);
      evicted := None;
      if i < |entries| {
        entries := entries[..i] + entries[i + 1..] + [e];
      } else {
        InsertedMembers(entries, size, e);
        if |entries| < size {
          entries := entries + [e];
        } else {
          evicted := Some(entries[0]);
          entries := entries[1..] + [e];
        }
      }
    }

    method Get(k: Key) returns (c: Option<Client>)
      requires Valid()
      modifies this
      ensures Valid() && entries == Touched(old(entries), k)
      ensures c == if Has(old(entries), k) then Some(old(entries)[Index(old(entries), k)].client) else None
    {
      TouchedMembers(entries, k);
      var i := Index(entries, k);
      if i == |entries| {
        return None;
      }
      c := Some(entries[i].client);
      entries := entries[..i] + entries[i + 1..] + [entries[i]];
    }

    method Peek(k: Key) returns (c: Option<Client>)
      requires Valid()
      ensures c == if Has(entries, k) then Some(entries[Index(entries, k)].client) else None
    {
      var i := Index(entries, k);
      if i == |entries| {
        return None;
      }
      return Some(entries[i].client);
    }

    /** Returns the removed entry, for which the caller runs the callback. */
    method Remove(k: Key) returns (removed: Option<Entry>)
      requires Valid()
      modifies this
      ensures Valid() && entries == Without(old(entries), k)
      ensures removed == if Has(old(entries), k) then Some(old(entries)[Index(old(entries), k)]) else None
    {
      WithoutMembers(entries, k);
      var i := Index(entries, k);
      if i == |entries| {
        return None;
      }
      removed := Some(entries[i]);
      entries := entries[..i] + entries[i + 1..];
    }

    /** Keys from the oldest to the newest. */
    method Keys() returns (keys: seq<Key>)
      ensures |keys| == |entries| && forall i :: 0 <= i < |keys| ==> keys[i] == entries[i].key
    {
      keys := seq(|entries|, i requires 0 <= i < |entries| reads this => entries[i].key);
    }
  }

  /** The part of the factory that the evict callback reaches. */
  class EvictHandler {
    const persist: bool
    var revokeOnEvict: bool
    var pruneStorageOnEvict: bool
    var closings: seq<Closing>
    var stored: map<Key, nat>
    var stuck: set<Key>   // entries that the API does not delete at present

    constructor (persist: bool, stored: map<Key, nat>)
      ensures this.persist == persist && this.stored == stored && closings == [] && stuck == {}
      ensures !revokeOnEvict && !pruneStorageOnEvict
    {
      this.persist := persist;
      this.stored := stored;
      closings, stuck := [], {};
      revokeOnEvict, pruneStorageOnEvict := false, false;
    }

    method OnClientEvict(k: Key, c: Client)
      modifies this`closings, this`stored
      ensures closings == old(closings) + [Closing(c, revokeOnEvict)]
      ensures stored == if persist && pruneStorageOnEvict then PruneStored(old(stored), {k}, stuck) else old(stored)
    {
      closings := closings + [Closing(c, revokeOnEvict)];
      if persist && pruneStorageOnEvict {
        stored := PruneStored(stored, {k}, stuck);
      }
    }
  }

  class ClientCache {
    const cache: Lru
    const cloneCache: Lru
    const handler: EvictHandler

    ghost predicate Valid()
      reads cache, cloneCache
    {
      && cache != cloneCache && cache.Valid() && cloneCache.Valid() && cache.size == cloneCache.size
      && forall e :: e in cache.entries ==> !IsClone(e.key)
    }

    ghost function View(): Tiers
      reads cache, cloneCache, handler
    {
      Tiers(cache.size, cache.entries, cloneCache.entries, handler.closings, handler.stored,
            handler.stuck, handler.persist, handler.revokeOnEvict, handler.pruneStorageOnEvict)
    }

    constructor (size: Capacity, handler: EvictHandler)
      ensures Valid() && fresh(cache) && fresh(cloneCache) && this.handler == handler
      ensures View() == Tiers(size, [], [], handler.closings, handler.stored,
                              handler.stuck, handler.persist, handler.revokeOnEvict, handler.pruneStorageOnEvict)
    {
      this.cache := new Lru(size);
      this.cloneCache := new Lru(size);
      this.handler := handler;
    }

    method Get(k: Key) returns (c: Option<Client>)
      requires Valid()
      modifies cache, cloneCache
      ensures Valid() && (View(), c) == Lookup(old(View()), k)
    {
      if IsClone(k) {
        c := cloneCache.Get(k);
      } else {
        c := cache.Get(k);
      }
    }

    /** A client that is no clone computes a key that is no clone's key. */
    method Add(c: Client) returns (r: Result<bool, KeyError>)
      requires Valid() && (IsClone(c.key) ==> c.isClone)
      modifies cache, cloneCache, handler`closings, handler`stored
      ensures Valid()
      ensures r.Err? ==> ClientTiers.Add(old(View()), c) == Err(r.error) && View() == old(View())
      ensures r.Ok? ==> ClientTiers.Add(old(View()), c) == Ok(View())
      ensures r.Ok? ==>
        var tier := if c.isClone then old(cloneCache.entries) else old(cache.entries);
        r.value == Inserted(tier, cache.size, Entry(c.key, c)).1.Some?
    {
      if c.isClone {
        if !IsClone(c.key) {
          return Err(InvalidKey);
        }
        var evicted := cloneCache.Add(c.key, c);
        return Ok(evicted.Some?);
      } else {
        var evicted := cache.Add(c.key, c);
        if evicted.Some? {
          OnEvict(evicted.value);
        }
        return Ok(evicted.Some?);
      }
    }

    /** The callback that `NewClientCache` wires to the parent list. */
    method OnEvict(e: Entry)
      requires Valid()
      modifies cloneCache, handler`closings, handler`stored
      ensures Valid() && View() == PruneClones(ClientTiers.OnEvict(old(View()), e), e.key)
    {
      handler.OnClientEvict(e.key, e.client);
      PruneClonesOf(e.key);
    }

    method Remove(k: Key) returns (removed: bool)
      requires Valid()
      modifies cache, cloneCache, handler`closings, handler`stored
      ensures Valid() && View() == ClientTiers.Remove(old(View()), k)
      ensures removed == Removes(old(View()), k)
    {
      removed := RemoveKey(k, true);
    }

    method RemoveKey(k: Key, peek: bool) returns (removed: bool)
      requires Valid()
      modifies cache, cloneCache, handler`closings, handler`stored
      ensures Valid() && View() == RemoveWith(old(View()), k, peek)
      ensures removed == Removes(old(View()), k)
    {
      var remove := true;
      if IsClone(k) {
        if peek {
          var found := cloneCache.Peek(k);
          remove := found.Some?;
        }
        if remove {
          var gone := cloneCache.Remove(k);
          return gone.Some?;
        }
      } else {
        if peek {
          var found := cache.Peek(k);
          remove := found.Some?;
        }
        if remove {
          removed := RemoveParent(k);
          return;
        }
      }
      return false;
    }

    /** The clones go first; the callback of a removed parent prunes them once more. */
    method RemoveParent(k: Key) returns (removed: bool)
      requires Valid()
      modifies cache, cloneCache, handler`closings, handler`stored
      ensures Valid() && View() == DropParent(PruneClones(old(View()), k), k)
      ensures removed == Has(old(cache.entries), k)
    {
      PruneClonesOf(k);
      WithoutMembers(cache.entries, k);
      var gone := cache.Remove(k);
      if gone.Some? {
        OnEvict(gone.value);
      }
      return gone.Some?;
    }

    /** `pruneClones`: walks a snapshot of the keys and removes the prefixed ones in place. */
    method PruneClonesOf(p: Key)
      requires Valid()
      modifies cloneCache
      ensures Valid() && View() == PruneClones(old(View()), p)
    {
      ghost var before := cloneCache.entries;
      var keys := cloneCache.Keys();
      for i := 0 to |keys|
        invariant cloneCache.Valid()
        invariant cloneCache.entries == Unprefixed(before[..i], p) + before[i..]
      {
        UnprefixedNext(before, p, i);
        if p <= keys[i] {
          var found := cloneCache.Peek(keys[i]);
          if found.Some? {
            var _ := cloneCache.Remove(keys[i]);
          }
        }
      }
      assert before[..|keys|] == before;
    }

    /** The body of the loop of `Prune`. */
    method PruneKey(filter: Client -> bool, k: Key) returns (gone: seq<Client>)
      requires Valid() && !IsClone(k)
      modifies cache, cloneCache, handler`closings, handler`stored
      ensures Valid()
      ensures var i := Index(old(cache.entries), k);
        if i < |old(cache.entries)| && filter(old(cache.entries)[i].client)
        then View() == ClientTiers.Remove(old(View()), k) && gone == [old(cache.entries)[i].client]
        else View() == old(View()) && gone == []
    {
      gone := [];
      var found := cache.Peek(k);
      if found.Some? && filter(found.value) {
        var removed := RemoveKey(k, false);
        if removed {
          gone := [found.value];
        }
      }
    }

    method Prune(filter: Client -> bool) returns (pruned: seq<Client>)
      requires Valid()
      modifies cache, cloneCache, handler`closings, handler`stored
      ensures Valid() && View() == ClientTiers.Prune(old(View()), filter)
      ensures pruned == Selected(old(cache.entries), filter)
    {
      ghost var before := View();
      var keys := cache.Keys();
      pruned := [];
      for i := 0 to |keys|
        invariant Valid()
        invariant View() == PrunedUpTo(before, filter, i)
        invariant pruned == Selected(before.parents[..i], filter)
      {
        assert before.parents[i] in before.parents;
        PruneNextKey(before, filter, i);
        SelectedNext(before.parents, filter, i + 1);
        var gone := PruneKey(filter, keys[i]);
        pruned := pruned + gone;
      }
      assert before.parents[..|keys|] == before.parents;
    }

    /** The body of the loop of `Purge`. */
    method PurgeKey(k: Key) returns (gone: bool)
      requires Valid() && !IsClone(k)
      modifies cache, cloneCache, handler`closings, handler`stored
      ensures Valid() && View() == ClientTiers.Remove(old(View()), k)
      ensures gone == Removes(old(View()), k)
    {
      RemoveAfterLookup(View(), k);
      var found := Get(k);
      if found.None? {
        return false;
      }
      gone := RemoveKey(k, false);
    }

    /** `Purge` reads every key through `Get` before it removes it. */
    method Purge() returns (purged: seq<Key>)
      requires Valid()
      modifies cache, cloneCache, handler`closings, handler`stored
      ensures Valid() && View() == ClientTiers.Purge(old(View()))
      ensures |purged| == |old(cache.entries)|
      ensures forall i :: 0 <= i < |purged| ==> purged[i] == old(cache.entries)[i].key
    {
      ghost var before := View();
      var keys := cache.Keys();
      PurgedNone(before);
      purged := [];
      for i := 0 to |keys|
        invariant Valid()
        invariant View() == PurgedUpTo(before, i)
        invariant purged == keys[..i]
      {
        assert before.parents[i] in before.parents;
        var gone := PurgeNth(before, i, keys[i]);
        if gone {
          purged := purged + [keys[i]];
        }
      }
    }

    method PurgeNth(ghost before: Tiers, ghost i: nat, k: Key) returns (gone: bool)
      requires Valid() && Unique(before.parents) && i < |before.parents| && k == before.parents[i].key
      requires !IsClone(k) && View() == PurgedUpTo(before, i)
      modifies cache, cloneCache, handler`closings, handler`stored
      ensures Valid() && View() == PurgedUpTo(before, i + 1) && gone
    {
      PurgeTurn(before, i);
      gone := PurgeKey(k);
    }
  }

  /** Touching an entry before removing it changes neither what leaves nor what stays. */
  lemma WithoutTouched(s: seq<Entry>, k: Key)
    requires Unique(s)
    ensures Has(Touched(s, k), k) == Has(s, k)
    ensures Without(Touched(s, k), k) == Without(s, k)
    ensures Has(s, k) ==> Touched(s, k)[Index(Touched(s, k), k)] == s[Index(s, k)]
  {
    var i := Index(s, k);
    if i < |s| {
      assert Touched(s, k) == (s[..i] + s[i + 1..]) + [s[i]] + [];
      WithoutMiddle(s[..i] + s[i + 1..], s[i], []);
    }
  }

  lemma RemoveAfterLookup(t: Tiers, k: Key)
    requires Unique(t.parents) && !IsClone(k)
    ensures Lookup(t, k).1.Some? == Removes(t, k)
    ensures Removes(Lookup(t, k).0, k) == Removes(t, k)
    ensures Remove(Lookup(t, k).0, k) == Remove(t, k)
  {
    WithoutTouched(t.parents, k);
  }

  /** One turn of the loop of `pruneClones`. */
  lemma UnprefixedNext(before: seq<Entry>, p: Key, i: nat)
    requires Unique(before) && i < |before|
    ensures var current := Unprefixed(before[..i], p) + before[i..];
      var next := Unprefixed(before[..i + 1], p) + before[i + 1..];
      && (p <= before[i].key ==> Has(current, before[i].key) && Without(current, before[i].key) == next)
      && (!(p <= before[i].key) ==> current == next)
  {
    var done, e, rest := Unprefixed(before[..i], p), before[i], before[i + 1..];
    assert before[..i + 1][..i] == before[..i];
    assert before[i..] == [e] + rest;
    assert done + before[i..] == done + [e] + rest;
    UnprefixedMembers(before[..i], p);
    forall j | 0 <= j < |done|
      ensures done[j].key != e.key
    {
      assert done[j] in before[..i];
    }
    WithoutMiddle(done, e, rest);
  }

  /** One turn of the loop of `Prune`. */
  lemma PruneNextKey(before: Tiers, filter: Client -> bool, i: nat)
    requires Unique(before.parents) && i < |before.parents| && !IsClone(before.parents[i].key)
    ensures var t := PrunedUpTo(before, filter, i); var e := before.parents[i];
      && Removes(t, e.key) && t.parents[Index(t.parents, e.key)] == e
      && PrunedUpTo(before, filter, i + 1) == if filter(e.client) then Remove(t, e.key) else t
  {
    PruneTurn(before, filter, i + 1);
  }
}
