/**
 The caching client factory as a state machine (vault/client_factory.go), one atomic step
 per call, with storage encryption off.  Outcomes of foreign services (validation against
 Vault, login, restoration, writing to storage) are arguments of the steps.  The class of
 `ClientFactories` is proved against these steps.
 */
module FactoryRuns {
  import opened Results
  import opened CacheKeys
  import opened ClientTiers

  datatype CallbackOn = LifetimeWatcherDone | CacheRemoval

  datatype Request = Request(on: CallbackOn, client: Client)

  datatype FactoryError = Disabled | BadKey(error: KeyError) | LoginFailed | CloneFailed

  /**
   `inserted` lists the parents that ever entered the cache and `requests` what was sent to
   the callback handler.
   */
  datatype World = World(
    tiers: Tiers,
    inserted: seq<Client>,
    requests: seq<Request>,
    nextId: nat,
    shutDown: bool)

  /** A client that logged in or was restored: the key it computes, its own Vault namespace and its token. */
  datatype Arrival = Arrival(key: Key, namespace: string, token: nat)

  /**
   What becomes of a storage entry that is to be restored: it cannot be read, or not deleted, and
   stays; it cannot be used and is deleted; or it gives back a client with that Vault namespace.
   */
  datatype Restoration = Unreadable | Unusable | Restored(namespace: string)

  /** What `storeClient` does: an entry that was deleted to be replaced may fail to be created again. */
  datatype Saving = Saved | Unsaved | Lost

  /** The surroundings of one `Get`. */
  datatype GetCall = GetCall(
    key: Result<Key, KeyError>,     // ComputeClientCacheKeyFromObj
    namespace: string,              // the requesting object's Vault namespace
    valid: bool,                    // Client.Validate on a cache hit
    restored: Restoration,          // restoreClientFromCacheKey
    login: Option<Arrival>,         // NewClientWithLogin
    saving: Saving,                 // storeClient
    cloneOk: bool)                  // Client.Clone

  /** Nothing that a call leaves to the surroundings, or to a shutdown, has changed. */
  predicate SameSettings(w: World, w': World) {
    SameSwitches(w.tiers, w'.tiers) && (Unrevoked(w.tiers) ==> Unrevoked(w'.tiers)) && w'.shutDown == w.shutDown
  }

  function Admitted(w: World, c: Client): World {
    if c.isClone then w else w.(inserted := w.inserted + [c])
  }

  /** `cacheClient`: an occupied key is vacated first, so that the evict handler runs. */
  function CacheClient(w: World, c: Client, persist: bool, saving: Saving): (w': World)
    ensures SameSettings(w, w')
  {
    AddAndStore(w.(tiers := Vacated(w.tiers, c.key)), c, persist, saving)
  }

  /** A clone whose key is not recognised is silently not cached. */
  function AddAndStore(w: World, c: Client, persist: bool, saving: Saving): (w': World)
    ensures SameSettings(w, w')
  {
    match Add(w.tiers, c)
    case Err(_) => w
    case Ok(added) => Admitted(w, c).(tiers := WithStored(added, c, if persist then saving else Unsaved))
  }

  function Vacated(t: Tiers, k: Key): (r: Tiers)
    ensures SameFrame(t, r)
  {
    var (t', hit) := Lookup(t, k);
    if hit.Some? then Remove(t', k) else t'
  }

  function WithStored(t: Tiers, c: Client, saving: Saving): (r: Tiers)
    ensures SameSwitches(t, r) && r.closings == t.closings
  {
    if !t.persist then t
    else
      match saving
      case Saved => t.(stored := t.stored[c.key := c.token])
      case Unsaved => t
      case Lost => t.(stored := t.stored - {c.key})
  }

  /** The closure `namespacedClient` of `Get`. */
  function NamespacedClient(w: World, c: Client, key: Key, namespace: string, cloneOk: bool)
    : (r: (World, Result<Client, FactoryError>))
    ensures SameSettings(w, r.0)
  {
    if namespace == "" || namespace == c.namespace then (w, Ok(c))
    else
      match CloneKey(key, namespace)
      case Err(e) => (w, Err(BadKey(e)))
      case Ok(cloneKey) =>
        var (t, hit) := Lookup(w.tiers, cloneKey);
        var w' := w.(tiers := t);
        if hit.Some? then (w', Ok(hit.value))
        else if !cloneOk then (w', Err(CloneFailed))
        else
          var (w'', clone) := CloneAndCache(w', c, namespace);
          (w'', Ok(clone))
  }

  function CloneAndCache(w: World, c: Client, namespace: string): (r: (World, Client))
    ensures SameSettings(w, r.0)
  {
    var clone := Client(w.nextId, c.key + "-" + namespace, true, namespace, c.id, c.token);
    (CacheClient(w.(nextId := w.nextId + 1), clone, false, Unsaved), clone)
  }

  /** A fresh parent client enters the cache. */
  function Arrive(w: World, a: Arrival, persist: bool, saving: Saving): (r: (World, Client))
    ensures SameSettings(w, r.0)
  {
    var c := Client(w.nextId, a.key, false, a.namespace, w.nextId, a.token);
    (CacheClient(w.(nextId := w.nextId + 1), c, persist, saving), c)
  }

  function LoginAndCache(w: World, call: GetCall): (r: (World, Result<Client, FactoryError>))
    ensures SameSettings(w, r.0)
  {
    if call.login.None? then (w, Err(LoginFailed))
    else
      var (w', c) := Arrive(w, call.login.value, w.tiers.persist, call.saving);
      NamespacedClient(w', c, c.key, call.namespace, call.cloneOk)
  }

  /** `Get` after a miss. */
  function RestoreOrLogin(w: World, key: Key, call: GetCall): (r: (World, Result<Client, FactoryError>))
    ensures SameSettings(w, r.0)
  {
    if !w.tiers.persist || key !in w.tiers.stored then LoginAndCache(w, call)
    else
      match call.restored
      case Restored(namespace) =>
        var (w', c) := Arrive(w, Arrival(key, namespace, w.tiers.stored[key]), false, Unsaved);
        NamespacedClient(w', c, key, call.namespace, call.cloneOk)
      case Unusable => LoginAndCache(w.(tiers := w.tiers.(stored := w.tiers.stored - {key})), call)
      case Unreadable => LoginAndCache(w, call)
  }

  function Get(w: World, call: GetCall): (r: (World, Result<Client, FactoryError>))
    ensures SameSettings(w, r.0)
  {
    if w.shutDown then (w, Err(Disabled))
    else if call.key.Err? then (w, Err(BadKey(call.key.error)))
    else
      var key := call.key.value;
      var (t, hit) := Lookup(w.tiers, key);
      var w' := w.(tiers := t);
      if hit.Some? then
        if call.valid then NamespacedClient(w', hit.value, key, call.namespace, call.cloneOk)
        else
          LoginAndCache(
            w'.(tiers := Remove(t, key), requests := w.requests + [Request(CacheRemoval, hit.value)]),
            call)
      else RestoreOrLogin(w', key, call)
  }

  /** `Restore`, which does not look at the shutdown flag. */
  function Restore(w: World, key: Key, restored: Restoration): (r: (World, Option<Client>))
    ensures SameSettings(w, r.0)
  {
    if !w.tiers.persist || key !in w.tiers.stored then (w, None)
    else
      match restored
      case Restored(namespace) =>
        var (w', c) := Arrive(w, Arrival(key, namespace, w.tiers.stored[key]), false, Unsaved);
        (w', Some(c))
      case Unusable => (w.(tiers := w.tiers.(stored := w.tiers.stored - {key})), None)
      case Unreadable => (w, None)
  }

  function RemovalRequests(cs: seq<Client>): seq<Request> {
    seq(|cs|, i requires 0 <= i < |cs| => Request(CacheRemoval, cs[i]))
  }

  function KeysOf(cs: seq<Client>): set<Key> {
    set i | 0 <= i < |cs| :: cs[i].key
  }

  /** `Prune`: the storage is pruned only when the callbacks are skipped. */
  function PruneStep(w: World, filter: Client -> bool, skipCallbacks: bool): (w': World)
    ensures SameSettings(w, w')
  {
    if w.shutDown then w
    else
      var pruned := Selected(w.tiers.parents, filter);
      var t := Prune(w.tiers, filter);
      if !skipCallbacks then w.(tiers := t, requests := w.requests + RemovalRequests(pruned))
      else w.(tiers := if t.persist then t.(stored := PruneStored(t.stored, KeysOf(pruned), t.stuck)) else t)
  }

  /** The key that the callback handler works on: that of the parent, for a clone. */
  function HandledKey(c: Client): Key { if IsClone(c.key) then Parent(c.key).value else c.key }

  /** The callback handler goroutine: only a finished lifetime watcher touches cache and storage. */
  function CallbackStep(w: World, req: Request): (w': World)
    ensures SameSettings(w, w')
  {
    var key := HandledKey(req.client);
    if req.on.LifetimeWatcherDone? then
      var t := Remove(w.tiers, key);
      w.(tiers := if t.persist then t.(stored := PruneStored(t.stored, {key}, t.stuck)) else t)
    else w
  }

  function ShutDownStep(w: World, revoke: bool): World {
    w.(shutDown := true,
       tiers := Purge(w.tiers.(revokeOnEvict := revoke, pruneStorageOnEvict := revoke)))
  }

  /** A call, a callback, or a change of the API: from then on the given entries cannot be deleted. */
  datatype Event =
    | GetEvent(call: GetCall)
    | RestoreEvent(key: Key, restored: Restoration)
    | PruneEvent(filter: Client -> bool, skipCallbacks: bool)
    | CallbackEvent(request: Request)
    | ShutDownEvent(revoke: bool)
    | ApiEvent(stuck: set<Key>)

  /** All that is asked of the surroundings: keys are keys that `computeClientCacheKey` computes. */
  ghost predicate ValidEvent(ev: Event) {
    match ev
    case GetEvent(call) =>
      && (call.key.Ok? ==> ComputedKey(call.key.value))
      && (call.login.Some? ==> ComputedKey(call.login.value.key))
    case RestoreEvent(key, _) => ComputedKey(key)
    case _ => true
  }

  function Step(w: World, ev: Event): World
  {
    match ev
    case GetEvent(call) => Get(w, call).0
    case RestoreEvent(key, restored) => Restore(w, key, restored).0
    case PruneEvent(filter, skip) => PruneStep(w, filter, skip)
    case CallbackEvent(req) => CallbackStep(w, req)
    case ShutDownEvent(revoke) => ShutDownStep(w, revoke)
    case ApiEvent(stuck) => w.(tiers := w.tiers.(stuck := stuck))
  }

  // ---------------------------------------------------------------- the invariant

  ghost predicate DistinctIds(cs: seq<Client>) {
    forall i, j :: 0 <= i < j < |cs| ==> cs[i].id != cs[j].id
  }

  /** Clones are coherent with their parents, and every parent is accounted for. */
  ghost predicate Invariant(w: World) {
    && Coherent(w.tiers)
    && Accounted(w.tiers) == multiset(w.inserted)
    && DistinctIds(w.inserted)
    && (forall c :: c in w.inserted ==> c.id < w.nextId)
  }

  lemma RemoveKeepsInvariant(w: World, k: Key)
    requires Invariant(w)
    ensures Invariant(w.(tiers := Remove(w.tiers, k)))
    ensures !IsClone(k) ==> !Has(Remove(w.tiers, k).parents, k)
  {
    RemoveKeepsCoherence(w.tiers, k);
    RemoveConserves(w.tiers, k);
  }

  lemma LookupKeepsInvariant(w: World, k: Key)
    requires Invariant(w)
    ensures Invariant(w.(tiers := Lookup(w.tiers, k).0))
    ensures forall e :: e in Lookup(w.tiers, k).0.parents <==> e in w.tiers.parents
    ensures Lookup(w.tiers, k).1.Some? && !IsClone(k) ==>
      Entry(k, Lookup(w.tiers, k).1.value) in Lookup(w.tiers, k).0.parents
    ensures Lookup(w.tiers, k).1.None? ==> !Removes(w.tiers, k) && Lookup(w.tiers, k).0 == w.tiers
  {
    LookupKeepsCoherence(w.tiers, k);
    LookupConserves(w.tiers, k);
    var i := Index(w.tiers.parents, k);
    if !IsClone(k) && i < |w.tiers.parents| {
      assert w.tiers.parents[i] in w.tiers.parents;
    }
  }

  /** Caching a fresh parent keeps the invariant, and the parent is then in the cache. */
  lemma {:induction false} CacheParentKeepsInvariant(w: World, c: Client, persist: bool, saving: Saving)
    requires Invariant(w) && !c.isClone && ComputedKey(c.key)
    requires forall x :: x in w.inserted ==> x.id < c.id
    requires c.id < w.nextId
    ensures var w' := CacheClient(w, c, persist, saving);
      Invariant(w') && Entry(c.key, c) in w'.tiers.parents
  {
    VacatedKeepsInvariant(w, c.key);
    AddKeepsInvariant(w.(tiers := Vacated(w.tiers, c.key)), c);
    StoringIsInvisible(Add(Vacated(w.tiers, c.key), c).value, c, if persist then saving else Unsaved);
  }

  lemma AddKeepsInvariant(w: World, c: Client)
    requires Invariant(w) && !c.isClone && ComputedKey(c.key) && !Has(w.tiers.parents, c.key)
    requires forall x :: x in w.inserted ==> x.id < c.id
    requires c.id < w.nextId
    ensures Add(w.tiers, c).Ok?
    ensures Invariant(w.(tiers := Add(w.tiers, c).value, inserted := w.inserted + [c]))
    ensures Entry(c.key, c) in Add(w.tiers, c).value.parents
  {
    AddParentKeepsCoherence(w.tiers, c);
    AddConserves(w.tiers, c);
    assert Accounted(Add(w.tiers, c).value) == multiset(w.inserted + [c]);
    assert forall i :: 0 <= i < |w.inserted| ==> w.inserted[i] in w.inserted;
  }

  lemma StoringIsInvisible(t: Tiers, c: Client, saving: Saving)
    ensures Coherent(t) ==> Coherent(WithStored(t, c, saving))
    ensures Accounted(WithStored(t, c, saving)) == Accounted(t)
    ensures WithStored(t, c, saving).parents == t.parents
  {
  }

  /** What is in storage plays no part in the invariant. */
  lemma StorageIsInvisible(w: World, stored: map<Key, nat>, stuck: set<Key>)
    requires Invariant(w)
    ensures Invariant(w.(tiers := w.tiers.(stored := stored, stuck := stuck)))
  {
  }

  lemma VacatedKeepsInvariant(w: World, k: Key)
    requires Invariant(w) && ComputedKey(k)
    ensures Invariant(w.(tiers := Vacated(w.tiers, k)))
    ensures !Has(Vacated(w.tiers, k).parents, k)
  {
    ComputedKeyIsNoClone(k);
    LookupKeepsInvariant(w, k);
    RemoveKeepsInvariant(w.(tiers := Lookup(w.tiers, k).0), k);
  }

  lemma ArriveKeepsInvariant(w: World, a: Arrival, persist: bool, saving: Saving)
    requires Invariant(w) && ComputedKey(a.key)
    ensures var (w', c) := Arrive(w, a, persist, saving);
      Invariant(w') && Entry(c.key, c) in w'.tiers.parents && c.key == a.key
  {
    var c := Client(w.nextId, a.key, false, a.namespace, w.nextId, a.token);
    CacheParentKeepsInvariant(w.(nextId := w.nextId + 1), c, persist, saving);
  }

  /** A clone enters the clone tier only when its key is recognised, and then below the cached parent. */
  lemma {:induction false} NamespacedKeepsInvariant(w: World, c: Client, namespace: string, cloneOk: bool)
    requires Invariant(w) && Entry(c.key, c) in w.tiers.parents
    ensures Invariant(NamespacedClient(w, c, c.key, namespace, cloneOk).0)
  {
    assert WellFormedParent(Entry(c.key, c));
    ComputedKeyIsNoClone(c.key);
    if namespace != "" && namespace != c.namespace {
      var ck := c.key + "-" + namespace;
      LookupKeepsInvariant(w, ck);
      var (t, hit) := Lookup(w.tiers, ck);
      var w' := w.(tiers := t);
      if hit.None? && cloneOk && IsClone(ck) {
        PrefixIsParentOfComputed(c.key, ck);
        var clone := Client(w'.nextId, ck, true, namespace, c.id, c.token);
        AddCloneKeepsCoherence(t, clone, c);
        AddConserves(t, clone);
      }
    }
  }

  lemma LoginKeepsInvariant(w: World, call: GetCall)
    requires Invariant(w) && ValidEvent(GetEvent(call))
    ensures Invariant(LoginAndCache(w, call).0)
  {
    if call.login.Some? {
      ArriveKeepsInvariant(w, call.login.value, w.tiers.persist, call.saving);
      var (w', c) := Arrive(w, call.login.value, w.tiers.persist, call.saving);
      NamespacedKeepsInvariant(w', c, call.namespace, call.cloneOk);
    }
  }

  lemma MissKeepsInvariant(w: World, key: Key, call: GetCall)
    requires Invariant(w) && ComputedKey(key) && ValidEvent(GetEvent(call))
    ensures Invariant(RestoreOrLogin(w, key, call).0)
  {
    if w.tiers.persist && key in w.tiers.stored && call.restored.Restored? {
      ArriveKeepsInvariant(w, Arrival(key, call.restored.namespace, w.tiers.stored[key]), false, Unsaved);
      var (w', c) := Arrive(w, Arrival(key, call.restored.namespace, w.tiers.stored[key]), false, Unsaved);
      NamespacedKeepsInvariant(w', c, call.namespace, call.cloneOk);
    } else if w.tiers.persist && key in w.tiers.stored && call.restored.Unusable? {
      StorageIsInvisible(w, w.tiers.stored - {key}, w.tiers.stuck);
      LoginKeepsInvariant(w.(tiers := w.tiers.(stored := w.tiers.stored - {key})), call);
    } else {
      LoginKeepsInvariant(w, call);
    }
  }

  lemma GetKeepsInvariant(w: World, call: GetCall)
    requires Invariant(w) && ValidEvent(GetEvent(call))
    ensures Invariant(Get(w, call).0)
  {
    if !w.shutDown && call.key.Ok? {
      var key := call.key.value;
      ComputedKeyIsNoClone(key);
      LookupKeepsInvariant(w, key);
      var (t, hit) := Lookup(w.tiers, key);
      var w' := w.(tiers := t);
      if hit.Some? && call.valid {
        assert WellFormedParent(Entry(key, hit.value));
        NamespacedKeepsInvariant(w', hit.value, call.namespace, call.cloneOk);
      } else if hit.Some? {
        RemoveKeepsInvariant(w', key);
        LoginKeepsInvariant(
          w'.(tiers := Remove(t, key), requests := w.requests + [Request(CacheRemoval, hit.value)]), call);
      } else {
        MissKeepsInvariant(w', key, call);
      }
    }
  }

  lemma StepKeepsInvariant(w: World, ev: Event)
    requires Invariant(w) && ValidEvent(ev)
    ensures Invariant(Step(w, ev))
  {
    match ev
    case GetEvent(call) => GetKeepsInvariant(w, call);
    case RestoreEvent(key, restored) => RestoreKeepsInvariant(w, key, restored);
    case PruneEvent(filter, skip) => PruneKeepsInvariant(w, filter, skip);
    case CallbackEvent(req) => CallbackKeepsInvariant(w, req);
    case ShutDownEvent(revoke) => ShutDownKeepsInvariant(w, revoke);
    case ApiEvent(stuck) => StorageIsInvisible(w, w.tiers.stored, stuck);
  }

  lemma {:induction false} RestoreKeepsInvariant(w: World, key: Key, restored: Restoration)
    requires Invariant(w) && ComputedKey(key)
    ensures Invariant(Restore(w, key, restored).0)
  {
    if w.tiers.persist && key in w.tiers.stored && restored.Restored? {
      ArriveKeepsInvariant(w, Arrival(key, restored.namespace, w.tiers.stored[key]), false, Unsaved);
    }
  }

  lemma CallbackKeepsInvariant(w: World, req: Request)
    requires Invariant(w)
    ensures Invariant(CallbackStep(w, req))
  {
    var key := HandledKey(req.client);
    RemoveKeepsInvariant(w, key);
    var t := Remove(w.tiers, key);
    StorageIsInvisible(w.(tiers := t), PruneStored(t.stored, {key}, t.stuck), t.stuck);
  }

  lemma PruneKeepsInvariant(w: World, filter: Client -> bool, skip: bool)
    requires Invariant(w)
    ensures Invariant(PruneStep(w, filter, skip))
  {
    PruneExact(w.tiers, filter);
  }

  lemma ShutDownKeepsInvariant(w: World, revoke: bool)
    requires Invariant(w)
    ensures Invariant(ShutDownStep(w, revoke))
  {
    PurgeEmptiesBothTiers(w.tiers.(revokeOnEvict := revoke, pruneStorageOnEvict := revoke));
  }

  // ---------------------------------------------------------------- whole runs

  function Run(w: World, events: seq<Event>): World {
    if events == [] then w
    else Step(Run(w, events[..|events| - 1]), events[|events| - 1])
  }

  /** The factory as `NewCachingClientFactory` leaves it; storage may hold entries of an earlier pod. */
  ghost predicate Initial(w: World) {
    && w.tiers.parents == [] && w.tiers.clones == [] && w.tiers.closings == []
    && w.inserted == [] && w.requests == [] && !w.shutDown
    && !w.tiers.revokeOnEvict && !w.tiers.pruneStorageOnEvict
  }

  /** In every reachable state the invariant holds. */
  lemma {:induction false} InvariantOverRuns(w: World, events: seq<Event>)
    requires Initial(w)
    requires forall i :: 0 <= i < |events| ==> ValidEvent(events[i])
    ensures Invariant(Run(w, events))
  {
    if events == [] {
      assert Accounted(w.tiers) == multiset{};
    } else {
      InvariantOverRuns(w, events[..|events| - 1]);
      StepKeepsInvariant(Run(w, events[..|events| - 1]), events[|events| - 1]);
    }
  }

  /**
   No stale clone: in every reachable state each cached clone has its parent in the cache, it
   was made from the very client cached there, and it holds that client's token.
   */
  lemma {:induction false} NoStaleClone(w: World, events: seq<Event>, e: Entry)
    requires Initial(w)
    requires forall i :: 0 <= i < |events| ==> ValidEvent(events[i])
    requires e in Run(w, events).tiers.clones
    ensures exists p ::
      && p in Run(w, events).tiers.parents
      && Parent(e.key) == Ok(p.key) && p.client.key == p.key
      && e.client.origin == p.client.id && e.client.token == p.client.token
  {
    InvariantOverRuns(w, events);
    var t := Run(w, events).tiers;
    var p :| p in t.parents && ClonedFrom(e, p);
    assert WellFormedParent(p);
  }

  function Occurrences(cs: seq<Client>, c: Client): nat { multiset(cs)[c] }

  lemma {:induction false} DistinctOccursOnce(cs: seq<Client>, c: Client)
    requires DistinctIds(cs) && c in cs
    ensures Occurrences(cs, c) == 1
  {
    var i :| 0 <= i < |cs| && cs[i] == c;
    var rest := cs[..i] + cs[i + 1..];
    assert cs == cs[..i] + [c] + cs[i + 1..];
    assert c !in rest by {
      assert forall j :: 0 <= j < |rest| ==> rest[j].id != c.id;
    }
    assert multiset(cs) == multiset(rest) + multiset{c};
  }

  /**
   Conservation: over any run, each parent ever inserted is either still cached, under its own
   key and in one place, or has been closed exactly once; never both and never neither.
   */
  lemma {:induction false} CachedOrClosedOnce(w: World, events: seq<Event>, c: Client)
    requires Initial(w)
    requires forall i :: 0 <= i < |events| ==> ValidEvent(events[i])
    requires c in Run(w, events).inserted
    ensures var t := Run(w, events).tiers;
      && Occurrences(ClientsOf(t.parents), c) + Occurrences(ClosedClients(t.closings), c) == 1
      && (Entry(c.key, c) in t.parents <==> c !in ClosedClients(t.closings))
  {
    InvariantOverRuns(w, events);
    var w' := Run(w, events);
    var t := w'.tiers;
    DistinctOccursOnce(w'.inserted, c);
    assert multiset(w'.inserted)[c] == 1;
    assert Accounted(t)[c] == 1;
    if Entry(c.key, c) in t.parents {
      var i :| 0 <= i < |t.parents| && t.parents[i] == Entry(c.key, c);
      assert ClientsOf(t.parents)[i] == c;
      assert c in multiset(ClientsOf(t.parents));
    }
    if c !in ClosedClients(t.closings) {
      assert multiset(ClosedClients(t.closings))[c] == 0;
      assert c in ClientsOf(t.parents);
      var i :| 0 <= i < |t.parents| && ClientsOf(t.parents)[i] == c;
      assert t.parents[i] in t.parents && WellFormedParent(t.parents[i]);
    }
  }

  /** Nothing but inserted parents is ever closed; clones leave without being closed. */
  lemma {:induction false} OnlyInsertedAreClosed(w: World, events: seq<Event>, c: Client)
    requires Initial(w)
    requires forall i :: 0 <= i < |events| ==> ValidEvent(events[i])
    requires c in ClosedClients(Run(w, events).tiers.closings)
    ensures c in Run(w, events).inserted
  {
    InvariantOverRuns(w, events);
    var w' := Run(w, events);
    assert c in multiset(ClosedClients(w'.tiers.closings));
    assert c in Accounted(w'.tiers);
    assert c in multiset(w'.inserted);
  }

  lemma RunNext(w: World, events: seq<Event>, ev: Event)
    ensures Run(w, events + [ev]) == Step(Run(w, events), ev)
  {
    assert (events + [ev])[..|events|] == events;
  }

  /** After a shutdown both tiers are empty and every parent ever inserted has been closed once. */
  lemma {:induction false} ShutDownClosesEverything(w: World, events: seq<Event>, revoke: bool, c: Client)
    requires Initial(w)
    requires forall i :: 0 <= i < |events| ==> ValidEvent(events[i])
    requires c in Run(w, events).inserted
    ensures var w' := ShutDownStep(Run(w, events), revoke);
      && w'.tiers.parents == [] && w'.tiers.clones == []
      && Occurrences(ClosedClients(w'.tiers.closings), c) == 1
  {
    var all := events + [ShutDownEvent(revoke)];
    RunNext(w, events, ShutDownEvent(revoke));
    InvariantOverRuns(w, events);
    PurgeEmptiesBothTiers(Run(w, events).tiers.(revokeOnEvict := revoke, pruneStorageOnEvict := revoke));
    CachedOrClosedOnce(w, all, c);
  }
}
