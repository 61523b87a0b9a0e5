/**
 What `Get` answers (vault/client_factory.go), stated of the answer and the cache alone: a client
 in the namespace that was asked for, which is, or was cloned from, the parent that is cached
 under the key; how each path gets there; and that asking again gives the same client.
 */
module FactoryAnswers {
  import opened Results
  import opened CacheKeys
  import opened ClientTiers
  import opened FactoryRuns

  // ---------------------------------------------------------------- the answer

  /**
   The client answers a request for the namespace: without one it is the parent that is cached
   under the key, and with one it is in that namespace.  If it is not the parent, it is a clone
   of it with its token, and cached as such when its key is recognised.
   */
  predicate AnswersFrom(w: World, p: Client, key: Key, namespace: string, c: Client) {
    && c.token == p.token
    && (namespace != "" ==> c.namespace == namespace)
    && (namespace == "" || namespace == p.namespace ==> c == p)
    && (c != p ==> c.isClone && c.origin == p.id && c.key == key + "-" + namespace)
    && (c != p && IsClone(c.key) ==> Entry(c.key, c) in w.tiers.clones)
  }

  ghost predicate Answers(w: World, key: Key, namespace: string, c: Client) {
    exists p: Client :: Entry(key, p) in w.tiers.parents && AnswersFrom(w, p, key, namespace, c)
  }

  /** No computed key starts with another one. */
  lemma ComputedKeysAreNoPrefixes(k: Key, c: Key)
    requires ComputedKey(k) && ComputedKey(c) && k <= c
    ensures k == c
  {
    var m, d :| m in KEY_METHODS && HexDigest(d) && k == m + ("-" + d);
    var n, e :| n in KEY_METHODS && HexDigest(e) && c == n + ("-" + e);
    MethodHasNoDash(m);
    MethodHasNoDash(n);
    assert c[..|m|] == k[..|m|] == m && c[..|n|] == n;
    MethodUnique(m, n, c);
  }

  /** A key with a suffix is none that `computeClientCacheKey` computes, so no parent sits under it. */
  lemma CloneKeyIsNotComputed(k: Key, namespace: string)
    requires ComputedKey(k)
    ensures !ComputedKey(k + "-" + namespace)
  {
    if ComputedKey(k + "-" + namespace) {
      ComputedKeysAreNoPrefixes(k, k + "-" + namespace);
    }
  }

  lemma SameKeySameEntry(s: seq<Entry>, a: Entry, b: Entry)
    requires Unique(s) && a in s && b in s && a.key == b.key
    ensures a == b
  {
    var i :| 0 <= i < |s| && s[i] == a;
    var j :| 0 <= j < |s| && s[j] == b;
    assert i == j;
  }

  /** No parent is ever found under a clone key. */
  lemma NoParentUnderCloneKey(t: Tiers, k: Key, namespace: string)
    requires Coherent(t) && ComputedKey(k)
    ensures !Has(t.parents, k + "-" + namespace)
  {
    CloneKeyIsNotComputed(k, namespace);
    HasMember(t.parents, k + "-" + namespace);
  }

  /** A clone found under the clone key hangs off the cached parent, and is in the namespace asked for. */
  lemma FoundCloneAnswers(w: World, p: Client, namespace: string)
    requires Invariant(w) && Entry(p.key, p) in w.tiers.parents && namespace != "" && namespace != p.namespace
    ensures var (t, hit) := Lookup(w.tiers, p.key + "-" + namespace);
      hit.Some? ==> AnswersFrom(w.(tiers := t), p, p.key, namespace, hit.value)
  {
    var ck := p.key + "-" + namespace;
    var (t, hit) := Lookup(w.tiers, ck);
    assert WellFormedParent(Entry(p.key, p));
    NoParentUnderCloneKey(w.tiers, p.key, namespace);
    if hit.Some? {
      LookupFinds(w.tiers, ck, hit.value);
      LookupKeepsCoherence(w.tiers, ck);
      var e := Entry(ck, hit.value);
      assert WellFormedClone(e) && Linked(w.tiers.parents, e);
      var q :| q in w.tiers.parents && ClonedFrom(e, q);
      PrefixIsParentOfComputed(p.key, ck);
      SameKeySameEntry(w.tiers.parents, q, Entry(p.key, p));
      CutPrefix(p.key + "-", namespace, p.key + "-", hit.value.namespace);
    }
  }

  /** A new clone answers, and is cached exactly when its key is recognised. */
  lemma NewCloneAnswers(w: World, p: Client, namespace: string)
    requires Invariant(w) && Entry(p.key, p) in w.tiers.parents && namespace != "" && namespace != p.namespace
    requires Lookup(w.tiers, p.key + "-" + namespace).1.None?
    ensures var (w', c) := CloneAndCache(w, p, namespace);
      && w'.tiers == w.tiers.(clones := w'.tiers.clones) && w'.inserted == w.inserted && w'.requests == w.requests
      && AnswersFrom(w', p, p.key, namespace, c) && c != p
      && (!IsClone(c.key) ==> w'.tiers.clones == w.tiers.clones)
  {
    var ck := p.key + "-" + namespace;
    var clone := Client(w.nextId, ck, true, namespace, p.id, p.token);
    assert WellFormedParent(Entry(p.key, p));
    if IsClone(ck) {
      PrefixIsParentOfComputed(p.key, ck);
      AddCloneKeepsCoherence(w.tiers, clone, p);
    }
  }

  lemma NamespacedAnswers(w: World, p: Client, namespace: string, cloneOk: bool)
    requires Invariant(w) && Entry(p.key, p) in w.tiers.parents
    ensures var (w', r) := NamespacedClient(w, p, p.key, namespace, cloneOk);
      && (r.Ok? ==> AnswersFrom(w', p, p.key, namespace, r.value))
      && (forall e :: e in w'.tiers.parents <==> e in w.tiers.parents)
  {
    assert WellFormedParent(Entry(p.key, p));
    ComputedKeyIsNoClone(p.key);
    if namespace != "" && namespace != p.namespace {
      var ck := p.key + "-" + namespace;
      FoundCloneAnswers(w, p, namespace);
      LookupKeepsInvariant(w, ck);
      var (t, hit) := Lookup(w.tiers, ck);
      if hit.None? && cloneOk {
        NewCloneAnswers(w.(tiers := t), p, namespace);
      }
    }
  }

  lemma ArrivalAnswers(w: World, a: Arrival, persist: bool, saving: Saving, namespace: string, cloneOk: bool)
    requires Invariant(w) && ComputedKey(a.key)
    ensures var (w', c) := Arrive(w, a, persist, saving);
      var (w'', r) := NamespacedClient(w', c, c.key, namespace, cloneOk);
      && c.token == a.token && c.namespace == a.namespace && c.key == a.key
      && Entry(a.key, c) in w''.tiers.parents
      && (r.Ok? ==> AnswersFrom(w'', c, a.key, namespace, r.value) && r.value.token == a.token)
  {
    ArriveKeepsInvariant(w, a, persist, saving);
    var (w', c) := Arrive(w, a, persist, saving);
    NamespacedAnswers(w', c, namespace, cloneOk);
  }

  lemma LoginAnswers(w: World, call: GetCall)
    requires Invariant(w) && ValidEvent(GetEvent(call))
    ensures var (w', r) := LoginAndCache(w, call);
      r.Ok? ==> call.login.Some? && Answers(w', call.login.value.key, call.namespace, r.value)
  {
    if call.login.Some? {
      ArrivalAnswers(w, call.login.value, w.tiers.persist, call.saving, call.namespace, call.cloneOk);
    }
  }

  lemma MissAnswers(w: World, key: Key, call: GetCall)
    requires Invariant(w) && ComputedKey(key) && ValidEvent(GetEvent(call))
    ensures var (w', r) := RestoreOrLogin(w, key, call);
      r.Ok? ==> Answers(w', key, call.namespace, r.value) ||
                (call.login.Some? && Answers(w', call.login.value.key, call.namespace, r.value))
  {
    if w.tiers.persist && key in w.tiers.stored && call.restored.Restored? {
      ArrivalAnswers(w, Arrival(key, call.restored.namespace, w.tiers.stored[key]), false, Unsaved,
                     call.namespace, call.cloneOk);
    } else if w.tiers.persist && key in w.tiers.stored && call.restored.Unusable? {
      StorageIsInvisible(w, w.tiers.stored - {key}, w.tiers.stuck);
      LoginAnswers(w.(tiers := w.tiers.(stored := w.tiers.stored - {key})), call);
    } else {
      LoginAnswers(w, call);
    }
  }

  /** Whatever `Get` hands out answers the request, under the key of the object or that of the login. */
  lemma GetAnswers(w: World, call: GetCall)
    requires Invariant(w) && ValidEvent(GetEvent(call))
    ensures var (w', r) := Get(w, call);
      r.Ok? ==> call.key.Ok? &&
                (Answers(w', call.key.value, call.namespace, r.value) ||
                 (call.login.Some? && Answers(w', call.login.value.key, call.namespace, r.value)))
  {
    if !w.shutDown && call.key.Ok? {
      var key := call.key.value;
      ComputedKeyIsNoClone(key);
      LookupKeepsInvariant(w, key);
      var (t, hit) := Lookup(w.tiers, key);
      var w' := w.(tiers := t);
      if hit.Some? && call.valid {
        assert WellFormedParent(Entry(key, hit.value));
        NamespacedAnswers(w', hit.value, call.namespace, call.cloneOk);
      } else if hit.Some? {
        RemoveKeepsInvariant(w', key);
        LoginAnswers(
          w'.(tiers := Remove(t, key), requests := w.requests + [Request(CacheRemoval, hit.value)]), call);
      } else {
        MissAnswers(w', key, call);
      }
    }
  }

  /** Over every run: what a caller is handed is in the namespace asked for and holds its cached parent's token. */
  lemma {:induction false} HandedOutAnswers(w: World, events: seq<Event>, call: GetCall)
    requires Initial(w) && ValidEvent(GetEvent(call))
    requires forall i :: 0 <= i < |events| ==> ValidEvent(events[i])
    ensures var (w', r) := Get(Run(w, events), call);
      r.Ok? ==> (call.namespace != "" ==> r.value.namespace == call.namespace) &&
                exists k :: Answers(w', k, call.namespace, r.value)
  {
    InvariantOverRuns(w, events);
    GetAnswers(Run(w, events), call);
  }

  // ---------------------------------------------------------------- the paths

  /** The tiers hold the same parents, and nothing was closed, stored or deleted. */
  ghost predicate SameParents(w: World, w': World) {
    && (forall e :: e in w'.tiers.parents <==> e in w.tiers.parents)
    && w'.tiers.closings == w.tiers.closings && w'.tiers.stored == w.tiers.stored
    && w'.inserted == w.inserted && w'.requests == w.requests
  }

  lemma CloningKeepsParents(w: World, p: Client, namespace: string, cloneOk: bool)
    requires Invariant(w) && Entry(p.key, p) in w.tiers.parents
    ensures SameParents(w, NamespacedClient(w, p, p.key, namespace, cloneOk).0)
  {
    assert WellFormedParent(Entry(p.key, p));
    ComputedKeyIsNoClone(p.key);
    if namespace != "" && namespace != p.namespace {
      var ck := p.key + "-" + namespace;
      LookupKeepsInvariant(w, ck);
      var (t, hit) := Lookup(w.tiers, ck);
      if hit.None? && cloneOk {
        NewCloneAnswers(w.(tiers := t), p, namespace);
      }
    }
  }

  /** The clone for the namespace is cached. */
  ghost predicate CloneCached(w: World, key: Key, namespace: string) {
    IsClone(key + "-" + namespace) && exists c: Client :: Entry(key + "-" + namespace, c) in w.tiers.clones
  }

  lemma NamespacedOkIff(w: World, p: Client, namespace: string, cloneOk: bool)
    requires Invariant(w) && Entry(p.key, p) in w.tiers.parents
    ensures var r := NamespacedClient(w, p, p.key, namespace, cloneOk).1;
      && (r.Ok? <==> namespace == "" || namespace == p.namespace || cloneOk || CloneCached(w, p.key, namespace))
      && (r.Err? ==> r.error == CloneFailed)
  {
    var ck := p.key + "-" + namespace;
    assert WellFormedParent(Entry(p.key, p));
    ComputedKeyIsNoClone(p.key);
    NoParentUnderCloneKey(w.tiers, p.key, namespace);
    var hit := Lookup(w.tiers, ck).1;
    if hit.Some? {
      LookupFinds(w.tiers, ck, hit.value);
    } else {
      LookupFinds(w.tiers, ck, p);
    }
  }

  /**
   A valid hit serves the request from the cache: no login, no restoration, nothing closed or
   stored.  It fails only when a clone is needed, not cached, and cannot be made.
   */
  lemma ValidHit(w: World, call: GetCall, p: Client)
    requires Invariant(w) && ValidEvent(GetEvent(call)) && !w.shutDown
    requires call.key.Ok? && Entry(call.key.value, p) in w.tiers.parents && call.valid
    ensures var (w', r) := Get(w, call); var ns := call.namespace;
      && SameParents(w, w')
      && (r.Ok? <==> ns == "" || ns == p.namespace || call.cloneOk || CloneCached(w, call.key.value, ns))
      && (r.Ok? ==> AnswersFrom(w', p, call.key.value, ns, r.value))
      && (r.Err? ==> r.error == CloneFailed)
  {
    var key := call.key.value;
    assert WellFormedParent(Entry(key, p));
    ComputedKeyIsNoClone(key);
    LookupFinds(w.tiers, key, p);
    LookupKeepsInvariant(w, key);
    var w' := w.(tiers := Lookup(w.tiers, key).0);
    NamespacedAnswers(w', p, call.namespace, call.cloneOk);
    NamespacedOkIff(w', p, call.namespace, call.cloneOk);
    CloningKeepsParents(w', p, call.namespace, call.cloneOk);
  }

  /** The client that `Get` lets into the cache. */
  predicate Entered(w: World, w': World, a: Arrival) {
    && |w'.inserted| == |w.inserted| + 1 && w.inserted <= w'.inserted
    && var c := w'.inserted[|w.inserted|];
       c.key == a.key && c.namespace == a.namespace && c.token == a.token && !c.isClone
  }

  lemma ArrivalEnters(w: World, a: Arrival, persist: bool, saving: Saving, namespace: string, cloneOk: bool)
    requires Invariant(w) && ComputedKey(a.key)
    ensures var (w', c) := Arrive(w, a, persist, saving);
      var w'' := NamespacedClient(w', c, c.key, namespace, cloneOk).0;
      Entered(w, w'', a) && w''.requests == w.requests
  {
    ArriveKeepsInvariant(w, a, persist, saving);
    var (w', c) := Arrive(w, a, persist, saving);
    assert Add(Vacated(w.tiers, c.key), c).Ok?;
    assert w'.inserted == w.inserted + [c];
    CloningKeepsParents(w', c, namespace, cloneOk);
  }

  /** A miss with a usable storage entry restores the stored token, without a login. */
  lemma MissWithEntry(w: World, call: GetCall)
    requires Invariant(w) && ValidEvent(GetEvent(call)) && !w.shutDown && call.key.Ok?
    requires !Has(w.tiers.parents, call.key.value)
    requires w.tiers.persist && call.key.value in w.tiers.stored && call.restored.Restored?
    ensures var k := call.key.value; var (w', r) := Get(w, call);
      && Entered(w, w', Arrival(k, call.restored.namespace, w.tiers.stored[k])) && w'.requests == w.requests
      && (r.Ok? ==> Answers(w', k, call.namespace, r.value) && r.value.token == w.tiers.stored[k])
  {
    var k := call.key.value;
    ComputedKeyIsNoClone(k);
    var a := Arrival(k, call.restored.namespace, w.tiers.stored[k]);
    ArrivalEnters(w, a, false, Unsaved, call.namespace, call.cloneOk);
    ArrivalAnswers(w, a, false, Unsaved, call.namespace, call.cloneOk);
  }

  /** Any other miss logs in: the client of the login enters the cache, or the login's failure is the answer. */
  lemma MissWithoutEntry(w: World, call: GetCall)
    requires Invariant(w) && ValidEvent(GetEvent(call)) && !w.shutDown && call.key.Ok?
    requires !Has(w.tiers.parents, call.key.value)
    requires !(w.tiers.persist && call.key.value in w.tiers.stored && call.restored.Restored?)
    ensures var (w', r) := Get(w, call);
      && w'.requests == w.requests
      && (call.login.None? ==>
            r == Err(LoginFailed) && w'.inserted == w.inserted && w'.tiers.parents == w.tiers.parents)
      && (call.login.Some? ==> Entered(w, w', call.login.value))
      && (call.login.Some? && r.Ok? ==>
            Answers(w', call.login.value.key, call.namespace, r.value) && r.value.token == call.login.value.token)
  {
    var k := call.key.value;
    ComputedKeyIsNoClone(k);
    var w0 := if w.tiers.persist && k in w.tiers.stored && call.restored.Unusable?
              then w.(tiers := w.tiers.(stored := w.tiers.stored - {k})) else w;
    StorageIsInvisible(w, w.tiers.stored - {k}, w.tiers.stuck);
    assert Get(w, call) == LoginAndCache(w0, call);
    if call.login.Some? {
      ArrivalEnters(w0, call.login.value, w0.tiers.persist, call.saving, call.namespace, call.cloneOk);
      ArrivalAnswers(w0, call.login.value, w0.tiers.persist, call.saving, call.namespace, call.cloneOk);
    }
  }

  /**
   A cached client that does not validate is closed, its removal is announced once, and a login
   takes its place; without one nothing is cached under the key.
   */
  lemma InvalidHit(w: World, call: GetCall, p: Client)
    requires Invariant(w) && ValidEvent(GetEvent(call)) && !w.shutDown
    requires call.key.Ok? && Entry(call.key.value, p) in w.tiers.parents && !call.valid
    ensures var (w', r) := Get(w, call);
      && w'.requests == w.requests + [Request(CacheRemoval, p)]
      && p in ClosedClients(w'.tiers.closings)
      && (call.login.None? ==> r == Err(LoginFailed) && !Has(w'.tiers.parents, call.key.value))
      && (call.login.Some? ==> Entered(w, w', call.login.value))
      && (call.login.Some? && r.Ok? ==>
            Answers(w', call.login.value.key, call.namespace, r.value) && r.value.token == call.login.value.token)
  {
    var key := call.key.value;
    assert WellFormedParent(Entry(key, p));
    ComputedKeyIsNoClone(key);
    LookupFinds(w.tiers, key, p);
    LookupKeepsInvariant(w, key);
    var t := Lookup(w.tiers, key).0;
    RemoveKeepsInvariant(w.(tiers := t), key);
    var w0 := w.(tiers := Remove(t, key), requests := w.requests + [Request(CacheRemoval, p)]);
    assert Get(w, call) == LoginAndCache(w0, call);
    RemovedIsClosed(t, key, p);
    if call.login.Some? {
      ArrivalEnters(w0, call.login.value, w0.tiers.persist, call.saving, call.namespace, call.cloneOk);
      ArrivalAnswers(w0, call.login.value, w0.tiers.persist, call.saving, call.namespace, call.cloneOk);
      ClosedByLogin(w0, call, p);
    }
  }

  /** A removed parent is closed. */
  lemma RemovedIsClosed(t: Tiers, k: Key, p: Client)
    requires Coherent(t) && Entry(k, p) in t.parents
    ensures p in ClosedClients(Remove(t, k).closings)
  {
    assert WellFormedParent(Entry(k, p));
    ComputedKeyIsNoClone(k);
    LookupFinds(t, k, p);
    DropParentCloses(t, k);
    var closed := ClosedClients(DropParent(PruneClones(t, k), k).closings);
    assert closed[|closed| - 1] == p;
  }

  lemma StaysClosed(t: Tiers, t': Tiers, p: Client)
    requires t.closings <= t'.closings && p in ClosedClients(t.closings)
    ensures p in ClosedClients(t'.closings)
  {
    var i :| 0 <= i < |t.closings| && t.closings[i].client == p;
    assert ClosedClients(t'.closings)[i] == p;
  }

  lemma VacatingExtends(t: Tiers, k: Key)
    ensures t.closings <= Vacated(t, k).closings
  {
  }

  lemma CachingExtends(w: World, c: Client, persist: bool, saving: Saving)
    ensures w.tiers.closings <= CacheClient(w, c, persist, saving).tiers.closings
  {
    VacatingExtends(w.tiers, c.key);
  }

  /** The log of closed clients only grows. */
  lemma ClosedByLogin(w: World, call: GetCall, p: Client)
    requires Invariant(w) && ValidEvent(GetEvent(call)) && call.login.Some? && p in ClosedClients(w.tiers.closings)
    ensures p in ClosedClients(LoginAndCache(w, call).0.tiers.closings)
  {
    var a := call.login.value;
    ArriveKeepsInvariant(w, a, w.tiers.persist, call.saving);
    var (w', c) := Arrive(w, a, w.tiers.persist, call.saving);
    CachingExtends(w.(nextId := w.nextId + 1), c, w.tiers.persist, call.saving);
    StaysClosed(w.tiers, w'.tiers, p);
    CloningKeepsParents(w', c, call.namespace, call.cloneOk);
  }

  // ---------------------------------------------------------------- asking again

  /**
   Asking again gives the same client: right after `Get` handed one out, the same request with a
   valid parent is answered with the very same object, unless that is a clone whose key is not
   recognised, which is made anew each time.
   */
  lemma AskingAgain(w: World, key: Key, namespace: string, c: Client, again: GetCall)
    requires Invariant(w) && ValidEvent(GetEvent(again)) && !w.shutDown
    requires Answers(w, key, namespace, c) && (c.isClone ==> IsClone(key + "-" + namespace))
    requires again.key == Ok(key) && again.namespace == namespace && again.valid
    ensures Get(w, again).1 == Ok(c)
  {
    var p: Client :| Entry(key, p) in w.tiers.parents && AnswersFrom(w, p, key, namespace, c);
    assert WellFormedParent(Entry(key, p));
    ComputedKeyIsNoClone(key);
    LookupFinds(w.tiers, key, p);
    LookupKeepsCoherence(w.tiers, key);
    var t := Lookup(w.tiers, key).0;
    if c != p {
      LookupFinds(t, key + "-" + namespace, c);
    }
  }

  /** In particular over every run. */
  lemma {:induction false} AskingAgainOverRuns(w: World, events: seq<Event>, call: GetCall, again: GetCall)
    requires Initial(w) && ValidEvent(GetEvent(call)) && ValidEvent(GetEvent(again))
    requires forall i :: 0 <= i < |events| ==> ValidEvent(events[i])
    requires call.key.Ok? && (call.login.Some? ==> call.login.value.key == call.key.value)
    requires again.key == call.key && again.namespace == call.namespace && again.valid
    ensures var (w', r) := Get(Run(w, events), call);
      r.Ok? && (r.value.isClone ==> IsClone(call.key.value + "-" + call.namespace)) ==> Get(w', again).1 == r
  {
    InvariantOverRuns(w, events);
    GetAnswers(Run(w, events), call);
    GetKeepsInvariant(Run(w, events), call);
    var (w', r) := Get(Run(w, events), call);
    if r.Ok? && (r.value.isClone ==> IsClone(call.key.value + "-" + call.namespace)) {
      AskingAgain(w', call.key.value, call.namespace, r.value, again);
    }
  }

  // ---------------------------------------------------------------- refusals and restoration

  /** A factory that was shut down, or a key that cannot be computed, is refused without any effect. */
  lemma Refused(w: World, call: GetCall)
    requires w.shutDown || call.key.Err?
    ensures Get(w, call) == (w, Err(if w.shutDown then Disabled else BadKey(call.key.error)))
  {
  }

  /** `Restore` answers with a client exactly when a stored one can be restored, and with its token. */
  lemma RestoreAnswers(w: World, key: Key, restored: Restoration)
    requires Invariant(w) && ComputedKey(key)
    ensures var (w', r) := Restore(w, key, restored);
      && (r.Some? <==> w.tiers.persist && key in w.tiers.stored && restored.Restored?)
      && (r.Some? ==> Entry(key, r.value) in w'.tiers.parents && r.value.token == w.tiers.stored[key]
                      && r.value.namespace == restored.namespace)
      && (r.None? ==> w' == w || (restored.Unusable? && w'.tiers == w.tiers.(stored := w.tiers.stored - {key})))
  {
    if w.tiers.persist && key in w.tiers.stored && restored.Restored? {
      ArriveKeepsInvariant(w, Arrival(key, restored.namespace, w.tiers.stored[key]), false, Unsaved);
    }
  }

  // ---------------------------------------------------------------- removals

  /**
   A finished lifetime watcher removes exactly the parent of its client, which is closed, and
   that parent's clones.
   */
  lemma CallbackRemovesExactly(w: World, req: Request)
    requires Invariant(w) && req.on.LifetimeWatcherDone?
    ensures var w' := CallbackStep(w, req); var k := HandledKey(req.client);
      && (forall e :: e in w'.tiers.parents <==> e in w.tiers.parents && e.key != k)
      && (forall e :: e in w.tiers.parents && e.key == k ==> e.client in ClosedClients(w'.tiers.closings))
      && w'.requests == w.requests && w'.inserted == w.inserted
  {
    var k := HandledKey(req.client);
    HandledKeyIsNoClone(req.client);
    WithoutMembers(w.tiers.parents, k);
    HasMember(w.tiers.parents, k);
    forall e | e in w.tiers.parents && e.key == k
      ensures e.client in ClosedClients(Remove(w.tiers, k).closings)
    {
      assert e == Entry(k, e.client);
      RemovedIsClosed(w.tiers, k, e.client);
    }
    if Has(w.tiers.parents, k) {
      DropParentShape(w.tiers, k);
    }
  }

  lemma HandledKeyIsNoClone(c: Client)
    ensures !IsClone(HandledKey(c))
  {
    if IsClone(c.key) {
      MethodOfTruncated(c.key);
      BaseKeyIsNoClone(HandledKey(c));
    }
  }

  function Announcements(closings: seq<Closing>): seq<Request> {
    seq(|closings|, i requires 0 <= i < |closings| => Request(CacheRemoval, closings[i].client))
  }

  /** `Prune` announces exactly the clients it closed, in that order, unless it was told not to. */
  lemma PruneAnnounces(w: World, filter: Client -> bool, skipCallbacks: bool)
    requires Invariant(w) && !w.shutDown
    ensures var w' := PruneStep(w, filter, skipCallbacks);
      var m := |w.tiers.closings|;
      && m <= |w'.tiers.closings|
      && w'.requests == w.requests + (if skipCallbacks then [] else Announcements(w'.tiers.closings[m..]))
      && (forall c :: c in ClosedClients(w'.tiers.closings[m..]) <==>
            filter(c) && exists e :: e in w.tiers.parents && e.client == c)
  {
    var t := Prune(w.tiers, filter);
    PruneExact(w.tiers, filter);
    assert |ClosedClients(t.closings)| == |t.closings|;
    var m := |w.tiers.closings|;
    var selected := Selected(w.tiers.parents, filter);
    assert ClosedClients(t.closings)[m..] == selected;
    assert ClosedClients(t.closings[m..]) == ClosedClients(t.closings)[m..];
    assert Announcements(t.closings[m..]) == RemovalRequests(selected);
    forall c
      ensures c in selected <==> filter(c) && exists e :: e in w.tiers.parents && e.client == c
    {
      SelectedMembers(w.tiers.parents, filter, c);
    }
  }

  // ---------------------------------------------------------------- revocation

  /** What a shutdown closes, it closes with revocation exactly when it was asked to. */
  lemma ShutDownRevokes(w: World, revoke: bool)
    requires Invariant(w)
    ensures var m := |w.tiers.closings|; var closings := ShutDownStep(w, revoke).tiers.closings;
      && |closings| == m + |w.tiers.parents| && w.tiers.closings <= closings
      && forall i :: 0 <= i < |w.tiers.parents| ==>
           closings[m + i] == Closing(w.tiers.parents[i].client, revoke)
  {
    assert w.tiers.parents[..|w.tiers.parents|] == w.tiers.parents;
  }

  /** A storage entry goes in a shutdown exactly with revocation, with a cached client, and if the API lets it go. */
  lemma ShutDownStorage(w: World, revoke: bool, k: Key)
    requires Invariant(w) && k in w.tiers.stored
    ensures var w' := ShutDownStep(w, revoke);
      && w'.shutDown && w'.requests == w.requests && w'.inserted == w.inserted
      && (k !in w'.tiers.stored <==>
            revoke && w.tiers.persist && k !in w.tiers.stuck && exists e :: e in w.tiers.parents && e.key == k)
  {
    var parents := w.tiers.parents;
    assert parents[..|parents|] == parents;
    if k in KeySet(parents) {
      var i :| 0 <= i < |parents| && parents[i].key == k;
      assert parents[i] in parents;
    }
  }

  /** Over every run: before a shutdown no client is closed with revocation. */
  lemma {:induction false} NoneRevokedBeforeShutDown(w: World, events: seq<Event>)
    requires Initial(w)
    ensures var w' := Run(w, events); !w'.shutDown ==> Unrevoked(w'.tiers)
  {
    if events != [] {
      NoneRevokedBeforeShutDown(w, events[..|events| - 1]);
      StepKeepsUnrevoked(Run(w, events[..|events| - 1]), events[|events| - 1]);
    }
  }

  lemma StepKeepsUnrevoked(w: World, ev: Event)
    requires !w.shutDown ==> Unrevoked(w.tiers)
    ensures !Step(w, ev).shutDown ==> Unrevoked(Step(w, ev).tiers)
  {
  }
}
