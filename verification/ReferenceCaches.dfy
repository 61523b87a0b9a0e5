/**
 The resource reference cache (controllers/registry.go) and the event handler that wakes the
 referrers of a changed object (controllers/eventhandlers.go).  The nested maps are proved to
 be nothing more than a set of (kind, referrer, reference) triples.
 */
module ReferenceCaches {
  import opened Results

  datatype Kind =
    | SecretTransformation | VaultDynamicSecret | VaultStaticSecret | VaultPKISecret
    | HCPVaultSecretsApp | VaultAuth | VaultAuthGlobal

  datatype ObjectKey = ObjectKey(namespace: string, name: string)

  type Scope = map<ObjectKey, set<ObjectKey>>

  type Triple = (Kind, ObjectKey, ObjectKey)

  ghost function Triples(m: map<Kind, Scope>): set<Triple> {
    set kind, referrer, reference |
      kind in m && referrer in m[kind] && reference in m[kind][referrer] ::
      (kind, referrer, reference)
  }

  /** No scope and no set of references is ever kept empty. */
  ghost predicate Compact(m: map<Kind, Scope>) {
    forall kind :: kind in m ==> m[kind] != map[] && CompactScope(m[kind])
  }

  ghost predicate CompactScope(scope: Scope) {
    forall referrer :: referrer in scope ==> scope[referrer] != {}
  }

  /** Puts a scope back, dropping it when it has become empty. */
  function WithScope(m: map<Kind, Scope>, kind: Kind, scope: Scope): map<Kind, Scope> {
    if scope == map[] then m - {kind} else m[kind := scope]
  }

  function ScopeOf(m: map<Kind, Scope>, kind: Kind): Scope { if kind in m then m[kind] else map[] }

  lemma WithScopeTriples(m: map<Kind, Scope>, kind: Kind, scope: Scope)
    requires Compact(m) && CompactScope(scope)
    ensures var m' := WithScope(m, kind, scope);
      && Compact(m')
      && (forall t: Triple :: t.0 != kind ==> (t in Triples(m') <==> t in Triples(m)))
      && (forall referrer, reference ::
            (kind, referrer, reference) in Triples(m') <==> referrer in scope && reference in scope[referrer])
  {
    var m' := WithScope(m, kind, scope);
    assert forall t: Triple :: t in Triples(m') <==> t.0 in m' && t.1 in m'[t.0] && t.2 in m'[t.0][t.1];
    assert forall t: Triple :: t in Triples(m) <==> t.0 in m && t.1 in m[t.0] && t.2 in m[t.0][t.1];
  }

  /** The referrers of a reference. */
  function Referrers(scope: Scope, reference: ObjectKey): set<ObjectKey> {
    set r | r in scope && reference in scope[r]
  }

  predicate References(scope: Scope, referrer: ObjectKey, reference: ObjectKey) {
    referrer in scope && reference in scope[referrer]
  }

  /** A scope in which only the referrers outside `todo` have been pruned. */
  function Pruned(before: Scope, reference: ObjectKey, todo: set<ObjectKey>): Scope {
    map r | r in before && (r in todo || before[r] - {reference} != {}) ::
      if r in todo then before[r] else before[r] - {reference}
  }

  function PrunedEntry(scope: Scope, reference: ObjectKey, r: ObjectKey): Scope
    requires r in scope
  {
    if scope[r] - {reference} == {} then scope - {r} else scope[r := scope[r] - {reference}]
  }

  lemma PruneEntry(before: Scope, reference: ObjectKey, todo: set<ObjectKey>, r: ObjectKey)
    requires r in todo && r in before
    ensures Pruned(before, reference, todo - {r}) == PrunedEntry(Pruned(before, reference, todo), reference, r)
  {
  }

  lemma HitOne(referrers: set<ObjectKey>, todo: set<ObjectKey>, r: ObjectKey)
    requires r in todo
    ensures |referrers - (todo - {r})| == |referrers - todo| + if r in referrers then 1 else 0
  {
    if r in referrers {
      assert referrers - (todo - {r}) == (referrers - todo) + {r};
    } else {
      assert referrers - (todo - {r}) == referrers - todo;
    }
  }

  /** The body of the loop of `Prune`. */
  method PruneReferrer(before: Scope, referrer: ObjectKey, reference: ObjectKey) returns (scope: Scope, hit: bool)
    requires referrer in before
    ensures scope == PrunedEntry(before, reference, referrer)
    ensures hit <==> reference in before[referrer]
  {
    scope := before;
    hit := reference in scope[referrer];
    if hit {
      scope := scope[referrer := scope[referrer] - {reference}];
    } else {
      assert before[referrer] - {reference} == before[referrer];
    }
    if scope[referrer] == {} {
      scope := scope - {referrer};
    }
  }

  /** The loop of `Prune`: entries are changed and deleted while the map is walked, in any order. */
  method PruneScope(before: Scope, reference: ObjectKey) returns (scope: Scope, count: nat)
    requires CompactScope(before)
    ensures CompactScope(scope) && count == |Referrers(before, reference)|
    ensures forall r, x :: References(scope, r, x) <==> References(before, r, x) && x != reference
  {
    scope, count := before, 0;
    var todo := before.Keys;
    assert Referrers(before, reference) - todo == {};
    while todo != {}
      invariant todo <= before.Keys
      invariant scope == Pruned(before, reference, todo)
      invariant count == |Referrers(before, reference) - todo|
      decreases |todo|
    {
      var referrer :| referrer in todo;
      PruneEntry(before, reference, todo, referrer);
      HitOne(Referrers(before, reference), todo, referrer);
      todo := todo - {referrer};
      var hit;
      scope, hit := PruneReferrer(scope, referrer, reference);
      if hit {
        count := count + 1;
      }
    }
    assert Referrers(before, reference) - {} == Referrers(before, reference);
  }

  /** The loop of `Get`. */
  method CollectReferrers(scope: Scope, reference: ObjectKey) returns (refs: seq<ObjectKey>)
    ensures forall r :: r in refs <==> r in Referrers(scope, reference)
    ensures forall i, j :: 0 <= i < j < |refs| ==> refs[i] != refs[j]
  {
    refs := [];
    var todo := scope.Keys;
    while todo != {}
      invariant todo <= scope.Keys
      invariant forall r :: r in refs <==> r in Referrers(scope, reference) && r !in todo
      invariant forall i, j :: 0 <= i < j < |refs| ==> refs[i] != refs[j]
      decreases |todo|
    {
      var r :| r in todo;
      todo := todo - {r};
      if reference in scope[r] {
        refs := refs + [r];
      }
    }
  }

  class ReferenceCache {
    var m: map<Kind, Scope>

    ghost predicate Valid()
      reads this
    {
      Compact(m)
    }

    ghost function View(): set<Triple>
      reads this
    {
      Triples(m)
    }

    constructor ()
      ensures Valid() && View() == {}
    {
      m := map[];
    }

    /** Replaces the references of a referrer; no references at all means it is forgotten. */
    method Set(kind: Kind, referrer: ObjectKey, references: seq<ObjectKey>)
      requires Valid()
      modifies this
      ensures Valid()
      ensures forall t: Triple :: t in View() <==>
        if t.0 == kind && t.1 == referrer then t.2 in references else t in old(View())
    {
      var scope := ScopeOf(m, kind);
      ghost var before := m;
      if |references| == 0 {
        scope := scope - {referrer};
      } else {
        var refs: set<ObjectKey> := {};
        for i := 0 to |references|
          invariant forall x :: x in refs <==> x in references[..i]
        {
          refs := refs + {references[i]};
        }
        assert references[..|references|] == references;
        assert references[0] in refs;
        scope := scope[referrer := refs];
      }
      WithScopeTriples(m, kind, scope);
      m := WithScope(m, kind, scope);
    }

    method Remove(kind: Kind, referrer: ObjectKey) returns (ok: bool)
      requires Valid()
      modifies this
      ensures Valid()
      ensures forall t: Triple :: t in View() <==> t in old(View()) && !(t.0 == kind && t.1 == referrer)
      ensures ok <==> exists t: Triple :: t in old(View()) && t.0 == kind && t.1 == referrer
    {
      if kind !in m {
        return false;
      }
      var scope := m[kind];
      ok := referrer in scope;
      if ok {
        var x :| x in scope[referrer];
        assert (kind, referrer, x) in View();
      }
      WithScopeTriples(m, kind, scope - {referrer});
      m := WithScope(m, kind, scope - {referrer});
    }

    /** Forgets a reference everywhere and counts the triples that went. */
    method Prune(kind: Kind, reference: ObjectKey) returns (count: nat)
      requires Valid()
      modifies this
      ensures Valid()
      ensures forall t: Triple :: t in View() <==> t in old(View()) && !(t.0 == kind && t.2 == reference)
      ensures count == |old(View()) - View()|
    {
      ghost var before := View();
      if kind !in m {
        return 0;
      }
      var scope;
      ghost var was := m[kind];
      scope, count := PruneScope(m[kind], reference);
      WithScopeTriples(m, kind, scope);
      assert forall r, x :: (kind, r, x) in before <==> References(was, r, x);
      m := WithScope(m, kind, scope);
      assert forall r, x :: (kind, r, x) in View() <==> References(scope, r, x);
      RemovedTriples(before, View(), kind, was, reference);
    }

    method Get(kind: Kind, reference: ObjectKey) returns (refs: seq<ObjectKey>)
      requires Valid()
      ensures forall r :: r in refs <==> (kind, r, reference) in View()
      ensures forall i, j :: 0 <= i < j < |refs| ==> refs[i] != refs[j]
    {
      if kind !in m {
        return [];
      }
      refs := CollectReferrers(m[kind], reference);
    }
  }

  /** There is one removed triple per referrer. */
  lemma RemovedTriples(
    before: set<Triple>, after: set<Triple>, kind: Kind, was: Scope, reference: ObjectKey)
    requires forall r, x :: (kind, r, x) in before <==> References(was, r, x)
    requires forall t: Triple :: t in after <==> t in before && !(t.0 == kind && t.2 == reference)
    ensures |before - after| == |Referrers(was, reference)|
  {
    var rs := Referrers(was, reference);
    var ts := set r | r in rs :: (kind, r, reference);
    forall t | t in before - after
      ensures t in ts
    {
      assert t == (kind, t.1, reference);
    }
    assert before - after == ts;
    ImageSize(rs, kind, reference);
  }

  lemma {:induction false} ImageSize(rs: set<ObjectKey>, kind: Kind, reference: ObjectKey)
    ensures |set r | r in rs :: (kind, r, reference)| == |rs|
    decreases |rs|
  {
    if rs != {} {
      var r0 :| r0 in rs;
      var rest := rs - {r0};
      ImageSize(rest, kind, reference);
      assert (set r | r in rs :: (kind, r, reference)) ==
             (set r | r in rest :: (kind, r, reference)) + {(kind, r0, reference)};
    }
  }

  // ---------------------------------------------------------------- waking the referrers

  class RefRequestsHandler {
    const kind: Kind
    const refCache: ReferenceCache
    var queue: seq<ObjectKey>             // requests added with AddAfter
    var syncRegistry: Option<set<ObjectKey>>

    constructor (kind: Kind, refCache: ReferenceCache, syncRegistry: Option<set<ObjectKey>>)
      ensures this.kind == kind && this.refCache == refCache && queue == [] && this.syncRegistry == syncRegistry
    {
      this.kind, this.refCache, this.queue, this.syncRegistry := kind, refCache, [], syncRegistry;
    }

    /** `woken` lists the requests this event added. */
    twostate predicate Wakes(woken: seq<ObjectKey>, changed: ObjectKey, valid: bool)
      reads this, refCache
    {
      && queue == old(queue) + woken
      && (forall i, j :: 0 <= i < j < |woken| ==> woken[i] != woken[j])
      && (forall r :: r in woken <==> valid && (kind, r, changed) in refCache.View())
      && (old(syncRegistry).None? <==> syncRegistry.None?)
      && (syncRegistry.Some? ==> forall r :: r in syncRegistry.value <==> r in old(syncRegistry).value || r in woken)
    }

    /** `enqueue`: each current referrer is added exactly once, unless the object fails validation. */
    method Enqueue(changed: ObjectKey, valid: bool) returns (woken: seq<ObjectKey>)
      requires refCache.Valid()
      modifies this`queue, this`syncRegistry
      ensures Wakes(woken, changed, valid)
    {
      woken := [];
      var referrers := refCache.Get(kind, changed);
      if |referrers| == 0 || !valid {
        return;
      }
      var reqs: set<ObjectKey> := {};
      for i := 0 to |referrers|
        invariant queue == old(queue) + woken
        invariant forall x :: x in reqs <==> x in woken
        invariant forall x :: x in woken <==> x in referrers[..i]
        invariant forall j, k :: 0 <= j < k < |woken| ==> woken[j] != woken[k]
        invariant old(syncRegistry).None? <==> syncRegistry.None?
        invariant syncRegistry.Some? ==>
          forall r :: r in syncRegistry.value <==> r in old(syncRegistry).value || r in referrers[..i]
      {
        var ref := referrers[i];
        if syncRegistry.Some? {
          syncRegistry := Some(syncRegistry.value + {ref});
        }
        if ref !in reqs {
          queue := queue + [ref];
          woken := woken + [ref];
          reqs := reqs + {ref};
        }
      }
      assert referrers[..|referrers|] == referrers;
    }

    method OnCreate(changed: ObjectKey, valid: bool) returns (woken: seq<ObjectKey>)
      requires refCache.Valid()
      modifies this`queue, this`syncRegistry
      ensures Wakes(woken, changed, valid)
    {
      woken := Enqueue(changed, valid);
    }

    /** Updates that leave the generation alone wake nobody. */
    method OnUpdate(changed: ObjectKey, oldGeneration: int, newGeneration: int, valid: bool)
      returns (woken: seq<ObjectKey>)
      requires refCache.Valid()
      modifies this`queue, this`syncRegistry
      ensures Wakes(woken, changed, valid && oldGeneration != newGeneration)
    {
      woken := [];
      if newGeneration != oldGeneration {
        woken := Enqueue(changed, valid);
      }
    }

    /** A deleted object wakes nobody; it is forgotten as a reference, and nothing else is. */
    method OnDelete(changed: ObjectKey)
      requires refCache.Valid()
      modifies refCache
      ensures refCache.Valid()
      ensures forall t: Triple :: t in refCache.View() <==>
        t in old(refCache.View()) && !(t.0 == kind && t.2 == changed)
    {
      var _ := refCache.Prune(kind, changed);
    }
  }
}
