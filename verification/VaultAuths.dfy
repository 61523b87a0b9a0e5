/**
 The VaultAuth reconciler (controllers/vaultauth_controller.go): it merges the VaultAuthGlobal,
 hashes the result, and prunes the clients that were made from an older VaultAuth.  The hash is a
 function handed in; statements that need it assume that it does not collide.
 */
module VaultAuths {
  import opened Results
  import opened AuthMerge
  import CT = ClientTiers
  import FR = FactoryRuns
  import CF = ClientFactories
  import ST = StorageRuns

  /** A VaultAuth as the cluster holds it. */
  datatype Object = Object(auth: VaultAuth, uid: string, generation: nat)

  /** The VaultAuth that a client was made from, with the global object merged in. */
  datatype Origin = Origin(uid: string, generation: nat, spec: AuthSpec)

  type Origins = CT.Client -> Origin

  type HashFunction = AuthSpec -> string

  ghost predicate CollisionFree(hash: HashFunction) {
    (forall a, b :: hash(a) == hash(b) ==> a == b) && forall a :: hash(a) != ""
  }

  datatype Env = Env(
    deleted: bool,
    hasFinalizer: bool,
    connectionOk: bool,     // the VaultConnection is named properly and found
    statusOk: bool)         // Status().Update

  datatype State = State(world: FR.World, specHash: string)

  // ---------------------------------------------------------------- the step

  /** The spec that is hashed: a merge that fails leaves the object as it is. */
  function EffectiveSpec(o: Object, c: Cluster): AuthSpec {
    if Merge(o.auth, c).Ok? then Merge(o.auth, c).value.spec else o.auth.spec
  }

  /** The errors that keep the reconciler from pruning. */
  predicate Fails(o: Object, c: Cluster, env: Env) {
    || Merge(o.auth, c).Err?
    || (o.auth.namespace == c.operatorNamespace && EffectiveSpec(o, c).connectionRef == "")
    || !env.connectionOk
  }

  predicate HashChanged(specHash: string, spec: AuthSpec, hash: HashFunction) {
    hash(spec) != "" && specHash != "" && hash(spec) != specHash
  }

  /** `filterAllCacheRefs`, or `filterOldCacheRefs`. */
  function Refers(o: Object, all: bool, origins: Origins): CT.Client -> bool {
    (c: CT.Client) => origins(c).uid == o.uid && (all || o.generation > origins(c).generation)
  }

  /** A storage entry of a client that goes with the object cannot be deleted. */
  predicate StorageFails(w: FR.World, o: Object, origins: Origins) {
    w.tiers.persist && FR.KeysOf(CT.Selected(w.tiers.parents, Refers(o, true, origins))) * w.tiers.stuck != {}
  }

  /** One reconciliation; the result says whether the object is valid, or its deletion done. */
  function ReconcileStep(s: State, o: Object, c: Cluster, env: Env, hash: HashFunction, origins: Origins)
    : (State, bool)
  {
    if env.deleted then
      if !env.hasFinalizer then (s, true)
      else
        (s.(world := FR.PruneStep(s.world, Refers(o, true, origins), true)),
         !s.world.shutDown && !StorageFails(s.world, o, origins))
    else
      var spec := EffectiveSpec(o, c);
      var world := if Fails(o, c, env) then s.world
                   else FR.PruneStep(s.world, Refers(o, HashChanged(s.specHash, spec, hash), origins), false);
      (State(world, if env.statusOk then hash(spec) else s.specHash), !Fails(o, c, env) && !s.world.shutDown)
  }

  class VaultAuthReconciler {
    const factory: CF.ClientFactory
    var specHash: string    // Status.SpecHash

    ghost function View(): State
      reads this, factory, factory.cache.cache, factory.cache.cloneCache, factory.cache.handler
    {
      State(factory.View(), specHash)
    }

    constructor (factory: CF.ClientFactory, specHash: string)
      ensures this.factory == factory && this.specHash == specHash
    {
      this.factory, this.specHash := factory, specHash;
    }

    method Reconcile(o: Object, c: Cluster, env: Env, hash: HashFunction, origins: Origins) returns (ok: bool)
      requires factory.Valid()
      modifies this`specHash, factory`requests, factory.cache.cache, factory.cache.cloneCache
      modifies factory.cache.handler`closings, factory.cache.handler`stored
      ensures factory.Valid()
      ensures (View(), ok) == ReconcileStep(old(View()), o, c, env, hash, origins)
    {
      if env.deleted {
        if !env.hasFinalizer {
          return true;
        }
        var pruned, failed := factory.Prune(Refers(o, true, origins), true);
        return pruned.Ok? && !failed;
      }
      var errs := false;
      var spec := o.auth.spec;
      var merged := MergeInVaultAuthGlobal(o.auth, c);
      if merged.Err? {
        errs := true;
      } else {
        spec := merged.value.spec;
      }
      if o.auth.namespace == c.operatorNamespace && spec.connectionRef == "" {
        errs := true;
      }
      if !env.connectionOk {
        errs := true;
      }
      var newHash := hash(spec);
      if !errs {
        var pruneAll := false;
        if newHash != "" && specHash != "" {
          pruneAll := newHash != specHash;
        }
        var pruned, _ := factory.Prune(Refers(o, pruneAll, origins), false);
        if pruned.Err? {
          errs := true;
        }
      }
      if env.statusOk {
        specHash := newHash;
      }
      return !errs;
    }
  }

  // ---------------------------------------------------------------- clients of an older VaultAuth

  /** The client was made from this VaultAuth, but not from what it is now. */
  predicate Stale(origin: Origin, o: Object, spec: AuthSpec) {
    origin.uid == o.uid && (origin.generation != o.generation || origin.spec != spec)
  }

  ghost predicate NoneStale(w: FR.World, o: Object, spec: AuthSpec, origins: Origins) {
    forall e :: e in w.tiers.parents ==> !Stale(origins(e.client), o, spec)
  }

  /** All stale clients come from an older generation. */
  ghost predicate OnlyOlderStale(w: FR.World, o: Object, spec: AuthSpec, origins: Origins) {
    forall e :: e in w.tiers.parents && Stale(origins(e.client), o, spec) ==>
      origins(e.client).generation < o.generation
  }

  /** What is left of the parents after the reconciler has pruned. */
  lemma PruneLeaves(w: FR.World, o: Object, all: bool, skip: bool, origins: Origins)
    requires FR.Invariant(w) && !w.shutDown
    ensures var w' := FR.PruneStep(w, Refers(o, all, origins), skip);
      && FR.Invariant(w')
      && forall e :: e in w'.tiers.parents <==> e in w.tiers.parents && !Refers(o, all, origins)(e.client)
  {
    FR.PruneKeepsInvariant(w, Refers(o, all, origins), skip);
    CT.PruneExact(w.tiers, Refers(o, all, origins));
    CT.RejectedMembers(w.tiers.parents, Refers(o, all, origins));
  }

  /**
   A reconciliation leaves no client of an older VaultAuth or older merged spec in the cache
   exactly when there was none, or it meets no error and either the hash on record differs or
   only older generations were stale.
   */
  lemma LeavesNoneStaleIff(s: State, o: Object, c: Cluster, env: Env, hash: HashFunction, origins: Origins)
    requires FR.Invariant(s.world) && !env.deleted && Merge(o.auth, c).Ok?
    ensures var spec := EffectiveSpec(o, c); var s' := ReconcileStep(s, o, c, env, hash, origins).0;
      NoneStale(s'.world, o, spec, origins) <==>
        || NoneStale(s.world, o, spec, origins)
        || (&& !Fails(o, c, env) && !s.world.shutDown
            && (HashChanged(s.specHash, spec, hash) || OnlyOlderStale(s.world, o, spec, origins)))
  {
    var spec := EffectiveSpec(o, c);
    if !Fails(o, c, env) && !s.world.shutDown {
      PruneLeaves(s.world, o, HashChanged(s.specHash, spec, hash), false, origins);
    }
  }

  /** Exactly those clients go: of this VaultAuth, older or with a changed hash, and only without errors. */
  lemma PrunesExactly(s: State, o: Object, c: Cluster, env: Env, hash: HashFunction, origins: Origins, e: CT.Entry)
    requires FR.Invariant(s.world) && !env.deleted && e in s.world.tiers.parents
    ensures var newHash := hash(EffectiveSpec(o, c));
      var changed := s.specHash != "" && newHash != "" && newHash != s.specHash;
      e !in ReconcileStep(s, o, c, env, hash, origins).0.world.tiers.parents <==>
        && !Fails(o, c, env) && !s.world.shutDown && origins(e.client).uid == o.uid
        && (changed || origins(e.client).generation < o.generation)
  {
    if !Fails(o, c, env) && !s.world.shutDown {
      PruneLeaves(s.world, o, HashChanged(s.specHash, EffectiveSpec(o, c), hash), false, origins);
    }
  }

  /** What is recorded is the hash of the merged spec, or of the object's own where the merge failed. */
  lemma RecordsHash(s: State, o: Object, c: Cluster, env: Env, hash: HashFunction, origins: Origins)
    requires !env.deleted
    ensures var merged := Merge(o.auth, c);
      ReconcileStep(s, o, c, env, hash, origins).0.specHash ==
        if env.statusOk then hash(if merged.Ok? then merged.value.spec else o.auth.spec) else s.specHash
    ensures ReconcileStep(s, o, c, env, hash, origins).1 <==> !Fails(o, c, env) && !s.world.shutDown
  {
  }

  /** A merge that fails, a missing connection, or one that the operator's own namespace requires, is an error. */
  lemma FailsIff(o: Object, c: Cluster, env: Env)
    ensures Fails(o, c, env) <==>
      || Merge(o.auth, c).Err? || !env.connectionOk
      || (o.auth.namespace == c.operatorNamespace && Merge(o.auth, c).value.spec.connectionRef == "")
  {
  }

  /** After a success that was recorded, repeating it prunes nothing and records the same. */
  lemma RepeatedSuccessIsQuiet(
    s: State, o: Object, c: Cluster, env: Env, next: Env, hash: HashFunction, origins: Origins)
    requires FR.Invariant(s.world) && !env.deleted && env.statusOk
    requires ReconcileStep(s, o, c, env, hash, origins).1 && !next.deleted
    ensures var s' := ReconcileStep(s, o, c, env, hash, origins).0;
      var s'' := ReconcileStep(s', o, c, next, hash, origins).0;
      && s''.specHash == s'.specHash
      && (forall e :: e in s''.world.tiers.parents <==> e in s'.world.tiers.parents)
      && s''.world.tiers.closings == s'.world.tiers.closings && s''.world.requests == s'.world.requests
  {
    var spec := EffectiveSpec(o, c);
    var all := HashChanged(s.specHash, spec, hash);
    PruneLeaves(s.world, o, all, false, origins);
    var s' := ReconcileStep(s, o, c, env, hash, origins).0;
    if !Fails(o, c, next) {
      assert !HashChanged(s'.specHash, spec, hash);
      PruneLeaves(s'.world, o, false, false, origins);
      NothingToPrune(s'.world, Refers(o, false, origins));
    }
  }

  lemma NothingToPrune(w: FR.World, filter: CT.Client -> bool)
    requires FR.Invariant(w) && !w.shutDown && forall e :: e in w.tiers.parents ==> !filter(e.client)
    ensures var w' := FR.PruneStep(w, filter, false);
      w'.tiers.closings == w.tiers.closings && w'.requests == w.requests
  {
    NoneSelected(w.tiers.parents, filter);
    NonePruned(w.tiers, filter, |w.tiers.parents|);
  }

  lemma {:induction false} NoneSelected(parents: seq<CT.Entry>, filter: CT.Client -> bool)
    requires forall e :: e in parents ==> !filter(e.client)
    ensures CT.Selected(parents, filter) == []
  {
    if parents != [] {
      assert parents[|parents| - 1] in parents;
      NoneSelected(parents[..|parents| - 1], filter);
    }
  }

  lemma {:induction false} NonePruned(t: CT.Tiers, filter: CT.Client -> bool, n: nat)
    requires n <= |t.parents| && forall e :: e in t.parents ==> !filter(e.client)
    ensures CT.PrunedUpTo(t, filter, n) == t
  {
    if n > 0 {
      assert t.parents[n - 1] in t.parents;
      NonePruned(t, filter, n - 1);
    }
  }

  /** The clones follow: each one left hangs off a parent that was left, and holds its token. */
  lemma ClonesFollow(s: State, o: Object, c: Cluster, env: Env, hash: HashFunction, origins: Origins, e: CT.Entry)
    requires FR.Invariant(s.world) && !env.deleted
    requires var s' := ReconcileStep(s, o, c, env, hash, origins).0;
      e in s'.world.tiers.clones && NoneStale(s'.world, o, EffectiveSpec(o, c), origins)
    ensures var s' := ReconcileStep(s, o, c, env, hash, origins).0;
      exists p ::
        p in s'.world.tiers.parents && CT.ClonedFrom(e, p) && !Stale(origins(p.client), o, EffectiveSpec(o, c))
  {
    var s' := ReconcileStep(s, o, c, env, hash, origins).0;
    if !Fails(o, c, env) {
      FR.PruneKeepsInvariant(s.world, Refers(o, HashChanged(s.specHash, EffectiveSpec(o, c), hash), origins), false);
    }
    assert CT.Linked(s'.world.tiers.parents, e);
    var p :| p in s'.world.tiers.parents && CT.ClonedFrom(e, p);
  }

  /** With the hash of the spec last seen on record, the hash has changed exactly when the merged spec has. */
  lemma HashChangedIff(last: AuthSpec, spec: AuthSpec, hash: HashFunction)
    requires CollisionFree(hash)
    ensures HashChanged(hash(last), spec, hash) <==> spec != last
  {
  }

  /**
   A changed global object that is first seen while the VaultConnection is missing is recorded
   without any pruning.  The next reconciliation, which meets no error, then leaves no stale
   client exactly when none of the current generation was there; without that record, a changed
   merged spec would have been enough.
   */
  lemma FailureHidesChangeIff(
    s: State, o: Object, c: Cluster, env: Env, next: Env, last: AuthSpec, hash: HashFunction, origins: Origins)
    requires CollisionFree(hash) && FR.Invariant(s.world) && !s.world.shutDown
    requires !env.deleted && Merge(o.auth, c).Ok? && Fails(o, c, env)
    requires !next.deleted && !Fails(o, c, next)
    requires s.specHash == hash(last) && last != EffectiveSpec(o, c)
    ensures var spec := EffectiveSpec(o, c);
      var s1 := ReconcileStep(s, o, c, env, hash, origins).0;
      var s2 := ReconcileStep(s1, o, c, next, hash, origins).0;
      && s1.world == s.world
      && (NoneStale(s2.world, o, spec, origins) <==> !env.statusOk || OnlyOlderStale(s.world, o, spec, origins))
  {
    var spec := EffectiveSpec(o, c);
    var s1 := ReconcileStep(s, o, c, env, hash, origins).0;
    HashChangedIff(last, spec, hash);
    HashChangedIff(spec, spec, hash);
    LeavesNoneStaleIff(s1, o, c, next, hash, origins);
    if NoneStale(s.world, o, spec, origins) {
      assert OnlyOlderStale(s.world, o, spec, origins);
    }
  }

  /** A deleted VaultAuth leaves no client behind, and exactly those of their storage entries that are stuck. */
  lemma DeletionLeavesNone(
    s: State, o: Object, c: Cluster, env: Env, hash: HashFunction, origins: Origins, k: string)
    requires FR.Invariant(s.world) && !s.world.shutDown && env.deleted && env.hasFinalizer
    requires !s.world.tiers.pruneStorageOnEvict && k in s.world.tiers.stored
    ensures var s' := ReconcileStep(s, o, c, env, hash, origins).0;
      && (forall e :: e in s'.world.tiers.parents <==> e in s.world.tiers.parents && origins(e.client).uid != o.uid)
      && (k !in s'.world.tiers.stored <==>
            && s.world.tiers.persist && k !in s.world.tiers.stuck
            && k in FR.KeysOf(CT.Selected(s.world.tiers.parents, Refers(o, true, origins))))
  {
    PruneLeaves(s.world, o, true, true, origins);
    ST.PrunedEntryGoesIff(s.world, Refers(o, true, origins), true, k);
  }
}
