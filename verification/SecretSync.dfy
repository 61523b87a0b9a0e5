/**
 Writing a destination Secret, and who owns it (helpers/secrets.go).  The Kubernetes API is a
 map from object keys to Secrets, and any of its calls may fail.
 */
module SecretSync {
  import opened Results
  import opened Base64

  /** A data map; Go's nil map and the empty map are different values. */
  datatype Data = NilData | Fields(fields: map<string, Bytes>)

  /** An empty map is not serialized, so it is read back as nil. */
  function Stored(d: Data): Data {
    if d.Fields? && d.fields == map[] then NilData else d
  }

  datatype OwnerRef = OwnerRef(apiVersion: string, kind: string, name: string, uid: string)

  datatype Secret = Secret(
    data: Data,
    secretType: string,
    labels: map<string, string>,
    annotations: map<string, string>,
    owners: seq<OwnerRef>)

  datatype ObjectKey = ObjectKey(namespace: string, name: string)

  type Store = map<ObjectKey, Secret>

  datatype Destination = Destination(
    name: string,
    create: bool,
    overwrite: bool,
    secretType: string,
    labels: map<string, string>,
    annotations: map<string, string>)

  /** A syncable object: VaultStaticSecret, VaultDynamicSecret, VaultPKISecret, ... */
  datatype Owner = Owner(
    namespace: string, name: string, uid: string, apiVersion: string, kind: string, dest: Destination)

  datatype SyncError = InvalidDestination | DestinationMissing | NotTheOwner | ApiFailed

  /** Which calls of the API succeed during one `SyncSecret`. */
  datatype Api = Api(
    readOk: bool,               // reading the destination
    writeOk: bool,              // the first write to it
    deleteOk: bool,             // its deletion, when the type changes
    recreateOk: bool,           // and its creation after that
    listOk: bool,               // listing the owned Secrets
    stuck: set<ObjectKey>)      // the Secrets that cannot be deleted as orphans

  const OWNER_LABELS: map<string, string> := map[
    "app.kubernetes.io/managed-by" := "hashicorp-vso",
    "app.kubernetes.io/name" := "vault-secrets-operator",
    "app.kubernetes.io/component" := "secret-sync"]

  const LABEL_OWNER_UID: string := "secrets.hashicorp.com/vso-ownerRefUID"

  const TYPE_OPAQUE: string := "Opaque"

  // ---------------------------------------------------------------- ownership

  function DestKey(o: Owner): ObjectKey { ObjectKey(o.namespace, o.dest.name) }

  function RefTo(o: Owner): OwnerRef { OwnerRef(o.apiVersion, o.kind, o.name, o.uid) }

  predicate HasLabels(labels: map<string, string>, wanted: map<string, string>) {
    forall k :: k in wanted ==> k in labels && labels[k] == wanted[k]
  }

  predicate HasOwnerLabels(s: Secret) { HasLabels(s.labels, OWNER_LABELS) }

  /** `checkSecretIsOwnedByObj`: the owner labels and exactly this owner reference. */
  predicate OwnedBy(s: Secret, r: OwnerRef) { HasOwnerLabels(s) && s.owners == [r] }

  /** `OwnerLabelsForObj`; its error for an empty UID is ignored by the caller. */
  function OwnerLabelsFor(o: Owner): map<string, string> {
    if o.uid == "" then map[] else OWNER_LABELS[LABEL_OWNER_UID := o.uid]
  }

  /** `FindSecretsOwnedByObj`: additionally in the object's namespace, and labelled with its UID. */
  predicate Finds(o: Owner, k: ObjectKey, s: Secret) {
    && o.uid != "" && k.namespace == o.namespace
    && HasLabels(s.labels, OwnerLabelsFor(o)) && OwnedBy(s, RefTo(o))
  }

  predicate Orphan(o: Owner, k: ObjectKey, s: Secret) { Finds(o, k, s) && k.name != o.dest.name }

  // ---------------------------------------------------------------- the effect of SyncSecret

  function WithoutOrphans(store: Store, o: Owner, stuck: set<ObjectKey>): Store {
    map k | k in store && (!Orphan(o, k, store[k]) || k in stuck) :: store[k]
  }

  /** The Secret that the object is fully responsible for. */
  function Desired(o: Owner, data: Data): Secret {
    Secret(Stored(data), DesiredType(o), o.dest.labels + OwnerLabelsFor(o), o.dest.annotations, [RefTo(o)])
  }

  function DesiredType(o: Owner): string { if o.dest.secretType != "" then o.dest.secretType else TYPE_OPAQUE }

  /** Whether an existing destination may be written. */
  predicate MayOverwrite(o: Owner, s: Secret) {
    (o.dest.overwrite && !HasOwnerLabels(s)) || OwnedBy(s, RefTo(o))
  }

  /** The type of a Secret is immutable, so a new type means to delete and to create anew. */
  predicate Recreates(store: Store, o: Owner) {
    o.dest.create && DestKey(o) in store && store[DestKey(o)].secretType != DesiredType(o)
  }

  /** What stops a call before its first write succeeds. */
  function Refusal(store: Store, o: Owner, api: Api): Option<SyncError> {
    if o.dest.name == "" || o.namespace == "" then Some(InvalidDestination)
    else if !api.readOk then Some(ApiFailed)
    else if !o.dest.create && DestKey(o) !in store then Some(DestinationMissing)
    else if o.dest.create && DestKey(o) in store && !MayOverwrite(o, store[DestKey(o)]) then Some(NotTheOwner)
    else if !api.writeOk then Some(ApiFailed)
    else None
  }

  function Check(store: Store, o: Owner, api: Api): Option<SyncError> {
    if Refusal(store, o, api).Some? then Refusal(store, o, api)
    else if Recreates(store, o) && !(api.deleteOk && api.recreateOk) then Some(ApiFailed)
    else None
  }

  /** The destination once it is written. */
  function Written(store: Store, o: Owner, data: Data): Secret
    requires !o.dest.create ==> DestKey(o) in store
  {
    if o.dest.create then Desired(o, data) else store[DestKey(o)].(data := Stored(data))
  }

  /** The destination before it is deleted for its type: the labels are off, so that nobody is woken. */
  function Stripped(store: Store, o: Owner, data: Data): Secret
    requires DestKey(o) in store
  {
    Desired(o, data).(secretType := store[DestKey(o)].secretType, labels := map[])
  }

  /** The store after a call; `prune` is the option PruneOrphans. */
  function Synced(store: Store, o: Owner, data: Data, prune: bool, api: Api): Store {
    if Refusal(store, o, api).Some? then store
    else if Recreates(store, o) && !api.deleteOk then store[DestKey(o) := Stripped(store, o, data)]
    else if Recreates(store, o) && !api.recreateOk then store - {DestKey(o)}
    else
      var written := store[DestKey(o) := Written(store, o, data)];
      if prune && api.listOk then WithoutOrphans(written, o, api.stuck) else written
  }

  class SecretStore {
    var secrets: Store

    constructor (secrets: Store)
      ensures this.secrets == secrets
    {
      this.secrets := secrets;
    }

    /** Create and Update of the API. */
    method Put(k: ObjectKey, s: Secret, ok: bool)
      modifies this
      ensures secrets == if ok then old(secrets)[k := s.(data := Stored(s.data))] else old(secrets)
    {
      if ok {
        secrets := secrets[k := s.(data := Stored(s.data))];
      }
    }

    method Delete(k: ObjectKey, ok: bool)
      modifies this
      ensures secrets == if ok then old(secrets) - {k} else old(secrets)
    {
      if ok {
        secrets := secrets - {k};
      }
    }

    method PruneOrphans(o: Owner, api: Api) returns (failed: bool)
      modifies this
      ensures secrets == if api.listOk then WithoutOrphans(old(secrets), o, api.stuck) else old(secrets)
      ensures failed <==>
        || o.uid == "" || !api.listOk
        || exists k :: k in old(secrets) && Orphan(o, k, old(secrets)[k]) && k in api.stuck
    {
      if o.uid == "" || !api.listOk {
        assert o.uid == "" ==> WithoutOrphans(secrets, o, api.stuck) == secrets;
        return true;
      }
      var owned := set k | k in secrets && Finds(o, k, secrets[k]);
      failed := DeleteAllBut(o.dest.name, owned, api.stuck);
    }

    /** Walks the Secrets in any order; one that cannot be deleted does not stop it. */
    method DeleteAllBut(name: string, keys: set<ObjectKey>, stuck: set<ObjectKey>) returns (failed: bool)
      modifies this
      ensures secrets == old(secrets) - (set k | k in keys && k.name != name && k !in stuck)
      ensures failed <==> exists k :: k in keys && k.name != name && k in stuck
    {
      var todo := keys;
      failed := false;
      ghost var gone: set<ObjectKey> := {};
      while todo != {}
        invariant todo <= keys && secrets == old(secrets) - gone
        invariant gone == set k | k in keys && k !in todo && k.name != name && k !in stuck
        invariant failed <==> exists k :: k in keys && k !in todo && k.name != name && k in stuck
        decreases |todo|
      {
        var k :| k in todo;
        todo := todo - {k};
        if k.name != name {
          Delete(k, k !in stuck);
          failed := failed || k in stuck;
          gone := if k in stuck then gone else gone + {k};
        }
      }
    }

    /** `SyncSecret`; a failure to prune orphans is not one of the call. */
    method SyncSecret(o: Owner, data: Data, prune: bool, api: Api) returns (r: Option<SyncError>)
      modifies this
      ensures r == Check(old(secrets), o, api) && secrets == Synced(old(secrets), o, data, prune, api)
    {
      var key := DestKey(o);
      if key.name == "" || key.namespace == "" {
        return Some(InvalidDestination);
      }
      if !api.readOk {
        return Some(ApiFailed);
      }
      var exists_ := key in secrets;
      if !o.dest.create {
        if !exists_ {
          return Some(DestinationMissing);
        }
        Put(key, secrets[key].(data := data), api.writeOk);
        if !api.writeOk {
          return Some(ApiFailed);
        }
      } else {
        if exists_ {
          var checkOwnership := true;
          if o.dest.overwrite {
            checkOwnership := HasOwnerLabels(secrets[key]);
          }
          if checkOwnership && !OwnedBy(secrets[key], RefTo(o)) {
            return Some(NotTheOwner);
          }
        }
        r := WriteOwn(o, data, exists_, api);
        if r.Some? {
          return;
        }
      }
      if prune {
        var _ := PruneOrphans(o, api);
      }
      return None;
    }

    /** The part of `SyncSecret` that writes a Secret it is responsible for. */
    method WriteOwn(o: Owner, data: Data, exists_: bool, api: Api) returns (r: Option<SyncError>)
      requires o.dest.create && exists_ == (DestKey(o) in secrets) && Refusal(secrets, o, api.(writeOk := true)).None?
      modifies this
      ensures r == Check(old(secrets), o, api)
      ensures secrets == Synced(old(secrets), o, data, false, api)
    {
      var key := DestKey(o);
      var secretType := TYPE_OPAQUE;
      if o.dest.secretType != "" {
        secretType := o.dest.secretType;
      }
      var references := [RefTo(o)];
      var labels := o.dest.labels + OwnerLabelsFor(o);
      var dest := Secret(data, secretType, labels, o.dest.annotations, references);
      if exists_ && dest.secretType != secrets[key].secretType {
        r := Recreate(key, dest, api);
      } else {
        Put(key, dest, api.writeOk);
        r := if api.writeOk then None else Some(ApiFailed);
      }
    }

    /** Strips the labels, deletes, and creates anew; each step may be the last. */
    method Recreate(key: ObjectKey, dest: Secret, api: Api) returns (r: Option<SyncError>)
      requires key in secrets
      modifies this
      ensures r == if api.writeOk && api.deleteOk && api.recreateOk then None else Some(ApiFailed)
      ensures var stored := dest.(data := Stored(dest.data));
        secrets ==
          if !api.writeOk then old(secrets)
          else if !api.deleteOk then
            old(secrets)[key := stored.(secretType := old(secrets)[key].secretType, labels := map[])]
          else if !api.recreateOk then old(secrets) - {key}
          else old(secrets)[key := stored]
    {
      Put(key, dest.(secretType := secrets[key].secretType, labels := map[]), api.writeOk);
      if !api.writeOk {
        return Some(ApiFailed);
      }
      Delete(key, api.deleteOk);
      if !api.deleteOk {
        return Some(ApiFailed);
      }
      Put(key, dest, api.recreateOk);
      return if api.recreateOk then None else Some(ApiFailed);
    }
  }

  // ---------------------------------------------------------------- what one call does

  lemma OwnerLabelsWin(o: Owner, data: Data)
    requires o.uid != ""
    ensures HasLabels(Desired(o, data).labels, OwnerLabelsFor(o))
    ensures OwnedBy(Desired(o, data), RefTo(o))
    ensures Finds(o, DestKey(o), Desired(o, data))
  {
    var labels := Desired(o, data).labels;
    assert LABEL_OWNER_UID !in OWNER_LABELS;
    assert HasLabels(labels, OwnerLabelsFor(o));
  }

  const RESERVED_LABELS: set<string> := {
    "app.kubernetes.io/managed-by", "app.kubernetes.io/name", "app.kubernetes.io/component",
    "secrets.hashicorp.com/vso-ownerRefUID"}

  predicate Carries(labels: map<string, string>, k: string, v: string) { k in labels && labels[k] == v }

  predicate CarriesOwnerLabels(labels: map<string, string>) {
    && Carries(labels, "app.kubernetes.io/managed-by", "hashicorp-vso")
    && Carries(labels, "app.kubernetes.io/name", "vault-secrets-operator")
    && Carries(labels, "app.kubernetes.io/component", "secret-sync")
  }

  /** The Secret that the object asks for, field by field: owner labels win, and there are no others than configured. */
  predicate AskedFor(o: Owner, data: Data, s: Secret) {
    && s.data == Stored(data)
    && s.secretType == (if o.dest.secretType == "" then "Opaque" else o.dest.secretType)
    && s.annotations == o.dest.annotations
    && s.owners == [OwnerRef(o.apiVersion, o.kind, o.name, o.uid)]
    && (o.uid != "" ==>
          CarriesOwnerLabels(s.labels) && Carries(s.labels, "secrets.hashicorp.com/vso-ownerRefUID", o.uid))
    && (forall k :: k in o.dest.labels && (o.uid == "" || k !in RESERVED_LABELS) ==>
          Carries(s.labels, k, o.dest.labels[k]))
    && (forall k :: k in s.labels ==> k in o.dest.labels || (o.uid != "" && k in RESERVED_LABELS))
  }

  lemma DesiredIsAskedFor(o: Owner, data: Data)
    ensures AskedFor(o, data, Desired(o, data))
  {
    var labels := Desired(o, data).labels;
    assert OwnerLabelsFor(o).Keys <= RESERVED_LABELS;
    assert o.uid != "" ==> OwnerLabelsFor(o).Keys == RESERVED_LABELS;
  }

  lemma OwnerLabelsSpelledOut(labels: map<string, string>)
    ensures HasLabels(labels, OWNER_LABELS) <==> CarriesOwnerLabels(labels)
  {
    assert OWNER_LABELS.Keys ==
      {"app.kubernetes.io/managed-by", "app.kubernetes.io/name", "app.kubernetes.io/component"};
  }

  /** The Secrets that a call prunes besides its destination. */
  predicate OwnedElsewhere(o: Owner, k: ObjectKey, s: Secret) {
    && o.uid != "" && k.namespace == o.namespace && k.name != o.dest.name
    && CarriesOwnerLabels(s.labels) && Carries(s.labels, "secrets.hashicorp.com/vso-ownerRefUID", o.uid)
    && s.owners == [OwnerRef(o.apiVersion, o.kind, o.name, o.uid)]
  }

  lemma OrphanIff(o: Owner, k: ObjectKey, s: Secret)
    ensures Orphan(o, k, s) <==> OwnedElsewhere(o, k, s)
  {
    OwnerLabelsSpelledOut(s.labels);
    if o.uid != "" {
      assert HasLabels(s.labels, OwnerLabelsFor(o)) <==>
        HasLabels(s.labels, OWNER_LABELS) && Carries(s.labels, LABEL_OWNER_UID, o.uid) by {
        assert LABEL_OWNER_UID !in OWNER_LABELS;
        assert OwnerLabelsFor(o).Keys == OWNER_LABELS.Keys + {LABEL_OWNER_UID};
      }
    }
  }

  /** A call is refused exactly for these reasons, in this order. */
  lemma CheckIff(store: Store, o: Owner, api: Api)
    ensures var r := Check(store, o, api);
      var named := o.dest.name != "" && o.namespace != "";
      var k := ObjectKey(o.namespace, o.dest.name);
      var mine := k in store && CarriesOwnerLabels(store[k].labels)
                  && store[k].owners == [OwnerRef(o.apiVersion, o.kind, o.name, o.uid)];
      var free := k in store && o.dest.overwrite && !CarriesOwnerLabels(store[k].labels);
      var retyped := o.dest.create && k in store
                     && store[k].secretType != (if o.dest.secretType == "" then "Opaque" else o.dest.secretType);
      && (r == Some(InvalidDestination) <==> !named)
      && (r == Some(DestinationMissing) <==> named && api.readOk && !o.dest.create && k !in store)
      && (r == Some(NotTheOwner) <==> named && api.readOk && o.dest.create && k in store && !mine && !free)
      && (r == None <==>
            && named && api.readOk && api.writeOk && (if o.dest.create then k in store ==> mine || free else k in store)
            && (retyped ==> api.deleteOk && api.recreateOk))
  {
    if DestKey(o) in store {
      OwnerLabelsSpelledOut(store[DestKey(o)].labels);
    }
  }

  /**
   After a successful call with create=true the destination is the Secret that the object asks
   for; with create=false it is the Secret that was there, whoever owns it, with the new data and
   nothing else changed.  Of the other Secrets exactly those go that the object owns, finds and
   can delete, and every Secret left is as before.
   */
  lemma SyncIsExact(store: Store, o: Owner, data: Data, prune: bool, api: Api)
    requires Check(store, o, api).None?
    ensures var after := Synced(store, o, data, prune, api); var k0 := ObjectKey(o.namespace, o.dest.name);
      && k0 in after
      && (o.dest.create ==> AskedFor(o, data, after[k0]))
      && (!o.dest.create ==> k0 in store && after[k0] == store[k0].(data := Stored(data)))
      && (o.dest.create && o.uid != "" ==> OwnedBy(after[k0], RefTo(o)))
      && (forall k :: k in store && k != k0 ==>
            (k !in after <==> prune && api.listOk && k !in api.stuck && OwnedElsewhere(o, k, store[k])))
      && (forall k :: k in after && k != k0 ==> k in store && after[k] == store[k])
  {
    DesiredIsAskedFor(o, data);
    if o.uid != "" {
      OwnerLabelsWin(o, data);
    }
    forall k | k in store
      ensures Orphan(o, k, store[k]) <==> OwnedElsewhere(o, k, store[k])
    {
      OrphanIff(o, k, store[k]);
    }
  }

  /** A call that fails leaves all other Secrets alone, and the destination too, unless its type was to change. */
  lemma FailureIsLocal(store: Store, o: Owner, data: Data, prune: bool, api: Api)
    requires Check(store, o, api).Some?
    ensures var after := Synced(store, o, data, prune, api);
      && (forall k :: k != DestKey(o) ==> (k in after <==> k in store) && (k in store ==> after[k] == store[k]))
      && (Refusal(store, o, api).Some? ==> after == store)
      && (Refusal(store, o, api).None? ==> (DestKey(o) !in after <==> api.deleteOk))
  {
  }

  /**
   When the deletion for a new type fails, the Secret is left without its labels: in the next
   call its owner is refused, exactly unless it may overwrite.
   */
  lemma StrippedOwnerIsRefusedIff(store: Store, o: Owner, data: Data, prune: bool, api: Api, next: Api)
    requires Refusal(store, o, api).None? && Recreates(store, o) && !api.deleteOk
    requires next.readOk && next.writeOk && next.deleteOk && next.recreateOk
    ensures Check(Synced(store, o, data, prune, api), o, next) == if o.dest.overwrite then None else Some(NotTheOwner)
  {
    var s := Stripped(store, o, data);
    assert "app.kubernetes.io/name" in OWNER_LABELS && "app.kubernetes.io/name" !in s.labels;
  }

  /**
   A Secret owned by somebody else changes in a call exactly when the caller has create=false
   and names that very Secret; then only its data is replaced.  Overwrite=true is no exception,
   and neither is any failure of the API.
   */
  lemma ForeignSecretChangesIff(
    store: Store, o: Owner, data: Data, prune: bool, api: Api, k: ObjectKey, r: OwnerRef)
    requires k in store && OwnedBy(store[k], r) && r != RefTo(o)
    ensures var after := Synced(store, o, data, prune, api);
      && k in after
      && (after[k] != store[k] <==>
            !o.dest.create && k == DestKey(o) && Check(store, o, api).None? && store[k].data != Stored(data))
      && after[k] == store[k].(data := if after[k] == store[k] then store[k].data else Stored(data))
  {
  }

  // ---------------------------------------------------------------- whole runs

  datatype Call = Call(owner: Owner, data: Data, prune: bool, api: Api)

  function Run(store: Store, calls: seq<Call>): Store {
    if calls == [] then store
    else
      var c := calls[|calls| - 1];
      Synced(Run(store, calls[..|calls| - 1]), c.owner, c.data, c.prune, c.api)
  }

  /** Calls by create=true objects other than `uid`. */
  predicate ByOthers(calls: seq<Call>, uid: string) {
    forall i :: 0 <= i < |calls| ==> calls[i].owner.uid != uid && calls[i].owner.dest.create
  }

  /** Whatever others sync, and whatever fails for them, a Secret that an object owns is not touched. */
  lemma {:induction false} OwnedSecretIsUntouched(store: Store, calls: seq<Call>, k: ObjectKey, r: OwnerRef)
    requires k in store && OwnedBy(store[k], r) && ByOthers(calls, r.uid)
    ensures k in Run(store, calls) && Run(store, calls)[k] == store[k]
  {
    if calls != [] {
      var n := |calls| - 1;
      var c := calls[n];
      OwnedSecretIsUntouched(store, calls[..n], k, r);
      ForeignSecretChangesIff(Run(store, calls[..n]), c.owner, c.data, c.prune, c.api, k, r);
    }
  }

  /** Calls by create=true objects that do not overwrite, the owner's own ones included. */
  predicate WithoutOverwrite(calls: seq<Call>) {
    forall i :: 0 <= i < |calls| ==> calls[i].owner.dest.create && !calls[i].owner.dest.overwrite
  }

  lemma UnlabelledIsUntouched(store: Store, c: Call, k: ObjectKey)
    requires k in store && !HasOwnerLabels(store[k]) && c.owner.dest.create && !c.owner.dest.overwrite
    ensures var after := Synced(store, c.owner, c.data, c.prune, c.api); k in after && after[k] == store[k]
    ensures DestKey(c.owner) == k ==> Check(store, c.owner, c.api).Some?
  {
  }

  /**
   From then on: over any run of calls that do not overwrite, the stripped Secret stays as it is,
   and every call that names it is refused, its owner's with all the others.
   */
  lemma {:induction false} StrippedStaysRefused(
    store: Store, o: Owner, data: Data, prune: bool, api: Api, calls: seq<Call>, next: Call)
    requires Refusal(store, o, api).None? && Recreates(store, o) && !api.deleteOk
    requires WithoutOverwrite(calls + [next]) && DestKey(next.owner) == DestKey(o)
    ensures var after := Run(Synced(store, o, data, prune, api), calls);
      && DestKey(o) in after && after[DestKey(o)] == Stripped(store, o, data)
      && Check(after, next.owner, next.api).Some?
  {
    var s := Stripped(store, o, data);
    assert "app.kubernetes.io/name" in OWNER_LABELS && "app.kubernetes.io/name" !in s.labels;
    var stripped := Synced(store, o, data, prune, api);
    assert forall i :: 0 <= i < |calls| ==> calls[i] == (calls + [next])[i];
    UnlabelledStays(stripped, calls, DestKey(o));
    assert (calls + [next])[|calls|] == next;
    UnlabelledIsUntouched(Run(stripped, calls), next, DestKey(o));
  }

  lemma {:induction false} UnlabelledStays(store: Store, calls: seq<Call>, k: ObjectKey)
    requires k in store && !HasOwnerLabels(store[k]) && WithoutOverwrite(calls)
    ensures k in Run(store, calls) && Run(store, calls)[k] == store[k]
  {
    if calls != [] {
      var n := |calls| - 1;
      UnlabelledStays(store, calls[..n], k);
      UnlabelledIsUntouched(Run(store, calls[..n]), calls[n], k);
    }
  }

  lemma {:induction false} RunConcat(store: Store, a: seq<Call>, b: seq<Call>)
    ensures Run(store, a + b) == Run(Run(store, a), b)
    decreases |b|
  {
    if b == [] {
      assert a + b == a;
    } else {
      var n := |b| - 1;
      assert (a + b)[..|a| + n] == a + b[..n];
      RunConcat(store, a, b[..n]);
    }
  }

  /**
   Over any run: from a successful sync of an object until its next call, its destination holds
   exactly what it wrote, no matter which calls other objects made before and make in between.
   */
  lemma DestinationHoldsUntilNextOwnCall(store: Store, before: seq<Call>, c: Call, between: seq<Call>)
    requires c.owner.dest.create && c.owner.uid != ""
    requires Check(Run(store, before), c.owner, c.api).None?
    requires ByOthers(between, c.owner.uid)
    ensures var after := Run(store, before + [c] + between);
      DestKey(c.owner) in after && AskedFor(c.owner, c.data, after[DestKey(c.owner)])
  {
    RunConcat(store, before, [c]);
    RunConcat(store, before + [c], between);
    assert [c][..0] == [];
    assert Run(Run(store, before), [c]) == Synced(Run(store, before), c.owner, c.data, c.prune, c.api);
    SyncIsExact(Run(store, before), c.owner, c.data, c.prune, c.api);
    OwnedSecretIsUntouched(Run(store, before + [c]), between, DestKey(c.owner), RefTo(c.owner));
  }
}
