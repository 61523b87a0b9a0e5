/**
 Drift detection (helpers/hmac.go) and the sync decision of a VaultStaticSecret
 (controllers/vaultstaticsecret_controller.go).  `mac` is the HMAC (section 2 of RFC 2104)
 of the JSON text of a data map under the operator's key; statements that need it assume
 that it does not collide.
 */
module DriftDetection {
  import opened Results
  import opened Base64
  import opened SecretSync

  type MacFunction = Data -> Bytes

  ghost predicate CollisionFree(mac: MacFunction) {
    && (forall a, b :: mac(a) == mac(b) ==> a == b)
    && (forall a :: mac(a) != [])
  }

  datatype HmacError = NoKey | BadStatusMAC | Unread

  /** The destination as it is read: absent, present, or not to be had. */
  type Reading = Result<Option<Secret>, HmacError>

  /** `HMACDestinationSecret`: does the destination still match the recorded MAC? */
  function DestinationMatches(cur: string, dest: Reading, mac: MacFunction): Result<bool, HmacError> {
    if cur == "" then Ok(false)
    else if Decode(cur).None? then Err(BadStatusMAC)
    else
      match dest
      case Err(e) => Err(e)
      case Ok(None) => Ok(false)
      case Ok(Some(secret)) => Ok(mac(secret.data) == Decode(cur).value)
  }

  /** `HandleSecretHMAC`: equal only if both the new data and the destination match the recorded MAC. */
  function HandleSecretHMAC(cur: string, data: Data, dest: Reading, mac: MacFunction)
    : Result<(bool, Bytes), HmacError>
  {
    var newMAC := mac(data);
    if cur == "" then Ok((false, newMAC))
    else if Decode(cur).None? then Err(BadStatusMAC)
    else if Decode(cur).value != newMAC then Ok((false, newMAC))
    else
      match DestinationMatches(cur, dest, mac)
      case Err(e) => Err(e)
      case Ok(equal) => Ok((equal, newMAC))
  }

  /** The MACs are equal exactly when the data is the data last recorded and the destination holds it. */
  lemma EqualMACsIff(cur: string, data: Data, dest: Reading, mac: MacFunction)
    requires CollisionFree(mac)
    ensures var r := HandleSecretHMAC(cur, data, dest, mac);
      r.Ok? ==> (r.value.0 <==>
        Decode(cur) == Some(mac(data)) && dest.Ok? && dest.value.Some? && dest.value.value.data == data)
  {
    assert Decode("") == Some([]);
  }

  // ---------------------------------------------------------------- the VaultStaticSecret reconciler

  datatype Status = Status(mac: string, lastGeneration: nat)

  /** Persisted status, the cluster's Secrets, and the object with its generation. */
  datatype State = State(store: Store, status: Status, owner: Owner, generation: nat)

  /** The API during one reconciliation. */
  datatype Env = Env(
    keyOk: bool,            // the HMAC key can be read
    destOk: bool,           // so can the destination, for drift detection
    sync: Api,
    statusOk: bool,         // Status().Update
    finalizerOk: bool)      // maybeAddFinalizer

  /** `success` means that `Reconcile` ran to its end; `wrote` that it called `SyncSecret`. */
  datatype Outcome = Outcome(success: bool, wrote: bool)

  function Destination(s: State, env: Env): Reading {
    if !env.destOk then Err(Unread)
    else Ok(if DestKey(s.owner) in s.store then Some(s.store[DestKey(s.owner)]) else None)
  }

  /** Whether this reconciliation must write, and the MAC it records; without HMACs it always writes. */
  function Decide(s: State, data: Data, useHmac: bool, mac: MacFunction, env: Env)
    : Result<(bool, string), HmacError>
  {
    if !useHmac then Ok((true, s.status.mac))
    else if !env.keyOk then Err(NoKey)
    else
      match HandleSecretHMAC(s.status.mac, data, Destination(s, env), mac)
      case Err(e) => Err(e)
      case Ok((equal, newMAC)) =>
        Ok((!(equal && s.status.lastGeneration == s.generation), Encode(newMAC)))
  }

  /** One reconciliation with the data read from Vault. */
  function Reconcile(s: State, data: Data, useHmac: bool, mac: MacFunction, env: Env): (State, Outcome) {
    var d := Decide(s, data, useHmac, mac, env);
    if d.Err? then (s, Outcome(false, false))
    else
      var (doSync, newMAC) := d.value;
      var store := if doSync then Synced(s.store, s.owner, data, true, env.sync) else s.store;
      if doSync && Check(s.store, s.owner, env.sync).Some? then (s.(store := store), Outcome(false, false))
      else
        var status := if env.statusOk then Status(newMAC, s.generation) else s.status;
        (s.(store := store, status := status), Outcome(env.finalizerOk, doSync))
  }

  class StaticSecretReconciler {
    const secrets: SecretStore
    var owner: Owner
    var status: Status
    var generation: nat

    ghost function View(): State
      reads this, secrets
    {
      State(secrets.secrets, status, owner, generation)
    }

    constructor (secrets: SecretStore, owner: Owner, status: Status, generation: nat)
      ensures View() == State(secrets.secrets, status, owner, generation) && this.secrets == secrets
    {
      this.secrets, this.owner, this.status, this.generation := secrets, owner, status, generation;
    }

    /** The part of `Reconcile` that follows the read from Vault. */
    method Run(data: Data, useHmac: bool, mac: MacFunction, env: Env) returns (r: Outcome)
      modifies this`status, secrets
      ensures (View(), r) == Reconcile(old(View()), data, useHmac, mac, env)
    {
      var doSync := true;
      var newStatus := status;
      if useHmac {
        if !env.keyOk {
          return Outcome(false, false);
        }
        var key := DestKey(owner);
        var dest: Reading :=
          if !env.destOk then Err(Unread)
          else Ok(if key in secrets.secrets then Some(secrets.secrets[key]) else None);
        var handled := HandleSecretHMAC(status.mac, data, dest, mac);
        if handled.Err? {
          return Outcome(false, false);
        }
        var (macsEqual, messageMAC) := handled.value;
        if status.lastGeneration == generation {
          doSync := !macsEqual;
        }
        newStatus := newStatus.(mac := Encode(messageMAC));
      }
      if doSync {
        var err := secrets.SyncSecret(owner, data, true, env.sync);
        if err.Some? {
          return Outcome(false, false);
        }
      }
      newStatus := newStatus.(lastGeneration := generation);
      if env.statusOk {
        status := newStatus;
      }
      return Outcome(env.finalizerOk, doSync);
    }
  }

  // ---------------------------------------------------------------- soundness

  ghost predicate DestinationHolds(s: State, data: Data) {
    DestKey(s.owner) in s.store && Stored(s.store[DestKey(s.owner)].data) == Stored(data)
  }

  /**
   Whatever happened to the Secret and to the status before, a successful reconciliation leaves
   the destination equal to the data read from Vault, whether or not it wrote.
   */
  lemma SuccessMeansInSync(s: State, data: Data, useHmac: bool, mac: MacFunction, env: Env)
    requires CollisionFree(mac) && Reconcile(s, data, useHmac, mac, env).1.success
    ensures DestinationHolds(Reconcile(s, data, useHmac, mac, env).0, data)
  {
    var d := Decide(s, data, useHmac, mac, env).value;
    if d.0 {
      SyncIsExact(s.store, s.owner, data, true, env.sync);
    } else {
      EqualMACsIff(s.status.mac, data, Destination(s, env), mac);
    }
  }

  /** The destination exists and holds the data. */
  predicate HeldBy(store: Store, o: Owner, data: Data) {
    var k := ObjectKey(o.namespace, o.dest.name);
    k in store && store[k].data == data
  }

  /**
   A reconciliation that gets past the write calls `SyncSecret` exactly when HMACs are off, the
   object was updated since the generation on record, the MAC on record is not that of the data,
   or the destination does not hold the data.
   */
  lemma WroteIff(s: State, data: Data, useHmac: bool, mac: MacFunction, env: Env)
    requires CollisionFree(mac) && Reconcile(s, data, useHmac, mac, env).1.success
    ensures Reconcile(s, data, useHmac, mac, env).1.wrote <==>
      || !useHmac || s.status.lastGeneration != s.generation
      || Decode(s.status.mac) != Some(mac(data)) || !HeldBy(s.store, s.owner, data)
  {
    EqualMACsIff(s.status.mac, data, Destination(s, env), mac);
  }

  /** When it writes, it leaves behind the whole Secret that the object asks for; otherwise the store is as before. */
  lemma WroteEverything(s: State, data: Data, useHmac: bool, mac: MacFunction, env: Env)
    requires Reconcile(s, data, useHmac, mac, env).1.success
    ensures var (s', r) := Reconcile(s, data, useHmac, mac, env);
      var k := ObjectKey(s.owner.namespace, s.owner.dest.name);
      && (r.wrote ==> k in s'.store)
      && (r.wrote && s.owner.dest.create ==> AskedFor(s.owner, data, s'.store[k]))
      && (r.wrote && !s.owner.dest.create ==> k in s.store && s'.store[k] == s.store[k].(data := Stored(data)))
      && (!r.wrote ==> s'.store == s.store)
  {
    if Reconcile(s, data, useHmac, mac, env).1.wrote {
      SyncIsExact(s.store, s.owner, data, true, env.sync);
    }
  }

  /** A reconciliation that gets past the write records the generation and, with HMACs, the MAC of the data. */
  lemma SuccessRecords(s: State, data: Data, useHmac: bool, mac: MacFunction, env: Env)
    requires Reconcile(s, data, useHmac, mac, env).1.success
    ensures var s' := Reconcile(s, data, useHmac, mac, env).0;
      && s'.owner == s.owner && s'.generation == s.generation
      && (env.statusOk ==> s'.status.lastGeneration == s.generation)
      && (env.statusOk && useHmac ==> Decode(s'.status.mac) == Some(mac(data)))
      && (!useHmac ==> s'.status.mac == s.status.mac) && (!env.statusOk ==> s'.status == s.status)
  {
    DecodeEncode(mac(data));
  }

  /** It succeeds exactly when no call that it needs fails: the MACs, the write if it must write, and the finalizer. */
  lemma SucceedsIff(s: State, data: Data, useHmac: bool, mac: MacFunction, env: Env)
    requires CollisionFree(mac)
    ensures var cur := Decode(s.status.mac);
      var same := cur == Some(mac(data));
      var mustWrite := || !useHmac || s.status.lastGeneration != s.generation
                       || !same || !HeldBy(s.store, s.owner, data);
      Reconcile(s, data, useHmac, mac, env).1.success <==>
        && env.finalizerOk
        && (useHmac ==> env.keyOk && cur.Some? && (same ==> env.destOk))
        && (mustWrite ==> Check(s.store, s.owner, env.sync).None?)
  {
    assert Decode("") == Some([]);
    EqualMACsIff(s.status.mac, data, Destination(s, env), mac);
  }

  /**
   A reconciliation with or without HMACs, an edit of the cluster's Secrets by others, or an
   update of the object, its destination included.
   */
  datatype Event =
    | Reconciled(data: Data, useHmac: bool, env: Env)
    | Edited(store: Store)
    | Updated(owner: Owner, generation: nat)

  function Step(s: State, ev: Event, mac: MacFunction): State {
    match ev
    case Reconciled(data, useHmac, env) => Reconcile(s, data, useHmac, mac, env).0
    case Edited(store) => s.(store := store)
    case Updated(owner, generation) => s.(owner := owner, generation := generation)
  }

  function Run(s: State, events: seq<Event>, mac: MacFunction): State {
    if events == [] then s
    else Step(Run(s, events[..|events| - 1], mac), events[|events| - 1], mac)
  }

  /**
   Over every run with failing calls, arbitrary outside edits and changing destinations: after
   each successful reconciliation all is in sync.
   */
  lemma {:induction false} InSyncAfterEverySuccess(s: State, events: seq<Event>, mac: MacFunction, n: nat)
    requires CollisionFree(mac) && n < |events| && events[n].Reconciled?
    requires Reconcile(Run(s, events[..n], mac), events[n].data, events[n].useHmac, mac, events[n].env).1.success
    ensures DestinationHolds(Run(s, events[..n + 1], mac), events[n].data)
  {
    assert events[..n + 1][..n] == events[..n];
    SuccessMeansInSync(Run(s, events[..n], mac), events[n].data, events[n].useHmac, mac, events[n].env);
  }

  /**
   Over every run: a successful reconciliation of an object whose generation is not the one on
   record applies the whole update, whatever the MACs say.
   */
  lemma {:induction false} UpdateIsApplied(s: State, events: seq<Event>, mac: MacFunction, n: nat)
    requires CollisionFree(mac) && n < |events| && events[n].Reconciled?
    requires var s1 := Run(s, events[..n], mac);
      && s1.status.lastGeneration != s1.generation && s1.owner.dest.create
      && Reconcile(s1, events[n].data, events[n].useHmac, mac, events[n].env).1.success
    ensures var s2 := Run(s, events[..n + 1], mac); var k := ObjectKey(s2.owner.namespace, s2.owner.dest.name);
      && s2.owner == Run(s, events[..n], mac).owner
      && k in s2.store && AskedFor(s2.owner, events[n].data, s2.store[k])
  {
    assert events[..n + 1][..n] == events[..n];
    var s1 := Run(s, events[..n], mac);
    WroteIff(s1, events[n].data, events[n].useHmac, mac, events[n].env);
    WroteEverything(s1, events[n].data, events[n].useHmac, mac, events[n].env);
    SuccessRecords(s1, events[n].data, events[n].useHmac, mac, events[n].env);
  }

  // ---------------------------------------------------------------- the fixpoint

  /** The calls that a repetition needs; whether its status is persisted does not matter. */
  predicate Available(env: Env) {
    env.keyOk && env.destOk && env.sync.readOk && env.sync.writeOk && env.finalizerOk
  }

  /** What a successful reconciliation leaves behind for the next one. */
  lemma {:induction false} AfterSuccess(s: State, data: Data, mac: MacFunction, env: Env, next: Env)
    requires CollisionFree(mac) && s.owner.dest.create && s.owner.uid != ""
    requires env.statusOk && Reconcile(s, data, true, mac, env).1.success && Available(next)
    requires forall k :: k in s.store ==> Stored(s.store[k].data) == s.store[k].data
    ensures var s' := Reconcile(s, data, true, mac, env).0;
      && s'.owner == s.owner && s'.generation == s.generation
      && s'.status == Status(Encode(mac(data)), s.generation)
      && DestKey(s.owner) in s'.store && s'.store[DestKey(s.owner)].data == Stored(data)
      && (Check(s'.store, s.owner, next.sync).None? || Stored(data) == data)
  {
    if Decide(s, data, true, mac, env).value.0 {
      SyncIsExact(s.store, s.owner, data, true, env.sync);
    } else {
      EqualMACsIff(s.status.mac, data, Destination(s, env), mac);
    }
  }

  /**
   Repeating a successful reconciliation with nothing changed succeeds, and it writes again
   exactly when the data is the empty map, which the cluster hands back as nil.
   */
  lemma {:induction false} RepeatWritesIff(s: State, data: Data, mac: MacFunction, env: Env, next: Env)
    requires CollisionFree(mac) && s.owner.dest.create && s.owner.uid != ""
    requires env.statusOk && Reconcile(s, data, true, mac, env).1.success && Available(next)
    requires forall k :: k in s.store ==> Stored(s.store[k].data) == s.store[k].data
    ensures var s' := Reconcile(s, data, true, mac, env).0;
      var (s'', r) := Reconcile(s', data, true, mac, next);
      && r.success
      && (r.wrote <==> Stored(data) != data)
      && (!r.wrote ==> s'' == s')
  {
    var s' := Reconcile(s, data, true, mac, env).0;
    AfterSuccess(s, data, mac, env, next);
    DecodeEncode(mac(data));
    EqualMACsIff(s'.status.mac, data, Destination(s', next), mac);
  }

  function Repeats(data: Data, envs: seq<Env>): seq<Event> {
    seq(|envs|, i requires 0 <= i < |envs| => Reconciled(data, true, envs[i]))
  }

  /** With non-empty data, any number of repetitions leaves the state exactly as it was. */
  lemma {:induction false} RepeatedReconcilesAreQuiet(
    s: State, data: Data, mac: MacFunction, env: Env, envs: seq<Env>)
    requires CollisionFree(mac) && s.owner.dest.create && s.owner.uid != "" && Stored(data) == data
    requires env.statusOk && Reconcile(s, data, true, mac, env).1.success
    requires forall i :: 0 <= i < |envs| ==> Available(envs[i])
    requires forall k :: k in s.store ==> Stored(s.store[k].data) == s.store[k].data
    ensures var s' := Reconcile(s, data, true, mac, env).0; Run(s', Repeats(data, envs), mac) == s'
  {
    var s', events := Reconcile(s, data, true, mac, env).0, Repeats(data, envs);
    forall i | 0 <= i < |events|
      ensures Step(s', events[i], mac) == s'
    {
      RepeatWritesIff(s, data, mac, env, envs[i]);
    }
    RunOfFixpoint(s', events, mac);
  }

  lemma {:induction false} RunOfFixpoint(s: State, events: seq<Event>, mac: MacFunction)
    requires forall i :: 0 <= i < |events| ==> Step(s, events[i], mac) == s
    ensures Run(s, events, mac) == s
  {
    if events != [] {
      RunOfFixpoint(s, events[..|events| - 1], mac);
    }
  }

  // ---------------------------------------------------------------- static credentials

  const STRIPPED: set<string> := {"ttl", "rotation_schedule", "rotation_period", "last_vault_rotation", "_raw"}

  /** What the MAC of static credentials covers. */
  function DataToMAC(data: Data): Data {
    if data.NilData? then data else Fields(data.fields - STRIPPED)
  }

  /** The write decision of `syncSecret` for static credentials of a VaultDynamicSecret. */
  function StaticCredsWrites(cur: string, data: Data, dest: Reading, mac: MacFunction): Result<bool, HmacError> {
    match HandleSecretHMAC(cur, DataToMAC(data), dest, mac)
    case Err(e) => Err(e)
    case Ok((equal, _)) => Ok(!equal)
  }

  /**
   Here "unchanged means no write" fails: the MAC covers the stripped data while drift detection
   looks at the whole Secret.  Right after a sync of the same data, a repetition is quiet exactly
   when the data holds none of the five stripped keys (and is not empty).
   */
  lemma StaticCredsQuietIff(o: Owner, data: Data, mac: MacFunction)
    requires CollisionFree(mac) && data.Fields?
    ensures StaticCredsWrites(Encode(mac(DataToMAC(data))), data, Ok(Some(Desired(o, data))), mac) ==
      Ok(!(data.fields != map[] && data.fields.Keys !!
           {"ttl", "rotation_schedule", "rotation_period", "last_vault_rotation", "_raw"}))
  {
    var cur := Encode(mac(DataToMAC(data)));
    DecodeEncode(mac(DataToMAC(data)));
    EqualMACsIff(cur, DataToMAC(data), Ok(Some(Desired(o, data))), mac);
    if data.fields.Keys !! STRIPPED {
      assert data.fields - STRIPPED == data.fields;
    } else {
      var k :| k in data.fields.Keys && k in STRIPPED;
      assert k !in data.fields - STRIPPED;
    }
  }
}
