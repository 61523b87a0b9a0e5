/**
 One reconciliation of a VaultDynamicSecret (controllers/vaultdynamicsecret_controller.go)
 as a step on the persisted status and the object's entry in the SyncRegistry.  Clock,
 random draws, Vault, the Kubernetes API and the client factory are the step's surroundings.
 */
module DynamicSecrets {
  import opened Results
  import opened Horizons

  datatype Lease = Lease(id: string, duration: nat, renewable: bool)

  datatype CredsMeta = CredsMeta(
    lastVaultRotation: int, rotationPeriod: int, rotationSchedule: string, ttl: int)

  const NO_CREDS: CredsMeta := CredsMeta(0, 0, "", 0)

  datatype ClientMeta = ClientMeta(key: string, id: string)

  datatype Status = Status(
    lastGeneration: nat,
    podUID: string,
    lastRenewalTime: nat,
    lease: Lease,
    client: ClientMeta,
    creds: CredsMeta,
    mac: string)

  datatype Spec = Spec(
    generation: nat,
    create: bool,
    renewalPercent: int,
    allowStaticCreds: bool,
    refreshAfter: nat)

  /** What `syncSecret` returns on success; the last two are the status fields it may replace. */
  datatype SyncResult = SyncResult(lease: Lease, updated: bool, creds: Option<CredsMeta>, mac: Option<string>)

  datatype Surroundings = Surroundings(
    now: nat,                     // nanoseconds since the epoch
    podUID: string,
    spec: Spec,
    deleted: bool,
    destExists: bool,
    client: Option<ClientMeta>,   // ClientFactory.Get
    renewal: Option<Lease>,       // Vault's answer to the renewal, None on an error
    transformOk: bool,
    sync: Option<SyncResult>,     // syncSecret, None on an error
    statusOk: bool,               // Status().Update
    finalizerOk: bool,            // maybeAddFinalizer
    backOff: nat,
    random: nat)

  datatype State = State(status: Status, pending: bool)

  datatype Branch =
    | Deletion
    | AwaitDestination
    | NoClient
    | RestartSkip
    | Renewed
    | NotRenewableAnymore
    | LeaseIDChanged
    | TransformFailed
    | SyncFailed
    | Synced

  /** `failed` is an error returned to the queue; otherwise `requeue` is RequeueAfter, if any. */
  datatype Outcome = Outcome(branch: Branch, failed: bool, requeue: Option<int>)

  datatype Reason =
    | InitialSync | ForceSync | ResourceUpdated | InexistentDestination | ConfigChanged | TokenRotated

  // ---------------------------------------------------------------- decisions

  function SyncReason(s: State, e: Surroundings, client: ClientMeta): Option<Reason> {
    if s.status.lastGeneration == 0 then Some(InitialSync)
    else if s.pending then Some(ForceSync)
    else if e.spec.generation != s.status.lastGeneration then Some(ResourceUpdated)
    else if e.spec.create && !e.destExists then Some(InexistentDestination)
    else if s.status.client.key != "" && s.status.client.key != client.key then Some(ConfigChanged)
    else if s.status.client.id != "" && s.status.client.id != client.id then Some(TokenRotated)
    else None
  }

  /** `getRotationDuration` for secrets that are not static credentials. */
  function LeaseDuration(st: Status, spec: Spec): nat {
    if st.lease.duration == 0 then spec.refreshAfter else st.lease.duration * SECOND
  }

  function RotationTime(st: Status, spec: Spec): int {
    if spec.allowStaticCreds then (st.creds.lastVaultRotation + st.creds.ttl) * SECOND
    else st.lastRenewalTime * SECOND + StartRenewingAt(LeaseDuration(st, spec), spec.renewalPercent)
  }

  const STATIC_CREDS_JITTER: nat := 3 * SECOND

  /** `computeRelativeHorizonWithJitter` with a minimum of one second. */
  function RelativeHorizon(st: Status, spec: Spec, now: nat, random: nat): (int, bool) {
    var ts := RotationTime(st, spec);
    var horizon: nat := if ts - now < SECOND then SECOND else ts - now;
    if spec.allowStaticCreds then (horizon + Jitter(STATIC_CREDS_JITTER, 5, random), now < ts)
    else (horizon - Jitter(horizon, 5, random), now > ts)
  }

  predicate RestartSkips(s: State, e: Surroundings, client: ClientMeta) {
    && SyncReason(s, e, client).None?
    && e.podUID != "" && e.podUID != s.status.podUID
    && RelativeHorizon(s.status, e.spec, e.now, e.random).1 == e.spec.allowStaticCreds
  }

  predicate TriesRenewal(s: State, e: Surroundings, client: ClientMeta) {
    && SyncReason(s, e, client).None? && !RestartSkips(s, e, client)
    && s.status.lease.renewable && !e.spec.allowStaticCreds && s.status.lease.id != ""
  }

  /** `renewLease`: a shorter lease than the recorded one counts as a failure. */
  function RenewLease(s: State, e: Surroundings): Option<Lease> {
    if e.renewal.Some? && e.renewal.value.duration >= s.status.lease.duration then e.renewal else None
  }

  predicate IsStaticCreds(m: CredsMeta) {
    m.lastVaultRotation > 0 && (m.rotationPeriod >= 1 || m.rotationSchedule != "")
  }

  function PostSyncHorizon(st: Status, spec: Spec, random: nat): int {
    if !spec.allowStaticCreds then
      DynamicHorizonWithJitter(LeaseDuration(st, spec), spec.renewalPercent, random)
    else if !IsStaticCreds(st.creds) then 0
    else
      var d := st.creds.ttl * SECOND;
      var horizon := if d <= 0 then SECOND
                     else if st.creds.rotationPeriod > 0 then d + SECOND / 2
                     else d;
      horizon + Jitter(STATIC_CREDS_JITTER, 5, random)
  }

  function RenewalHorizon(lease: Lease, spec: Spec, random: nat): int {
    var d := if lease.duration == 0 then 5 * SECOND else lease.duration * SECOND;
    DynamicHorizonWithJitter(d, spec.renewalPercent, random)
  }

  // ---------------------------------------------------------------- the step

  /** `updateStatus`: the generation always advances, and a failed update is only recorded. */
  function Persisted(old_: Status, new_: Status, e: Surroundings): Status {
    if !e.statusOk then old_
    else new_.(lastGeneration := e.spec.generation,
               podUID := if e.podUID != "" then e.podUID else new_.podUID)
  }

  function Finish(s: State, new_: Status, e: Surroundings, branch: Branch, horizon: int): (State, Outcome) {
    (s.(status := Persisted(s.status, new_, e)),
     if e.finalizerOk then Outcome(branch, false, Some(horizon)) else Outcome(branch, true, None))
  }

  function Renew(s: State, e: Surroundings, client: ClientMeta, lease: Lease): (State, Outcome) {
    if !lease.renewable then (s, Outcome(NotRenewableAnymore, false, None))
    else if lease.id != s.status.lease.id then (s, Outcome(LeaseIDChanged, true, None))
    else
      var st := s.status.(client := client, creds := NO_CREDS, lease := lease,
                          lastRenewalTime := e.now / SECOND);
      Finish(s, st, e, Renewed, RenewalHorizon(lease, e.spec, e.random))
  }

  function SyncedStatus(s: State, e: Surroundings, client: ClientMeta, r: SyncResult): Status {
    s.status.(client := client, lease := r.lease, lastRenewalTime := e.now / SECOND,
              creds := if r.creds.Some? then r.creds.value else s.status.creds,
              mac := if r.mac.Some? then r.mac.value else s.status.mac)
  }

  function Sync(s: State, e: Surroundings, client: ClientMeta): (State, Outcome) {
    if !e.transformOk then (s, Outcome(TransformFailed, false, Some(HorizonWithJitter(REQUEUE_ON_ERROR, e.random))))
    else if e.sync.None? then (s.(pending := true), Outcome(SyncFailed, false, Some(e.backOff)))
    else
      var st := SyncedStatus(s, e, client, e.sync.value);
      var s' := s.(status := Persisted(s.status, st, e));
      var horizon := PostSyncHorizon(st, e.spec, e.random);
      if !e.finalizerOk then (s', Outcome(Synced, true, None))
      else (s'.(pending := false), Outcome(Synced, false, if horizon == 0 then None else Some(horizon)))
  }

  function ReconcileStep(s: State, e: Surroundings): (State, Outcome) {
    if e.deleted then (s.(pending := false), Outcome(Deletion, !e.finalizerOk, None))
    else if !e.spec.create && !e.destExists then (s, Outcome(AwaitDestination, false, Some(REQUEUE_ON_ERROR)))
    else if e.client.None? then (s, Outcome(NoClient, false, Some(HorizonWithJitter(REQUEUE_ON_ERROR, e.random))))
    else
      var client := e.client.value;
      if RestartSkips(s, e, client) then
        Finish(s, s.status.(client := client), e, RestartSkip,
               RelativeHorizon(s.status, e.spec, e.now, e.random).0)
      else if TriesRenewal(s, e, client) && RenewLease(s, e).Some? then
        Renew(s, e, client, RenewLease(s, e).value)
      else Sync(s, e, client)
  }

  // ---------------------------------------------------------------- the reconciler as an object

  class Reconciler {
    var status: Status
    var registry: set<string>     // SyncRegistry
    const name: string

    ghost function View(): State
      reads this
    {
      State(status, name in registry)
    }

    constructor (name: string, status: Status, registry: set<string>)
      ensures this.name == name && this.status == status && this.registry == registry
    {
      this.name, this.status, this.registry := name, status, registry;
    }

    /** `updateStatus` on the in-memory object `o`; the result says whether to go on. */
    method UpdateStatus(o: Status, e: Surroundings) returns (ok: bool)
      modifies this`status
      ensures status == Persisted(old(status), o, e) && ok == e.finalizerOk
    {
      var o' := o;
      if e.podUID != "" {
        o' := o'.(podUID := e.podUID);
      }
      o' := o'.(lastGeneration := e.spec.generation);
      if e.statusOk {
        status := o';
      }
      ok := e.finalizerOk;
    }

    /** `Reconcile`, branch by branch in the order of the source. */
    method Reconcile(e: Surroundings) returns (r: Outcome)
      modifies this
      ensures (View(), r) == ReconcileStep(old(View()), e)
      ensures registry - {name} == old(registry) - {name}
    {
      if e.deleted {
        registry := registry - {name};
        return Outcome(Deletion, !e.finalizerOk, None);
      }
      if !e.spec.create && !e.destExists {
        return Outcome(AwaitDestination, false, Some(REQUEUE_ON_ERROR));
      }
      if e.client.None? {
        return Outcome(NoClient, false, Some(HorizonWithJitter(REQUEUE_ON_ERROR, e.random)));
      }
      var client := e.client.value;
      var reason: Option<Reason> := None;
      if status.lastGeneration == 0 {
        reason := Some(InitialSync);
      } else if name in registry {
        reason := Some(ForceSync);
      } else if e.spec.generation != status.lastGeneration {
        reason := Some(ResourceUpdated);
      } else if e.spec.create && !e.destExists {
        reason := Some(InexistentDestination);
      } else if status.client.key != "" && status.client.key != client.key {
        reason := Some(ConfigChanged);
      } else if status.client.id != "" && status.client.id != client.id {
        reason := Some(TokenRotated);
      }
      var doSync := reason.Some?;
      if !doSync && e.podUID != "" && e.podUID != status.podUID {
        var (horizon, inWindow) := RelativeHorizon(status, e.spec, e.now, e.random);
        if (!e.spec.allowStaticCreds && !inWindow) || (e.spec.allowStaticCreds && inWindow) {
          var ok := UpdateStatus(status.(client := client), e);
          if !ok {
            return Outcome(RestartSkip, true, None);
          }
          return Outcome(RestartSkip, false, Some(horizon));
        }
      }
      if !doSync && status.lease.renewable && !e.spec.allowStaticCreds && status.lease.id != "" {
        if e.renewal.Some? && e.renewal.value.duration >= status.lease.duration {
          r := RecordRenewal(client, e, e.renewal.value);
          return;
        }
      }
      r := SyncAndRecord(client, e);
    }

    method RecordRenewal(client: ClientMeta, e: Surroundings, lease: Lease) returns (r: Outcome)
      modifies this`status
      ensures (View(), r) == Renew(old(View()), e, client, lease)
    {
      if !lease.renewable {
        return Outcome(NotRenewableAnymore, false, None);
      }
      if lease.id != status.lease.id {
        return Outcome(LeaseIDChanged, true, None);
      }
      var o := status.(client := client, creds := NO_CREDS, lease := lease, lastRenewalTime := e.now / SECOND);
      var ok := UpdateStatus(o, e);
      if !ok {
        return Outcome(Renewed, true, None);
      }
      return Outcome(Renewed, false, Some(RenewalHorizon(lease, e.spec, e.random)));
    }

    method SyncAndRecord(client: ClientMeta, e: Surroundings) returns (r: Outcome)
      modifies this
      ensures (View(), r) == Sync(old(View()), e, client)
      ensures registry - {name} == old(registry) - {name}
    {
      if !e.transformOk {
        return Outcome(TransformFailed, false, Some(HorizonWithJitter(REQUEUE_ON_ERROR, e.random)));
      }
      if e.sync.None? {
        registry := registry + {name};
        return Outcome(SyncFailed, false, Some(e.backOff));
      }
      var synced := e.sync.value;
      var o := status.(client := client);
      if synced.creds.Some? {
        o := o.(creds := synced.creds.value);
      }
      if synced.mac.Some? {
        o := o.(mac := synced.mac.value);
      }
      o := o.(lease := synced.lease, lastRenewalTime := e.now / SECOND);
      var ok := UpdateStatus(o, e);
      if !ok {
        return Outcome(Synced, true, None);
      }
      var horizon := PostSyncHorizon(o, e.spec, e.random);
      registry := registry - {name};
      return Outcome(Synced, false, if horizon == 0 then None else Some(horizon));
    }
  }
}
