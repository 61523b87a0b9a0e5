/**
 One reconciliation of a VaultPKISecret (controllers/vaultpkisecret_controller.go) as a step on
 the persisted status and the object's entry in the SyncRegistry.  Unlike the dynamic-secret
 reconciler, this one records the object's generation on its failure paths too.
 */
module PkiReconciler {
  import opened Results
  import opened Horizons
  import opened PkiWindow

  datatype Status = Status(
    serial: string, expiration: int, lastRotation: nat, lastGeneration: nat, mac: string)

  /** Persisted status and the object's entry in the SyncRegistry. */
  datatype State = State(status: Status, pending: bool)

  /** How far issuing and writing a certificate gets. */
  datatype Issuing =
    | NoClient
    | WriteFailed
    | Undecodable
    | EmptySerial
    | BadData
    | HmacFailed
    | SyncFailed(newMAC: string)
    | RevokeFailed(newMAC: string)
    | Issued(newMAC: string, serial: string, expiration: int)

  datatype Surroundings = Surroundings(
    now: nat,                      // nanoseconds since the epoch
    generation: nat,
    deleted: bool,
    create: bool,
    dest: Option<string>,          // MAC of the destination's data, if the destination exists
    macOk: bool,                   // the HMAC key can be read
    transformOk: bool,
    offset: nat,
    issuing: Issuing,
    statusOk: bool,                // Status().Update
    finalizerOk: bool,             // maybeAddFinalizer
    backOff: nat,
    random: nat)

  datatype Reason = InitialSync | ForceSync | ResourceUpdated | InexistentDestination | DataDrift | InRenewalWindow

  datatype Branch = Deletion | AwaitDestination | TransformFailed | OutsideWindow | Failed | Synced

  /** `failed` is an error returned to the queue; otherwise `requeue` is RequeueAfter, if any. */
  datatype Outcome = Outcome(branch: Branch, failed: bool, requeue: Option<int>)

  // ---------------------------------------------------------------- decisions

  /** The reason to sync, before the renewal window is looked at. */
  function SyncReason(s: State, e: Surroundings): Option<Reason> {
    var st := s.status;
    if st.serial == "" then Some(InitialSync)
    else if s.pending then Some(ForceSync)
    else if st.lastRotation > 0 && e.generation != st.lastGeneration then Some(ResourceUpdated)
    else if e.create && e.dest.None? then Some(InexistentDestination)
    else if e.dest.Some? && st.lastRotation > 0 && e.macOk && !(st.mac != "" && e.dest.value == st.mac) then
      Some(DataDrift)
    else None
  }

  function CertificateOf(st: Status, offset: nat): Certificate { Certificate(st.expiration, offset) }

  /** Whether `Reconcile` goes on to issue a certificate. */
  predicate MustSync(s: State, e: Surroundings) {
    SyncReason(s, e).Some? || InWindow(CertificateOf(s.status, e.offset), e.now)
  }

  // ---------------------------------------------------------------- the step

  /** `updateStatus`: the generation is recorded whatever the outcome was. */
  function Recorded(s: State, st: Status, e: Surroundings): State {
    if e.statusOk then s.(status := st.(lastGeneration := e.generation)) else s
  }

  function ErrorHorizon(e: Surroundings): int { HorizonWithJitter(REQUEUE_ON_ERROR, e.random) }

  /** Records the status and asks to be called again, unless recording fails. */
  function Finish(s: State, st: Status, e: Surroundings, branch: Branch, horizon: int): (State, Outcome) {
    (Recorded(s, st, e),
     if e.statusOk && e.finalizerOk then Outcome(branch, false, Some(horizon)) else Outcome(branch, true, None))
  }

  function Issue(s: State, e: Surroundings): (State, Outcome) {
    match e.issuing
    case NoClient => (s, Outcome(Failed, false, Some(ErrorHorizon(e))))
    case WriteFailed =>
      var (s', r) := Finish(s, s.status, e, Failed, e.backOff);
      (s'.(pending := s'.pending || !r.failed), r)
    case SyncFailed(mac) => Finish(s, s.status.(mac := mac), e, Failed, ErrorHorizon(e))
    case RevokeFailed(_) => (s, Outcome(Failed, false, Some(ErrorHorizon(e))))
    case Issued(mac, serial, expiration) =>
      var st := Status(serial, expiration, e.now / SECOND, s.status.lastGeneration, mac);
      var (s', r) := Finish(s, st, e, Synced, NextCheck(CertificateOf(st, e.offset), e.now, e.random) - e.now);
      (s'.(pending := s'.pending && r.failed), r)
    case _ => Finish(s, s.status, e, Failed, ErrorHorizon(e))
  }

  function ReconcileStep(s: State, e: Surroundings): (State, Outcome) {
    if e.deleted then (s.(pending := false), Outcome(Deletion, !e.finalizerOk, None))
    else if !e.create && e.dest.None? then Finish(s, s.status, e, AwaitDestination, ErrorHorizon(e))
    else if !e.transformOk then (s, Outcome(TransformFailed, false, Some(ErrorHorizon(e))))
    else if !MustSync(s, e) then
      (s, Outcome(OutsideWindow, false, Some(NextCheck(CertificateOf(s.status, e.offset), e.now, e.random) - e.now)))
    else Issue(s, e)
  }

  // ---------------------------------------------------------------- the reconciler as an object

  class CertificateReconciler {
    var status: Status
    var registry: set<string>     // SyncRegistry
    const name: string

    ghost function View(): State
      reads this
    {
      State(status, name in registry)
    }

    constructor (name: string, status: Status, registry: set<string>)
      ensures this.name == name && this.status == status && this.registry == registry
    {
      this.name, this.status, this.registry := name, status, registry;
    }

    /** `updateStatus` on the in-memory object `o`. */
    method UpdateStatus(o: Status, e: Surroundings) returns (ok: bool)
      modifies this`status
      ensures View() == Recorded(old(View()), o, e) && ok == (e.statusOk && e.finalizerOk)
    {
      if !e.statusOk {
        return false;
      }
      status := o.(lastGeneration := e.generation);
      ok := e.finalizerOk;
    }

    /** `Reconcile`, branch by branch in the order of the source. */
    method Reconcile(e: Surroundings) returns (r: Outcome)
      modifies this
      ensures (View(), r) == ReconcileStep(old(View()), e)
      ensures registry - {name} == old(registry) - {name}
    {
      if e.deleted {
        registry := registry - {name};
        return Outcome(Deletion, !e.finalizerOk, None);
      }
      if !e.create && e.dest.None? {
        var ok := UpdateStatus(status, e);
        return if ok then Outcome(AwaitDestination, false, Some(ErrorHorizon(e)))
               else Outcome(AwaitDestination, true, None);
      }
      var schemaEpoch := 0;
      if status.lastRotation > 0 {
        schemaEpoch := 1;
      }
      var reason: Option<Reason> := None;
      if status.serial == "" {
        reason := Some(InitialSync);
      } else if name in registry {
        reason := Some(ForceSync);
      } else if schemaEpoch > 0 && e.generation != status.lastGeneration {
        reason := Some(ResourceUpdated);
      } else if e.create && e.dest.None? {
        reason := Some(InexistentDestination);
      } else if e.dest.Some? && schemaEpoch > 0 && e.macOk {
        if status.mac == "" || e.dest.value != status.mac {
          reason := Some(DataDrift);
        }
      }
      if !e.transformOk {
        return Outcome(TransformFailed, false, Some(ErrorHorizon(e)));
      }
      if reason.None? {
        var horizon, inWindow := RenewalWindow(CertificateOf(status, e.offset), e.now, e.random);
        if !inWindow {
          return Outcome(OutsideWindow, false, Some(horizon));
        }
        reason := Some(InRenewalWindow);
      }
      r := IssueCertificate(e);
    }

    /** The rest of `Reconcile`: the in-memory object `o` gathers what is recorded at the end. */
    method IssueCertificate(e: Surroundings) returns (r: Outcome)
      modifies this
      ensures (View(), r) == Issue(old(View()), e)
      ensures registry - {name} == old(registry) - {name}
    {
      var o := status;
      if e.issuing.NoClient? {
        return Outcome(Failed, false, Some(ErrorHorizon(e)));
      }
      if e.issuing.WriteFailed? {
        var ok := UpdateStatus(o, e);
        if !ok {
          return Outcome(Failed, true, None);
        }
        registry := registry + {name};
        return Outcome(Failed, false, Some(e.backOff));
      }
      if e.issuing.Undecodable? || e.issuing.EmptySerial? || e.issuing.BadData? || e.issuing.HmacFailed? {
        var ok := UpdateStatus(o, e);
        return if ok then Outcome(Failed, false, Some(ErrorHorizon(e))) else Outcome(Failed, true, None);
      }
      o := o.(mac := e.issuing.newMAC);
      if e.issuing.SyncFailed? {
        var ok := UpdateStatus(o, e);
        return if ok then Outcome(Failed, false, Some(ErrorHorizon(e))) else Outcome(Failed, true, None);
      }
      if e.issuing.RevokeFailed? {
        return Outcome(Failed, false, Some(ErrorHorizon(e)));
      }
      o := o.(serial := e.issuing.serial, expiration := e.issuing.expiration, lastRotation := e.now / SECOND);
      var ok := UpdateStatus(o, e);
      if !ok {
        return Outcome(Synced, true, None);
      }
      registry := registry - {name};
      var horizon, _ := RenewalWindow(CertificateOf(o, e.offset), e.now, e.random);
      return Outcome(Synced, false, Some(horizon));
    }
  }

  // ---------------------------------------------------------------- updates that get lost

  /** The destination must exist beforehand, and does not. */
  predicate Awaits(e: Surroundings) { !e.create && e.dest.None? }

  /** An attempt that fails after the client was obtained and before the Secret was written. */
  predicate FailedAttempt(i: Issuing) {
    i.WriteFailed? || i.SyncFailed? || i.Undecodable? || i.EmptySerial? || i.BadData? || i.HmacFailed?
  }

  /**
   A step that does not sync records a new generation exactly when it waits for the destination
   or its attempt fails, in contrast to dynamic secrets, where only a sync records one.
   */
  lemma RecordedWithoutSync(s: State, e: Surroundings)
    requires e.generation != s.status.lastGeneration
    ensures var (s', r) := ReconcileStep(s, e);
      (r.branch != Synced && s'.status.lastGeneration == e.generation) <==>
        && !e.deleted && e.statusOk
        && (Awaits(e) || (e.transformOk && MustSync(s, e) && FailedAttempt(e.issuing)))
  {
  }

  /**
   Failures that record the new generation and leave no request for another sync behind: a
   missing destination that is not to be created, an unusable answer from Vault, a failed HMAC,
   a failed write of the Secret, and a refused request whose finalizer cannot be written, so
   that the SyncRegistry is not reached.
   */
  predicate Forgets(e: Surroundings) {
    && !e.deleted && e.statusOk
    && (Awaits(e) || (e.transformOk && FailedAttempt(e.issuing) && !(e.issuing.WriteFailed? && e.finalizerOk)))
  }

  /** The MAC on record afterwards: a failed write has recorded that of its own data. */
  function MACAfter(st: Status, e: Surroundings): string {
    if !Awaits(e) && e.issuing.SyncFailed? then e.issuing.newMAC else st.mac
  }

  /** The destination shows no reason to sync. */
  predicate Matches(mac: string, next: Surroundings) {
    && (next.create ==> next.dest.Some?)
    && (next.dest.Some? && next.macOk ==> next.dest.value == mac != "")
  }

  /** The step leaves a request in the SyncRegistry: Vault refused to issue, and the status could be written. */
  predicate LeavesRequest(s: State, e: Surroundings) {
    && !e.deleted && !Awaits(e) && e.transformOk && MustSync(s, e)
    && e.issuing.WriteFailed? && e.statusOk && e.finalizerOk
  }

  /**
   The update is forgotten.  Without a rotation on record, which an outdated CRD never keeps, no
   update is a reason to sync in the first place, and neither is drift.
   */
  predicate Forgotten(s: State, e: Surroundings, next: Surroundings) {
    if s.status.lastRotation > 0 then Forgets(e) && Matches(MACAfter(s.status, e), next)
    else !LeavesRequest(s, e) && (next.create ==> next.dest.Some?)
  }

  /**
   An update of an issued certificate that is not synced at once is forgotten exactly then:
   nothing but the renewal window makes the next reconciliation sync.
   */
  lemma UpdateForgottenIff(s: State, e: Surroundings, next: Surroundings)
    requires s.status.serial != "" && !s.pending
    requires e.generation != s.status.lastGeneration && ReconcileStep(s, e).1.branch != Synced
    requires next.generation == e.generation
    ensures var s' := ReconcileStep(s, e).0; var c := CertificateOf(s.status, next.offset);
      && (SyncReason(s', next).None? <==> Forgotten(s, e, next))
      && (MustSync(s', next) <==> !Forgotten(s, e, next) || InWindow(c, next.now))
  {
  }
}
