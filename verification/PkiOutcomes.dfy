/**
 What one reconciliation of a VaultPKISecret decides, records and asks for
 (controllers/vaultpkisecret_controller.go), stated field by field; and that a certificate that
 was issued is left alone until its renewal window.
 */
module PkiOutcomes {
  import opened Results
  import opened Horizons
  import opened PkiWindow
  import opened PkiReconciler
  import PR = PkiRuns

  // ---------------------------------------------------------------- which branch is taken

  predicate Reaches(e: Surroundings) { !e.deleted && (e.create || e.dest.Some?) && e.transformOk }

  /** Less than a second is left to the expiration minus the whole seconds of the offset. */
  predicate Due(st: Status, e: Surroundings) {
    (st.expiration - e.offset / 1_000_000_000) * 1_000_000_000 - e.now < 1_000_000_000
  }

  /** The certificate on record will do for now. */
  predicate Rests(s: State, e: Surroundings) {
    Reaches(e) && !s.pending && PR.Settled(s.status, e) && !Due(s.status, e)
  }

  /** Each branch is taken exactly under its condition. */
  lemma BranchIff(s: State, e: Surroundings)
    ensures var b := ReconcileStep(s, e).1.branch;
      && (b == Deletion <==> e.deleted)
      && (b == AwaitDestination <==> !e.deleted && !e.create && e.dest.None?)
      && (b == TransformFailed <==> !e.deleted && (e.create || e.dest.Some?) && !e.transformOk)
      && (b == OutsideWindow <==> Rests(s, e))
      && (b == Synced <==> Reaches(e) && !Rests(s, e) && e.issuing.Issued?)
      && (b == Failed <==> Reaches(e) && !Rests(s, e) && !e.issuing.Issued?)
  {
    MustSyncIff(s, e);
  }

  lemma MustSyncIff(s: State, e: Surroundings)
    ensures MustSync(s, e) <==> s.pending || !PR.Settled(s.status, e) || Due(s.status, e)
  {
  }

  // ---------------------------------------------------------------- what is recorded

  /** A persisted issue records serial number, expiration, time, generation and MAC of the new certificate. */
  lemma IssueRecords(s: State, e: Surroundings)
    requires ReconcileStep(s, e).1.branch == Synced && e.statusOk
    ensures e.issuing.Issued?
    ensures var st := ReconcileStep(s, e).0.status;
      && st.serial == e.issuing.serial && st.expiration == e.issuing.expiration && st.mac == e.issuing.newMAC
      && st.lastRotation == e.now / SECOND && st.lastGeneration == e.generation
  {
  }

  /** Failures record the generation, and a failed write its MAC; all other steps leave the status alone. */
  lemma FailureRecords(s: State, e: Surroundings)
    requires ReconcileStep(s, e).1.branch != Synced || !e.statusOk
    ensures var (s', r) := ReconcileStep(s, e); var i := e.issuing;
      s'.status ==
        if e.statusOk && (r.branch == AwaitDestination || (r.branch == Failed && !i.NoClient? && !i.RevokeFailed?))
        then s.status.(lastGeneration := e.generation,
                       mac := if r.branch == Failed && i.SyncFailed? then i.newMAC else s.status.mac)
        else s.status
  {
  }

  // ---------------------------------------------------------------- what is asked for

  /** The steps that end by writing the status fail with it. */
  lemma FailsIff(s: State, e: Surroundings)
    ensures var r := ReconcileStep(s, e).1; var i := e.issuing;
      && (r.failed <==>
            || (r.branch == Deletion && !e.finalizerOk)
            || (&& (r.branch == AwaitDestination || r.branch == Synced ||
                    (r.branch == Failed && !i.NoClient? && !i.RevokeFailed?))
                && !(e.statusOk && e.finalizerOk)))
      && (r.requeue.None? <==> r.failed || r.branch == Deletion)
  {
  }

  /** A failure is tried again after 4 to 4.5 seconds, or after the backoff when Vault refused. */
  lemma FailureRequeues(s: State, e: Surroundings)
    ensures var r := ReconcileStep(s, e).1;
      r.branch in {AwaitDestination, TransformFailed, Failed} && r.requeue.Some? ==>
        if r.branch == Failed && e.issuing.WriteFailed? then r.requeue.value == e.backOff
        else 4 * SECOND <= r.requeue.value && 10 * r.requeue.value <= 45 * SECOND
  {
    HorizonWithJitterBounds(REQUEUE_ON_ERROR, e.random);
  }

  /** `h` leads to the next check of a certificate with this expiration. */
  predicate LeadsToCheck(expiration: int, e: Surroundings, h: int) {
    var rotation := (expiration - e.offset / 1_000_000_000) * 1_000_000_000;
    var left := rotation - e.now;
    if left < 1_000_000_000 then 1_000_000_000 <= h < 1_050_000_000
    else if e.offset == 0 then h <= left && 20 * (left - h) < left
    else left <= h && 20 * (h - left) < left
  }

  /** Otherwise the next check is that of the certificate on record, or of the new one. */
  lemma CheckRequeues(s: State, e: Surroundings)
    requires ReconcileStep(s, e).1.branch in {OutsideWindow, Synced} && !ReconcileStep(s, e).1.failed
    ensures var r := ReconcileStep(s, e).1;
      && r.requeue.Some?
      && (r.branch == OutsideWindow ==> LeadsToCheck(s.status.expiration, e, r.requeue.value))
      && (r.branch == Synced ==> e.issuing.Issued? && LeadsToCheck(e.issuing.expiration, e, r.requeue.value))
  {
    NextCheckRange(CertificateOf(s.status, e.offset), e.now, e.random);
    if e.issuing.Issued? {
      NextCheckRange(Certificate(e.issuing.expiration, e.offset), e.now, e.random);
    }
  }

  // ---------------------------------------------------------------- the fixpoint

  /** Nothing but time has passed: the destination holds what was written, and the object is the same. */
  predicate OnlyTimePassed(st: Status, e: Surroundings) {
    Reaches(e) && e.generation == st.lastGeneration && e.dest == Some(st.mac) && e.macOk
  }

  function Visits(s: State, es: seq<Surroundings>): State {
    if es == [] then s else ReconcileStep(Visits(s, es[..|es| - 1]), es[|es| - 1]).0
  }

  /** Over any number of reconciliations: nothing is issued and nothing changes before the renewal window. */
  lemma {:induction false} QuietUntilDue(s: State, es: seq<Surroundings>)
    requires s.status.serial != "" && s.status.mac != "" && !s.pending
    requires forall i :: 0 <= i < |es| ==> OnlyTimePassed(s.status, es[i]) && !Due(s.status, es[i])
    ensures Visits(s, es) == s
    ensures forall i :: 0 <= i < |es| ==> ReconcileStep(s, es[i]).1.branch == OutsideWindow
  {
    forall i | 0 <= i < |es|
      ensures ReconcileStep(s, es[i]) == (s, ReconcileStep(s, es[i]).1)
      ensures ReconcileStep(s, es[i]).1.branch == OutsideWindow
    {
      BranchIff(s, es[i]);
    }
    if es != [] {
      QuietUntilDue(s, es[..|es| - 1]);
    }
  }

  /** In particular after an issue: the MAC it leaves on record is that of what it wrote. */
  lemma {:induction false} QuietAfterIssue(s: State, e: Surroundings, es: seq<Surroundings>)
    requires var r := ReconcileStep(s, e).1; r.branch == Synced && !r.failed
    requires e.issuing.Issued? && e.issuing.serial != "" && e.issuing.newMAC != ""
    requires forall i :: 0 <= i < |es| ==>
      && Reaches(es[i]) && es[i].generation == e.generation
      && es[i].dest == Some(e.issuing.newMAC) && es[i].macOk
      && (e.issuing.expiration - es[i].offset / 1_000_000_000) * 1_000_000_000 - es[i].now >= 1_000_000_000
    ensures var s' := ReconcileStep(s, e).0;
      Visits(s', es) == s' && forall i :: 0 <= i < |es| ==> ReconcileStep(s', es[i]).1.branch == OutsideWindow
  {
    IssueRecords(s, e);
    QuietUntilDue(ReconcileStep(s, e).0, es);
  }
}
