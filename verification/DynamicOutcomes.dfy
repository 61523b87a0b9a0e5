/**
 What one reconciliation of a VaultDynamicSecret decides, records and asks for
 (controllers/vaultdynamicsecret_controller.go), stated field by field of the status, the
 surroundings and the outcome; and what that means for static credentials over whole runs.
 */
module DynamicOutcomes {
  import opened Results
  import opened Horizons
  import opened DynamicSecrets
  import DR = DynamicRuns

  // ---------------------------------------------------------------- which branch is taken

  /** The decision is reached: the object lives, its destination may be written, and there is a client. */
  predicate Reaches(e: Surroundings) { !e.deleted && (e.spec.create || e.destExists) && e.client.Some? }

  /** Nothing asks for a sync. */
  predicate Free(s: State, e: Surroundings) {
    Reaches(e) && !s.pending && DR.Settled(s.status, e, e.client.value)
  }

  predicate NewPod(s: State, e: Surroundings) { e.podUID != "" && e.podUID != s.status.podUID }

  /** The moment from which the credentials are due, in nanoseconds since the epoch. */
  function DueAt(st: Status, spec: Spec): int {
    if spec.allowStaticCreds then (st.creds.lastVaultRotation + st.creds.ttl) * SECOND
    else
      var d := if st.lease.duration == 0 then spec.refreshAfter else st.lease.duration * SECOND;
      var p := spec.renewalPercent;
      var percent := if p > 90 then 90 else if p < 0 then 0 else p;
      st.lastRenewalTime * SECOND + d * percent / 100
  }

  /** The new pod finds credentials that are not due. */
  predicate Skips(s: State, e: Surroundings) {
    && Free(s, e) && NewPod(s, e)
    && (if e.spec.allowStaticCreds then e.now < DueAt(s.status, e.spec) else e.now <= DueAt(s.status, e.spec))
  }

  /** Vault extends the lease on record, by no less than before. */
  predicate Extended(s: State, e: Surroundings) {
    && Free(s, e) && !Skips(s, e)
    && s.status.lease.renewable && s.status.lease.id != "" && !e.spec.allowStaticCreds
    && e.renewal.Some? && e.renewal.value.duration >= s.status.lease.duration
  }

  predicate Attempts(s: State, e: Surroundings) { Reaches(e) && !Skips(s, e) && !Extended(s, e) }

  /** Each branch is taken exactly under its condition. */
  lemma BranchIff(s: State, e: Surroundings)
    ensures var b := ReconcileStep(s, e).1.branch;
      && (b == Deletion <==> e.deleted)
      && (b == AwaitDestination <==> !e.deleted && !e.spec.create && !e.destExists)
      && (b == NoClient <==> !e.deleted && (e.spec.create || e.destExists) && e.client.None?)
      && (b == RestartSkip <==> Skips(s, e))
      && (b == NotRenewableAnymore <==> Extended(s, e) && !e.renewal.value.renewable)
      && (b == LeaseIDChanged <==>
            Extended(s, e) && e.renewal.value.renewable && e.renewal.value.id != s.status.lease.id)
      && (b == Renewed <==> Extended(s, e) && e.renewal.value.renewable && e.renewal.value.id == s.status.lease.id)
      && (b == TransformFailed <==> Attempts(s, e) && !e.transformOk)
      && (b == SyncFailed <==> Attempts(s, e) && e.transformOk && e.sync.None?)
      && (b == Synced <==> Attempts(s, e) && e.transformOk && e.sync.Some?)
  {
    if Reaches(e) {
      ReasonIff(s, e);
      DueAtIsRotationTime(s.status, e.spec);
    }
  }

  lemma ReasonIff(s: State, e: Surroundings)
    requires Reaches(e)
    ensures SyncReason(s, e, e.client.value).None? <==> Free(s, e)
  {
  }

  lemma DueAtIsRotationTime(st: Status, spec: Spec)
    ensures DueAt(st, spec) == RotationTime(st, spec)
  {
  }

  // ---------------------------------------------------------------- what is recorded

  /** A persisted sync, renewal or skip records generation, pod and client; every other step leaves the status. */
  lemma Records(s: State, e: Surroundings)
    ensures var (s', r) := ReconcileStep(s, e); var old_, new_ := s.status, s'.status;
      if r.branch in {RestartSkip, Renewed, Synced} && e.statusOk then
        && new_.lastGeneration == e.spec.generation
        && new_.podUID == (if e.podUID != "" then e.podUID else old_.podUID)
        && e.client.Some? && new_.client == e.client.value
      else new_ == old_
  {
  }

  /** Besides, a sync records the lease, the time, and the credentials and MAC that it read. */
  lemma SyncRecords(s: State, e: Surroundings)
    requires ReconcileStep(s, e).1.branch == Synced && e.statusOk
    ensures var old_, new_ := s.status, ReconcileStep(s, e).0.status;
      && e.sync.Some? && new_.lease == e.sync.value.lease && new_.lastRenewalTime == e.now / SECOND
      && new_.creds == (if e.sync.value.creds.Some? then e.sync.value.creds.value else old_.creds)
      && new_.mac == (if e.sync.value.mac.Some? then e.sync.value.mac.value else old_.mac)
  {
  }

  /** A renewal records the extended lease and the time and forgets the credentials; a skip records neither. */
  lemma RenewalRecords(s: State, e: Surroundings)
    requires ReconcileStep(s, e).1.branch in {Renewed, RestartSkip} && e.statusOk
    ensures var old_, new_ := s.status, ReconcileStep(s, e).0.status;
      && new_.mac == old_.mac
      && (ReconcileStep(s, e).1.branch == Renewed ==>
            && e.renewal == Some(new_.lease) && new_.lastRenewalTime == e.now / SECOND
            && new_.creds == CredsMeta(0, 0, "", 0))
      && (ReconcileStep(s, e).1.branch == RestartSkip ==>
            && new_.lease == old_.lease && new_.lastRenewalTime == old_.lastRenewalTime
            && new_.creds == old_.creds)
  {
  }

  // ---------------------------------------------------------------- what is asked for

  /** Credentials that Vault rotates, by a period or a schedule. */
  predicate Rotating(m: CredsMeta) { m.lastVaultRotation > 0 && (m.rotationPeriod >= 1 || m.rotationSchedule != "") }

  /** The credentials that a sync leaves on record. */
  function CredsAfter(s: State, e: Surroundings): CredsMeta
    requires e.sync.Some?
  {
    if e.sync.value.creds.Some? then e.sync.value.creds.value else s.status.creds
  }

  /** An error goes back to the queue exactly when the finalizer cannot be written, or the lease changed its ID. */
  lemma FailsIff(s: State, e: Surroundings)
    ensures var r := ReconcileStep(s, e).1;
      && (r.failed <==>
            || r.branch == LeaseIDChanged
            || (r.branch in {RestartSkip, Renewed, Synced, Deletion} && !e.finalizerOk))
      && (r.failed ==> r.requeue.None?)
  {
  }

  /** After the failures that are tried again. */
  lemma FailureRequeues(s: State, e: Surroundings)
    ensures var r := ReconcileStep(s, e).1;
      && (r.branch == AwaitDestination ==> r.requeue == Some(5 * SECOND))
      && (r.branch == SyncFailed ==> r.requeue == Some(e.backOff))
      && (r.branch in {NoClient, TransformFailed} ==>
            r.requeue.Some? && 4 * SECOND <= r.requeue.value && 10 * r.requeue.value <= 45 * SECOND)
      && (r.branch in {Deletion, NotRenewableAnymore} ==> r.requeue.None?)
  {
    HorizonWithJitterBounds(REQUEUE_ON_ERROR, e.random);
  }

  /**
   After a successful sync of static credentials the object is requeued exactly when the
   credentials on record rotate: at the end of their TTL and less than 0.65 seconds later, or
   between 1 and 1.15 seconds from now when no TTL is left.
   */
  lemma StaticSyncRequeues(s: State, e: Surroundings)
    requires ReconcileStep(s, e).1.branch == Synced && e.finalizerOk && e.spec.allowStaticCreds
    ensures e.sync.Some?
    ensures var q := ReconcileStep(s, e).1.requeue; var creds := CredsAfter(s, e); var ttl := creds.ttl * SECOND;
      && (q.Some? <==> Rotating(creds))
      && (q.Some? && creds.ttl > 0 ==> ttl <= q.value && 100 * (q.value - ttl) < 65 * SECOND)
      && (q.Some? && creds.ttl > 0 && creds.rotationPeriod > 0 ==> ttl + SECOND / 2 <= q.value)
      && (q.Some? && creds.ttl <= 0 ==> SECOND <= q.value && 100 * q.value < 115 * SECOND)
  {
  }

  /** The length of the lease, or of the refresh interval where Vault granted none. */
  function LeaseLength(lease: Lease, spec: Spec): nat {
    if lease.duration == 0 then spec.refreshAfter else lease.duration * SECOND
  }

  /** After the sync of a lease: within the tenth of the lease that follows the start of its window. */
  lemma LeaseSyncRequeues(s: State, e: Surroundings)
    requires ReconcileStep(s, e).1.branch == Synced && e.finalizerOk && !e.spec.allowStaticCreds
    ensures e.sync.Some?
    ensures var q := ReconcileStep(s, e).1.requeue; var d := LeaseLength(e.sync.value.lease, e.spec);
      && (d == 0 ==> q.None?)
      && (d >= SECOND ==> q.Some? && InRenewalTenth(d, e.spec.renewalPercent, q.value))
  {
    InTenth(LeaseLength(e.sync.value.lease, e.spec), e.spec.renewalPercent, e.random);
  }

  /** The same after a renewal, where five seconds stand for a lease without a duration. */
  lemma RenewalRequeues(s: State, e: Surroundings)
    requires ReconcileStep(s, e).1.branch == Renewed && e.finalizerOk
    ensures e.renewal.Some?
    ensures var q := ReconcileStep(s, e).1.requeue;
      var d := if e.renewal.value.duration == 0 then 5 * SECOND else e.renewal.value.duration * SECOND;
      q.Some? && InRenewalTenth(d, e.spec.renewalPercent, q.value)
  {
    InTenth(if e.renewal.value.duration == 0 then 5 * SECOND else e.renewal.value.duration * SECOND,
            e.spec.renewalPercent, e.random);
  }

  /** `h` lies behind the capped percentage of `d`, by at most a tenth of `d`. */
  predicate InRenewalTenth(d: nat, renewalPercent: int, h: int) {
    var percent := if renewalPercent > 90 then 90 else if renewalPercent < 0 then 0 else renewalPercent;
    d * percent / 100 < h <= d * percent / 100 + d / 10
  }

  lemma InTenth(d: nat, renewalPercent: int, random: nat)
    ensures d >= SECOND ==> InRenewalTenth(d, renewalPercent, DynamicHorizonWithJitter(d, renewalPercent, random))
  {
  }

  /** After a skip: when the credentials are due, but not within a second; leases a little earlier, others later. */
  lemma SkipRequeues(s: State, e: Surroundings)
    requires ReconcileStep(s, e).1.branch == RestartSkip && e.finalizerOk
    ensures var q := ReconcileStep(s, e).1.requeue;
      var left := if DueAt(s.status, e.spec) - e.now < SECOND then SECOND else DueAt(s.status, e.spec) - e.now;
      && q.Some?
      && (e.spec.allowStaticCreds ==> left <= q.value && 100 * (q.value - left) < 15 * SECOND)
      && (!e.spec.allowStaticCreds ==> q.value <= left && 100 * q.value > 95 * left)
  {
    DueAtIsRotationTime(s.status, e.spec);
  }

  // ---------------------------------------------------------------- static credentials over runs

  /** The process next to the time of its last sync, the clock and the next requeue. */
  datatype World = World(process: DR.Process, synced: nat, clock: nat, due: Option<int>)

  function Visit(w: World, e: Surroundings): World {
    var (s, r) := DR.Reconcile(w.process, e);
    World(w.process.(state := s), if r.branch == Synced then e.now else w.synced, e.now,
          if r.requeue.Some? then Some(e.now + r.requeue.value) else None)
  }

  function Tick(w: World, ev: DR.Event): World {
    if ev.Reconciled? then Visit(w, ev.e) else w.(process := DR.Step(w.process, ev))
  }

  /** Syncs and API calls succeed, and the credentials on record rotate and are not from the future. */
  predicate Healthy(w: World, e: Surroundings) {
    && Reaches(e) && e.transformOk && e.statusOk && e.finalizerOk && e.spec.allowStaticCreds && e.sync.Some?
    && var creds := CredsAfter(w.process.state, e);
       Rotating(creds) && creds.lastVaultRotation * SECOND <= e.now
  }

  predicate Good(w: World, ev: DR.Event) { ev.Reconciled? ==> w.clock <= ev.e.now && Healthy(w, ev.e) }

  /** When the credentials were expected to rotate as of the last sync. */
  function Expected(w: World): int {
    var ttl := w.process.state.status.creds.ttl;
    w.synced + if ttl > 0 then ttl * SECOND else 0
  }

  /**
   The next visit comes when the rotation on record is due, and less than 1.15 seconds after the
   rotation was expected.
   */
  predicate Live(w: World) {
    var creds := w.process.state.status.creds;
    && Rotating(creds) && creds.lastVaultRotation * SECOND <= w.synced <= w.clock
    && w.due.Some? && w.clock < w.due.value
    && (creds.lastVaultRotation + creds.ttl) * SECOND <= w.due.value
    && 100 * (w.due.value - Expected(w)) < 115 * SECOND
  }

  lemma VisitStaysLive(w: World, e: Surroundings)
    requires Live(w) && w.clock <= e.now && Healthy(w, e)
    ensures Live(Visit(w, e))
  {
    var seen := DR.Seen(w.process, e);
    BranchIff(w.process.state, seen);
    if Skips(w.process.state, seen) {
      RenewalRecords(w.process.state, seen);
      SkipRequeues(w.process.state, seen);
    } else {
      SyncRecords(w.process.state, seen);
      StaticSyncRequeues(w.process.state, seen);
    }
  }

  lemma FirstSyncIsLive(w: World, e: Surroundings)
    requires w.process.state.status.lastGeneration == 0 && Healthy(w, e)
    ensures Live(Visit(w, e))
  {
    var seen := DR.Seen(w.process, e);
    BranchIff(w.process.state, seen);
    SyncRecords(w.process.state, seen);
    StaticSyncRequeues(w.process.state, seen);
  }

  function Ticks(w: World, events: seq<DR.Event>): World {
    if events == [] then w
    else Tick(Ticks(w, events[..|events| - 1]), events[|events| - 1])
  }

  /**
   Static credentials over whole runs: whatever the draws, forced syncs and restarts, the object
   is always requeued, after the rotation on record and within 1.15 seconds of the expected one.
   */
  lemma {:induction false} StaticCredsAreRevisited(w: World, events: seq<DR.Event>, n: nat)
    requires Live(w) && n <= |events|
    requires forall i :: 0 <= i < |events| ==> Good(Ticks(w, events[..i]), events[i])
    ensures Live(Ticks(w, events[..n]))
  {
    if n > 0 {
      StaticCredsAreRevisited(w, events, n - 1);
      assert events[..n][..n - 1] == events[..n - 1];
      var before := Ticks(w, events[..n - 1]);
      if events[n - 1].Reconciled? {
        VisitStaysLive(before, events[n - 1].e);
      }
    }
  }
}
