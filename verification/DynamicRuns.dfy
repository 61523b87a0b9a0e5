/**
 Whole runs of the VaultDynamicSecret reconciler: where the recorded generation comes from,
 what becomes of forced syncs, and that a renewable lease is always revisited in time.
 */
module DynamicRuns {
  import opened Results
  import opened Horizons
  import opened DynamicSecrets
  import SR = SyncRequests

  /** The status survives in the cluster; the SyncRegistry and the pod's UID belong to the process. */
  datatype Process = Process(state: State, podUID: string)

  /**
   A reconciliation, a forced sync requested from outside (a client callback, a changed
   reference), or a restart of the operator, in the same pod or in another one.
   */
  datatype Event = Reconciled(e: Surroundings) | Forced | Restarted(podUID: string)

  /** The surroundings as the running process meets them. */
  function Seen(p: Process, e: Surroundings): Surroundings { e.(podUID := p.podUID) }

  function Reconcile(p: Process, e: Surroundings): (State, Outcome) { ReconcileStep(p.state, Seen(p, e)) }

  function Step(p: Process, ev: Event): Process {
    match ev
    case Reconciled(e) => p.(state := Reconcile(p, e).0)
    case Forced => p.(state := p.state.(pending := true))
    case Restarted(podUID) => Process(p.state.(pending := false), podUID)
  }

  function Run(p: Process, events: seq<Event>): Process { SR.Run(Registry(), p, events) }

  /** The event at position `i` of a run is a reconciliation that takes branch `b`. */
  predicate Takes(p: Process, events: seq<Event>, i: nat, b: Branch)
    requires i < |events|
  {
    events[i].Reconciled? && Reconcile(Run(p, events[..i]), events[i].e).1.branch == b
  }

  // ---------------------------------------------------------------- provenance of LastGeneration

  /** Only a sync moves the recorded generation, and it moves it to the generation it synced. */
  lemma GenerationMovesBySync(s: State, e: Surroundings)
    ensures var (s', r) := ReconcileStep(s, e);
      s'.status.lastGeneration != s.status.lastGeneration ==>
        r.branch == Synced && s'.status.lastGeneration == e.spec.generation
  {
  }

  /**
   For every run that starts unsynced: a recorded generation above zero is the generation at
   which an earlier step of the run synced successfully, in this process or an earlier one.
   */
  lemma {:induction false} GenerationWasSynced(p: Process, events: seq<Event>)
    requires p.state.status.lastGeneration == 0
    ensures var g := Run(p, events).state.status.lastGeneration;
      g > 0 ==> exists i :: 0 <= i < |events| && Takes(p, events, i, Synced) && events[i].e.spec.generation == g
  {
    if events != [] {
      var n := |events| - 1;
      var front := events[..n];
      GenerationWasSynced(p, front);
      var before := Run(p, front);
      var g := Run(p, events).state.status.lastGeneration;
      if events[n].Reconciled? {
        GenerationMovesBySync(before.state, Seen(before, events[n].e));
      }
      if g > 0 {
        if g == before.state.status.lastGeneration {
          var i :| 0 <= i < n && Takes(p, front, i, Synced) && front[i].e.spec.generation == g;
          assert front[..i] == events[..i];
          assert Takes(p, events, i, Synced);
        } else {
          assert Takes(p, events, n, Synced);
        }
      }
    }
  }

  // ---------------------------------------------------------------- forced syncs

  /**
   While a forced sync is pending no step renews the lease or skips after a restart; the entry
   disappears exactly with a successful sync or the deletion of the object.
   */
  lemma PendingStep(s: State, e: Surroundings)
    requires s.pending
    ensures var (s', r) := ReconcileStep(s, e);
      && r.branch !in {RestartSkip, Renewed, NotRenewableAnymore, LeaseIDChanged}
      && (!s'.pending <==> (r.branch == Synced && !r.failed) || r.branch == Deletion)
  {
  }

  /** The event syncs the object and records it, or handles its deletion. */
  predicate Serves(p: Process, ev: Event) {
    ev.Reconciled? && var r := Reconcile(p, ev.e).1; (r.branch == Synced && !r.failed) || r.branch == Deletion
  }

  /** It asks for a sync: from outside, or because its own one failed. */
  predicate Requests(p: Process, ev: Event) {
    ev.Forced? || (ev.Reconciled? && Reconcile(p, ev.e).1.branch == SyncFailed)
  }

  /** It removes the entry: by serving it, or by losing the memory it is kept in. */
  predicate Clears(p: Process, ev: Event) { ev.Restarted? || Serves(p, ev) }

  /** One event leaves an entry exactly when it makes one, or finds one and does not clear it. */
  lemma EntryAfter(p: Process, ev: Event)
    ensures !(Requests(p, ev) && Clears(p, ev))
    ensures Step(p, ev).state.pending == (Requests(p, ev) || (p.state.pending && !Clears(p, ev)))
  {
  }

  predicate IsPending(p: Process) { p.state.pending }

  /** The process as the holder of the object's entry in the SyncRegistry. */
  function Registry(): SR.Machine<Process, Event> { SR.Machine(Step, IsPending, Requests, Clears) }

  lemma RegistryIsLawful()
    ensures SR.Lawful(Registry())
  {
    forall p: Process, ev
      ensures !(Requests(p, ev) && Clears(p, ev))
      ensures IsPending(Step(p, ev)) == (Requests(p, ev) || (IsPending(p) && !Clears(p, ev)))
    {
      EntryAfter(p, ev);
    }
  }

  /** Over every run: a sync is pending exactly when one was requested that nothing has served or lost since. */
  lemma SyncPendingIff(p: Process, events: seq<Event>)
    ensures Run(p, events).state.pending <==> exists k :: SR.Outstanding(Registry(), p, events, k, |events|)
  {
    RegistryIsLawful();
    SR.PendingIff(Registry(), p, events, |events|);
    assert events[..|events|] == events;
  }

  /** Over every run: a requested sync stays pending until it is served, or lost with the process. */
  lemma {:induction false} PendingUntilServed(p: Process, events: seq<Event>, k: nat, n: nat)
    requires k <= n <= |events| && Run(p, events[..k]).state.pending
    requires forall i :: k <= i < n ==> !SR.ClearsAt(Registry(), p, events, i)
    ensures Run(p, events[..n]).state.pending
  {
    RegistryIsLawful();
    SR.PendingUntilCleared(Registry(), p, events, k, n);
  }

  /** Over every run: until then, it keeps every step from renewing or skipping. */
  lemma {:induction false} NoShortcutWhilePending(p: Process, events: seq<Event>, k: nat, n: nat)
    requires k <= n < |events| && Run(p, events[..k]).state.pending
    requires forall i :: k <= i < n ==> !SR.ClearsAt(Registry(), p, events, i)
    ensures forall b :: b in {Renewed, RestartSkip, NotRenewableAnymore, LeaseIDChanged} ==> !Takes(p, events, n, b)
  {
    PendingUntilServed(p, events, k, n);
    if events[n].Reconciled? {
      PendingStep(Run(p, events[..n]).state, Seen(Run(p, events[..n]), events[n].e));
    }
  }

  /** Nothing but a registry entry asks for a sync: what a restart finds is what was synced last. */
  predicate Settled(st: Status, e: Surroundings, client: ClientMeta) {
    && st.lastGeneration == e.spec.generation > 0
    && (e.spec.create ==> e.destExists)
    && st.client.key in {"", client.key} && st.client.id in {"", client.id}
  }

  predicate AttemptsSync(r: Outcome) { r.branch in {TransformFailed, SyncFailed, Synced} }

  /**
   A restart loses a requested sync exactly when nothing else asks for it.  The next
   reconciliation then goes on to skip or to renew wherever it would have done so without the
   request, and otherwise attempts the sync.
   */
  lemma RestartLosesRequestIff(p: Process, podUID: string, e: Surroundings)
    requires p.state.pending && !e.deleted && (e.spec.create || e.destExists) && e.client.Some?
    ensures var p' := Step(p, Restarted(podUID)); var c := e.client.value; var seen := Seen(p', e);
      && AttemptsSync(Reconcile(p, e).1)
      && (SyncReason(p'.state, seen, c).None? <==> Settled(p.state.status, e, c))
      && (AttemptsSync(Reconcile(p', e).1) <==>
            (Settled(p.state.status, e, c) ==>
               && !RestartSkips(p'.state, seen, c)
               && !(TriesRenewal(p'.state, seen, c) && RenewLease(p'.state, seen).Some?)))
  {
  }

  // ---------------------------------------------------------------- the lease between syncs

  /** Without a sync the recorded lease keeps its ID and its duration does not shrink. */
  lemma LeaseKeptByStep(s: State, e: Surroundings)
    ensures var (s', r) := ReconcileStep(s, e);
      r.branch != Synced ==>
        && s'.status.lease.id == s.status.lease.id
        && s'.status.lease.duration >= s.status.lease.duration
  {
  }

  lemma {:induction false} LeaseKeptBetweenSyncs(p: Process, events: seq<Event>)
    requires forall i :: 0 <= i < |events| ==> !Takes(p, events, i, Synced)
    ensures Run(p, events).state.status.lease.id == p.state.status.lease.id
    ensures Run(p, events).state.status.lease.duration >= p.state.status.lease.duration
  {
    if events != [] {
      var n := |events| - 1;
      var front := events[..n];
      assert forall i :: 0 <= i < n ==> front[..i] == events[..i];
      assert forall i :: 0 <= i < n ==> Takes(p, front, i, Synced) == Takes(p, events, i, Synced);
      LeaseKeptBetweenSyncs(p, front);
      if events[n].Reconciled? {
        LeaseKeptByStep(Run(p, front).state, Seen(Run(p, front), events[n].e));
        assert !Takes(p, events, n, Synced);
      }
    }
  }

  // ---------------------------------------------------------------- lease liveness

  /** Between the start of the renewal window and the end of the lease there is a second to spare. */
  predicate Roomy(lease: Lease, renewalPercent: int) {
    var d := lease.duration * SECOND;
    StartRenewingAt(d, renewalPercent) + SECOND <= d
  }

  /** Skipping after a restart: with a second to spare, the next check comes before the lease ends. */
  lemma RestartSkipInTime(st: Status, spec: Spec, now: nat, random: nat, leaseStart: nat)
    requires !spec.allowStaticCreds && Roomy(st.lease, spec.renewalPercent)
    requires st.lastRenewalTime * SECOND <= leaseStart
    requires now <= RotationTime(st, spec)
    ensures var h := RelativeHorizon(st, spec, now, random).0;
      0 < h && now + h <= leaseStart + st.lease.duration * SECOND
  {
  }

  /** Skipping after a restart at `now`, outside the renewal window, is requeued before the lease ends. */
  ghost predicate SkipInTime(st: Status, spec: Spec, now: nat, random: nat) {
    now + RelativeHorizon(st, spec, now, random).0 <= (st.lastRenewalTime + st.lease.duration) * SECOND
  }

  /** Every restart outside the renewal window is requeued in time exactly when there is a second to spare. */
  lemma RestartSkipInTimeIff(st: Status, spec: Spec)
    requires !spec.allowStaticCreds && st.lease.duration > 0
    ensures (forall now: nat, random: nat :: now <= RotationTime(st, spec) ==> SkipInTime(st, spec, now, random)) <==>
            Roomy(st.lease, spec.renewalPercent)
  {
    if Roomy(st.lease, spec.renewalPercent) {
      forall now: nat, random: nat | now <= RotationTime(st, spec)
        ensures SkipInTime(st, spec, now, random)
      {
        RestartSkipInTime(st, spec, now, random, st.lastRenewalTime * SECOND);
      }
    } else {
      var now: nat := RotationTime(st, spec);
      assert RelativeHorizon(st, spec, now, 0).0 == SECOND;
      assert !SkipInTime(st, spec, now, 0);
    }
  }

  /** Ten seconds are what it takes for every renewal percentage; fewer do for small percentages. */
  lemma RoomyForEveryPercentageIff(lease: Lease)
    ensures (forall percent :: Roomy(lease, percent)) <==> lease.duration >= 10
  {
    var d := lease.duration * SECOND;
    if lease.duration >= 10 {
      forall percent
        ensures Roomy(lease, percent)
      {
        StartRenewingAtBound(d, percent);
      }
    } else {
      assert StartRenewingAt(d, 90) == 9 * d / 10;
      assert !Roomy(lease, 90);
    }
  }

  /** So a lease of nine seconds fails at 90 percent and does not at 80. */
  lemma NineSecondsAreTooFew(st: Status, spec: Spec)
    requires !spec.allowStaticCreds && st.lease.duration == 9
    ensures spec.renewalPercent == 90 ==>
      exists now: nat, random: nat :: now <= RotationTime(st, spec) && !SkipInTime(st, spec, now, random)
    ensures spec.renewalPercent == 80 ==>
      forall now: nat, random: nat :: now <= RotationTime(st, spec) ==> SkipInTime(st, spec, now, random)
  {
    RestartSkipInTimeIff(st, spec);
  }

  /**
   The process next to Vault's view of the lease, the clock and the next requeue; `restarted`
   until the new process has reconciled.
   */
  datatype World = World(
    process: Process, restarted: bool, leaseStart: nat, leaseEnd: nat, clock: nat, due: Option<int>)

  /** The lease that Vault granted or extended in a step. */
  function Grant(e: Surroundings, r: Outcome): Option<Lease> {
    if r.branch == Synced && e.sync.Some? then Some(e.sync.value.lease)
    else if r.branch == Renewed then e.renewal
    else None
  }

  /** One reconciliation at time `e.now`; a granted or renewed lease runs from that moment. */
  function Visit(w: World, e: Surroundings): World {
    var (s, r) := Reconcile(w.process, e);
    var g := Grant(e, r);
    World(w.process.(state := s), false,
          if g.Some? then e.now else w.leaseStart,
          if g.Some? then e.now + g.value.duration * SECOND else w.leaseEnd,
          e.now,
          if r.requeue.Some? then Some(e.now + r.requeue.value) else None)
  }

  function Tick(w: World, ev: Event): World {
    match ev
    case Reconciled(e) => Visit(w, e)
    case Forced => w.(process := Step(w.process, ev))
    case Restarted(_) => w.(process := Step(w.process, ev), restarted := true)
  }

  /**
   Leases that stay renewable, a renewal that keeps its lease ID, a second to spare when a
   restart is skipped, and syncs, status updates and API calls that succeed.  A renewal may
   still fail or come back truncated.
   */
  predicate Healthy(w: World, e: Surroundings) {
    var status := w.process.state.status;
    && !e.deleted && (e.spec.create || e.destExists) && e.client.Some? && e.transformOk
    && e.statusOk && e.finalizerOk && !e.spec.allowStaticCreds
    && e.sync.Some? && e.sync.value.lease.duration > 0
    && e.sync.value.lease.renewable && e.sync.value.lease.id != ""
    && (e.renewal.Some? ==> e.renewal.value.renewable && e.renewal.value.id == status.lease.id)
    && (Reconcile(w.process, e).1.branch == RestartSkip ==> Roomy(status.lease, e.spec.renewalPercent))
  }

  /** A live process fires at its requeue at the latest, a new one any time before the lease ends. */
  predicate InTime(w: World, e: Surroundings) {
    w.clock <= e.now && w.due.Some? && (e.now <= w.due.value || (w.restarted && e.now <= w.leaseEnd))
  }

  predicate Good(w: World, ev: Event) { ev.Reconciled? ==> InTime(w, ev.e) && Healthy(w, ev.e) }

  predicate Live(w: World) {
    var status := w.process.state.status;
    && status.lease.duration > 0 && status.lease.renewable && status.lease.id != ""
    && status.lastRenewalTime * SECOND <= w.leaseStart <= w.clock
    && w.leaseEnd == w.leaseStart + status.lease.duration * SECOND
    && w.due.Some? && w.clock < w.due.value <= w.leaseEnd
  }

  /** Every healthy reconciliation that happens in time leaves a requeue before the end of the lease. */
  lemma VisitStaysLive(w: World, e: Surroundings)
    requires Live(w) && InTime(w, e) && Healthy(w, e)
    ensures Live(Visit(w, e))
  {
    var s, seen, client := w.process.state, Seen(w.process, e), e.client.value;
    if RestartSkips(s, seen, client) {
      RestartSkipInTime(s.status, e.spec, e.now, e.random, w.leaseStart);
    } else if TriesRenewal(s, seen, client) && RenewLease(s, seen).Some? {
      DynamicHorizonBounds(e.renewal.value.duration * SECOND, e.spec.renewalPercent, e.random);
    } else {
      DynamicHorizonBounds(e.sync.value.lease.duration * SECOND, e.spec.renewalPercent, e.random);
    }
  }

  /** Forced syncs and restarts do not touch the lease. */
  lemma TickStaysLive(w: World, ev: Event)
    requires Live(w) && Good(w, ev)
    ensures Live(Tick(w, ev))
  {
    if ev.Reconciled? {
      VisitStaysLive(w, ev.e);
    }
  }

  /** The first sync of an object establishes liveness, whatever was recorded before. */
  lemma FirstSyncIsLive(w: World, e: Surroundings)
    requires w.process.state.status.lastGeneration == 0 && Healthy(w, e)
    ensures Live(Visit(w, e))
  {
    DynamicHorizonBounds(e.sync.value.lease.duration * SECOND, e.spec.renewalPercent, e.random);
  }

  function Ticks(w: World, events: seq<Event>): World {
    if events == [] then w
    else Tick(Ticks(w, events[..|events| - 1]), events[|events| - 1])
  }

  /**
   Lease liveness over whole runs: whatever the jitter draws, renewal percentages, failing
   renewals, forced syncs and restarts, each requeue of the run falls before the end of the
   lease that is live at that point.
   */
  lemma {:induction false} RequeuedBeforeLeaseEnd(w: World, events: seq<Event>, n: nat)
    requires Live(w) && n <= |events|
    requires forall i :: 0 <= i < |events| ==> Good(Ticks(w, events[..i]), events[i])
    ensures Live(Ticks(w, events[..n]))
  {
    if n > 0 {
      RequeuedBeforeLeaseEnd(w, events, n - 1);
      assert events[..n][..n - 1] == events[..n - 1];
      TickStaysLive(Ticks(w, events[..n - 1]), events[n - 1]);
    }
  }

  /** A renewal answered with a lease that is not renewable is never requeued; all others are. */
  lemma RenewalRequeuedIff(s: State, e: Surroundings)
    requires !e.deleted && (e.spec.create || e.destExists) && e.client.Some? && e.finalizerOk
    requires TriesRenewal(s, e, e.client.value) && RenewLease(s, e).Some?
    requires e.renewal.value.id == s.status.lease.id
    ensures ReconcileStep(s, e).1.requeue.Some? <==> e.renewal.value.renewable
  {
  }
}
