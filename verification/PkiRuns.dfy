/**
 Whole runs of the VaultPKISecret reconciler: where the recorded certificate comes from, what
 becomes of forced syncs, and that a certificate is always looked at again before it expires.
 */
module PkiRuns {
  import opened Results
  import opened Horizons
  import opened PkiWindow
  import opened PkiReconciler
  import SR = SyncRequests

  /** A reconciliation, a forced sync requested from outside, or a restart, which empties the SyncRegistry. */
  datatype Event = Reconciled(e: Surroundings) | Forced | Restarted

  function Step(s: State, ev: Event): State {
    match ev
    case Reconciled(e) => ReconcileStep(s, e).0
    case Forced => s.(pending := true)
    case Restarted => s.(pending := false)
  }

  function Run(s: State, events: seq<Event>): State { SR.Run(Registry(), s, events) }

  /** The event at position `i` of a run is a reconciliation that takes branch `b`. */
  predicate Takes(s: State, events: seq<Event>, i: nat, b: Branch)
    requires i < |events|
  {
    events[i].Reconciled? && ReconcileStep(Run(s, events[..i]), events[i].e).1.branch == b
  }

  // ---------------------------------------------------------------- provenance of the certificate

  /** The step at position `i` issued the certificate with this serial number and expiration. */
  predicate Issues(s: State, events: seq<Event>, i: nat, serial: string, expiration: int)
    requires i < |events|
  {
    && Takes(s, events, i, Synced)
    && events[i].e.issuing.Issued?
    && events[i].e.issuing.serial == serial && events[i].e.issuing.expiration == expiration
  }

  /** Only an issued certificate replaces the one on record, number and expiration together. */
  lemma CertificateMovesByIssue(s: State, e: Surroundings)
    ensures var (s', r) := ReconcileStep(s, e);
      (s'.status.serial, s'.status.expiration) != (s.status.serial, s.status.expiration) ==>
        && r.branch == Synced && e.issuing.Issued?
        && s'.status.serial == e.issuing.serial && s'.status.expiration == e.issuing.expiration
  {
  }

  /** For every run that starts without a certificate, the one on record was issued by an earlier step. */
  lemma {:induction false} CertificateWasIssued(s: State, events: seq<Event>)
    requires s.status.serial == ""
    ensures var st := Run(s, events).status;
      st.serial != "" ==> exists i :: 0 <= i < |events| && Issues(s, events, i, st.serial, st.expiration)
  {
    if events != [] {
      var n := |events| - 1;
      var front := events[..n];
      CertificateWasIssued(s, front);
      var before, st := Run(s, front).status, Run(s, events).status;
      if events[n].Reconciled? {
        CertificateMovesByIssue(Run(s, front), events[n].e);
      }
      if st.serial != "" {
        if (st.serial, st.expiration) == (before.serial, before.expiration) {
          var i :| 0 <= i < n && Issues(s, front, i, st.serial, st.expiration);
          assert front[..i] == events[..i];
          assert Issues(s, events, i, st.serial, st.expiration);
        } else {
          assert Issues(s, events, n, st.serial, st.expiration);
        }
      }
    }
  }

  // ---------------------------------------------------------------- forced syncs

  /** A forced sync is neither skipped by the renewal window nor forgotten by a failure. */
  lemma PendingStep(s: State, e: Surroundings)
    requires s.pending
    ensures var (s', r) := ReconcileStep(s, e);
      && r.branch != OutsideWindow
      && (!s'.pending <==> (r.branch == Synced && !r.failed) || r.branch == Deletion)
  {
  }

  /** The event issues and records a certificate, or handles the deletion. */
  predicate Serves(s: State, ev: Event) {
    ev.Reconciled? && var r := ReconcileStep(s, ev.e).1; (r.branch == Synced && !r.failed) || r.branch == Deletion
  }

  /** It asks for a sync: from outside, or because Vault refused to issue and the status could be written. */
  predicate Requests(s: State, ev: Event) {
    || ev.Forced?
    || (&& ev.Reconciled? && ReconcileStep(s, ev.e).1.branch == Failed && ev.e.issuing.WriteFailed?
        && ev.e.statusOk && ev.e.finalizerOk)
  }

  /** It removes the entry: by serving it, or by losing the memory it is kept in. */
  predicate Clears(s: State, ev: Event) { ev.Restarted? || Serves(s, ev) }

  /** One event leaves an entry exactly when it makes one, or finds one and does not clear it. */
  lemma EntryAfter(s: State, ev: Event)
    ensures !(Requests(s, ev) && Clears(s, ev))
    ensures Step(s, ev).pending == (Requests(s, ev) || (s.pending && !Clears(s, ev)))
  {
  }

  predicate IsPending(s: State) { s.pending }

  /** The process as the holder of the object's entry in the SyncRegistry. */
  function Registry(): SR.Machine<State, Event> { SR.Machine(Step, IsPending, Requests, Clears) }

  lemma RegistryIsLawful()
    ensures SR.Lawful(Registry())
  {
    forall s: State, ev
      ensures !(Requests(s, ev) && Clears(s, ev))
      ensures IsPending(Step(s, ev)) == (Requests(s, ev) || (IsPending(s) && !Clears(s, ev)))
    {
      EntryAfter(s, ev);
    }
  }

  /** Over every run: a sync is pending exactly when one was requested that nothing has served or lost since. */
  lemma SyncPendingIff(s: State, events: seq<Event>)
    ensures Run(s, events).pending <==> exists k :: SR.Outstanding(Registry(), s, events, k, |events|)
  {
    RegistryIsLawful();
    SR.PendingIff(Registry(), s, events, |events|);
    assert events[..|events|] == events;
  }

  /** Over every run: a requested sync stays pending, past the renewal window, until it is served or lost. */
  lemma {:induction false} PendingUntilServed(s: State, events: seq<Event>, k: nat, n: nat)
    requires k <= n <= |events| && Run(s, events[..k]).pending
    requires forall i :: k <= i < n ==> !SR.ClearsAt(Registry(), s, events, i)
    ensures Run(s, events[..n]).pending
    ensures n < |events| ==> !Takes(s, events, n, OutsideWindow)
  {
    RegistryIsLawful();
    SR.PendingUntilCleared(Registry(), s, events, k, n);
    if n < |events| && events[n].Reconciled? {
      PendingStep(Run(s, events[..n]), events[n].e);
    }
  }

  /** Nothing but a registry entry or the renewal window asks for a sync. */
  predicate Settled(st: Status, e: Surroundings) {
    && st.serial != ""
    && (st.lastRotation > 0 ==> e.generation == st.lastGeneration)
    && (e.create ==> e.dest.Some?)
    && (e.dest.Some? && st.lastRotation > 0 && e.macOk ==> e.dest.value == st.mac != "")
  }

  /**
   A restart loses a requested sync exactly when nothing else asks for it; the next
   reconciliation then passes it over exactly outside the renewal window.
   */
  lemma RestartLosesRequestIff(s: State, e: Surroundings)
    requires s.pending && !e.deleted && !Awaits(e) && e.transformOk
    ensures var s' := Step(s, Restarted); var c := CertificateOf(s.status, e.offset);
      && MustSync(s, e)
      && (SyncReason(s', e).None? <==> Settled(s.status, e))
      && (ReconcileStep(s', e).1.branch == OutsideWindow <==> Settled(s.status, e) && !InWindow(c, e.now))
  {
  }

  // ---------------------------------------------------------------- certificate liveness

  /** The reconciler's state with the offset it was synced with, the clock and the next check. */
  datatype World = World(state: State, offset: nat, clock: nat, due: Option<int>)

  function Current(w: World): Certificate { CertificateOf(w.state.status, w.offset) }

  /** One reconciliation at time `e.now`. */
  function Visit(w: World, e: Surroundings): World {
    var (s, r) := ReconcileStep(w.state, e);
    World(s, if r.branch == Synced then e.offset else w.offset, e.now,
          if r.requeue.Some? then Some(e.now + r.requeue.value) else None)
  }

  function Tick(w: World, ev: Event): World {
    if ev.Reconciled? then Visit(w, ev.e) else w.(state := Step(w.state, ev))
  }

  /** From `now` on no jitter carries a check past the expiration. */
  predicate Punctual(c: Certificate, now: int) {
    c.offset == 0 || RotationTime(c) <= now || MaxJitter(RotationTime(c) - now, JITTER_PERCENT) <= Slack(c)
  }

  /**
   Syncs and API calls succeed, a new certificate is not yet in its renewal window and its
   offset fits its lifetime, and a changed offset comes with a changed generation.
   */
  predicate Healthy(w: World, e: Surroundings) {
    && !e.deleted && (e.create || e.dest.Some?) && e.transformOk && e.statusOk && e.finalizerOk
    && (e.generation == w.state.status.lastGeneration ==> e.offset == w.offset)
    && e.issuing.Issued? && e.issuing.serial != ""
    && var c := Certificate(e.issuing.expiration, e.offset);
       !InWindow(c, e.now) && Punctual(c, e.now)
  }

  /** At any time up to the expiration: at its requeue, on a watch event, or after a restart. */
  predicate InTime(w: World, e: Surroundings) { w.clock <= e.now <= ExpirationTime(Current(w)) }

  predicate Good(w: World, ev: Event) { ev.Reconciled? ==> InTime(w, ev.e) && Healthy(w, ev.e) }

  predicate Live(w: World) {
    && w.state.status.serial != "" && w.state.status.lastRotation > 0 && SECOND <= w.clock
    && Punctual(Current(w), w.clock)
    && w.due.Some? && w.clock < w.due.value <= ExpirationTime(Current(w))
  }

  lemma JitterMonotone(a: nat, b: nat)
    requires a <= b
    ensures MaxJitter(a, JITTER_PERCENT) <= MaxJitter(b, JITTER_PERCENT)
  {
  }

  lemma PunctualStays(c: Certificate, now: int, later: int)
    requires Punctual(c, now) && now <= later
    ensures Punctual(c, later)
  {
    if c.offset > 0 && later < RotationTime(c) {
      JitterMonotone(RotationTime(c) - later, RotationTime(c) - now);
    }
  }

  /** Outside the window, the next check of a punctual certificate comes no later than its expiration. */
  lemma NextCheckInTime(c: Certificate, now: int, random: nat)
    requires !InWindow(c, now) && Punctual(c, now)
    ensures now < NextCheck(c, now, random) <= ExpirationTime(c)
  {
    if c.offset == 0 {
      HopWithoutOffset(c, now, random);
    } else {
      EntersWindowInOneHop(c, now, random);
      OneHopBeforeExpirationIff(c, now);
    }
  }

  lemma {:induction false} VisitStaysLive(w: World, e: Surroundings)
    requires Live(w) && InTime(w, e) && Healthy(w, e)
    ensures Live(Visit(w, e))
  {
    if MustSync(w.state, e) {
      NextCheckInTime(Certificate(e.issuing.expiration, e.offset), e.now, e.random);
    } else {
      PunctualStays(Current(w), w.clock, e.now);
      NextCheckInTime(Current(w), e.now, e.random);
    }
  }

  lemma TickStaysLive(w: World, ev: Event)
    requires Live(w) && Good(w, ev)
    ensures Live(Tick(w, ev))
  {
    if ev.Reconciled? {
      VisitStaysLive(w, ev.e);
    }
  }

  /** The first certificate establishes liveness. */
  lemma FirstIssueIsLive(w: World, e: Surroundings)
    requires w.state.status.serial == "" && Healthy(w, e) && SECOND <= e.now
    ensures Live(Visit(w, e))
  {
    NextCheckInTime(Certificate(e.issuing.expiration, e.offset), e.now, e.random);
  }

  function Ticks(w: World, events: seq<Event>): World {
    if events == [] then w
    else Tick(Ticks(w, events[..|events| - 1]), events[|events| - 1])
  }

  /**
   Certificate liveness over whole runs: whatever the jitter draws, updates, drift, forced syncs
   and restarts, each requeue of the run falls no later than the expiration of the certificate
   then on record.
   */
  lemma {:induction false} CheckedBeforeExpiration(w: World, events: seq<Event>, n: nat)
    requires Live(w) && n <= |events|
    requires forall i :: 0 <= i < |events| ==> Good(Ticks(w, events[..i]), events[i])
    ensures Live(Ticks(w, events[..n]))
  {
    if n > 0 {
      CheckedBeforeExpiration(w, events, n - 1);
      assert events[..n][..n - 1] == events[..n - 1];
      TickStaysLive(Ticks(w, events[..n - 1]), events[n - 1]);
    }
  }
}
