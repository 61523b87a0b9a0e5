/**
 The event watchers of VaultStaticSecrets (controllers/vaultstaticsecret_controller.go,
 controllers/event_watcher_registry.go) as a protocol: reconciliations, serialized per
 object, interleave freely with the watcher goroutines they start and stop.

 A watcher's registry entry is the pointer to its metadata, so entries are identified with
 the goroutine they describe.
 */
module EventWatchers {
  import opened Results

  type Name = string
  type Gid = nat

  /** `Running` until the deferred `Delete`, `Deregistered` until the channel is closed. */
  datatype Phase = Running | Deregistered | Stopped

  /** `held` is the metadata fetched by the goroutine but not yet registered again. */
  datatype Watcher = Watcher(
    name: Name, generation: int, clientID: string, phase: Phase, cancelled: bool, held: Option<Gid>)

  /** Where the reconciliation of an object stands inside `ensureEventWatcher`. */
  datatype Progress = Waiting(on: Gid) | Launching

  datatype State = State(
    registry: map<Name, Gid>,
    watchers: map<Gid, Watcher>,
    reconciles: map<Name, Progress>,
    next: Gid)

  datatype Action =
    | Ensure(name: Name, generation: int, clientID: string)
    | WaitDone(name: Name)
    | WaitTimeout(name: Name)
    | LaunchFailed(name: Name)
    | Launch(name: Name, generation: int, clientID: string)
    | UnWatch(name: Name)
    | Fetch(gid: Gid)
    | Reregister(gid: Gid, clientID: string)
    | Deregister(gid: Gid)
    | CloseChannel(gid: Gid)

  const EMPTY: State := State(map[], map[], map[], 0)

  predicate IsRunning(s: State, g: Gid) { g in s.watchers && s.watchers[g].phase == Running }

  ghost predicate HasRunning(s: State, n: Name) {
    exists g :: IsRunning(s, g) && s.watchers[g].name == n
  }

  /** Which actions can happen; reconciliations of one object never overlap. */
  predicate Enabled(s: State, a: Action) {
    match a
    case Ensure(n, _, _) => n !in s.reconciles
    case UnWatch(n) => n !in s.reconciles
    case WaitDone(n) =>
      && n in s.reconciles && s.reconciles[n].Waiting?
      && s.reconciles[n].on in s.watchers && s.watchers[s.reconciles[n].on].phase == Stopped
    case WaitTimeout(n) => n in s.reconciles && s.reconciles[n].Waiting?
    case LaunchFailed(n) => n in s.reconciles && s.reconciles[n].Launching?
    case Launch(n, _, _) => n in s.reconciles && s.reconciles[n].Launching?
    case Fetch(g) => IsRunning(s, g) && s.watchers[g].held.None?
    case Reregister(g, _) => IsRunning(s, g) && s.watchers[g].held.Some?
    case Deregister(g) => IsRunning(s, g) && s.watchers[g].held.None?
    case CloseChannel(g) => g in s.watchers && s.watchers[g].phase == Deregistered
  }

  function Cancelled(s: State, g: Gid): State {
    if g in s.watchers then s.(watchers := s.watchers[g := s.watchers[g].(cancelled := true)]) else s
  }

  function Next(s: State, a: Action): State
    requires Enabled(s, a)
  {
    match a
    case Ensure(n, generation, clientID) =>
      if n in s.registry then
        var g := s.registry[n];
        if g in s.watchers && s.watchers[g].generation == generation && s.watchers[g].clientID == clientID then s
        else Cancelled(s, g).(reconciles := s.reconciles[n := Waiting(g)])
      else s.(reconciles := s.reconciles[n := Launching])
    case WaitDone(n) => s.(reconciles := s.reconciles[n := Launching])
    case WaitTimeout(n) => s.(reconciles := s.reconciles[n := Launching])
    case LaunchFailed(n) => s.(reconciles := s.reconciles - {n})
    case Launch(n, generation, clientID) =>
      s.(registry := s.registry[n := s.next],
         watchers := s.watchers[s.next := Watcher(n, generation, clientID, Running, false, None)],
         reconciles := s.reconciles - {n},
         next := s.next + 1)
    case UnWatch(n) =>
      if n in s.registry then Cancelled(s, s.registry[n]).(registry := s.registry - {n}) else s
    case Fetch(g) =>
      var n := s.watchers[g].name;
      if n in s.registry then s.(watchers := s.watchers[g := s.watchers[g].(held := Some(s.registry[n]))])
      else s
    case Reregister(g, clientID) =>
      var w := s.watchers[g];
      var h := w.held.value;
      var released := s.watchers[g := w.(held := None)];
      s.(registry := s.registry[w.name := h],
         watchers := if h in released then released[h := released[h].(clientID := clientID)] else released)
    case Deregister(g) =>
      var w := s.watchers[g];
      s.(registry := s.registry - {w.name}, watchers := s.watchers[g := w.(phase := Deregistered)])
    case CloseChannel(g) =>
      s.(watchers := s.watchers[g := s.watchers[g].(phase := Stopped)])
  }

  // ---------------------------------------------------------------- safety

  /** At most one live watcher per object. */
  ghost predicate AtMostOneLive(s: State) {
    forall g, h :: IsRunning(s, g) && IsRunning(s, h) && s.watchers[g].name == s.watchers[h].name ==> g == h
  }

  /** A live watcher that nobody cancelled can be found in the registry, and so be stopped. */
  ghost predicate LiveIsRegistered(s: State) {
    forall g :: IsRunning(s, g) && !s.watchers[g].cancelled ==>
      s.watchers[g].name in s.registry && s.registry[s.watchers[g].name] == g
  }

  ghost predicate RegisteredIsLive(s: State) {
    forall n :: n in s.registry ==> IsRunning(s, s.registry[n]) && s.watchers[s.registry[n]].name == n
  }

  ghost predicate HoldsItsOwn(s: State) {
    forall g :: g in s.watchers && s.watchers[g].held.Some? ==> IsRunning(s, g) && s.watchers[g].held == Some(g)
  }

  ghost predicate ProgressOf(s: State, n: Name, p: Progress) {
    match p
    case Waiting(g) => g in s.watchers && forall h :: IsRunning(s, h) && s.watchers[h].name == n ==> h == g
    case Launching => !HasRunning(s, n)
  }

  ghost predicate ProgressConsistent(s: State) {
    forall n :: n in s.reconciles ==> ProgressOf(s, n, s.reconciles[n])
  }

  ghost predicate Fresh(s: State) { forall g :: g in s.watchers ==> g < s.next }

  ghost predicate Safe(s: State) {
    && AtMostOneLive(s) && LiveIsRegistered(s) && RegisteredIsLive(s) && HoldsItsOwn(s)
    && ProgressConsistent(s) && Fresh(s)
  }

  /**
   The discipline under which the protocol is safe: nobody gives up waiting for a watcher, and
   nobody watches an unwatched object again, before the object's last watcher has deregistered.
   */
  ghost predicate Disciplined(s: State, a: Action) {
    match a
    case WaitTimeout(n) => !HasRunning(s, n)
    case Ensure(n, _, _) => n !in s.registry ==> !HasRunning(s, n)
    case _ => true
  }

  /** Reconciliations outside `moved` keep their standing when no watcher starts for their object. */
  lemma ProgressKept(s: State, s': State, moved: set<Name>)
    requires ProgressConsistent(s) && s.watchers.Keys <= s'.watchers.Keys
    requires forall g :: IsRunning(s', g) ==>
      s'.watchers[g].name in moved || (IsRunning(s, g) && s'.watchers[g].name == s.watchers[g].name)
    requires forall m :: m in s'.reconciles && m !in moved ==> m in s.reconciles && s'.reconciles[m] == s.reconciles[m]
    requires forall m :: m in s'.reconciles && m in moved ==> ProgressOf(s', m, s'.reconciles[m])
    ensures ProgressConsistent(s')
  {
    forall m | m in s'.reconciles && m !in moved
      ensures ProgressOf(s', m, s'.reconciles[m])
    {
      assert ProgressOf(s, m, s.reconciles[m]);
    }
  }

  /** Cancelling a watcher only tells it to stop. */
  lemma CancelKeepsSafe(s: State, g: Gid)
    requires Safe(s) && g in s.watchers
    ensures Safe(Cancelled(s, g))
  {
    var s' := Cancelled(s, g);
    assert forall h :: IsRunning(s', h) <==> IsRunning(s, h);
    ProgressKept(s, s', {});
  }

  lemma EnsureKeepsSafe(s: State, n: Name, generation: int, clientID: string)
    requires var a := Ensure(n, generation, clientID); Safe(s) && Enabled(s, a) && Disciplined(s, a)
    ensures Safe(Next(s, Ensure(n, generation, clientID)))
  {
    var s' := Next(s, Ensure(n, generation, clientID));
    if s' != s {
      var c := if n in s.registry then Cancelled(s, s.registry[n]) else s;
      if n in s.registry {
        CancelKeepsSafe(s, s.registry[n]);
      }
      assert forall g :: IsRunning(s', g) <==> IsRunning(c, g);
      ProgressKept(c, s', {n});
    }
  }

  lemma UnWatchKeepsSafe(s: State, n: Name)
    requires Safe(s) && Enabled(s, UnWatch(n))
    ensures Safe(Next(s, UnWatch(n)))
  {
    if n in s.registry {
      var c := Cancelled(s, s.registry[n]);
      var s' := Next(s, UnWatch(n));
      CancelKeepsSafe(s, s.registry[n]);
      assert forall g :: IsRunning(s', g) <==> IsRunning(c, g);
      ProgressKept(c, s', {});
    }
  }

  lemma LaunchKeepsProgress(s: State, n: Name, generation: int, clientID: string)
    requires ProgressConsistent(s) && Fresh(s) && Enabled(s, Launch(n, generation, clientID))
    ensures ProgressConsistent(Next(s, Launch(n, generation, clientID)))
    ensures forall g :: IsRunning(s, g) ==> s.watchers[g].name != n
  {
    ProgressKept(s, Next(s, Launch(n, generation, clientID)), {n});
    assert ProgressOf(s, n, Launching);
  }

  lemma LaunchKeepsSafe(s: State, n: Name, generation: int, clientID: string)
    requires Safe(s) && Enabled(s, Launch(n, generation, clientID))
    ensures Safe(Next(s, Launch(n, generation, clientID)))
  {
    LaunchKeepsProgress(s, n, generation, clientID);
    var s' := Next(s, Launch(n, generation, clientID));
    assert forall g :: IsRunning(s', g) <==> IsRunning(s, g) || g == s.next;
  }

  lemma FetchKeepsSafe(s: State, g: Gid)
    requires Safe(s) && Enabled(s, Fetch(g))
    ensures Safe(Next(s, Fetch(g)))
  {
    var s' := Next(s, Fetch(g));
    assert ProgressConsistent(s') by { ProgressKept(s, s', {}); }
  }

  lemma ReregisterKeepsSafe(s: State, g: Gid, clientID: string)
    requires Safe(s) && Enabled(s, Reregister(g, clientID))
    ensures Safe(Next(s, Reregister(g, clientID)))
  {
    var s' := Next(s, Reregister(g, clientID));
    assert ProgressConsistent(s') by { ProgressKept(s, s', {}); }
  }

  lemma DeregisterKeepsSafe(s: State, g: Gid)
    requires Safe(s) && Enabled(s, Deregister(g))
    ensures Safe(Next(s, Deregister(g)))
  {
    var s' := Next(s, Deregister(g));
    assert ProgressConsistent(s') by { ProgressKept(s, s', {}); }
  }

  lemma CloseChannelKeepsSafe(s: State, g: Gid)
    requires Safe(s) && Enabled(s, CloseChannel(g))
    ensures Safe(Next(s, CloseChannel(g)))
  {
    var s' := Next(s, CloseChannel(g));
    assert ProgressConsistent(s') by { ProgressKept(s, s', {}); }
  }

  lemma ReconcileProgressKeepsSafe(s: State, a: Action)
    requires Safe(s) && Enabled(s, a)
    requires a.WaitDone? || a.LaunchFailed? || (a.WaitTimeout? && !HasRunning(s, a.name))
    ensures Safe(Next(s, a))
  {
    var s' := Next(s, a);
    assert forall m :: HasRunning(s', m) ==> HasRunning(s, m);
  }

  lemma {:induction false} StepKeepsSafe(s: State, a: Action)
    requires Safe(s) && Enabled(s, a) && Disciplined(s, a)
    ensures Safe(Next(s, a))
  {
    match a
    case Ensure(n, generation, clientID) => EnsureKeepsSafe(s, n, generation, clientID);
    case UnWatch(n) => UnWatchKeepsSafe(s, n);
    case Launch(n, generation, clientID) => LaunchKeepsSafe(s, n, generation, clientID);
    case WaitDone(_) => ReconcileProgressKeepsSafe(s, a);
    case WaitTimeout(_) => ReconcileProgressKeepsSafe(s, a);
    case LaunchFailed(_) => ReconcileProgressKeepsSafe(s, a);
    case Fetch(g) => FetchKeepsSafe(s, g);
    case Reregister(g, clientID) => ReregisterKeepsSafe(s, g, clientID);
    case Deregister(g) => DeregisterKeepsSafe(s, g);
    case CloseChannel(g) => CloseChannelKeepsSafe(s, g);
  }

  /** A trace: consecutive states related by enabled actions. */
  ghost predicate IsRun(states: seq<State>, actions: seq<Action>) {
    && |states| == |actions| + 1
    && states[0] == EMPTY
    && forall i :: 0 <= i < |actions| ==> Enabled(states[i], actions[i]) && states[i + 1] == Next(states[i], actions[i])
  }

  /**
   Under every interleaving of disciplined reconciliations with the watchers, each object has at
   most one live watcher, and each live watcher that was not cancelled is registered.
   */
  lemma {:induction false} WatchersAreSafe(states: seq<State>, actions: seq<Action>, n: nat)
    requires IsRun(states, actions) && n < |states|
    requires forall i :: 0 <= i < |actions| ==> Disciplined(states[i], actions[i])
    ensures Safe(states[n])
  {
    if n > 0 {
      WatchersAreSafe(states, actions, n - 1);
      StepKeepsSafe(states[n - 1], actions[n - 1]);
    }
  }

  // ---------------------------------------------------------------- what the actions achieve

  /** The registered watcher of the object runs for this generation and client. */
  predicate Watches(s: State, n: Name, generation: int, clientID: string) {
    && n in s.registry && s.registry[n] in s.watchers
    && s.watchers[s.registry[n]].generation == generation && s.watchers[s.registry[n]].clientID == clientID
  }

  /**
   `ensureEventWatcher` leaves a watcher alone exactly when it runs for the same generation and
   client.  Any other one is cancelled and waited for; without one a new watcher is started.
   */
  lemma EnsureDecides(s: State, n: Name, generation: int, clientID: string)
    requires Safe(s) && Enabled(s, Ensure(n, generation, clientID))
    ensures var s' := Next(s, Ensure(n, generation, clientID));
      && (Watches(s, n, generation, clientID) ==> s' == s)
      && (!Watches(s, n, generation, clientID) && n in s.registry ==>
            && n in s'.reconciles && s'.reconciles[n] == Waiting(s.registry[n]) && s'.registry == s.registry
            && s'.watchers == s.watchers[s.registry[n] := s.watchers[s.registry[n]].(cancelled := true)])
      && (n !in s.registry ==> s' == s.(reconciles := s.reconciles[n := Launching]))
  {
  }

  /** A started watcher is registered and runs, uncancelled, for the generation and client it was started with. */
  lemma LaunchAchieves(s: State, n: Name, generation: int, clientID: string)
    requires Safe(s) && Enabled(s, Launch(n, generation, clientID))
    ensures var s' := Next(s, Launch(n, generation, clientID));
      && Watches(s', n, generation, clientID) && n !in s'.reconciles && s'.registry[n] !in s.watchers
      && IsRunning(s', s'.registry[n])
      && !s'.watchers[s'.registry[n]].cancelled && s'.watchers[s'.registry[n]].name == n
      && (forall m :: m != n && m in s.registry ==> m in s'.registry && s'.registry[m] == s.registry[m])
      && (forall h :: h in s.watchers ==> h in s'.watchers && s'.watchers[h] == s.watchers[h])
  {
  }

  /** After the wait for a stopped watcher, or a failed start, the reconciliation goes on or ends. */
  lemma WaitingAchieves(s: State, a: Action)
    requires Enabled(s, a) && (a.WaitDone? || a.WaitTimeout? || a.LaunchFailed?)
    ensures var s' := Next(s, a);
      && s'.registry == s.registry && s'.watchers == s.watchers
      && (a.LaunchFailed? ==> a.name !in s'.reconciles)
      && (!a.LaunchFailed? ==> a.name in s'.reconciles && s'.reconciles[a.name] == Launching)
      && (a.WaitDone? ==> s.watchers[s.reconciles[a.name].on].phase == Stopped)
  {
  }

  /** `unWatchEvents` cancels the registered watcher and forgets it, and does nothing without one. */
  lemma UnWatchAchieves(s: State, n: Name)
    requires Safe(s) && Enabled(s, UnWatch(n))
    ensures var s' := Next(s, UnWatch(n));
      && n !in s'.registry && (n !in s.registry ==> s' == s)
      && (n in s.registry ==> s'.watchers[s.registry[n]] == s.watchers[s.registry[n]].(cancelled := true))
      && (forall m :: m != n && m in s.registry ==> m in s'.registry && s'.registry[m] == s.registry[m])
  {
  }

  /** A watcher that reloads its client records the new one for itself, where `ensureEventWatcher` finds it. */
  lemma ReregisterAchieves(s: State, g: Gid, clientID: string)
    requires Safe(s) && Enabled(s, Reregister(g, clientID))
    ensures var s' := Next(s, Reregister(g, clientID)); var n := s.watchers[g].name;
      && Watches(s', n, s.watchers[g].generation, clientID) && s'.registry[n] == g
      && s'.watchers[g] == s.watchers[g].(held := None, clientID := clientID)
  {
  }

  /** A watcher that ends deletes its registration, and only then closes its channel. */
  lemma EndingAchieves(s: State, g: Gid)
    requires Safe(s)
    ensures Enabled(s, Deregister(g)) ==>
      var s' := Next(s, Deregister(g));
      s.watchers[g].name !in s'.registry && s'.watchers[g] == s.watchers[g].(phase := Deregistered)
    ensures Enabled(s, CloseChannel(g)) ==>
      var s' := Next(s, CloseChannel(g));
      s'.registry == s.registry && s'.watchers[g] == s.watchers[g].(phase := Stopped)
  {
  }

  // ---------------------------------------------------------------- why the discipline is needed

  /** The discipline is exact: in a safe state it is broken by exactly the actions that lead out of safety. */
  lemma SafeIffDisciplined(s: State, a: Action)
    requires Safe(s) && Enabled(s, a)
    ensures Safe(Next(s, a)) <==> Disciplined(s, a)
  {
    if Disciplined(s, a) {
      StepKeepsSafe(s, a);
    } else {
      var s' := Next(s, a);
      var g :| IsRunning(s, g) && s.watchers[g].name == a.name;
      assert IsRunning(s', g) && HasRunning(s', a.name);
      assert !ProgressOf(s', a.name, s'.reconciles[a.name]);
    }
  }

  /** Starting a watcher keeps "at most one" exactly when no watcher of the object is still live. */
  lemma LaunchIsSafeIff(s: State, n: Name, generation: int, clientID: string)
    requires AtMostOneLive(s) && Fresh(s) && Enabled(s, Launch(n, generation, clientID))
    ensures AtMostOneLive(Next(s, Launch(n, generation, clientID))) <==> !HasRunning(s, n)
  {
    var s' := Next(s, Launch(n, generation, clientID));
    assert IsRunning(s', s.next) && s'.watchers[s.next].name == n;
    if HasRunning(s, n) {
      var g :| IsRunning(s, g) && s.watchers[g].name == n;
      assert IsRunning(s', g) && g != s.next;
    }
  }

  /**
   A watcher that ends leaves every uncancelled watcher registered exactly when the entry it
   deletes is its own, or one nobody needs any more.
   */
  lemma DeregisterIsSafeIff(s: State, g: Gid)
    requires LiveIsRegistered(s) && Enabled(s, Deregister(g))
    ensures var n := s.watchers[g].name;
      LiveIsRegistered(Next(s, Deregister(g))) <==>
        (n in s.registry && s.registry[n] != g && IsRunning(s, s.registry[n]) && s.watchers[s.registry[n]].name == n ==>
           s.watchers[s.registry[n]].cancelled)
  {
    var n := s.watchers[g].name;
    var s' := Next(s, Deregister(g));
    if n in s.registry && s.registry[n] != g && IsRunning(s, s.registry[n]) && s.watchers[s.registry[n]].name == n {
      assert IsRunning(s', s.registry[n]);
    }
  }

  /**
   After `unWatchEvents`, a watcher that still drains deletes the registration of its successor:
   the successor then runs, uncancelled, where nobody can find it.
   */
  lemma DrainingWatcherOrphansSuccessor(n: Name)
    ensures var s0 := Next(EMPTY, Ensure(n, 1, "a"));
      var s1 := Next(s0, Launch(n, 1, "a"));
      var s2 := Next(s1, UnWatch(n));
      var s3 := Next(s2, Ensure(n, 2, "a"));
      var s4 := Next(s3, Launch(n, 2, "a"));
      var s5 := Next(s4, Deregister(0));
      IsRunning(s5, 1) && !s5.watchers[1].cancelled && n !in s5.registry
  {
  }

  // ---------------------------------------------------------------- the loop of a watcher

  datatype Stream = StreamEnded | ConnectionClosed | StreamFailed

  /** What one turn of the loop of `getEvents` meets. */
  datatype Turn = Turn(
    contextDone: bool, backOffStops: bool, stream: Stream,
    clientOk: bool, websocketOk: bool, registered: bool)

  const ERROR_THRESHOLD: nat := 5

  /** Errors met in the first `n` turns. */
  function Errors(turns: seq<Turn>, n: nat): nat
    requires n <= |turns|
  {
    if n == 0 then 0 else Errors(turns, n - 1) + if turns[n - 1].stream == StreamFailed then 1 else 0
  }

  predicate StopsQuietly(t: Turn, errors: nat) {
    t.contextDone || (!(errors > 0 && t.backOffStops) && t.stream == ConnectionClosed)
  }

  predicate StopsAndRequeues(t: Turn, errors: nat) {
    && !t.contextDone
    && ((errors > 0 && t.backOffStops) ||
        (t.stream == StreamFailed &&
         (errors + 1 >= ERROR_THRESHOLD || !t.clientOk || !t.websocketOk || !t.registered)))
  }

  /** The loop survives turn `i`. */
  predicate GoesOn(turns: seq<Turn>, i: nat)
    requires i < |turns|
  {
    !StopsQuietly(turns[i], Errors(turns, i)) && !StopsAndRequeues(turns[i], Errors(turns, i))
  }

  /**
   A turn is survived exactly when the context is open, no backoff has run out, and the stream
   either ended or failed for less than the fifth time with a new client, websocket and
   registration at hand.
   */
  lemma GoesOnIff(turns: seq<Turn>, i: nat)
    requires i < |turns|
    ensures var t := turns[i]; var errors := Errors(turns, i);
      GoesOn(turns, i) <==>
        && !t.contextDone && !(errors > 0 && t.backOffStops)
        && (|| t.stream == StreamEnded
            || (t.stream == StreamFailed && errors < 4 && t.clientOk && t.websocketOk && t.registered))
  {
  }

  /** A turn that is not survived ends quietly exactly when the context is done or the connection was closed. */
  lemma QuietIff(turns: seq<Turn>, i: nat)
    requires i < |turns| && !GoesOn(turns, i)
    ensures var t := turns[i];
      && (StopsQuietly(t, Errors(turns, i)) <==> !StopsAndRequeues(t, Errors(turns, i)))
      && (StopsQuietly(t, Errors(turns, i)) <==>
            t.contextDone || (t.stream == ConnectionClosed && !(Errors(turns, i) > 0 && t.backOffStops)))
  {
  }

  /**
   `getEvents`: runs until its context is done, its connection is closed, or it gives up, in
   which case the object is requeued; five errors are always enough to give up.  `stopped` is
   false only when the given turns end first.
   */
  method GetEvents(turns: seq<Turn>) returns (stopped: bool, requeued: bool, n: nat)
    ensures n <= |turns| && (stopped ==> n < |turns|) && (!stopped ==> n == |turns| && !requeued)
    ensures forall i :: 0 <= i < n ==> GoesOn(turns, i)
    ensures stopped && requeued ==> StopsAndRequeues(turns[n], Errors(turns, n))
    ensures stopped && !requeued ==> StopsQuietly(turns[n], Errors(turns, n))
    ensures Errors(turns, n) < 5
  {
    var shouldBackOff := false;
    var errorCount := 0;
    n := 0;
    while n < |turns|
      invariant n <= |turns|
      invariant errorCount == Errors(turns, n) < ERROR_THRESHOLD && shouldBackOff == (errorCount > 0)
      invariant forall i :: 0 <= i < n ==> GoesOn(turns, i)
    {
      var t := turns[n];
      if t.contextDone {
        return true, false, n;
      }
      if shouldBackOff && t.backOffStops {
        return true, true, n;
      }
      if t.stream == ConnectionClosed {
        return true, false, n;
      }
      if t.stream == StreamFailed {
        errorCount := errorCount + 1;
        shouldBackOff := true;
        if errorCount >= ERROR_THRESHOLD || !t.clientOk || !t.websocketOk || !t.registered {
          return true, true, n;
        }
      }
      n := n + 1;
    }
    return false, false, n;
  }
}
