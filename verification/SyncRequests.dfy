/**
 Requests for a sync (SyncRegistry, controllers/registry.go).  The registry lives in the memory
 of the operator's process: an entry is there until it is cleared, and a restart clears it too.
 The reconcilers that keep such entries are machines whose events make and clear them.
 */
module SyncRequests {

  /** A reconciler, seen from its entry in the registry. */
  datatype Machine<!S, !E> = Machine(
    step: (S, E) -> S, pending: S -> bool, requests: (S, E) -> bool, clears: (S, E) -> bool)

  /** One event leaves an entry exactly when it makes one, or finds one and does not clear it. */
  ghost predicate Lawful<S(!new), E(!new)>(m: Machine<S, E>) {
    forall s, ev ::
      && !(m.requests(s, ev) && m.clears(s, ev))
      && m.pending(m.step(s, ev)) == (m.requests(s, ev) || (m.pending(s) && !m.clears(s, ev)))
  }

  function Run<S, E>(m: Machine<S, E>, s: S, events: seq<E>): S {
    if events == [] then s
    else m.step(Run(m, s, events[..|events| - 1]), events[|events| - 1])
  }

  predicate RequestsAt<S, E>(m: Machine<S, E>, s: S, events: seq<E>, i: nat)
    requires i < |events|
  {
    m.requests(Run(m, s, events[..i]), events[i])
  }

  predicate ClearsAt<S, E>(m: Machine<S, E>, s: S, events: seq<E>, i: nat)
    requires i < |events|
  {
    m.clears(Run(m, s, events[..i]), events[i])
  }

  /** A request made just before event `k`, or before the run, is not cleared by event `n`. */
  ghost predicate Outstanding<S, E>(m: Machine<S, E>, s: S, events: seq<E>, k: nat, n: nat)
    requires n <= |events|
  {
    && k <= n
    && (if k == 0 then m.pending(s) else RequestsAt(m, s, events, k - 1))
    && forall i :: k <= i < n ==> !ClearsAt(m, s, events, i)
  }

  lemma RunNext<S, E>(m: Machine<S, E>, s: S, events: seq<E>, n: nat)
    requires n < |events|
    ensures Run(m, s, events[..n + 1]) == m.step(Run(m, s, events[..n]), events[n])
  {
    assert events[..n + 1][..n] == events[..n];
  }

  /** Over every run: an entry is there exactly when some request was made that no event has cleared since. */
  lemma {:induction false} PendingIff<S(!new), E(!new)>(m: Machine<S, E>, s: S, events: seq<E>, n: nat)
    requires Lawful(m) && n <= |events|
    ensures m.pending(Run(m, s, events[..n])) <==> exists k :: Outstanding(m, s, events, k, n)
  {
    if n == 0 {
      assert events[..0] == [];
      assert m.pending(s) <==> Outstanding(m, s, events, 0, 0);
    } else {
      PendingIff(m, s, events, n - 1);
      RunNext(m, s, events, n - 1);
      var before, ev := Run(m, s, events[..n - 1]), events[n - 1];
      assert m.pending(m.step(before, ev)) == (m.requests(before, ev) || (m.pending(before) && !m.clears(before, ev)));
      if m.requests(before, ev) {
        assert Outstanding(m, s, events, n, n);
      } else if m.pending(before) && !m.clears(before, ev) {
        var k: nat :| Outstanding(m, s, events, k, n - 1);
        assert Outstanding(m, s, events, k, n);
      }
      if exists k :: Outstanding(m, s, events, k, n) {
        var k: nat :| Outstanding(m, s, events, k, n);
        if k < n {
          assert Outstanding(m, s, events, k, n - 1) && !ClearsAt(m, s, events, n - 1);
        } else {
          assert RequestsAt(m, s, events, n - 1);
        }
      }
    }
  }

  /** Over every run: an entry stays until an event clears it. */
  lemma {:induction false} PendingUntilCleared<S(!new), E(!new)>(
    m: Machine<S, E>, s: S, events: seq<E>, k: nat, n: nat)
    requires Lawful(m) && k <= n <= |events| && m.pending(Run(m, s, events[..k]))
    requires forall i :: k <= i < n ==> !ClearsAt(m, s, events, i)
    ensures m.pending(Run(m, s, events[..n]))
    decreases n
  {
    if n > k {
      PendingUntilCleared(m, s, events, k, n - 1);
      RunNext(m, s, events, n - 1);
      assert !ClearsAt(m, s, events, n - 1);
      var before, ev := Run(m, s, events[..n - 1]), events[n - 1];
      assert m.pending(m.step(before, ev)) == (m.requests(before, ev) || (m.pending(before) && !m.clears(before, ev)));
    }
  }
}
