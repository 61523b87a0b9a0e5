/**
 The renewal window of a PKI certificate (controllers/vaultpkisecret_controller.go) and the
 chain of checks that a reconciler makes while the certificate is outside of it.
 */
module PkiWindow {
  import opened Horizons

  const MIN_HORIZON: nat := SECOND
  const JITTER_PERCENT: nat := 5

  /** A certificate: expiration in Unix seconds, and the parsed spec.expiryOffset in nanoseconds. */
  datatype Certificate = Certificate(expiration: int, offset: nat)

  /** Only whole seconds of the offset move the rotation time. */
  function RotationTime(c: Certificate): int { (c.expiration - c.offset / SECOND) * SECOND }

  function ExpirationTime(c: Certificate): int { c.expiration * SECOND }

  predicate InWindow(c: Certificate, now: int) { RotationTime(c) - now < MIN_HORIZON }

  /** `computePKIRenewalWindow`. */
  method RenewalWindow(c: Certificate, now: int, random: nat) returns (horizon: int, inWindow: bool)
    ensures inWindow == InWindow(c, now)
    ensures now + horizon == NextCheck(c, now, random)
  {
    var rotationTime := RotationTime(c);
    horizon := rotationTime - now;
    inWindow := false;
    if now >= rotationTime || horizon < MIN_HORIZON {
      horizon := MIN_HORIZON;
      inWindow := true;
    }
    var jitter := Jitter(horizon, JITTER_PERCENT, random);
    if c.offset > 0 || inWindow {
      horizon := horizon + jitter;
    } else {
      horizon := horizon - jitter;
    }
  }

  function Horizon(c: Certificate, now: int): nat {
    if InWindow(c, now) then MIN_HORIZON else RotationTime(c) - now
  }

  /** When the reconciler looks at the certificate again. */
  function NextCheck(c: Certificate, now: int, random: nat): int {
    var h := Horizon(c, now);
    var j := Jitter(h, JITTER_PERCENT, random);
    if c.offset > 0 || InWindow(c, now) then now + h + j else now + h - j
  }

  /**
   In the window the next check comes after a second and less than 0.05 seconds more.  Outside of
   it, it comes up to a twentieth of the horizon before the rotation time or, with an offset,
   after it.
   */
  lemma NextCheckRange(c: Certificate, now: int, random: nat)
    ensures var next := NextCheck(c, now, random);
      var rotation := (c.expiration - c.offset / 1_000_000_000) * 1_000_000_000;
      var left := rotation - now;
      && (left < 1_000_000_000 ==> 1_000_000_000 <= next - now < 1_050_000_000)
      && (left >= 1_000_000_000 && c.offset == 0 ==> next <= rotation && 20 * (rotation - next) < left)
      && (left >= 1_000_000_000 && c.offset > 0 ==> rotation <= next && 20 * (next - rotation) < left)
  {
  }

  /** And every such moment is drawn. */
  lemma NextCheckAttains(c: Certificate, now: int, j: nat)
    requires !InWindow(c, now) && 20 * j + 20 <= RotationTime(c) - now
    ensures exists random: nat ::
      NextCheck(c, now, random) == if c.offset > 0 then RotationTime(c) + j else RotationTime(c) - j
  {
    JitterAttains(RotationTime(c) - now, JITTER_PERCENT, j);
    assert NextCheck(c, now, j) == if c.offset > 0 then RotationTime(c) + j else RotationTime(c) - j;
  }

  /** The time of the check after `|randoms|` requeues. */
  function CheckTime(c: Certificate, start: int, randoms: seq<nat>): int {
    if randoms == [] then start
    else NextCheck(c, CheckTime(c, start, randoms[..|randoms| - 1]), randoms[|randoms| - 1])
  }

  // ---------------------------------------------------------------- without an offset

  /** A check outside the window is followed by one that leaves less than 1/20 of the remaining time. */
  lemma HopWithoutOffset(c: Certificate, now: int, random: nat)
    requires c.offset == 0 && !InWindow(c, now)
    ensures var next := NextCheck(c, now, random); var remaining := ExpirationTime(c) - now;
      && now < next <= ExpirationTime(c)
      && 20 * (ExpirationTime(c) - next) < remaining
  {
  }

  function Pow20(n: nat): (p: nat)
    ensures p > 0
  {
    if n == 0 then 1 else 20 * Pow20(n - 1)
  }

  /** The whole chain up to and including its last check stayed outside the window. */
  predicate OutsideThroughout(c: Certificate, start: int, randoms: seq<nat>) {
    forall i :: 0 <= i < |randoms| ==> !InWindow(c, CheckTime(c, start, randoms[..i]))
  }

  function Remaining(c: Certificate, start: int, randoms: seq<nat>): int {
    ExpirationTime(c) - CheckTime(c, start, randoms)
  }

  /** Each further hop divides the remaining time by twenty, and no check comes after the expiration. */
  lemma {:induction false} ChainWithoutOffset(c: Certificate, start: int, randoms: seq<nat>)
    requires c.offset == 0 && start <= ExpirationTime(c) && OutsideThroughout(c, start, randoms)
    ensures 0 <= Remaining(c, start, randoms)
    ensures Pow20(|randoms|) * Remaining(c, start, randoms) <= ExpirationTime(c) - start
  {
    if randoms != [] {
      var n := |randoms| - 1;
      var front := randoms[..n];
      assert forall i :: 0 <= i < n ==> front[..i] == randoms[..i];
      assert OutsideThroughout(c, start, front);
      ChainWithoutOffset(c, start, front);
      HopWithoutOffset(c, CheckTime(c, start, front), randoms[n]);
      ScaleHop(Pow20(n), Remaining(c, start, randoms), Remaining(c, start, front), ExpirationTime(c) - start);
    }
  }

  lemma ScaleHop(p: nat, after: int, before: int, total: int)
    requires 20 * after <= before && p * before <= total
    ensures 20 * p * after <= total
  {
    ScaleMonotone(p, 20 * after, before);
  }

  lemma ScaleMonotone(k: nat, a: int, b: int)
    requires a <= b
    ensures k * a <= k * b
  {
  }

  /**
   Logarithmic termination: a certificate with less than 20^n seconds left enters its window
   within n hops, whatever the jitter draws, and not after it has expired.
   */
  lemma EntersWindowWithinLogarithm(c: Certificate, start: int, randoms: seq<nat>)
    requires c.offset == 0 && start <= ExpirationTime(c)
    requires ExpirationTime(c) - start < Pow20(|randoms|) * SECOND
    ensures exists i ::
      && 0 <= i <= |randoms|
      && InWindow(c, CheckTime(c, start, randoms[..i]))
      && CheckTime(c, start, randoms[..i]) <= ExpirationTime(c)
  {
    var n := |randoms|;
    assert randoms[..n] == randoms;
    if OutsideThroughout(c, start, randoms) {
      ChainWithoutOffset(c, start, randoms);
      var remaining := Remaining(c, start, randoms);
      assert remaining < SECOND by {
        if remaining >= SECOND {
          ScaleMonotone(Pow20(n), SECOND, remaining);
        }
      }
    } else {
      var i := FirstInside(c, start, randoms);
      assert forall k :: 0 <= k < i ==> randoms[..i][..k] == randoms[..k];
      ChainWithoutOffset(c, start, randoms[..i]);
    }
  }

  lemma FirstInside(c: Certificate, start: int, randoms: seq<nat>) returns (i: nat)
    requires !OutsideThroughout(c, start, randoms)
    ensures i < |randoms| && InWindow(c, CheckTime(c, start, randoms[..i]))
    ensures forall k :: 0 <= k < i ==> !InWindow(c, CheckTime(c, start, randoms[..k]))
  {
    i := 0;
    while !InWindow(c, CheckTime(c, start, randoms[..i]))
      invariant i <= |randoms|
      invariant forall k :: 0 <= k < i ==> !InWindow(c, CheckTime(c, start, randoms[..k]))
      invariant i == |randoms| ==> OutsideThroughout(c, start, randoms)
      decreases |randoms| - i
    {
      i := i + 1;
    }
  }

  // ---------------------------------------------------------------- with an offset

  /** With an offset the next check is in the window, in a single hop. */
  lemma EntersWindowInOneHop(c: Certificate, now: int, random: nat)
    requires c.offset > 0 && !InWindow(c, now)
    ensures InWindow(c, NextCheck(c, now, random))
    ensures NextCheck(c, now, random) >= RotationTime(c)
  {
  }

  /** Whole seconds of the offset, in nanoseconds: the time between rotation and expiration. */
  function Slack(c: Certificate): nat { c.offset / SECOND * SECOND }

  /**
   That check comes before the expiration for every jitter draw exactly when the bound of the
   jitter does not exceed the slack.
   */
  lemma OneHopBeforeExpirationIff(c: Certificate, now: int)
    requires c.offset > 0 && !InWindow(c, now)
    ensures (forall random :: NextCheck(c, now, random) < ExpirationTime(c)) <==>
            MaxJitter(RotationTime(c) - now, JITTER_PERCENT) <= Slack(c)
  {
    var h := RotationTime(c) - now;
    var u := MaxJitter(h, JITTER_PERCENT);
    assert ExpirationTime(c) == now + h + Slack(c);
    assert u > 0;
    assert (u - 1) % u == u - 1;
    assert Jitter(h, JITTER_PERCENT, u - 1) == u - 1;
    assert NextCheck(c, now, u - 1) == now + h + (u - 1);
  }

  /** In particular it does when the horizon is at most twenty times the whole seconds of the offset. */
  lemma OneHopBeforeExpiration(c: Certificate, now: int, random: nat)
    requires c.offset >= SECOND && !InWindow(c, now)
    requires RotationTime(c) - now <= 20 * Slack(c)
    ensures NextCheck(c, now, random) < ExpirationTime(c)
  {
    OneHopBeforeExpirationIff(c, now);
  }

  /** An offset below one second only has the jitter added: some draw overshoots the expiration. */
  lemma SubSecondOffsetOvershoots(c: Certificate, now: int)
    requires 0 < c.offset < SECOND && !InWindow(c, now)
    ensures exists random :: NextCheck(c, now, random) >= ExpirationTime(c)
  {
    OneHopBeforeExpirationIff(c, now);
  }
}
