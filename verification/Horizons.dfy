/**
 Requeue horizons (controllers/common.go).  Durations are whole nanoseconds.  Products with
 a float64 percentage are taken exactly and truncated; `random` stands for the value drawn
 from `random.Int63()` and is arbitrary in every statement.
 */
module Horizons {

  const SECOND: nat := 1_000_000_000
  const RENEWAL_PERCENT_CAP: nat := 90
  const REQUEUE_ON_ERROR: nat := 5 * SECOND

  /** The bound `u` of `computeMaxJitterWithPercent`. */
  function MaxJitter(d: nat, percent: nat): nat { d * percent / 100 }

  function Jitter(d: nat, percent: nat, random: nat): (j: nat)
    ensures j == 0 || j < MaxJitter(d, percent)
  {
    var u := MaxJitter(d, percent);
    if u == 0 then 0 else random % u
  }

  function HorizonWithJitter(d: nat, random: nat): int {
    d - (MaxJitter(d, 10) + Jitter(d, 10, random))
  }

  function CapRenewalPercent(renewalPercent: int): (p: nat)
    ensures p <= RENEWAL_PERCENT_CAP
  {
    if renewalPercent > RENEWAL_PERCENT_CAP then RENEWAL_PERCENT_CAP
    else if renewalPercent < 0 then 0
    else renewalPercent
  }

  function StartRenewingAt(d: nat, renewalPercent: int): nat {
    d * CapRenewalPercent(renewalPercent) / 100
  }

  function DynamicHorizonWithJitter(d: nat, renewalPercent: int, random: nat): int {
    StartRenewingAt(d, renewalPercent) + MaxJitter(d, 10) - Jitter(d, 10, random)
  }

  lemma MulMonotone(d: nat, p: nat, q: nat)
    requires p <= q
    ensures d * p <= d * q
  {
  }

  lemma StartRenewingAtBound(d: nat, renewalPercent: int)
    ensures 10 * StartRenewingAt(d, renewalPercent) <= 9 * d
  {
    MulMonotone(d, CapRenewalPercent(renewalPercent), 90);
  }

  /** The renewal falls after the start of the renewal window and never after the end of the lease. */
  lemma DynamicHorizonBounds(d: nat, renewalPercent: int, random: nat)
    ensures var h := DynamicHorizonWithJitter(d, renewalPercent, random);
      && StartRenewingAt(d, renewalPercent) <= h <= d
      && (10 <= d ==> StartRenewingAt(d, renewalPercent) < h)
  {
    StartRenewingAtBound(d, renewalPercent);
  }

  /** Every jitter below the bound is drawn by some value, so the bounds of a horizon are those of its draws. */
  lemma JitterAttains(d: nat, percent: nat, j: nat)
    requires j < d * percent / 100
    ensures Jitter(d, percent, j) == j
  {
  }

  /** The horizon for a lease takes exactly the values in the tenth of the lease behind its renewal start. */
  lemma DynamicHorizonRange(d: nat, renewalPercent: int, h: int)
    requires d >= 10
    ensures (exists random: nat :: DynamicHorizonWithJitter(d, renewalPercent, random) == h) <==>
      var percent := if renewalPercent > 90 then 90 else if renewalPercent < 0 then 0 else renewalPercent;
      d * percent / 100 < h <= d * percent / 100 + d / 10
  {
    var percent := if renewalPercent > 90 then 90 else if renewalPercent < 0 then 0 else renewalPercent;
    var start := d * percent / 100;
    assert MaxJitter(d, 10) == d / 10;
    if start < h <= start + d / 10 {
      var j: nat := start + d / 10 - h;
      JitterAttains(d, 10, j);
      assert DynamicHorizonWithJitter(d, renewalPercent, j) == h;
    }
  }

  /** After an error: what is left of `d` without a tenth and a draw below a tenth. */
  lemma ErrorHorizonRange(d: nat, h: int)
    requires d >= 10
    ensures (exists random: nat :: HorizonWithJitter(d, random) == h) <==> d - 2 * (d / 10) < h <= d - d / 10
  {
    assert MaxJitter(d, 10) == d / 10;
    if d - 2 * (d / 10) < h <= d - d / 10 {
      var j: nat := d - d / 10 - h;
      JitterAttains(d, 10, j);
      assert HorizonWithJitter(d, j) == h;
    }
  }

  /** The error horizon keeps between 80% and 90% of the given duration. */
  lemma HorizonWithJitterBounds(d: nat, random: nat)
    ensures var h := HorizonWithJitter(d, random);
      8 * d <= 10 * h && h <= d - d / 10
  {
  }
}
