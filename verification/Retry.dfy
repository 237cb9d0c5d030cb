/** Backoff delays (runtime/core/src/retry.rs), in nanoseconds, with the integer widths of the original. */
module Retry {
  import opened Wrappers

  const U32: nat := 0x1_0000_0000
  const U64_MAX: nat := 0xffff_ffff_ffff_ffff
  const DURATION_MAX: nat := U64_MAX * 1_000_000_000 + 999_999_999

  type Duration = d: nat | d <= DURATION_MAX
  type Attempt = a: nat | a < U32

  datatype Backoff = Fixed | Linear | Exponential

  datatype Policy = Policy(backoff: Backoff, initialDelay: Duration, maxDelay: Duration)

  function Min(a: nat, b: nat): (m: nat)
    ensures m <= a && m <= b && (m == a || m == b)
  {
    if a <= b then a else b
  }

  function Pow2(k: nat): (p: nat)
    ensures p > 0
  {
    if k == 0 then 1 else 2 * Pow2(k - 1)
  }

  /** `2u64.saturating_pow(k) as u32`. */
  function Factor(k: nat): nat {
    Min(Pow2(k), U64_MAX) % U32
  }

  /** `None` is the panic of an overflowing `Duration` product, which only linear mode can meet; a delay never
      exceeds the policy's cap. */
  function DelayForAttempt(p: Policy, attempt: Attempt): (d: Option<Duration>)
    ensures d.Some? ==> d.value <= p.maxDelay
    ensures d.None? ==> p.backoff.Linear? && p.initialDelay * attempt > DURATION_MAX
  {
    if attempt == 0 then Some(0)
    else
      match p.backoff
      case Fixed => Some(Min(p.initialDelay, p.maxDelay))
      case Linear =>
        if p.initialDelay * attempt > DURATION_MAX then None else Some(Min(p.initialDelay * attempt, p.maxDelay))
      case Exponential => Some(Min(Min(p.initialDelay * Factor(attempt - 1), DURATION_MAX), p.maxDelay))
  }

  /** The other modes: the initial delay, or its multiple by the attempt, and never more than the cap. Before the
      first retry no mode waits. */
  lemma FixedAndLinearDelays(p: Policy, attempt: Attempt)
    ensures attempt == 0 ==> DelayForAttempt(p, attempt) == Some(0)
    ensures attempt > 0 && p.backoff.Fixed? ==>
              DelayForAttempt(p, attempt) == Some(if p.initialDelay <= p.maxDelay then p.initialDelay else p.maxDelay)
    ensures attempt > 0 && p.backoff.Linear? ==>
              var product := p.initialDelay * attempt;
              DelayForAttempt(p, attempt) == if product > DURATION_MAX then None
                                             else if product <= p.maxDelay then Some(product) else Some(p.maxDelay)
  {
  }

  lemma Pow2Splits(j: nat, k: nat)
    ensures Pow2(j + k) == Pow2(j) * Pow2(k)
  {
    if j > 0 {
      Pow2Splits(j - 1, k);
      assert 2 * (Pow2(j - 1) * Pow2(k)) == (2 * Pow2(j - 1)) * Pow2(k);
    }
  }

  lemma Pow2Grows(j: nat, k: nat)
    requires j <= k
    ensures Pow2(j) <= Pow2(k)
  {
    if j < k {
      Pow2Grows(j, k - 1);
    }
  }

  lemma Pow2At16()
    ensures Pow2(16) == 0x1_0000
  {
    assert Pow2(1) == 2 * Pow2(0) && Pow2(0) == 1;
    Pow2Splits(1, 1);
    Pow2Splits(2, 2);
    assert Pow2(4) == 16;
    Pow2Splits(4, 4);
    assert Pow2(8) == 256;
    Pow2Splits(8, 8);
  }

  lemma Pow2At32()
    ensures Pow2(32) == U32 && Pow2(31) == 0x8000_0000
  {
    Pow2At16();
    Pow2Splits(16, 16);
    assert Pow2(32) == 2 * Pow2(31);
  }

  lemma Pow2At64()
    ensures Pow2(64) == U64_MAX + 1
  {
    Pow2At32();
    Pow2Splits(32, 32);
  }

  /** The factor doubles while it fits 32 bits, is then zero for 32 attempts, and stays 2^32 - 1 after. */
  lemma FactorIs(k: nat)
    ensures k < 32 ==> Factor(k) == Pow2(k)
    ensures 32 <= k < 64 ==> Factor(k) == 0
    ensures k >= 64 ==> Factor(k) == U32 - 1
  {
    Pow2At32();
    Pow2At64();
    if k < 32 {
      Pow2Grows(k, 31);
    } else if k < 64 {
      Pow2Splits(32, k - 32);
      Pow2Grows(k + 1, 64);
      assert Pow2(k + 1) == 2 * Pow2(k);
      Multiple(Pow2(k - 32));
    } else {
      Pow2Grows(64, k);
      assert U64_MAX == (U32 - 1) + U32 * (U32 - 1);
    }
  }

  lemma Multiple(q: nat)
    ensures (U32 * q) % U32 == 0
  {
  }

  function CappedDoubling(p: Policy, attempt: Attempt): nat
    requires attempt > 0
  {
    Min(p.initialDelay * Pow2(attempt - 1), p.maxDelay)
  }

  /** Exponential mode is the capped doubling the documentation promises exactly for attempts up to 32, for
      a zero delay or cap, and past attempt 64 when 2^32 - 1 initial delays already reach the cap. From
      attempt 33 to 64 it waits not at all. */
  lemma DoublesIff(p: Policy, attempt: Attempt)
    requires p.backoff.Exponential? && attempt > 0
    ensures DelayForAttempt(p, attempt) == Some(CappedDoubling(p, attempt)) <==>
            || attempt <= 32
            || p.initialDelay == 0
            || p.maxDelay == 0
            || (attempt > 64 && p.initialDelay * (U32 - 1) >= p.maxDelay)
  {
    var k, d := attempt - 1, p.initialDelay;
    ExponentialDelays(p, attempt);
    if attempt > 32 {
      Pow2At32();
      Pow2Grows(32, k);
      SmallerProduct(d, if attempt > 64 then U32 - 1 else 0, Pow2(k), p.maxDelay);
    }
  }

  /** Exponential mode in full: doubling, then no wait at all, then a constant. */
  lemma ExponentialDelays(p: Policy, attempt: Attempt)
    requires p.backoff.Exponential? && attempt > 0
    ensures attempt <= 32 ==> DelayForAttempt(p, attempt) == Some(CappedDoubling(p, attempt))
    ensures 32 < attempt <= 64 ==> DelayForAttempt(p, attempt) == Some(0)
    ensures attempt > 64 ==> DelayForAttempt(p, attempt) == Some(Min(p.initialDelay * (U32 - 1), p.maxDelay))
  {
    FactorIs(attempt - 1);
    CapBeforeOrAfter(p.initialDelay * Factor(attempt - 1), p.maxDelay);
  }

  /** A smaller factor gives the same capped delay only if there is nothing to delay or the cap is met. */
  lemma SmallerProduct(d: nat, small: nat, large: nat, cap: nat)
    requires small < large
    ensures Min(d * small, cap) == Min(d * large, cap) <==> d == 0 || d * small >= cap
  {
    if d > 0 {
      Larger(d, small, large);
    }
  }

  /** Saturating at the type's end before the cap changes nothing. */
  lemma CapBeforeOrAfter(product: nat, cap: Duration)
    ensures Min(Min(product, DURATION_MAX), cap) == Min(product, cap)
  {
  }

  lemma Larger(d: nat, small: nat, large: nat)
    requires d > 0 && small < large
    ensures d * small < d * large
  {
  }

  /** Up to attempt 32 waiting longer never means waiting less. */
  lemma DelaysGrow(p: Policy, one: Attempt, two: Attempt)
    requires p.backoff.Exponential? && one <= two <= 32
    ensures DelayForAttempt(p, one).value <= DelayForAttempt(p, two).value
  {
    if one > 0 {
      DoublesIff(p, one);
      DoublesIff(p, two);
      Pow2Grows(one - 1, two - 1);
      AtLeast(p.initialDelay, Pow2(one - 1), Pow2(two - 1));
    }
  }

  lemma AtLeast(d: nat, small: nat, large: nat)
    requires small <= large
    ensures d * small <= d * large
  {
  }
}
