/** Backoff and re-verification intervals of the candidate scheduler. Floats are modelled as reals. */
module Cooldown {

  function Clamp(lo: real, hi: real, x: real): (r: real)
    requires lo <= hi
    ensures lo <= r <= hi
    ensures lo <= x <= hi ==> r == x
    ensures (x <= lo ==> r == lo) && (x >= hi ==> r == hi)
  {
    if x < lo then lo else if x > hi then hi else x
  }

  function MaxReal(a: real, b: real): real { if a >= b then a else b }

  function MinReal(a: real, b: real): real { if a <= b then a else b }

  /** `base * 2^n`. */
  function Doubled(base: real, n: nat): (r: real)
    ensures base > 0.0 ==> r > 0.0
  {
    if n == 0 then base else Doubled(base, n - 1) + Doubled(base, n - 1)
  }

  /** The undisturbed backoff after `fails` consecutive failures. */
  function Nominal(fails: int, base: real, maxCooldown: real): real
    requires fails >= 1
  {
    MinReal(maxCooldown, Doubled(base, if fails - 1 <= 16 then fails - 1 else 16))
  }

  /** `ratio` stands for the digest-derived fraction in [0, 1]. */
  function JitterFactor(jitter: real, ratio: real): real { 1.0 + (2.0 * ratio - 1.0) * jitter }

  function Jittered(nominal: real, maxCooldown: real, factor: real): (cd: real)
    ensures 0.0 <= cd <= MaxReal(0.0, maxCooldown)
  {
    MaxReal(0.0, MinReal(maxCooldown, nominal * factor))
  }

  function ComputeCooldown(fails: int, base: real, maxCooldown: real, jitter: real, ratio: real): (cd: real)
    ensures 0.0 <= cd <= MaxReal(0.0, maxCooldown)
    ensures fails <= 0 ==> cd == 0.0
  {
    if fails <= 0 then 0.0
    else Jittered(Nominal(fails, base, maxCooldown), maxCooldown, JitterFactor(jitter, ratio))
  }

  /** With digest fractions `r` and `r'`, failure `fails + 1` waits longer than failure `fails`. */
  predicate Longer(fails: int, base: real, maxCooldown: real, jitter: real, r: real, r': real) {
    ComputeCooldown(fails, base, maxCooldown, jitter, r) < ComputeCooldown(fails + 1, base, maxCooldown, jitter, r')
  }

  lemma MulMonotone(k: real, a: real, b: real)
    requires k >= 0.0 && a <= b
    ensures k * a <= k * b
  {
    assert k * (b - a) >= 0.0;
  }

  lemma Bounded(k: real, x: real)
    requires k >= 0.0 && -1.0 <= x <= 1.0
    ensures -k <= x * k <= k
  {
    assert (x + 1.0) * k >= 0.0;
    assert (1.0 - x) * k >= 0.0;
  }

  lemma FactorBounds(jitter: real, r: real)
    requires 0.0 <= jitter <= 1.0 && 0.0 <= r <= 1.0
    ensures 1.0 - jitter <= JitterFactor(jitter, r) <= 1.0 + jitter
  {
    Bounded(jitter, 2.0 * r - 1.0);
  }

  lemma GrowthStep(n: real, maxCooldown: real, f: real, f': real)
    requires 0.0 < n && n + n <= maxCooldown && 0.0 <= f < 2.0 && f < f' + f'
    ensures Jittered(n, maxCooldown, f) < Jittered(n + n, maxCooldown, f')
  {
    assert n * (2.0 - f) > 0.0;
    assert n * (f' + f' - f) > 0.0;
    assert n * f < n + n;
    assert n * f < (n + n) * f';
    assert n * f >= 0.0;
  }

  lemma ShrinkStep(n: real, maxCooldown: real, f: real, f': real)
    requires 0.0 < n && f' + f' <= f
    ensures Jittered(n, maxCooldown, f) >= Jittered(n + n, maxCooldown, f')
  {
    MulMonotone(n, f' + f', f);
    assert (n + n) * f' == n * (f' + f');
  }

  /** Below the ceiling, one more failure waits strictly longer whatever the digests say precisely when
      the jitter ratio is below one third. The scheduler's 0.2 is. */
  lemma BackoffGrowsIffJitterSmall(fails: int, base: real, maxCooldown: real, jitter: real)
    requires 1 <= fails <= 16 && base > 0.0 && 0.0 <= jitter <= 1.0
    requires Doubled(base, fails) <= maxCooldown
    ensures (forall r, r' | 0.0 <= r <= 1.0 && 0.0 <= r' <= 1.0 :: Longer(fails, base, maxCooldown, jitter, r, r'))
            <==> jitter < 1.0 / 3.0
  {
    var n := Nominal(fails, base, maxCooldown);
    assert n == Doubled(base, fails - 1);
    if jitter < 1.0 / 3.0 {
      forall r, r' | 0.0 <= r <= 1.0 && 0.0 <= r' <= 1.0 ensures Longer(fails, base, maxCooldown, jitter, r, r') {
        FactorBounds(jitter, r);
        FactorBounds(jitter, r');
        GrowthStep(n, maxCooldown, JitterFactor(jitter, r), JitterFactor(jitter, r'));
      }
    } else {
      ShrinkStep(n, maxCooldown, JitterFactor(jitter, 1.0), JitterFactor(jitter, 0.0));
      assert !Longer(fails, base, maxCooldown, jitter, 1.0, 0.0);
    }
  }

  // ---- Tiered re-verification ----

  const DEFAULT_VERIFY_TTL := 7200.0

  datatype Tier = New | Degraded | Healthy

  function TierOf(verified: bool, verifications: nat, totalFails: nat): Tier {
    if !verified || verifications < 2 then New
    else if totalFails >= 2 then Degraded
    else Healthy
  }

  /** The intervals of the three tiers, as a caller may override them. */
  datatype Intervals = Intervals(unproven: real, degraded: real, healthy: real)

  const DEFAULT_INTERVALS := Intervals(3600.0, 1800.0, 14400.0)

  function TierSeconds(t: Tier, iv: Intervals): real {
    MaxReal(60.0, match t case New => iv.unproven case Degraded => iv.degraded case Healthy => iv.healthy)
  }

  function VerifyTtlFor(t: Tier, ceiling: real, iv: Intervals): (ttl: real)
    ensures 60.0 <= ttl <= TierSeconds(t, iv)
    ensures 0.0 < ceiling < DEFAULT_VERIFY_TTL ==> ttl <= MaxReal(60.0, ceiling)
    ensures ttl < TierSeconds(t, iv) ==> 0.0 < ceiling < DEFAULT_VERIFY_TTL && ttl == MaxReal(60.0, ceiling)
  {
    var tier := TierSeconds(t, iv);
    MaxReal(60.0, if 0.0 < ceiling < DEFAULT_VERIFY_TTL then MinReal(tier, ceiling) else tier)
  }

  /** The interval with the default tiers, which is what the scheduler uses. */
  function VerifyTtl(t: Tier, ceiling: real): real { VerifyTtlFor(t, ceiling, DEFAULT_INTERVALS) }

  /** The documentation calls the caller's `verify_ttl` an overall cap. It is one for every tier exactly when it
      is at least a minute and either below the flat default or no shorter than any tier. */
  lemma CeilingIsACapIff(ceiling: real, iv: Intervals)
    ensures (forall t :: VerifyTtlFor(t, ceiling, iv) <= ceiling)
            <==> 60.0 <= ceiling && (ceiling < DEFAULT_VERIFY_TTL || forall t :: TierSeconds(t, iv) <= ceiling)
  {
    if ceiling < 60.0 {
      assert VerifyTtlFor(New, ceiling, iv) > ceiling;
    } else if ceiling >= DEFAULT_VERIFY_TTL && !(forall t :: TierSeconds(t, iv) <= ceiling) {
      var t :| TierSeconds(t, iv) > ceiling;
      assert VerifyTtlFor(t, ceiling, iv) > ceiling;
    }
  }

  /** With the default tiers the cap fails below a minute and between the flat default and the healthy tier:
      a ceiling of 10000 seconds still gives a healthy node 14400. */
  lemma DefaultCeilingIsACapIff(ceiling: real)
    ensures (forall t :: VerifyTtl(t, ceiling) <= ceiling)
            <==> 60.0 <= ceiling && (ceiling < DEFAULT_VERIFY_TTL || 14400.0 <= ceiling)
    ensures VerifyTtl(Healthy, 10000.0) == 14400.0
  {
    CeilingIsACapIff(ceiling, DEFAULT_INTERVALS);
    assert forall t :: VerifyTtl(t, ceiling) == VerifyTtlFor(t, ceiling, DEFAULT_INTERVALS);
    assert TierSeconds(Healthy, DEFAULT_INTERVALS) == 14400.0;
  }
}
