/**
 * Parallel slot arithmetic: the memory ceiling, the granted count and the
 * calibration that reduces a server's slots to what was measured.
 * Latencies are whole milliseconds; RAM and model sizes are reals in GB.
 */
module SlotSizing {
  import opened Prelude

  const MAX_SLOTS := 10
  const OS_RESERVE_GB := 4.0
  const PER_SLOT_KV_GB := 1.0
  const CORES_PER_SLOT := 2
  const SLOWDOWN_BUDGET := 1.5
  const TIMEOUT_SAFETY_MARGIN := 1.5
  const MIN_CALIBRATED_TIMEOUT_MS := 20000.0

  /** What `set_parallel_slots` stores. */
  function StoredSlots(n: nat): nat {
    Clamp(n, 1, MAX_SLOTS)
  }

  function BudgetMs(soloMs: nat): (budget: real)
    ensures budget > 1.0
  {
    Max(soloMs, 1) as real * SLOWDOWN_BUDGET
  }

  function ScaledDown(requested: nat, budget: real, burstMs: nat): int
    requires burstMs > 0
  {
    var ratio := budget / burstMs as real;
    (requested as real * ratio).Floor
  }

  function CalibrateEffectiveSlots(requested: nat, soloMs: nat, burstMs: nat): nat {
    if requested <= 1 then
      Max(requested, 1)
    else
      var budget := BudgetMs(soloMs);
      if burstMs as real <= budget then
        requested
      else
        Clamp(ScaledDown(requested, budget, burstMs), 1, requested)
  }

  function CalibrateTimeout(burstMs: nat): real {
    var scaled := burstMs as real * TIMEOUT_SAFETY_MARGIN;
    if scaled < MIN_CALIBRATED_TIMEOUT_MS then MIN_CALIBRATED_TIMEOUT_MS else scaled
  }

  function MaxSafeSlots(ramGb: real, modelGb: real): nat {
    var ramBudget := ((ramGb - modelGb - OS_RESERVE_GB) / PER_SLOT_KV_GB).Floor;
    Min(Max(ramBudget, 1), MAX_SLOTS)
  }

  function RecommendedSlots(ramGb: real, cores: nat, modelGb: real): nat {
    Min(MaxSafeSlots(ramGb, modelGb), Max(cores / CORES_PER_SLOT, 1))
  }

  /** What `llm_set_parallel_slots` grants and reports back. */
  function GrantedSlots(requested: nat, ramGb: real, modelGb: real): nat {
    Clamp(requested, 1, MaxSafeSlots(ramGb, modelGb))
  }

  /** Whether n slots keep a burst of requests within the slowdown budget. */
  predicate WithinBudget(n: nat, requested: nat, soloMs: nat, burstMs: nat) {
    2 * (n * burstMs) <= 3 * (requested * Max(soloMs, 1))
  }

  predicate FitsInRam(n: nat, ramGb: real, modelGb: real) {
    modelGb + OS_RESERVE_GB + n as real * PER_SLOT_KV_GB <= ramGb
  }

  /** Scaling down by budget/burst keeps exactly the counts whose total burst time fits. */
  lemma ScaledDownIsLargest(n: nat, requested: nat, budget: real, burstMs: nat)
    requires burstMs > 0
    ensures n <= ScaledDown(requested, budget, burstMs)
       <==> n as real * burstMs as real <= requested as real * budget
  {
    var d := burstMs as real;
    var q := requested as real * (budget / d);
    assert q * d == requested as real * budget by {
      assert budget / d * d == budget;
      assert q * d == requested as real * (budget / d * d);
    }
    CompareScaled(n as real, q, d);
    assert n <= q.Floor <==> n as real <= q;
  }

  lemma BudgetInIntegers(n: nat, requested: nat, soloMs: nat, burstMs: nat)
    ensures WithinBudget(n, requested, soloMs, burstMs)
       <==> n as real * burstMs as real <= requested as real * BudgetMs(soloMs)
  {
    var s := Max(soloMs, 1);
    assert (n * burstMs) as real == n as real * burstMs as real;
    assert (requested * s) as real == requested as real * s as real;
    assert requested as real * (s as real * 1.5) == 1.5 * (requested as real * s as real);
  }

  lemma CompareScaled(a: real, b: real, d: real)
    requires d > 0.0
    ensures a <= b <==> a * d <= b * d
  {
    if a > b {
      assert (a - b) * d > 0.0;
      assert a * d - b * d == (a - b) * d;
    }
  }

  lemma ScaleBounds(n: real, m: real, x: real, y: real)
    requires 0.0 <= n <= m && 0.0 <= x <= y
    ensures n * x <= m * y
  {
    assert n * x <= n * y;
    assert n * y <= m * y;
  }

  lemma ProductMonotone(a: nat, b: nat, c: nat, d: nat)
    requires a <= b && c <= d
    ensures a * c <= b * d
  {
    assert a * c <= b * c;
    assert b * c <= b * d;
  }

  /**
   * Calibration picks the largest slot count that stays within the budget, and
   * never fewer than one: n slots are kept exactly when n is 1 or n fits.
   */
  lemma {:induction false} CalibrationIsLargestFit(n: nat, requested: nat, soloMs: nat, burstMs: nat)
    requires 1 <= n <= requested
    ensures 1 <= CalibrateEffectiveSlots(requested, soloMs, burstMs) <= requested
    ensures n <= CalibrateEffectiveSlots(requested, soloMs, burstMs)
       <==> n == 1 || WithinBudget(n, requested, soloMs, burstMs)
  {
    if requested > 1 {
      var budget := BudgetMs(soloMs);
      assert WithinBudget(n, requested, soloMs, burstMs)
        <==> n as real * burstMs as real <= requested as real * budget by {
        BudgetInIntegers(n, requested, soloMs, burstMs);
      }
      if burstMs as real <= budget {
        ScaleBounds(n as real, requested as real, burstMs as real, budget);
      } else {
        ScaledDownIsLargest(n, requested, budget, burstMs);
      }
    }
  }

  /** More measured contention never yields more slots; more headroom or a larger request never fewer. */
  lemma {:induction false} CalibrationIsMonotone(q: nat, solo: nat, burst: nat, q': nat, solo': nat, burst': nat)
    requires 1 <= q <= q' && solo <= solo' && burst' <= burst
    ensures CalibrateEffectiveSlots(q, solo, burst) <= CalibrateEffectiveSlots(q', solo', burst')
  {
    CalibrationIsLargestFit(1, q, solo, burst);
    var n := CalibrateEffectiveSlots(q, solo, burst);
    CalibrationIsLargestFit(n, q, solo, burst);
    ProductMonotone(q, q', Max(solo, 1), Max(solo', 1));
    ProductMonotone(n, n, burst', burst);
    CalibrationIsLargestFit(n, q', solo', burst');
  }

  /**
   * A granted count is the largest one no greater than the request that fits in
   * RAM, or one; the recommendation stays under the same ceiling, and storing a
   * granted count never changes it.
   */
  lemma GrantIsLargestFit(n: nat, requested: nat, ramGb: real, modelGb: real, cores: nat)
    requires 1 <= n <= 10
    ensures n <= GrantedSlots(requested, ramGb, modelGb)
       <==> n == 1 || (n <= requested && FitsInRam(n, ramGb, modelGb))
    ensures StoredSlots(GrantedSlots(requested, ramGb, modelGb)) == GrantedSlots(requested, ramGb, modelGb)
    ensures n <= RecommendedSlots(ramGb, cores, modelGb)
       <==> n == 1 || (2 * n <= cores && FitsInRam(n, ramGb, modelGb))
    ensures FitsInRam(n, ramGb, modelGb) <==> modelGb + 4.0 + n as real <= ramGb
  {
    var slack := ramGb - modelGb - OS_RESERVE_GB;
    assert slack / PER_SLOT_KV_GB == slack;
    assert n <= slack.Floor <==> n as real <= slack;
  }

  /** The stored count is the one nearest to what was asked for that the server can be started with. */
  lemma StoredSlotsIsNearest(n: nat, k: nat)
    ensures 1 <= StoredSlots(n) <= 10
    ensures k <= StoredSlots(n) <==> k <= 1 || (k <= n && k <= 10)
  {
  }

  /** The calibrated timeout is the least one that covers both the floor and the measured burst with its margin. */
  lemma TimeoutIsLeastCover(burstMs: nat, timeout: real)
    ensures CalibrateTimeout(burstMs) <= timeout <==>
            20000.0 <= timeout && burstMs as real * 1.5 <= timeout
  {
  }
}
