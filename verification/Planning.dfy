/**
 * The pure planners behind drain, scale, boot and gateway migration.
 * Session counts are unsigned in the source and naturals here; `f64` fractions are reals.
 */
module Planning {
  import opened Collections

  datatype DrainPlan = DrainPlan(targetRemaining: nat, toDrain: nat, blocked: bool, reason: Option<string>)
  datatype ScalePlan = ScalePlan(targetSize: nat, toAdd: nat, blocked: bool, reason: Option<string>)
  datatype MigrationPlan = MigrationPlan(targetCount: nat, toMove: nat, blocked: bool, reason: Option<string>)

  /** `n * x`, as repeated addition. */
  function Times(n: nat, x: real): (r: real)
    ensures x >= 0.0 ==> r >= 0.0
  {
    if n == 0 then 0.0 else Times(n - 1, x) + x
  }

  /** `((n as f64) * fraction).floor()` for a non-negative fraction. */
  function Share(n: nat, fraction: real): nat
    requires 0.0 <= fraction
  {
    Times(n, fraction).Floor
  }

  lemma {:induction false} TimesIsProduct(n: nat, x: real)
    ensures Times(n, x) == n as real * x
  {
    if n != 0 {
      TimesIsProduct(n - 1, x);
      assert (n - 1) as real * x + x == n as real * x;
    }
  }

  /** The share is the floor of the product: within the product, and less than one below it. */
  lemma ShareIsFloor(n: nat, fraction: real)
    requires 0.0 <= fraction
    ensures Share(n, fraction) == (n as real * fraction).Floor
    ensures Share(n, fraction) as real <= n as real * fraction < Share(n, fraction) as real + 1.0
  {
    TimesIsProduct(n, fraction);
  }

  function InitialPoolSessionCount(poolTargetSize: nat, fraction: real): nat {
    if poolTargetSize < 1 then 0
    else if fraction <= 0.0 then 0
    else if fraction >= 1.0 then poolTargetSize
    else Max(Share(poolTargetSize, fraction), 1)
  }

  function BootSessionCount(poolTargetSize: nat, baseline: nat, fraction: Option<real>): nat {
    if fraction.Some? then InitialPoolSessionCount(poolTargetSize, fraction.value)
    else Min(baseline, poolTargetSize)
  }

  /** How many sessions a drain request asks for, before looking at how many are idle. */
  function WantDrain(poolTargetSize: nat, current: nat, fraction: Option<real>, count: Option<nat>): nat {
    if count.Some? then Min(count.value, current)
    else if fraction.Some? && 0.0 <= fraction.value <= 1.0
    then Monus(current, Share(poolTargetSize, 1.0 - fraction.value))
    else 0
  }

  /** A drain request the planner refuses outright. */
  predicate DrainRejected(poolTargetSize: nat, current: nat, fraction: Option<real>, count: Option<nat>) {
    && current >= 1
    && if count.Some? then count.value < 1
       else poolTargetSize < 1 || fraction.None? || !(0.0 <= fraction.value <= 1.0)
  }

  function PlanPoolDrainByCount(current: nat, count: nat, idle: nat): DrainPlan {
    if current < 1 then DrainPlan(0, 0, false, None)
    else if count < 1 then DrainPlan(current, 0, true, Some("invalid_count"))
    else
      var wantDrain := Min(count, current);
      var toDrain := Min(wantDrain, idle);
      var blocked := toDrain < wantDrain;
      DrainPlan(current - toDrain, toDrain, blocked, if blocked then Some("insufficient_idle_sessions") else None)
  }

  function PlanPoolDrain(poolTargetSize: nat, current: nat, fraction: Option<real>, count: Option<nat>, idle: nat)
    : (plan: DrainPlan)
    ensures plan.targetRemaining + plan.toDrain == current
    ensures plan.toDrain <= idle
  {
    if count.Some? then PlanPoolDrainByCount(current, count.value, idle)
    else if current < 1 then DrainPlan(0, 0, false, None)
    else if poolTargetSize < 1 then DrainPlan(current, 0, true, Some("pool_size_zero"))
    else
      var f := fraction.GetOr(-1.0);
      if !(0.0 <= f <= 1.0) then DrainPlan(current, 0, true, Some("invalid_fraction"))
      else
        var targetRemaining := Share(poolTargetSize, 1.0 - f);
        var wantDrain := Monus(current, targetRemaining);
        if wantDrain == 0 then DrainPlan(current, 0, false, None)
        else
          var toDrain := Min(wantDrain, idle);
          var blocked := toDrain < wantDrain;
          DrainPlan(current - toDrain, toDrain, blocked, if blocked then Some("insufficient_idle_sessions") else None)
  }

  /** A drain plan takes what was asked for as far as sessions are idle, and is blocked exactly when that falls short. */
  lemma DrainPlanMeaning(poolTargetSize: nat, current: nat, fraction: Option<real>, count: Option<nat>, idle: nat)
    ensures
      var plan := PlanPoolDrain(poolTargetSize, current, fraction, count, idle);
      var want := WantDrain(poolTargetSize, current, fraction, count);
      if DrainRejected(poolTargetSize, current, fraction, count) then plan.blocked && plan.toDrain == 0
      else plan.toDrain == Min(want, idle) && (plan.blocked <==> idle < want)
  {
  }

  function PlanPoolScale(poolTargetSize: nat, current: nat, targetSize: nat): (plan: ScalePlan)
    ensures plan.blocked <==> !(1 <= targetSize <= poolTargetSize)
    ensures current + plan.toAdd == if plan.blocked then current else Max(current, targetSize)
    ensures plan.toAdd > 0 ==> current + plan.toAdd == targetSize <= poolTargetSize
  {
    if poolTargetSize < 1 then ScalePlan(targetSize, 0, true, Some("pool_size_zero"))
    else if targetSize < 1 || targetSize > poolTargetSize then ScalePlan(targetSize, 0, true, Some("invalid_target_size"))
    else ScalePlan(targetSize, Monus(targetSize, current), false, None)
  }

  function PlanGatewayMigration(poolSize: nat, onTarget: nat, fraction: real): (plan: MigrationPlan)
    ensures plan.blocked <==> poolSize < 1 || !(0.0 <= fraction <= 1.0)
    ensures !plan.blocked ==> onTarget + plan.toMove == Max(onTarget, Share(poolSize, fraction))
  {
    if poolSize < 1 then MigrationPlan(0, 0, true, Some("pool_size_zero"))
    else if !(0.0 <= fraction <= 1.0) then MigrationPlan(0, 0, true, Some("invalid_fraction"))
    else
      var targetCount := Share(poolSize, fraction);
      MigrationPlan(targetCount, Monus(targetCount, onTarget), false, None)
  }

  /** The middle one of the three: the hint where it lies between the bounds, else the nearer bound. */
  function ClampDesired(raw: nat, baseline: nat, max: nat): (r: nat)
    ensures Min(baseline, max) <= raw <= Max(baseline, max) ==> r == raw
    ensures raw < Min(baseline, max) ==> r == Min(baseline, max)
    ensures raw > Max(baseline, max) ==> r == Max(baseline, max)
  {
    var lo := Min(baseline, max);
    var hi := if baseline >= max then baseline else max;
    if raw < lo then lo else if raw > hi then hi else raw
  }

  lemma {:induction false} TimesGrowth(n: nat, k: nat, x: real)
    requires 0.0 <= x <= 1.0
    ensures Times(n, x) <= Times(n + k, x) <= Times(n, x) + k as real
    ensures x == 1.0 ==> Times(n + k, x) == Times(n, x) + k as real
  {
    if k != 0 {
      TimesGrowth(n, k - 1, x);
      assert Times(n + k, x) == Times(n + k - 1, x) + x;
    }
  }

  /**
   * A migration that is not refused aims at the floored product and plans exactly what is missing;
   * it is refused exactly for an empty pool or a fraction outside 0..1, and then plans nothing.
   */
  lemma GatewayPlanMeaning(poolSize: nat, onTarget: nat, fraction: real)
    ensures
      var plan := PlanGatewayMigration(poolSize, onTarget, fraction);
      if poolSize >= 1 && 0.0 <= fraction <= 1.0
      then !plan.blocked && plan.reason == None
           && plan.targetCount == (poolSize as real * fraction).Floor
           && onTarget + plan.toMove == Max(onTarget, (poolSize as real * fraction).Floor)
      else plan.blocked && plan.toMove == 0
           && plan.reason == Some(if poolSize == 0 then "pool_size_zero" else "invalid_fraction")
  {
    if 0.0 <= fraction {
      ShareIsFloor(poolSize, fraction);
    }
  }

  /** What a valid fraction drain asks for: everything above the floored product that is to remain. */
  lemma FractionDrainWants(poolTargetSize: nat, current: nat, fraction: real)
    requires 0.0 <= fraction <= 1.0
    ensures 0 <= (poolTargetSize as real * (1.0 - fraction)).Floor
    ensures
      var keep := (poolTargetSize as real * (1.0 - fraction)).Floor;
      WantDrain(poolTargetSize, current, Some(fraction), None) == Max(0, current - keep)
  {
    ShareIsFloor(poolTargetSize, 1.0 - fraction);
  }

  /** A fraction of the pool never exceeds the pool, and 1.0 means all of it. */
  lemma ShareBounded(n: nat, fraction: real)
    requires 0.0 <= fraction <= 1.0
    ensures Share(n, fraction) <= n
    ensures fraction == 1.0 ==> Share(n, fraction) == n
  {
    TimesGrowth(0, n, fraction);
  }

  /** Growing the pool by `k` grows the migrated share by at most `k`. */
  lemma ShareGrowth(n: nat, k: nat, fraction: real)
    requires 0.0 <= fraction <= 1.0
    ensures Share(n + k, fraction) <= Share(n, fraction) + k
  {
    TimesGrowth(n, k, fraction);
  }

  /** A migration never plans to move more sessions than sit off the target. */
  lemma PlanWithinSources(poolSize: nat, onTarget: nat, fraction: real)
    requires onTarget <= poolSize
    ensures PlanGatewayMigration(poolSize, onTarget, fraction).toMove <= poolSize - onTarget
    ensures fraction == 1.0 ==> PlanGatewayMigration(poolSize, onTarget, fraction).toMove == poolSize - onTarget
  {
    if 0.0 <= fraction <= 1.0 {
      ShareBounded(poolSize, fraction);
    }
  }

  /** A pool that grew on the target by `added` since its share got there has nothing left to move. */
  lemma GrownShareIsMet(base: nat, added: nat, onTarget: nat, fraction: real)
    requires 0.0 <= fraction <= 1.0
    requires Share(base, fraction) + added <= onTarget
    ensures PlanGatewayMigration(base + added, onTarget, fraction).toMove == 0
  {
    ShareGrowth(base, added, fraction);
  }

  /** A counted drain plan takes the smaller of the count and the idle sessions. */
  lemma CountedPlan(size: nat, current: nat, count: nat, idle: nat)
    requires 1 <= count <= current
    ensures PlanPoolDrain(size, current, None, Some(count), idle).toDrain == Min(count, idle)
  {
  }

  /**
   * Boot dials the configured baseline within the pool size, or, for an explicit fraction, the
   * floored product of a proper fraction but at least one session, none below, all above.
   */
  lemma BootMeaning(poolTargetSize: nat, baseline: nat, fraction: Option<real>)
    ensures
      var n := BootSessionCount(poolTargetSize, baseline, fraction);
      match fraction
      case None => n <= baseline && n <= poolTargetSize && (n == baseline || n == poolTargetSize)
      case Some(f) =>
        if poolTargetSize == 0 || f <= 0.0 then n == 0
        else if f >= 1.0 then n == poolTargetSize
        else n == Max(1, (poolTargetSize as real * f).Floor)
  {
    if fraction.Some? && fraction.value >= 0.0 {
      ShareIsFloor(poolTargetSize, fraction.value);
    }
  }

  /** Boot never plans more sessions than the pool may hold, and at least one where any is asked for. */
  lemma BootWithinTarget(poolTargetSize: nat, baseline: nat, fraction: Option<real>)
    ensures BootSessionCount(poolTargetSize, baseline, fraction) <= poolTargetSize
    ensures poolTargetSize >= 1 && (if fraction.Some? then fraction.value > 0.0 else baseline >= 1) ==>
              BootSessionCount(poolTargetSize, baseline, fraction) >= 1
  {
    if fraction.Some? && 0.0 < fraction.value < 1.0 {
      ShareBounded(poolTargetSize, fraction.value);
    }
  }
}
