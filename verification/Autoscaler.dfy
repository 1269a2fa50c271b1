/**
 The adaptive autoscaler of `src/adaptive_hpa.rs`: smoothed service indicators,
 a dominant ratio, cooldown and stabilization gates, a step bound, a clamp and a
 cost cap, and what these guarantee over whole runs. Floating-point numbers are
 reals and a time is a count of nanoseconds.
 */
module Autoscaler {
  import opened Options

  const I32_MAX := 0x7fff_ffff
  const I32_MIN := -0x8000_0000
  const NANOS := 1_000_000_000

  function Max(a: int, b: int): int {
    if a < b then b else a
  }

  function Min(a: int, b: int): int {
    if a < b then a else b
  }

  /** The saturating conversion of a whole number to 32 bits. */
  function Saturated(n: int): int {
    Min(Max(n, I32_MIN), I32_MAX)
  }

  function Ceiling(x: real): int {
    -((-x).Floor)
  }

  /** Whole seconds of a duration, towards zero. */
  function Seconds(d: int): int {
    if d >= 0 then d / NANOS else -((-d) / NANOS)
  }

  // ---------------------------------------------------------------------------
  // Indicators
  // ---------------------------------------------------------------------------

  datatype Kind = CloseLatency | SyncLag | QueueDepth | InvocationLatency | Congestion | Throughput

  datatype Metric =
    | LedgerCloseLatency(p95: real, targetMax: real)
    | LedgerSyncLag(lag: nat, targetLedgers: nat)
    | HorizonTxQueueDepth(queued: nat, targetQueue: nat)
    | SorobanInvocationLatency(p95: real, targetMax: real)
    | FeeStatCongestion(congestion: real, targetRatio: real)
    | TransactionThroughput(tps: real, targetPerReplica: real)
  {
    function Name(): Kind {
      match this
      case LedgerCloseLatency(_, _) => CloseLatency
      case LedgerSyncLag(_, _) => SyncLag
      case HorizonTxQueueDepth(_, _) => QueueDepth
      case SorobanInvocationLatency(_, _) => InvocationLatency
      case FeeStatCongestion(_, _) => Congestion
      case TransactionThroughput(_, _) => Throughput
    }

    /** Observed over target. */
    function ScalingRatio(replicas: int): real {
      match this
      case LedgerCloseLatency(x, t) => Over(x, t)
      case LedgerSyncLag(x, t) => CountOver(x, t)
      case HorizonTxQueueDepth(x, t) => CountOver(x, t)
      case SorobanInvocationLatency(x, t) => Over(x, t)
      case FeeStatCongestion(x, t) => Over(x, t)
      case TransactionThroughput(x, t) => Over(x, Max(replicas, 1) as real * t)
    }
  }

  function Over(x: real, target: real): real {
    if target <= 0.0 then 1.0 else x / target
  }

  function CountOver(x: nat, target: nat): real {
    if target == 0 then (if x > 0 then 2.0 else 1.0) else x as real / target as real
  }

  /** What is observed, and the target it is measured against. */
  function Observed(m: Metric): real {
    match m
    case LedgerCloseLatency(x, _) => x
    case LedgerSyncLag(x, _) => x as real
    case HorizonTxQueueDepth(x, _) => x as real
    case SorobanInvocationLatency(x, _) => x
    case FeeStatCongestion(x, _) => x
    case TransactionThroughput(x, _) => x
  }

  function Target(m: Metric, replicas: int): real {
    match m
    case LedgerCloseLatency(_, t) => t
    case LedgerSyncLag(_, t) => t as real
    case HorizonTxQueueDepth(_, t) => t as real
    case SorobanInvocationLatency(_, t) => t
    case FeeStatCongestion(_, t) => t
    case TransactionThroughput(_, t) => Max(replicas, 1) as real * t
  }

  /** Every indicator goes under its own name, so measurements share an average exactly when they are of one. */
  lemma NamesTellIndicators(m: Metric)
    ensures m.Name() == CloseLatency <==> m.LedgerCloseLatency?
    ensures m.Name() == SyncLag <==> m.LedgerSyncLag?
    ensures m.Name() == QueueDepth <==> m.HorizonTxQueueDepth?
    ensures m.Name() == InvocationLatency <==> m.SorobanInvocationLatency?
    ensures m.Name() == Congestion <==> m.FeeStatCongestion?
    ensures m.Name() == Throughput <==> m.TransactionThroughput?
  {
  }

  /** A ratio is what is observed over its target, above 1 exactly when that is exceeded; without a target only a positive count does that. */
  lemma RatioMeansPressure(m: Metric, replicas: int)
    ensures Target(m, replicas) > 0.0 ==> m.ScalingRatio(replicas) * Target(m, replicas) == Observed(m)
    ensures Target(m, replicas) > 0.0 ==> (m.ScalingRatio(replicas) > 1.0 <==> Observed(m) > Target(m, replicas))
    ensures Target(m, replicas) > 0.0 ==> (m.ScalingRatio(replicas) < 1.0 <==> Observed(m) < Target(m, replicas))
    ensures Target(m, replicas) <= 0.0 ==>
              m.ScalingRatio(replicas) == if (m.LedgerSyncLag? || m.HorizonTxQueueDepth?) && Observed(m) > 0.0 then 2.0 else 1.0
  {
    if Target(m, replicas) > 0.0 {
      RatioIsQuotient(m, replicas);
      QuotientOverOne(Observed(m), Target(m, replicas));
      QuotientTimes(Observed(m), Target(m, replicas));
    }
  }

  lemma RatioIsQuotient(m: Metric, replicas: int)
    requires Target(m, replicas) > 0.0
    ensures m.ScalingRatio(replicas) == Observed(m) / Target(m, replicas)
  {
  }

  lemma QuotientTimes(x: real, t: real)
    requires t > 0.0
    ensures x / t * t == x
  {
  }

  lemma QuotientOverOne(x: real, t: real)
    requires t > 0.0
    ensures x / t > 1.0 <==> x > t
    ensures x / t < 1.0 <==> x < t
  {
    var q := x / t;
    assert q * t == x;
    if q > 1.0 { Positive(q - 1.0, t); }
    if q < 1.0 { Positive(1.0 - q, t); }
    assert (q - 1.0) * t == x - t;
  }

  lemma Positive(x: real, y: real)
    requires x > 0.0 && y > 0.0
    ensures x * y > 0.0
  {
  }

  // ---------------------------------------------------------------------------
  // Smoothing
  // ---------------------------------------------------------------------------

  type Ewma = map<Kind, real>

  datatype Sample = Sample(kind: Kind, ratio: real)

  function Smoothed(alpha: real, ewma: Ewma, s: Sample): real {
    if s.kind in ewma then alpha * s.ratio + (1.0 - alpha) * ewma[s.kind] else s.ratio
  }

  function EwmaAfter(alpha: real, ewma: Ewma, samples: seq<Sample>): Ewma {
    if samples == [] then ewma else
    var before := EwmaAfter(alpha, ewma, samples[..|samples| - 1]);
    var last := samples[|samples| - 1];
    before[last.kind := Smoothed(alpha, before, last)]
  }

  /** The smoothed value each sample yields. */
  function SmoothedValues(alpha: real, ewma: Ewma, samples: seq<Sample>): (r: seq<real>)
    ensures |r| == |samples|
  {
    if samples == [] then [] else
    var init := samples[..|samples| - 1];
    SmoothedValues(alpha, ewma, init) + [Smoothed(alpha, EwmaAfter(alpha, ewma, init), samples[|samples| - 1])]
  }

  lemma NonNegative(x: real, y: real)
    requires x >= 0.0 && y >= 0.0
    ensures x * y >= 0.0
  {
  }

  lemma MixBetween(alpha: real, x: real, y: real, lo: real, hi: real)
    requires 0.0 <= alpha <= 1.0 && lo <= x <= hi && lo <= y <= hi
    ensures lo <= alpha * x + (1.0 - alpha) * y <= hi
  {
    NonNegative(alpha, x - lo);
    NonNegative(1.0 - alpha, y - lo);
    NonNegative(alpha, hi - x);
    NonNegative(1.0 - alpha, hi - y);
    assert alpha * x + (1.0 - alpha) * y - lo == alpha * (x - lo) + (1.0 - alpha) * (y - lo);
    assert hi - (alpha * x + (1.0 - alpha) * y) == alpha * (hi - x) + (1.0 - alpha) * (hi - y);
  }

  ghost predicate InRange(ewma: Ewma, k: Kind, lo: real, hi: real) {
    k in ewma ==> lo <= ewma[k] <= hi
  }

  lemma SmoothedInRange(alpha: real, ewma: Ewma, s: Sample, k: Kind, lo: real, hi: real)
    requires 0.0 <= alpha <= 1.0 && InRange(ewma, k, lo, hi) && (s.kind == k ==> lo <= s.ratio <= hi)
    ensures InRange(ewma[s.kind := Smoothed(alpha, ewma, s)], k, lo, hi)
  {
    if s.kind == k && k in ewma { MixBetween(alpha, s.ratio, ewma[k], lo, hi); }
  }

  /** A moving average stays within the range of its samples. */
  lemma {:induction false} EwmaInRange(alpha: real, ewma: Ewma, samples: seq<Sample>, k: Kind, lo: real, hi: real)
    requires 0.0 <= alpha <= 1.0 && InRange(ewma, k, lo, hi)
    requires forall s | s in samples && s.kind == k :: lo <= s.ratio <= hi
    ensures InRange(EwmaAfter(alpha, ewma, samples), k, lo, hi)
  {
    if samples != [] {
      var init, last := samples[..|samples| - 1], samples[|samples| - 1];
      EwmaInRange(alpha, ewma, init, k, lo, hi);
      SmoothedInRange(alpha, EwmaAfter(alpha, ewma, init), last, k, lo, hi);
    }
  }

  lemma GapClosed(alpha: real, x: real, y: real)
    ensures alpha * x + (1.0 - alpha) * y - y == alpha * (x - y)
  {
  }

  lemma SmoothedMoves(alpha: real, ewma: Ewma, s: Sample)
    ensures s.kind !in ewma ==> Smoothed(alpha, ewma, s) == s.ratio
    ensures s.kind in ewma ==> Smoothed(alpha, ewma, s) - ewma[s.kind] == alpha * (s.ratio - ewma[s.kind])
  {
    if s.kind in ewma { GapClosed(alpha, s.ratio, ewma[s.kind]); }
  }

  lemma EwmaOne(alpha: real, ewma: Ewma, samples: seq<Sample>, s: Sample)
    ensures var before := EwmaAfter(alpha, ewma, samples);
            EwmaAfter(alpha, ewma, samples + [s]) == before[s.kind := Smoothed(alpha, before, s)]
  {
    assert (samples + [s])[..|samples|] == samples;
  }

  /** `after` is `before` with one more sample: a first one counts in full, a later one closes alpha of the gap. */
  ghost predicate Moved(alpha: real, before: Ewma, s: Sample, after: Ewma) {
    && after.Keys == before.Keys + {s.kind}
    && (s.kind !in before ==> after[s.kind] == s.ratio)
    && (s.kind in before ==> after[s.kind] - before[s.kind] == alpha * (s.ratio - before[s.kind]))
    && forall k | k in before && k != s.kind :: after[k] == before[k]
  }

  /**
   A first sample is its indicator's average; a later one closes exactly the
   fraction alpha of the gap; other averages stay.
   */
  lemma SmoothingStep(alpha: real, ewma: Ewma, samples: seq<Sample>, s: Sample)
    ensures Moved(alpha, EwmaAfter(alpha, ewma, samples), s, EwmaAfter(alpha, ewma, samples + [s]))
  {
    EwmaOne(alpha, ewma, samples, s);
    SmoothedMoves(alpha, EwmaAfter(alpha, ewma, samples), s);
  }

  /** The ratio that sample `i` yields is the average of its indicator once it is counted. */
  lemma {:induction false} SmoothedIsAverage(alpha: real, ewma: Ewma, samples: seq<Sample>, i: nat)
    requires i < |samples|
    ensures var now := EwmaAfter(alpha, ewma, samples[..i + 1]);
            samples[i].kind in now && SmoothedValues(alpha, ewma, samples)[i] == now[samples[i].kind]
  {
    var init := samples[..|samples| - 1];
    if i < |init| {
      SmoothedIsAverage(alpha, ewma, init, i);
      assert init[..i + 1] == samples[..i + 1];
    } else {
      assert samples[..i + 1] == samples;
    }
  }

  function Power(x: real, n: nat): real {
    if n == 0 then 1.0 else x * Power(x, n - 1)
  }

  lemma GapShrinks(alpha: real, x: real, start: real, p: real, was: real, now: real)
    requires was == x + p * (start - x) && now - was == alpha * (x - was)
    ensures now == x + (1.0 - alpha) * p * (start - x)
  {
    var gap := p * (start - x);
    assert now == x + gap - alpha * gap;
    assert (1.0 - alpha) * p * (start - x) == (1.0 - alpha) * gap;
  }

  /** The averages after `n` samples that are all `s`. */
  ghost predicate Converging(alpha: real, start: Ewma, s: Sample, n: nat, after: Ewma) {
    s.kind in start && s.kind in after
    && after[s.kind] == s.ratio + Power(1.0 - alpha, n) * (start[s.kind] - s.ratio)
  }

  lemma ConvergesOn(alpha: real, start: Ewma, s: Sample, n: nat, before: Ewma, after: Ewma)
    requires Converging(alpha, start, s, n, before) && Moved(alpha, before, s, after)
    ensures Converging(alpha, start, s, n + 1, after)
  {
    GapShrinks(alpha, s.ratio, start[s.kind], Power(1.0 - alpha, n), before[s.kind], after[s.kind]);
  }

  function Repeated(s: Sample, n: nat): seq<Sample> {
    if n == 0 then [] else Repeated(s, n - 1) + [s]
  }

  lemma ConvergesFromStart(alpha: real, start: Ewma, s: Sample)
    requires s.kind in start
    ensures Converging(alpha, start, s, 0, start)
  {
  }

  /** After `n` equal samples the distance to them has shrunk by the factor 1 - alpha, `n` times. */
  lemma {:induction false} EqualSamplesConverge(alpha: real, ewma: Ewma, s: Sample, n: nat)
    requires s.kind in ewma
    ensures Converging(alpha, ewma, s, n, EwmaAfter(alpha, ewma, Repeated(s, n)))
  {
    if n == 0 {
      ConvergesFromStart(alpha, ewma, s);
    } else {
      var init := Repeated(s, n - 1);
      EqualSamplesConverge(alpha, ewma, s, n - 1);
      SmoothingStep(alpha, ewma, init, s);
      ConvergesOn(alpha, ewma, s, n - 1, EwmaAfter(alpha, ewma, init), EwmaAfter(alpha, ewma, init + [s]));
    }
  }

  // ---------------------------------------------------------------------------
  // The dominant ratio
  // ---------------------------------------------------------------------------

  /** One round of the scan for the largest ratio; 1 doubles as "nothing found yet". */
  function Leading(m: real, s: real): real {
    if s > m || (m == 1.0 && s != 1.0) then s else m
  }

  function Dominant(values: seq<real>): real {
    if values == [] then 1.0 else Leading(Dominant(values[..|values| - 1]), values[|values| - 1])
  }

  ghost predicate IsMaximum(values: seq<real>, m: real) {
    (exists i :: 0 <= i < |values| && values[i] == m) && forall i | 0 <= i < |values| :: values[i] <= m
  }

  lemma {:induction false} DominantAtMost(values: seq<real>, m: real)
    requires values != [] && forall i | 0 <= i < |values| :: values[i] <= m
    ensures Dominant(values) <= m
  {
    var init := values[..|values| - 1];
    if init != [] { DominantAtMost(init, m); }
  }

  lemma {:induction false} DominantBelowOne(values: seq<real>)
    requires values != [] && forall i | 0 <= i < |values| :: values[i] < 1.0
    ensures Dominant(values) < 1.0
  {
    var init := values[..|values| - 1];
    if init != [] { DominantBelowOne(init); }
  }

  lemma {:induction false} DominantAtLeast(values: seq<real>, i: nat)
    requires i < |values| && (values[i] > 1.0 || forall j | 0 <= j < |values| :: values[j] < 1.0)
    ensures Dominant(values) >= values[i]
  {
    if i < |values| - 1 {
      var init := values[..|values| - 1];
      DominantAtLeast(init, i);
      if values[i] <= 1.0 { DominantBelowOne(init); }
    }
  }

  /** The scan finds the largest smoothed ratio if and only if that is not 1, or 1 comes last. */
  lemma DominantIsMaximum(values: seq<real>, m: real)
    requires IsMaximum(values, m)
    ensures Dominant(values) == m <==> m != 1.0 || values[|values| - 1] == 1.0
  {
    DominantAtMost(values, m);
    var i :| 0 <= i < |values| && values[i] == m;
    if m != 1.0 {
      DominantAtLeast(values, i);
    } else {
      var init := values[..|values| - 1];
      if init != [] { DominantAtMost(init, m); }
    }
  }

  // ---------------------------------------------------------------------------
  // One evaluation
  // ---------------------------------------------------------------------------

  datatype Budget = Budget(enabled: bool, monthlyUsd: real, replicaHourUsd: real)

  /** `max_affordable_replicas` */
  function MaxAffordable(b: Budget): int {
    if !b.enabled || b.replicaHourUsd <= 0.0 then I32_MAX
    else Max(Saturated((b.monthlyUsd / (b.replicaHourUsd * 730.0)).Floor), 1)
  }

  lemma FloorBound(n: int, q: real)
    ensures n <= q.Floor <==> n as real <= q
  {
    assert q.Floor as real <= q < q.Floor as real + 1.0;
    if n > q.Floor { assert n as real >= q.Floor as real + 1.0; }
  }

  lemma QuotientBound(n: int, x: real, u: real)
    requires u > 0.0
    ensures n <= (x / u).Floor <==> n as real * u <= x
  {
    var q := x / u;
    assert q * u == x;
    FloorBound(n, q);
    if n as real <= q {
      NonNegative(q - n as real, u);
      assert (q - n as real) * u == x - n as real * u;
    } else {
      Positive(n as real - q, u);
      assert (n as real - q) * u == n as real * u - x;
    }
  }

  /** The cap is the largest count the monthly budget pays for, once it pays for one. */
  lemma AffordableIsExact(b: Budget, n: int)
    requires b.enabled && b.replicaHourUsd > 0.0 && b.replicaHourUsd * 730.0 <= b.monthlyUsd && n <= I32_MAX
    ensures n <= MaxAffordable(b) <==> n <= 1 || n as real * (b.replicaHourUsd * 730.0) <= b.monthlyUsd
  {
    QuotientBound(n, b.monthlyUsd, b.replicaHourUsd * 730.0);
    QuotientBound(1, b.monthlyUsd, b.replicaHourUsd * 730.0);
  }

  /** Without a budget in force nothing is capped, and a budget that pays for no replica still allows one. */
  lemma AffordableOtherwise(b: Budget)
    ensures !b.enabled || b.replicaHourUsd <= 0.0 ==> MaxAffordable(b) == I32_MAX
    ensures b.enabled && b.replicaHourUsd > 0.0 && b.monthlyUsd < b.replicaHourUsd * 730.0 ==> MaxAffordable(b) == 1
  {
    if b.enabled && b.replicaHourUsd > 0.0 { QuotientBound(1, b.monthlyUsd, b.replicaHourUsd * 730.0); }
  }

  datatype Config = Config(
    minReplicas: int, maxReplicas: int, alpha: real, cooldownSecs: nat, stabilizationSecs: nat,
    headroom: real, maxStep: int, budget: Option<Budget>)

  datatype Direction = ScaleUp | ScaleDown | Steady

  datatype Engine = Engine(ewma: Ewma, lastTime: Option<int>, lastDirection: Direction)

  function RawDesired(c: Config, current: int, ratio: real): int {
    if ratio > 1.0 then Saturated(Ceiling(current as real * ratio * c.headroom))
    else if ratio < 0.85 then Saturated((current as real * ratio).Floor)
    else current
  }

  /**
   Up to saturation, the raw target is the smallest count that meets the ratio
   with its headroom, or the largest that a low ratio leaves; between 0.85 and 1
   nothing changes.
   */
  lemma DesiredIsTight(c: Config, current: int, ratio: real, n: int)
    requires I32_MIN <= n <= I32_MAX
    ensures ratio > 1.0 && n < I32_MAX ==>
              (RawDesired(c, current, ratio) <= n <==> current as real * ratio * c.headroom <= n as real)
    ensures ratio < 0.85 && n > I32_MIN ==>
              (RawDesired(c, current, ratio) >= n <==> current as real * ratio >= n as real)
    ensures 0.85 <= ratio <= 1.0 ==> RawDesired(c, current, ratio) == current
  {
    FloorBound(-n, -(current as real * ratio * c.headroom));
    FloorBound(n, current as real * ratio);
  }

  predicate InCooldown(c: Config, e: Engine, now: int) {
    e.lastTime.Some? && Seconds(now - e.lastTime.value) < c.cooldownSecs && e.lastDirection == ScaleUp
  }

  predicate InStabilization(c: Config, e: Engine, now: int) {
    e.lastTime.Some? && Seconds(now - e.lastTime.value) < c.stabilizationSecs
  }

  /** The gates and the step bound. */
  function Gated(c: Config, e: Engine, current: int, raw: int, now: int): (int, Direction) {
    if raw > current then
      if InCooldown(c, e, now) then (current, Steady) else (current + Min(raw - current, c.maxStep), ScaleUp)
    else if raw < current then
      if InStabilization(c, e, now) then (current, Steady) else (current - Min(current - raw, c.maxStep), ScaleDown)
    else (current, Steady)
  }

  function Clamped(c: Config, desired: int): int {
    Min(Max(desired, c.minReplicas), c.maxReplicas)
  }

  function Capped(c: Config, desired: int): int {
    var clamped := Clamped(c, desired);
    if c.budget.Some? && clamped > MaxAffordable(c.budget.value)
    then Max(MaxAffordable(c.budget.value), c.minReplicas)
    else clamped
  }

  /** What a decision names as its reason: no measurements, no deviation, or one indicator. */
  datatype Driver = Nothing | Balanced | Indicator(kind: Kind)

  datatype Decision = Decision(
    current: int, desired: int, effective: int, direction: Direction, driving: Driver, ratio: real, costCapped: bool)

  /** All smoothed ratios are 1, or the named indicator has the dominant one. */
  ghost predicate Drives(driver: Driver, samples: seq<Sample>, values: seq<real>, ratio: real)
    requires |samples| == |values|
  {
    match driver
    case Nothing => false
    case Balanced => forall i | 0 <= i < |values| :: values[i] == 1.0
    case Indicator(k) =>
      && (exists i | 0 <= i < |values| :: values[i] != 1.0)
      && exists i | 0 <= i < |values| :: samples[i].kind == k && values[i] == ratio
  }

  lemma DrivesOne(
    driver: Driver, samples: seq<Sample>, values: seq<real>, ratio: real, s: Sample, v: real, next: Driver, lead: real)
    requires |samples| == |values| && Drives(driver, samples, values, ratio)
    requires driver == Balanced ==> ratio == 1.0
    requires lead == Leading(ratio, v)
    requires next == if v > ratio || (ratio == 1.0 && v != 1.0) then Indicator(s.kind) else driver
    ensures Drives(next, samples + [s], values + [v], lead)
  {
    var all := values + [v];
    assert all[|values|] == v && (samples + [s])[|values|] == s;
    assert forall i | 0 <= i < |values| :: all[i] == values[i] && (samples + [s])[i] == samples[i];
    if driver.Indicator? {
      var i :| 0 <= i < |values| && values[i] != 1.0;
      assert all[i] != 1.0;
      if next == driver {
        var j :| 0 <= j < |values| && samples[j].kind == driver.kind && values[j] == ratio;
        assert (samples + [s])[j].kind == driver.kind && all[j] == ratio;
      }
    }
  }

  function SamplesOf(metrics: seq<Metric>, current: int): seq<Sample> {
    seq(|metrics|, i requires 0 <= i < |metrics| => Sample(metrics[i].Name(), metrics[i].ScalingRatio(current)))
  }

  function RatioOf(c: Config, e: Engine, current: int, metrics: seq<Metric>): real {
    Dominant(SmoothedValues(c.alpha, e.ewma, SamplesOf(metrics, current)))
  }

  /** What `evaluate` recommends. */
  function Effective(c: Config, e: Engine, replicas: int, metrics: seq<Metric>, now: int): int {
    var current := Max(replicas, 1);
    if metrics == [] then current
    else Capped(c, Gated(c, e, current, RawDesired(c, current, RatioOf(c, e, current, metrics)), now).0)
  }

  function DirectionOf(c: Config, e: Engine, replicas: int, metrics: seq<Metric>, now: int): Direction {
    var current := Max(replicas, 1);
    if metrics == [] then Steady
    else Gated(c, e, current, RawDesired(c, current, RatioOf(c, e, current, metrics)), now).1
  }

  /** The engine after `evaluate`. */
  function EngineAfter(c: Config, e: Engine, replicas: int, metrics: seq<Metric>, now: int): Engine {
    var current := Max(replicas, 1);
    var ewma := EwmaAfter(c.alpha, e.ewma, SamplesOf(metrics, current));
    if Effective(c, e, replicas, metrics, now) != current
    then Engine(ewma, Some(now), DirectionOf(c, e, replicas, metrics, now))
    else e.(ewma := ewma)
  }

  /**
   Whatever is decided, an evaluation counts every sample; it notes the time and the
   direction exactly when the number of replicas changes.
   */
  lemma EngineRemembers(c: Config, e: Engine, replicas: int, metrics: seq<Metric>, now: int)
    ensures var after, r := EngineAfter(c, e, replicas, metrics, now), Effective(c, e, replicas, metrics, now);
            && after.ewma == EwmaAfter(c.alpha, e.ewma, SamplesOf(metrics, Max(replicas, 1)))
            && (r == Max(replicas, 1) ==> after.lastTime == e.lastTime && after.lastDirection == e.lastDirection)
            && (r != Max(replicas, 1) ==>
                  after.lastTime == Some(now) && after.lastDirection == DirectionOf(c, e, replicas, metrics, now))
  {
  }

  /** How one more sample changes the averages and the dominant ratio. */
  lemma ObservedOne(alpha: real, ewma: Ewma, samples: seq<Sample>, s: Sample)
    ensures var before := EwmaAfter(alpha, ewma, samples);
            && EwmaAfter(alpha, ewma, samples + [s]) == before[s.kind := Smoothed(alpha, before, s)]
            && SmoothedValues(alpha, ewma, samples + [s])
               == SmoothedValues(alpha, ewma, samples) + [Smoothed(alpha, before, s)]
  {
    assert (samples + [s])[..|samples|] == samples;
  }

  lemma DominantOne(values: seq<real>, v: real)
    ensures Dominant(values + [v]) == Leading(Dominant(values), v)
  {
    assert (values + [v])[..|values|] == values;
  }

  lemma OneMoreSample(metrics: seq<Metric>, current: int, i: nat)
    requires i < |metrics|
    ensures SamplesOf(metrics, current)[..i + 1]
         == SamplesOf(metrics, current)[..i] + [Sample(metrics[i].Name(), metrics[i].ScalingRatio(current))]
  {
  }

  lemma AllSamples(metrics: seq<Metric>, current: int)
    ensures SamplesOf(metrics, current)[..|metrics|] == SamplesOf(metrics, current)
  {
  }

  /** What the scan has found after `samples`. */
  ghost predicate Scanned(
    alpha: real, start: Ewma, samples: seq<Sample>, ewma: Ewma, ratio: real, driving: Driver)
  {
    var values := SmoothedValues(alpha, start, samples);
    && ewma == EwmaAfter(alpha, start, samples) && ratio == Dominant(values)
    && (driving == Balanced ==> ratio == 1.0) && Drives(driving, samples, values, ratio)
  }

  /** One turn of the scan. */
  lemma ScannedOne(
    alpha: real, start: Ewma, samples: seq<Sample>, ewma: Ewma, ratio: real, driving: Driver, s: Sample, v: real)
    requires Scanned(alpha, start, samples, ewma, ratio, driving) && v == Smoothed(alpha, ewma, s)
    ensures var leads := v > ratio || (ratio == 1.0 && v != 1.0);
            Scanned(alpha, start, samples + [s], ewma[s.kind := v], if leads then v else ratio,
                    if leads then Indicator(s.kind) else driving)
  {
    var values := SmoothedValues(alpha, start, samples);
    ObservedOne(alpha, start, samples, s);
    DominantOne(values, v);
    var leads := v > ratio || (ratio == 1.0 && v != 1.0);
    DrivesOne(driving, samples, values, ratio, s, v, if leads then Indicator(s.kind) else driving, Leading(ratio, v));
  }

  class AdaptiveHpaEngine {
    const config: Config
    var ewmaStates: Ewma
    var lastScaleTime: Option<int>
    var lastScaleDirection: Direction

    function State(): Engine
      reads this
    {
      Engine(ewmaStates, lastScaleTime, lastScaleDirection)
    }

    constructor (config: Config)
      ensures this.config == config && State() == Fresh()
    {
      this.config := config;
      ewmaStates := map[];
      lastScaleTime := None;
      lastScaleDirection := Steady;
    }

    /** The first part of `evaluate`: updates every average and scans for the dominant ratio. */
    method Observe(current: int, metrics: seq<Metric>) returns (ratio: real, driving: Driver)
      modifies this`ewmaStates
      ensures ratio == RatioOf(config, old(State()), current, metrics)
      ensures ewmaStates == EwmaAfter(config.alpha, old(ewmaStates), SamplesOf(metrics, current))
      ensures var samples := SamplesOf(metrics, current);
              Drives(driving, samples, SmoothedValues(config.alpha, old(ewmaStates), samples), ratio)
    {
      ratio, driving := 1.0, Balanced;
      ghost var samples := SamplesOf(metrics, current);
      for i := 0 to |metrics|
        invariant Scanned(config.alpha, old(ewmaStates), samples[..i], ewmaStates, ratio, driving)
      {
        var sample := Sample(metrics[i].Name(), metrics[i].ScalingRatio(current));
        var smoothed := Smoothed(config.alpha, ewmaStates, sample);
        ScannedOne(config.alpha, old(ewmaStates), samples[..i], ewmaStates, ratio, driving, sample, smoothed);
        OneMoreSample(metrics, current, i);
        ewmaStates := ewmaStates[sample.kind := smoothed];
        if smoothed > ratio || (ratio == 1.0 && smoothed != 1.0) { ratio, driving := smoothed, Indicator(sample.kind); }
      }
      AllSamples(metrics, current);
    }

    /** The middle part of `evaluate`: cooldown, stabilization and the step bound. */
    method Gate(current: int, raw: int, now: int) returns (desired: int, direction: Direction)
      ensures (desired, direction) == Gated(config, State(), current, raw, now)
    {
      desired, direction := current, Steady;
      if raw > current {
        if !InCooldown(config, State(), now) {
          desired, direction := current + Min(raw - current, config.maxStep), ScaleUp;
        }
      } else if raw < current {
        if !InStabilization(config, State(), now) {
          desired, direction := current - Min(current - raw, config.maxStep), ScaleDown;
        }
      }
    }

    /** The last part of `evaluate`: the replica range and the budget. */
    method Cap(desired: int) returns (effective: int, costCapped: bool)
      ensures effective == Capped(config, desired)
      ensures costCapped == (config.budget.Some? && Clamped(config, desired) > MaxAffordable(config.budget.value))
    {
      effective, costCapped := Min(Max(desired, config.minReplicas), config.maxReplicas), false;
      if config.budget.Some? {
        var limit := MaxAffordable(config.budget.value);
        if effective > limit {
          costCapped := true;
          effective := Max(limit, config.minReplicas);
        }
      }
    }

    /** `evaluate` */
    method Evaluate(replicas: int, metrics: seq<Metric>, now: int) returns (d: Decision)
      modifies this
      ensures State() == EngineAfter(config, old(State()), replicas, metrics, now)
      ensures d.current == Max(replicas, 1)
      ensures d.effective == Effective(config, old(State()), replicas, metrics, now)
      ensures d.direction == DirectionOf(config, old(State()), replicas, metrics, now)
      ensures d.driving == Nothing <==> metrics == []
      ensures metrics == [] ==> d == Decision(d.current, d.current, d.current, Steady, Nothing, 1.0, false)
      ensures var samples := SamplesOf(metrics, d.current);
              metrics != [] ==>
                Drives(d.driving, samples, SmoothedValues(config.alpha, old(ewmaStates), samples), d.ratio)
      ensures metrics != [] ==>
                && d.ratio == RatioOf(config, old(State()), d.current, metrics)
                && d.desired == Gated(config, old(State()), d.current, RawDesired(config, d.current, d.ratio), now).0
                && d.costCapped == (config.budget.Some? && Clamped(config, d.desired) > MaxAffordable(config.budget.value))
    {
      var current := Max(replicas, 1);
      if |metrics| == 0 { return Decision(current, current, current, Steady, Nothing, 1.0, false); }
      var ratio, driving := Observe(current, metrics);
      var raw := RawDesired(config, current, ratio);
      var desired, direction := Gate(current, raw, now);
      assert (desired, direction) == Gated(config, old(State()), current, raw, now);
      var effective, costCapped := Cap(desired);
      if effective != current {
        lastScaleTime := Some(now);
        lastScaleDirection := direction;
      }
      d := Decision(current, desired, effective, direction, driving, ratio, costCapped);
    }
  }

  function Fresh(): Engine {
    Engine(map[], None, Steady)
  }

  // ---------------------------------------------------------------------------
  // Runs
  // ---------------------------------------------------------------------------

  /** The largest count a run may reach. */
  function Ceil(c: Config): int {
    if c.budget.Some? then Min(c.maxReplicas, Max(c.minReplicas, MaxAffordable(c.budget.value))) else c.maxReplicas
  }

  ghost predicate Sensible(c: Config) {
    1 <= c.minReplicas <= c.maxReplicas && c.maxStep >= 1
  }

  datatype Moment = Moment(engine: Engine, replicas: int)
  datatype Input = Input(metrics: seq<Metric>, now: int)

  function Next(c: Config, m: Moment, i: Input): Moment {
    Moment(EngineAfter(c, m.engine, m.replicas, i.metrics, i.now), Effective(c, m.engine, m.replicas, i.metrics, i.now))
  }

  /** A run from a fresh engine that feeds the effective replicas back, at non-decreasing times. */
  ghost predicate IsRun(c: Config, run: seq<Moment>, inputs: seq<Input>) {
    && Sensible(c) && |run| == |inputs| + 1
    && run[0].engine == Fresh() && c.minReplicas <= run[0].replicas <= Ceil(c)
    && (forall i | 0 <= i < |inputs| :: run[i + 1] == Next(c, run[i], inputs[i]))
    && (forall i, j | 0 <= i < j < |inputs| :: inputs[i].now <= inputs[j].now)
  }

  /** One evaluation keeps the range, moves by at most one step, and moves only in its stated direction. */
  lemma StepBounded(c: Config, e: Engine, replicas: int, metrics: seq<Metric>, now: int)
    requires Sensible(c) && c.minReplicas <= replicas <= Ceil(c)
    ensures var r := Effective(c, e, replicas, metrics, now);
            && c.minReplicas <= r <= Ceil(c)
            && replicas - c.maxStep <= r <= replicas + c.maxStep
            && (r > replicas ==> DirectionOf(c, e, replicas, metrics, now) == ScaleUp && !InCooldown(c, e, now))
            && (r < replicas ==> DirectionOf(c, e, replicas, metrics, now) == ScaleDown && !InStabilization(c, e, now))
  {
  }

  /** The scale-up gate is open: no change yet, the cooldown is over, or the last change was not a rise. */
  ghost predicate MayRise(c: Config, e: Engine, now: int) {
    e.lastTime == None || Seconds(now - e.lastTime.value) >= c.cooldownSecs || e.lastDirection != ScaleUp
  }

  ghost predicate MayDrop(c: Config, e: Engine, now: int) {
    e.lastTime == None || Seconds(now - e.lastTime.value) >= c.stabilizationSecs
  }

  /** Whole seconds, rounded towards zero. */
  lemma SecondsAreWhole(d: int)
    ensures d >= 0 ==> Seconds(d) * NANOS <= d < (Seconds(d) + 1) * NANOS
    ensures Seconds(-d) == -Seconds(d)
  {
  }

  /**
   Before the caps, an open gate moves by exactly the smaller of the distance to the
   raw target and the step bound, and names its direction; a closed gate, or nothing
   to do, moves nothing.
   */
  lemma GateIsExact(c: Config, e: Engine, current: int, raw: int, now: int)
    ensures var (desired, direction) := Gated(c, e, current, raw, now);
            if raw > current && MayRise(c, e, now) then
              direction == ScaleUp && desired <= raw && desired - current <= c.maxStep
              && (desired == raw || desired - current == c.maxStep)
            else if raw < current && MayDrop(c, e, now) then
              direction == ScaleDown && desired >= raw && current - desired <= c.maxStep
              && (desired == raw || current - desired == c.maxStep)
            else direction == Steady && desired == current
  {
  }

  /** The caps give the admissible count nearest to the desired one. */
  lemma CapIsNearest(c: Config, desired: int, n: int)
    requires c.minReplicas <= c.maxReplicas && c.minReplicas <= n <= Ceil(c)
    ensures c.minReplicas <= Capped(c, desired) <= Ceil(c)
    ensures desired <= Capped(c, desired) ==> Capped(c, desired) <= n || desired == Capped(c, desired)
    ensures desired >= Capped(c, desired) ==> Capped(c, desired) >= n || desired == Capped(c, desired)
  {
  }

  /**
   At the default settings, an average of 1 and a new ratio of 1.5 at four replicas
   smooth to 1.15 and ask for six.
   */
  lemma SmoothingDecides(c: Config, now: int)
    requires c == Config(2, 20, 0.3, 15, 300, 1.15, 4, None)
    ensures var e := Engine(map[CloseLatency := 1.0], None, Steady);
            Effective(c, e, 4, [LedgerCloseLatency(1.5, 1.0)], now) == 6
  {
    var e, samples := Engine(map[CloseLatency := 1.0], None, Steady), [Sample(CloseLatency, 1.5)];
    assert SamplesOf([LedgerCloseLatency(1.5, 1.0)], 4) == samples;
    assert samples[..0] == [];
    assert SmoothedValues(0.3, e.ewma, samples) == [1.15];
    assert [1.15][..0] == [] && Dominant([1.15][..0]) == 1.0;
    assert RatioOf(c, e, 4, [LedgerCloseLatency(1.5, 1.0)]) == 1.15;
    assert (-(4.0 * 1.15 * 1.15)).Floor == -6;
  }

  /**
   Pressure is answered: with its gate open and room left, an evaluation that
   wants more or fewer replicas gets some.
   */
  lemma PressureIsAnswered(c: Config, e: Engine, replicas: int, metrics: seq<Metric>, now: int, raw: int)
    requires Sensible(c) && c.minReplicas <= replicas <= Ceil(c) && metrics != []
    requires raw == RawDesired(c, replicas, RatioOf(c, e, replicas, metrics))
    ensures raw > replicas && replicas < Ceil(c) && MayRise(c, e, now) ==>
              Effective(c, e, replicas, metrics, now) > replicas
    ensures raw < replicas && replicas > c.minReplicas && MayDrop(c, e, now) ==>
              Effective(c, e, replicas, metrics, now) < replicas
  {
  }

  lemma {:induction false} RunInRange(c: Config, run: seq<Moment>, inputs: seq<Input>, i: nat)
    requires IsRun(c, run, inputs) && i <= |inputs|
    ensures c.minReplicas <= run[i].replicas <= Ceil(c)
  {
    if i > 0 {
      RunInRange(c, run, inputs, i - 1);
      assert run[i - 1 + 1] == Next(c, run[i - 1], inputs[i - 1]);
      StepBounded(c, run[i - 1].engine, run[i - 1].replicas, inputs[i - 1].metrics, inputs[i - 1].now);
    }
  }

  ghost predicate Rises(run: seq<Moment>, i: nat)
    requires i + 1 < |run|
  {
    run[i].replicas < run[i + 1].replicas
  }

  ghost predicate Drops(run: seq<Moment>, i: nat)
    requires i + 1 < |run|
  {
    run[i].replicas > run[i + 1].replicas
  }

  /** Replicas stay in range and move by at most one step. */
  lemma RunMovesByStep(c: Config, run: seq<Moment>, inputs: seq<Input>, i: nat)
    requires IsRun(c, run, inputs) && i < |inputs|
    ensures c.minReplicas <= run[i + 1].replicas <= Ceil(c)
    ensures -c.maxStep <= run[i + 1].replicas - run[i].replicas <= c.maxStep
  {
    RunInRange(c, run, inputs, i);
    StepBounded(c, run[i].engine, run[i].replicas, inputs[i].metrics, inputs[i].now);
  }

  /** The engine remembers a time no earlier than any change so far, and the direction of the last one. */
  ghost predicate Remembers(run: seq<Moment>, inputs: seq<Input>, i: nat)
    requires i <= |inputs| && |run| == |inputs| + 1
  {
    var e := run[i].engine;
    && (forall j | 0 <= j < i && (Rises(run, j) || Drops(run, j)) ::
          e.lastTime.Some? && inputs[j].now <= e.lastTime.value)
    && (forall j | 0 <= j < i && Rises(run, j) ::
          e.lastDirection == ScaleUp || exists k :: j < k < i && Drops(run, k))
    && (e.lastTime.Some? ==> forall k | i <= k < |inputs| :: e.lastTime.value <= inputs[k].now)
  }

  /** How one evaluation changes what the engine remembers. */
  ghost predicate Noted(before: Moment, after: Moment, now: int) {
    var e, e' := before.engine, after.engine;
    if before.replicas == after.replicas then e'.lastTime == e.lastTime && e'.lastDirection == e.lastDirection
    else e'.lastTime == Some(now) && (before.replicas < after.replicas ==> e'.lastDirection == ScaleUp)
  }

  lemma StepNoted(c: Config, run: seq<Moment>, inputs: seq<Input>, i: nat)
    requires IsRun(c, run, inputs) && i < |inputs|
    ensures Noted(run[i], run[i + 1], inputs[i].now)
  {
    RunInRange(c, run, inputs, i);
    StepBounded(c, run[i].engine, run[i].replicas, inputs[i].metrics, inputs[i].now);
  }

  lemma RemembersNext(run: seq<Moment>, inputs: seq<Input>, i: nat)
    requires |run| == |inputs| + 1 && i < |inputs| && Remembers(run, inputs, i)
    requires Noted(run[i], run[i + 1], inputs[i].now)
    requires forall k, l | 0 <= k < l < |inputs| :: inputs[k].now <= inputs[l].now
    ensures Remembers(run, inputs, i + 1)
  {
    var e := run[i + 1].engine;
    forall j | 0 <= j < i + 1 && Rises(run, j)
      ensures e.lastDirection == ScaleUp || exists k :: j < k < i + 1 && Drops(run, k)
    {
      if j < i && Drops(run, i) {
        assert j < i < i + 1 && Drops(run, i);
      } else if j < i && run[i].engine.lastDirection != ScaleUp {
        var k :| j < k < i && Drops(run, k);
        assert j < k < i + 1 && Drops(run, k);
      }
    }
  }

  lemma FreshRemembers(run: seq<Moment>, inputs: seq<Input>)
    requires |run| == |inputs| + 1 && run[0].engine == Fresh()
    ensures Remembers(run, inputs, 0)
  {
  }

  lemma {:induction false} RunRemembers(c: Config, run: seq<Moment>, inputs: seq<Input>, i: nat)
    requires IsRun(c, run, inputs) && i <= |inputs|
    ensures Remembers(run, inputs, i)
  {
    if i == 0 {
      FreshRemembers(run, inputs);
    } else {
      RunRemembers(c, run, inputs, i - 1);
      StepNoted(c, run, inputs, i - 1);
      RemembersNext(run, inputs, i - 1);
    }
  }

  lemma SecondsMonotone(d: int, d': int)
    requires d <= d'
    ensures Seconds(d) <= Seconds(d')
  {
  }

  /** Replicas never drop within the stabilization window of any earlier change. */
  lemma NoEarlyDrop(c: Config, run: seq<Moment>, inputs: seq<Input>, j: nat, i: nat)
    requires IsRun(c, run, inputs) && j < i < |inputs|
    requires (Rises(run, j) || Drops(run, j)) && Drops(run, i)
    ensures Seconds(inputs[i].now - inputs[j].now) >= c.stabilizationSecs
  {
    RunRemembers(c, run, inputs, i);
    RunInRange(c, run, inputs, i);
    StepBounded(c, run[i].engine, run[i].replicas, inputs[i].metrics, inputs[i].now);
    SecondsMonotone(inputs[i].now - run[i].engine.lastTime.value, inputs[i].now - inputs[j].now);
  }

  /** Replicas never rise twice within the cooldown, unless a drop came between. */
  lemma NoEarlySecondRise(c: Config, run: seq<Moment>, inputs: seq<Input>, j: nat, i: nat)
    requires IsRun(c, run, inputs) && j < i < |inputs| && Rises(run, j) && Rises(run, i)
    requires forall k | j < k < i :: !Drops(run, k)
    ensures Seconds(inputs[i].now - inputs[j].now) >= c.cooldownSecs
  {
    RunRemembers(c, run, inputs, i);
    RunInRange(c, run, inputs, i);
    StepBounded(c, run[i].engine, run[i].replicas, inputs[i].metrics, inputs[i].now);
    SecondsMonotone(inputs[i].now - run[i].engine.lastTime.value, inputs[i].now - inputs[j].now);
  }

  /** With a cooldown no longer than the stabilization window, any two rises are a cooldown apart. */
  lemma RisesApart(c: Config, run: seq<Moment>, inputs: seq<Input>, j: nat, i: nat)
    requires IsRun(c, run, inputs) && j < i < |inputs| && Rises(run, j) && Rises(run, i)
    requires c.cooldownSecs <= c.stabilizationSecs
    ensures Seconds(inputs[i].now - inputs[j].now) >= c.cooldownSecs
  {
    if k :| j < k < i && Drops(run, k) {
      NoEarlyDrop(c, run, inputs, j, k);
      SecondsMonotone(inputs[k].now - inputs[j].now, inputs[i].now - inputs[j].now);
    } else {
      NoEarlySecondRise(c, run, inputs, j, i);
    }
  }

  /** With a longer cooldown it fails: a drop between two rises clears the cooldown. */
  lemma RiseDropRise(cooldown: nat, stabilization: nat) returns (c: Config, run: seq<Moment>, inputs: seq<Input>)
    requires stabilization < cooldown
    ensures IsRun(c, run, inputs) && c.cooldownSecs == cooldown && c.stabilizationSecs == stabilization
    ensures |inputs| == 3 && Rises(run, 0) && Rises(run, 2)
    ensures Seconds(inputs[2].now - inputs[0].now) < cooldown
  {
    c := Config(1, 2, 1.0, cooldown, stabilization, 1.0, 1, None);
    var busy, idle := [FeeStatCongestion(2.0, 1.0)], [FeeStatCongestion(0.5, 1.0)];
    var later := stabilization * NANOS;
    inputs := [Input(busy, 0), Input(idle, later), Input(busy, later)];
    var m0 := Moment(Fresh(), 1);
    BusyOrIdle(c, m0.engine, 1, 2.0);
    var m1 := Next(c, m0, inputs[0]);
    BusyOrIdle(c, m1.engine, 2, 0.5);
    var m2 := Next(c, m1, inputs[1]);
    BusyOrIdle(c, m2.engine, 1, 2.0);
    run := [m0, m1, m2, Next(c, m2, inputs[2])];
  }

  /** With no smoothing, one congestion reading is the ratio acted on. */
  lemma BusyOrIdle(c: Config, e: Engine, current: int, x: real)
    requires c.alpha == 1.0
    ensures RatioOf(c, e, current, [FeeStatCongestion(x, 1.0)]) == x
  {
    var samples := SamplesOf([FeeStatCongestion(x, 1.0)], current);
    assert samples == [Sample(Congestion, x)];
    assert samples[..0] == [];
    assert EwmaAfter(c.alpha, e.ewma, samples[..0]) == e.ewma;
    var values := SmoothedValues(c.alpha, e.ewma, samples);
    assert values == [x];
    assert Dominant(values[..0]) == 1.0;
  }

  /** Over a whole run, each average stays within the range of the ratios it was fed. */
  lemma {:induction false} RunEwmaInRange(
    c: Config, run: seq<Moment>, inputs: seq<Input>, i: nat, k: Kind, lo: real, hi: real)
    requires IsRun(c, run, inputs) && i <= |inputs| && 0.0 <= c.alpha <= 1.0
    requires forall j, s | 0 <= j < i && s in SamplesOf(inputs[j].metrics, run[j].replicas) && s.kind == k ::
               lo <= s.ratio <= hi
    ensures InRange(run[i].engine.ewma, k, lo, hi)
  {
    if i > 0 {
      RunEwmaInRange(c, run, inputs, i - 1, k, lo, hi);
      RunInRange(c, run, inputs, i - 1);
      assert run[i - 1 + 1] == Next(c, run[i - 1], inputs[i - 1]);
      EwmaInRange(c.alpha, run[i - 1].engine.ewma, SamplesOf(inputs[i - 1].metrics, run[i - 1].replicas), k, lo, hi);
    }
  }
}
