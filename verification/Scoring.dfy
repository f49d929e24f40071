/** The readiness score and the decision that the snapshot's conditions alone call for. Ratios are exact
    rationals here. */
module Scoring {
  import opened Inventory

  datatype Level = Safe | Warning | Critical

  function Severity(level: Level): nat {
    match level
    case Safe => 0
    case Warning => 1
    case Critical => 2
  }

  datatype ScoringProfile = ScoringProfile(unstableWarnPct: real, unstableBlockPct: real, safeThreshold: int)

  const PRODUCTION := ScoringProfile(0.05, 0.30, 90)
  const NON_PRODUCTION := ScoringProfile(0.15, 0.60, 85)

  /** Strict unless the lenient preset is asked for by its name. */
  function ProfileFor(name: string): ScoringProfile {
    if name == "non-production" then NON_PRODUCTION else PRODUCTION
  }

  datatype Metrics = Metrics(
    totalPods: nat, notReady: nat, restarts: nat, restarting: nat,
    cpuPressure: real, memoryPressure: real, podDropRatio: real, restartDelta: int,
    deprecatedAPIs: nat, addonIssues: nat)

  datatype Conditions = Conditions(
    pdbBlocking: bool, highCPUPressure: bool, highMemoryPressure: bool, unstableCluster: bool, severelyUnstable: bool)

  function NonZero(v: real): real {
    if v == 0.0 then 1.0 else v
  }

  function NonZeroCount(n: nat): (r: real)
    ensures r >= 1.0
  {
    if n == 0 then 1.0 else n as real
  }

  /** Conversion to an integer drops the fraction, towards zero. */
  function Truncate(x: real): int {
    if x >= 0.0 then x.Floor else -((-x).Floor)
  }

  function Clamp(v: int, max: nat): (r: nat)
    ensures r <= max
  {
    if v < 0 then 0 else if v > max then max else v
  }

  /** A penalty within its slice of the budget. */
  function CapPenalty(v: real, limit: real): real {
    if v < 0.0 then 0.0 else if v > limit then limit else v
  }

  /** The fraction of pods lost since the previous run; growth is no loss. */
  function PodDropRatio(s: Signals): real {
    var dropped := s.previousTotalPods - s.totalPods;
    if dropped < 0 then 0.0 else dropped as real / NonZeroCount(s.totalPods)
  }

  function BuildMetrics(s: Signals): Metrics {
    Metrics(
      s.totalPods, s.notReadyPods, s.totalRestarts, s.restartingPods,
      s.cpuRequests / NonZero(s.cpuCapacity), s.memRequests / NonZero(s.memCapacity),
      PodDropRatio(s), s.totalRestarts - s.previousRestarts,
      s.deprecatedAPIs, s.addonIssues)
  }

  function NotReadyRatio(m: Metrics): real {
    m.notReady as real / NonZeroCount(m.totalPods)
  }

  function BuildConditions(s: Signals, m: Metrics, p: ScoringProfile): Conditions {
    Conditions(
      s.pdbBlocking, m.cpuPressure > 0.9, m.memoryPressure > 0.9,
      m.totalPods > 0 && NotReadyRatio(m) > p.unstableWarnPct,
      m.totalPods > 0 && NotReadyRatio(m) > p.unstableBlockPct)
  }

  function CalcHealth(m: Metrics): (points: nat)
    ensures points <= 25
  {
    var total := NonZeroCount(m.totalPods);
    Clamp(Truncate(25.0 - m.notReady as real / total * 15.0 - m.restarting as real / total * 10.0), 25)
  }

  function CalcCapacity(m: Metrics): (points: nat)
    ensures points <= 30
  {
    Clamp(Truncate(30.0 - m.cpuPressure * 15.0 - m.memoryPressure * 15.0), 30)
  }

  function CalcStability(m: Metrics): (points: nat)
    ensures points <= 20
  {
    var crash := CapPenalty(m.restarting as real / NonZeroCount(m.totalPods) * 10.0, 10.0);
    var restart := CapPenalty(m.restartDelta as real * 0.5, 6.0);
    var pods := CapPenalty(m.podDropRatio * 10.0, 4.0);
    Clamp(Truncate(20.0 - crash - restart - pods), 20)
  }

  /** Six tenths to the power of n. */
  function CompatPower(n: nat): real {
    if n == 0 then 1.0 else 0.6 * CompatPower(n - 1)
  }

  function CalcCompatibility(m: Metrics): (points: nat)
    ensures points <= 25
  {
    var penalty := 25.0 * (1.0 - CompatPower(m.deprecatedAPIs + 2 * m.addonIssues));
    Clamp(Truncate(25.0 - penalty), 25)
  }

  function BaseTotal(m: Metrics): (t: nat)
    ensures t <= 100
  {
    CalcHealth(m) + CalcCapacity(m) + CalcStability(m) + CalcCompatibility(m)
  }

  predicate MustBlock(c: Conditions) {
    c.pdbBlocking || c.highCPUPressure || c.highMemoryPressure || c.severelyUnstable
  }

  /** The score never blocks; it can only keep the level from being SAFE. */
  function Decide(total: int, c: Conditions, p: ScoringProfile): (Level, bool) {
    if MustBlock(c) then (Critical, false)
    else if c.unstableCluster || total < p.safeThreshold then (Warning, true)
    else (Safe, true)
  }

  /** The three penalties of the stability dimension partition its budget: together they never take more
      than 20 points or give any back, so the final clamp changes nothing. */
  lemma {:induction false} StabilityFitsItsBudget(m: Metrics)
    ensures var crash := CapPenalty(m.restarting as real / NonZeroCount(m.totalPods) * 10.0, 10.0);
            var restart := CapPenalty(m.restartDelta as real * 0.5, 6.0);
            var pods := CapPenalty(m.podDropRatio * 10.0, 4.0);
            && 0.0 <= crash + restart + pods <= 20.0
            && CalcStability(m) == (20.0 - crash - restart - pods).Floor
  {
  }

  // ----- Monotonicity -----

  /** s' is at least as bad as s in every signal, on a cluster of the same size. */
  ghost predicate Worse(s: Signals, s': Signals) {
    && s'.totalPods == s.totalPods && s'.cpuCapacity == s.cpuCapacity && s'.memCapacity == s.memCapacity
    && s.cpuCapacity >= 0.0 && s.memCapacity >= 0.0
    && s.notReadyPods <= s'.notReadyPods && s.restartingPods <= s'.restartingPods
    && s.cpuRequests <= s'.cpuRequests && s.memRequests <= s'.memRequests
    && s.totalRestarts - s.previousRestarts <= s'.totalRestarts - s'.previousRestarts
    && s.previousTotalPods <= s'.previousTotalPods
    && s.deprecatedAPIs <= s'.deprecatedAPIs && s.addonIssues <= s'.addonIssues
    && (s.pdbBlocking ==> s'.pdbBlocking)
  }

  lemma {:induction false} DivideMonotone(a: real, b: real, t: real)
    requires a <= b && t > 0.0
    ensures a / t <= b / t
  {
    assert b / t - a / t == (b - a) / t;
  }

  lemma {:induction false} CompatPowerFalls(n: nat, m: nat)
    requires n <= m
    ensures 0.0 < CompatPower(m) <= CompatPower(n) <= 1.0
    decreases m
  {
    if n < m {
      CompatPowerFalls(n, m - 1);
    } else if n > 0 {
      CompatPowerFalls(n - 1, n - 1);
    }
  }

  lemma {:induction false} MetricsWorsen(s: Signals, s': Signals)
    requires Worse(s, s')
    ensures var m, m' := BuildMetrics(s), BuildMetrics(s');
            && m.totalPods == m'.totalPods && m.notReady <= m'.notReady && m.restarting <= m'.restarting
            && m.cpuPressure <= m'.cpuPressure && m.memoryPressure <= m'.memoryPressure
            && m.podDropRatio <= m'.podDropRatio && m.restartDelta <= m'.restartDelta
            && m.deprecatedAPIs <= m'.deprecatedAPIs && m.addonIssues <= m'.addonIssues
  {
    DivideMonotone(s.cpuRequests, s'.cpuRequests, NonZero(s.cpuCapacity));
    DivideMonotone(s.memRequests, s'.memRequests, NonZero(s.memCapacity));
    var dropped, dropped' := s.previousTotalPods - s.totalPods, s'.previousTotalPods - s.totalPods;
    if dropped >= 0 {
      DivideMonotone(dropped as real, dropped' as real, NonZeroCount(s.totalPods));
    } else if dropped' >= 0 {
      DivideMonotone(0.0, dropped' as real, NonZeroCount(s.totalPods));
    }
  }

  lemma {:induction false} HealthFalls(m: Metrics, m': Metrics)
    requires m.totalPods == m'.totalPods && m.notReady <= m'.notReady && m.restarting <= m'.restarting
    ensures CalcHealth(m') <= CalcHealth(m)
  {
    DivideMonotone(m.notReady as real, m'.notReady as real, NonZeroCount(m.totalPods));
    DivideMonotone(m.restarting as real, m'.restarting as real, NonZeroCount(m.totalPods));
  }

  lemma {:induction false} CapacityFalls(m: Metrics, m': Metrics)
    requires m.cpuPressure <= m'.cpuPressure && m.memoryPressure <= m'.memoryPressure
    ensures CalcCapacity(m') <= CalcCapacity(m)
  {
  }

  lemma {:induction false} StabilityFalls(m: Metrics, m': Metrics)
    requires m.totalPods == m'.totalPods && m.restarting <= m'.restarting
    requires m.restartDelta <= m'.restartDelta && m.podDropRatio <= m'.podDropRatio
    ensures CalcStability(m') <= CalcStability(m)
  {
    DivideMonotone(m.restarting as real, m'.restarting as real, NonZeroCount(m.totalPods));
  }

  lemma {:induction false} CompatibilityFalls(m: Metrics, m': Metrics)
    requires m.deprecatedAPIs <= m'.deprecatedAPIs && m.addonIssues <= m'.addonIssues
    ensures CalcCompatibility(m') <= CalcCompatibility(m)
  {
    CompatPowerFalls(m.deprecatedAPIs + 2 * m.addonIssues, m'.deprecatedAPIs + 2 * m'.addonIssues);
  }

  /** A worse cluster never scores higher. */
  lemma {:induction false} TotalFalls(s: Signals, s': Signals)
    requires Worse(s, s')
    ensures BaseTotal(BuildMetrics(s')) <= BaseTotal(BuildMetrics(s))
  {
    var m, m' := BuildMetrics(s), BuildMetrics(s');
    MetricsWorsen(s, s');
    HealthFalls(m, m');
    CapacityFalls(m, m');
    StabilityFalls(m, m');
    CompatibilityFalls(m, m');
  }

  /** A worse cluster keeps every critical or unstable condition. */
  lemma {:induction false} ConditionsWorsen(s: Signals, s': Signals, p: ScoringProfile)
    requires Worse(s, s')
    ensures var c, c' := BuildConditions(s, BuildMetrics(s), p), BuildConditions(s', BuildMetrics(s'), p);
            && (c.pdbBlocking ==> c'.pdbBlocking) && (c.highCPUPressure ==> c'.highCPUPressure)
            && (c.highMemoryPressure ==> c'.highMemoryPressure) && (c.unstableCluster ==> c'.unstableCluster)
            && (c.severelyUnstable ==> c'.severelyUnstable)
  {
    MetricsWorsen(s, s');
    var m, m' := BuildMetrics(s), BuildMetrics(s');
    DivideMonotone(m.notReady as real, m'.notReady as real, NonZeroCount(m.totalPods));
  }

  /** The compatibility dimension tells every number of issues from none, and its penalty stays below the
      budget however many there are. */
  lemma {:induction false} CompatibilityGrades(m: Metrics)
    ensures CalcCompatibility(m) == 25 <==> m.deprecatedAPIs == 0 && m.addonIssues == 0
    ensures 25.0 * (1.0 - CompatPower(m.deprecatedAPIs + 2 * m.addonIssues)) < 25.0
  {
    var n := m.deprecatedAPIs + 2 * m.addonIssues;
    CompatPowerFalls(0, n);
    if n > 0 {
      CompatPowerFalls(1, n);
      assert CompatPower(1) == 0.6 * CompatPower(0);
    }
  }

  /** Whole points grade only the first issues: from a weight of seven on the dimension is zero. */
  lemma {:induction false} CompatibilityRunsOut(m: Metrics)
    ensures CalcCompatibility(m) == 0 <==> m.deprecatedAPIs + 2 * m.addonIssues >= 7
  {
    var n := m.deprecatedAPIs + 2 * m.addonIssues;
    assert CompatPower(3) == 0.216 by { CompatPowerOf3(); }
    assert CompatPower(6) == 0.6 * (0.6 * (0.6 * CompatPower(3)));
    assert CompatPower(7) == 0.6 * CompatPower(6);
    if n >= 7 {
      CompatPowerFalls(7, n);
    } else {
      CompatPowerFalls(n, 6);
    }
  }

  lemma {:induction false} CompatPowerOf3()
    ensures CompatPower(3) == 0.216
  {
    assert CompatPower(1) == 0.6 * CompatPower(0);
    assert CompatPower(2) == 0.6 * CompatPower(1);
  }
}
