/** What the analysis decides and scores, in the fields of the snapshot: every limit and every reason by name. */
module SnapshotDecisions {
  import opened Collections
  import opened Components
  import opened Inventory
  import opened Scoring
  import opened Compatibility
  import opened Decisions
  import opened BuiltGraphs
  import opened ScoredGraphs
  import RiskEngine
  import opened SnapshotNodes
  import opened SnapshotScores

  // ----- Arithmetic -----

  lemma {:induction false} RatioAbove(a: real, b: real, limit: real)
    requires b > 0.0
    ensures a / b > limit <==> a > limit * b
  {
    assert a / b * b == a;
    if a / b > limit {
      assert a / b * b > limit * b;
    } else {
      assert a / b * b <= limit * b;
    }
  }

  /** The whole part of a ratio of whole numbers. */
  lemma {:induction false} FloorOfRatio(a: nat, b: nat)
    requires b > 0
    ensures (a as real / b as real).Floor == a / b
  {
    var q, rest := a / b, a % b;
    assert a == b * q + rest;
    assert a as real == b as real * q as real + rest as real;
    SplitRatio(q as real, rest as real, b as real);
    var x, y := a as real / b as real, rest as real / b as real;
    assert x == q as real + y && 0.0 <= y < 1.0;
    assert x.Floor == q;
  }

  lemma {:induction false} SplitRatio(q: real, rest: real, b: real)
    requires 0.0 <= rest < b
    ensures (b * q + rest) / b == q + rest / b && 0.0 <= rest / b < 1.0
  {
  }

  // ----- Limits -----

  /** More than that share of a capacity, one unit standing for an unknown one. */
  predicate IsAboveNineTenths(requests: real, capacity: real) {
    10.0 * requests > 9.0 * (if capacity == 0.0 then 1.0 else capacity)
  }

  /** More than 30 % of the pods are not ready, or 60 % outside production. */
  predicate IsSeverelyUnstable(s: Signals, profileName: string) {
    if profileName == "non-production" then 10 * s.notReadyPods > 6 * s.totalPods && s.totalPods > 0
    else 10 * s.notReadyPods > 3 * s.totalPods && s.totalPods > 0
  }

  /** More than 5 % of the pods are not ready, or 15 % outside production. */
  predicate IsUnstable(s: Signals, profileName: string) {
    if profileName == "non-production" then 100 * s.notReadyPods > 15 * s.totalPods && s.totalPods > 0
    else 100 * s.notReadyPods > 5 * s.totalPods && s.totalPods > 0
  }

  lemma {:induction false} ConditionsAre(s: Signals, profileName: string)
    requires s.cpuCapacity >= 0.0 && s.memCapacity >= 0.0
    ensures var c := BuildConditions(s, BuildMetrics(s), ProfileFor(profileName));
            && c.pdbBlocking == s.pdbBlocking
            && c.highCPUPressure == IsAboveNineTenths(s.cpuRequests, s.cpuCapacity)
            && c.highMemoryPressure == IsAboveNineTenths(s.memRequests, s.memCapacity)
            && c.unstableCluster == IsUnstable(s, profileName)
            && c.severelyUnstable == IsSeverelyUnstable(s, profileName)
  {
    RatioAbove(s.cpuRequests, NonZero(s.cpuCapacity), 0.9);
    RatioAbove(s.memRequests, NonZero(s.memCapacity), 0.9);
    if s.totalPods > 0 {
      var p := ProfileFor(profileName);
      RatioAbove(s.notReadyPods as real, s.totalPods as real, p.unstableWarnPct);
      RatioAbove(s.notReadyPods as real, s.totalPods as real, p.unstableBlockPct);
    }
  }

  // ----- Reasons -----

  lemma {:induction false} MappedFilter<T(!new), U(!new)>(f: T -> U, keep: T -> bool, xs: seq<T>)
    ensures forall y :: y in Map(f, Filter(keep, xs)) <==> exists x :: x in xs && keep(x) && y == f(x)
  {
    FilterMember(keep, xs);
    MapMember(f, Filter(keep, xs));
  }

  lemma {:induction false} BlockerMember(c: Conditions, m: Metrics, pdbs: seq<PDBIssue>,
                                         addons: seq<AddonCompatibility>,
                                         nodes: seq<Component>, b: Blocker)
    ensures b in Blockers(c, m, pdbs, addons, nodes) <==>
              || b in ConditionBlockers(c, m, pdbs)
              || (exists a :: a in addons && IsIncompatible(a) && b == AddonBlocker(a))
              || (exists n :: n in nodes && IsLost(n) && b == PVCBlocker(n))
  {
    MappedFilter(AddonBlocker, IsIncompatible, addons);
    MappedFilter(PVCBlocker, IsLost, nodes);
  }

  /** What has to be the case for a reason to be given. */
  ghost predicate IsReason(s: Signals, profileName: string, addons: seq<AddonCompatibility>, nodes: seq<Component>,
                           b: Blocker) {
    match b
    case DrainStalled(pdb) => s.pdbBlocking && pdb == if s.pdbIssues == [] then None else Some(s.pdbIssues[0])
    case CPUPressure(ratio) =>
      IsAboveNineTenths(s.cpuRequests, s.cpuCapacity)
      && ratio * (if s.cpuCapacity == 0.0 then 1.0 else s.cpuCapacity) == s.cpuRequests
    case MemoryPressure(ratio) =>
      IsAboveNineTenths(s.memRequests, s.memCapacity)
      && ratio * (if s.memCapacity == 0.0 then 1.0 else s.memCapacity) == s.memRequests
    case PodsNotReady(notReady, total) =>
      IsSeverelyUnstable(s, profileName) && notReady == s.notReadyPods && total == s.totalPods
    case IncompatibleAddon(name, version, required) =>
      exists a :: a in addons && a.status.Incompatible? && a.name == name && a.version == version
                  && a.requiredVersion == required
    case LostPVC(namespace, name) =>
      exists c :: c in nodes && c.ctype == TypeStorage && c.status == "Lost" && c.namespace == namespace
                  && c.name == name
  }

  lemma {:induction false} OneRatio(r: real, a: real, b: real)
    requires b > 0.0
    ensures r == a / b <==> r * b == a
  {
    assert a / b * b == a;
    if r * b == a {
      assert (r - a / b) * b == 0.0;
    }
  }

  lemma {:induction false} ConditionBlocker(c: Conditions, m: Metrics, pdbs: seq<PDBIssue>, b: Blocker)
    ensures b in ConditionBlockers(c, m, pdbs) <==>
              match b
              case DrainStalled(pdb) => c.pdbBlocking && pdb == if pdbs == [] then None else Some(pdbs[0])
              case CPUPressure(ratio) => c.highCPUPressure && ratio == m.cpuPressure
              case MemoryPressure(ratio) => c.highMemoryPressure && ratio == m.memoryPressure
              case PodsNotReady(notReady, total) => c.severelyUnstable && notReady == m.notReady && total == m.totalPods
              case IncompatibleAddon(_, _, _) => false
              case LostPVC(_, _) => false
  {
  }

  lemma {:induction false} ConditionReason(s: Signals, profileName: string, addons: seq<AddonCompatibility>,
                                           nodes: seq<Component>, b: Blocker)
    requires s.cpuCapacity >= 0.0 && s.memCapacity >= 0.0
    ensures var m := BuildMetrics(s);
            b in ConditionBlockers(BuildConditions(s, m, ProfileFor(profileName)), m, s.pdbIssues)
            <==> !b.IncompatibleAddon? && !b.LostPVC? && IsReason(s, profileName, addons, nodes, b)
  {
    hide BuildConditions, BuildMetrics, ProfileFor, IsAboveNineTenths, IsSeverelyUnstable, ConditionBlockers;
    var m := BuildMetrics(s);
    ConditionsAre(s, profileName);
    ConditionBlocker(BuildConditions(s, m, ProfileFor(profileName)), m, s.pdbIssues, b);
    PressureIs(s, if b.CPUPressure? || b.MemoryPressure? then b.ratio else 0.0);
  }

  lemma {:induction false} PressureIs(s: Signals, r: real)
    requires s.cpuCapacity >= 0.0 && s.memCapacity >= 0.0
    ensures var m := BuildMetrics(s);
            && (r == m.cpuPressure <==> r * (if s.cpuCapacity == 0.0 then 1.0 else s.cpuCapacity) == s.cpuRequests)
            && (r == m.memoryPressure <==> r * (if s.memCapacity == 0.0 then 1.0 else s.memCapacity) == s.memRequests)
            && m.notReady == s.notReadyPods && m.totalPods == s.totalPods
  {
    hide PodDropRatio;
    OneRatio(r, s.cpuRequests, NonZero(s.cpuCapacity));
    OneRatio(r, s.memRequests, NonZero(s.memCapacity));
  }

  /** The blockers are exactly the reasons there are. */
  lemma {:induction false} ReasonsAre(s: Signals, profileName: string, addons: seq<AddonCompatibility>,
                                      nodes: seq<Component>)
    requires s.cpuCapacity >= 0.0 && s.memCapacity >= 0.0
    ensures forall b ::
              b in FinalBlockers(s, profileName, addons, nodes) <==> IsReason(s, profileName, addons, nodes, b)
  {
    var m := BuildMetrics(s);
    var c := BuildConditions(s, m, ProfileFor(profileName));
    hide BuildMetrics, BuildConditions, ProfileFor, ConditionBlockers, Blockers, IsReason;
    forall b ensures b in FinalBlockers(s, profileName, addons, nodes) <==> IsReason(s, profileName, addons, nodes, b) {
      BlockerMember(c, m, s.pdbIssues, addons, nodes, b);
      ConditionReason(s, profileName, addons, nodes, b);
      OtherReason(s, profileName, addons, nodes, b);
    }
  }

  lemma {:induction false} OtherReason(s: Signals, profileName: string, addons: seq<AddonCompatibility>,
                                       nodes: seq<Component>, b: Blocker)
    ensures b.IncompatibleAddon? || b.LostPVC? ==>
              (IsReason(s, profileName, addons, nodes, b) <==>
                 || (exists a :: a in addons && IsIncompatible(a) && b == AddonBlocker(a))
                 || (exists n :: n in nodes && IsLost(n) && b == PVCBlocker(n)))
    ensures (exists a :: a in addons && IsIncompatible(a) && b == AddonBlocker(a)) ==> b.IncompatibleAddon?
    ensures (exists n :: n in nodes && IsLost(n) && b == PVCBlocker(n)) ==> b.LostPVC?
  {
    if b.IncompatibleAddon? && IsReason(s, profileName, addons, nodes, b) {
      var a :| a in addons && a.status.Incompatible? && a.name == b.name && a.version == b.version
               && a.requiredVersion == b.requiredVersion;
      assert IsIncompatible(a) && b == AddonBlocker(a);
    } else if b.LostPVC? && IsReason(s, profileName, addons, nodes, b) {
      var n :| n in nodes && n.ctype == TypeStorage && n.status == "Lost" && n.namespace == b.namespace
               && n.name == b.name;
      assert IsLost(n) && b == PVCBlocker(n);
    }
  }

  /** The order in which reasons are given. */
  function Rank(b: Blocker): nat {
    match b
    case DrainStalled(_) => 0
    case CPUPressure(_) => 1
    case MemoryPressure(_) => 2
    case PodsNotReady(_, _) => 3
    case IncompatibleAddon(_, _, _) => 4
    case LostPVC(_, _) => 5
  }

  /** Drain, CPU, memory, pods, then the add-ons in their order, then the claims. */
  lemma {:induction false} ReasonsAreOrdered(c: Conditions, m: Metrics, pdbs: seq<PDBIssue>,
                                             addons: seq<AddonCompatibility>, nodes: seq<Component>)
    ensures var b := Blockers(c, m, pdbs, addons, nodes);
            forall i, j :: 0 <= i < j < |b| ==>
              Rank(b[i]) <= Rank(b[j]) && (Rank(b[i]) == Rank(b[j]) ==> Rank(b[i]) >= 4)
  {
    hide IncompatibleOnes, Filter;
    var x, y := ConditionBlockers(c, m, pdbs), Map(AddonBlocker, IncompatibleOnes(addons));
    var z := Map(PVCBlocker, Filter(IsLost, nodes));
    assert forall i :: 0 <= i < |y| ==> Rank(y[i]) == 4;
    assert forall i :: 0 <= i < |z| ==> Rank(z[i]) == 5;
    ConditionsAreOrdered(c, m, pdbs);
    hide ConditionBlockers, Rank;
    assert Blockers(c, m, pdbs, addons, nodes) == x + y + z;
  }

  lemma {:induction false} ConditionsAreOrdered(c: Conditions, m: Metrics, pdbs: seq<PDBIssue>)
    ensures var b := ConditionBlockers(c, m, pdbs);
            && (forall i :: 0 <= i < |b| ==> Rank(b[i]) < 4)
            && forall i, j :: 0 <= i < j < |b| ==> Rank(b[i]) < Rank(b[j])
  {
  }

  // ----- The gate -----

  /** The verdict taken before the last layer, with or without AI, already denies exactly when a condition of the
      snapshot will be among the blockers: the two places that decide agree. */
  lemma {:induction false} VerdictIs(s: Signals, profileName: string, total: int)
    requires s.cpuCapacity >= 0.0 && s.memCapacity >= 0.0
    ensures var m := BuildMetrics(s);
            var c := BuildConditions(s, m, ProfileFor(profileName));
            var (level, allow) := Decide(total, c, ProfileFor(profileName));
            && (allow <==> ConditionBlockers(c, m, s.pdbIssues) == [])
            && (allow <==>
                  && !s.pdbBlocking
                  && !IsAboveNineTenths(s.cpuRequests, s.cpuCapacity)
                  && !IsAboveNineTenths(s.memRequests, s.memCapacity)
                  && !IsSeverelyUnstable(s, profileName))
            && level == if !allow then Critical
                        else if IsUnstable(s, profileName)
                                || total < (if profileName == "non-production" then 85 else 90) then Warning
                        else Safe
  {
    ConditionsAre(s, profileName);
    hide BuildMetrics, BuildConditions, IsUnstable, IsSeverelyUnstable, IsAboveNineTenths;
  }

  /** A claim that the snapshot reports lost blocks, and only such a claim is reported as lost. */
  lemma {:induction false} LostClaimsBlock(t: Topology, addonStatus: map<string, AddonStatus>, s: Signals,
                                           profileName: string, addons: seq<AddonCompatibility>)
    requires DistinctClaims(t) && s.cpuCapacity >= 0.0 && s.memCapacity >= 0.0
    ensures forall namespace, name ::
              LostPVC(namespace, name) in FinalBlockers(s, profileName, addons, ScoredNodes(t, addonStatus)) <==>
                exists p :: p in t.pvcs && p.namespace == namespace && p.name == name && p.phase == "Lost"
  {
    hide FinalBlockers, ScoredNodes, BuiltNodes, DistinctClaims, Id;
    var nodes := ScoredNodes(t, addonStatus);
    ReasonsAre(s, profileName, addons, nodes);
    forall p | p in t.pvcs && p.phase == "Lost"
      ensures exists c :: c in nodes && c.ctype == TypeStorage && c.status == "Lost" && c.namespace == p.namespace
                          && c.name == p.name {
      ClaimScore(t, addonStatus, p);
    }
    forall c | c in nodes && c.ctype == TypeStorage && c.status == "Lost"
      ensures exists p :: p in t.pvcs && p.namespace == c.namespace && p.name == c.name && p.phase == "Lost" {
      LostScoredIsLostClaim(t, addonStatus, c);
    }
  }

  lemma {:induction false} LostScoredIsLostClaim(t: Topology, addonStatus: map<string, AddonStatus>, c: Component)
    requires c in ScoredNodes(t, addonStatus) && c.ctype == TypeStorage && c.status == "Lost"
    ensures exists p :: p in t.pvcs && p.namespace == c.namespace && p.name == c.name && p.phase == "Lost"
  {
    hide BuiltNodes, BuiltEdges, RiskEngine.Scores;
    var i :| 0 <= i < |ScoredNodes(t, addonStatus)| && ScoredNodes(t, addonStatus)[i] == c;
    LostNodeIsLostClaim(t, BuiltNodes(t)[i]);
  }

  /** The upgrade is allowed exactly when nothing stalls the drain, neither CPU nor memory is nearly exhausted,
      few enough pods are not ready, no add-on is incompatible and no claim is lost. */
  lemma {:induction false} AllowedWhen(t: Topology, addonStatus: map<string, AddonStatus>, s: Signals,
                                       profileName: string, ai: Option<nat>, addons: seq<AddonCompatibility>)
    requires DistinctClaims(t) && s.cpuCapacity >= 0.0 && s.memCapacity >= 0.0 && (ai.Some? ==> ai.value <= 100)
    ensures FinalDecision(s, profileName, ai, addons, ScoredNodes(t, addonStatus)).allow <==>
              && !s.pdbBlocking
              && !IsAboveNineTenths(s.cpuRequests, s.cpuCapacity) && !IsAboveNineTenths(s.memRequests, s.memCapacity)
              && !IsSeverelyUnstable(s, profileName)
              && (forall a :: a in addons ==> !a.status.Incompatible?)
              && (forall p :: p in t.pvcs ==> p.phase != "Lost")
  {
    var nodes := ScoredNodes(t, addonStatus);
    var b := FinalBlockers(s, profileName, addons, nodes);
    hide ScoredNodes, BuiltNodes, DistinctClaims, FinalBlockers, BuildMetrics, BuildConditions, FinalTotal;
    AllowedIffNoBlockers(s, profileName, ai, addons, nodes);
    assert FinalDecision(s, profileName, ai, addons, nodes).blockers == b;
    hide FinalDecision;
    ReasonsAre(s, profileName, addons, nodes);
    LostClaimsBlock(t, addonStatus, s, profileName, addons);
    NoReason(s, profileName, addons, nodes);
    hide IsReason;
    if b == [] {
      forall a | a in addons ensures !a.status.Incompatible? {
        assert IncompatibleAddon(a.name, a.version, a.requiredVersion) !in b;
      }
      forall p | p in t.pvcs ensures p.phase != "Lost" {
        assert LostPVC(p.namespace, p.name) !in b;
      }
    } else {
      assert b[0] in b;
    }
  }

  /** Which reasons there are, if any. */
  lemma {:induction false} NoReason(s: Signals, profileName: string, addons: seq<AddonCompatibility>,
                                    nodes: seq<Component>)
    requires s.cpuCapacity >= 0.0 && s.memCapacity >= 0.0
    ensures (forall b :: !IsReason(s, profileName, addons, nodes, b)) ==>
              && !s.pdbBlocking
              && !IsAboveNineTenths(s.cpuRequests, s.cpuCapacity) && !IsAboveNineTenths(s.memRequests, s.memCapacity)
              && !IsSeverelyUnstable(s, profileName)
    ensures forall a :: a in addons && a.status.Incompatible? ==>
              IsReason(s, profileName, addons, nodes, IncompatibleAddon(a.name, a.version, a.requiredVersion))
    ensures forall b :: IsReason(s, profileName, addons, nodes, b) && b.IncompatibleAddon? ==>
              exists a :: a in addons && a.status.Incompatible?
    ensures forall b :: IsReason(s, profileName, addons, nodes, b) && !b.IncompatibleAddon? && !b.LostPVC? ==>
              || s.pdbBlocking
              || IsAboveNineTenths(s.cpuRequests, s.cpuCapacity) || IsAboveNineTenths(s.memRequests, s.memCapacity)
              || IsSeverelyUnstable(s, profileName)
  {
    hide IsAboveNineTenths, IsSeverelyUnstable;
    if forall b :: !IsReason(s, profileName, addons, nodes, b) {
      assert !IsReason(s, profileName, addons, nodes,
                       DrainStalled(if s.pdbIssues == [] then None else Some(s.pdbIssues[0])));
      OneRatio(s.cpuRequests / NonZero(s.cpuCapacity), s.cpuRequests, NonZero(s.cpuCapacity));
      OneRatio(s.memRequests / NonZero(s.memCapacity), s.memRequests, NonZero(s.memCapacity));
      assert !IsReason(s, profileName, addons, nodes, CPUPressure(s.cpuRequests / NonZero(s.cpuCapacity)));
      assert !IsReason(s, profileName, addons, nodes, MemoryPressure(s.memRequests / NonZero(s.memCapacity)));
      assert !IsReason(s, profileName, addons, nodes, PodsNotReady(s.notReadyPods, s.totalPods));
    }
  }

  /** An allowed upgrade is SAFE exactly when the cluster is stable and the total reaches 90, or 85 outside
      production; otherwise it is a WARNING. A denied one is CRITICAL. */
  lemma {:induction false} LevelIs(s: Signals, profileName: string, ai: Option<nat>, addons: seq<AddonCompatibility>,
                                   nodes: seq<Component>)
    requires s.cpuCapacity >= 0.0 && s.memCapacity >= 0.0 && (ai.Some? ==> ai.value <= 100)
    ensures var d := FinalDecision(s, profileName, ai, addons, nodes);
            var reached := FinalTotal(s, ai) >= if profileName == "non-production" then 85 else 90;
            d.level == if !d.allow then Critical
                       else if IsUnstable(s, profileName) || !reached then Warning
                       else Safe
  {
    AllowedIffNoBlockers(s, profileName, ai, addons, nodes);
    ConditionsAre(s, profileName);
    hide BuildMetrics, BuildConditions, FinalTotal, FinalBlockers, IsUnstable, IsSeverelyUnstable, IsAboveNineTenths;
  }

  // ----- The score -----

  function Least(a: int, b: int): int {
    if a <= b then a else b
  }

  /** At least one pod, so that there is something to divide by. */
  function Pods(s: Signals): nat {
    if s.totalPods == 0 then 1 else s.totalPods
  }

  /** Health in whole numbers: 15 points for the share of pods that are not ready, 10 for the share restarting. */
  predicate IsHealth(s: Signals, points: nat) {
    var left := 25 * Pods(s) - 15 * s.notReadyPods - 10 * s.restartingPods;
    points == if left < 0 then 0 else left / Pods(s)
  }

  lemma {:induction false} HealthIs(s: Signals)
    ensures IsHealth(s, CalcHealth(BuildMetrics(s)))
  {
    var n: int, r: int, t: int := s.notReadyPods, s.restartingPods, Pods(s);
    var left := 25 * t - 15 * n - 10 * r;
    hide PodDropRatio;
    assert NonZeroCount(s.totalPods) == t as real;
    assert CalcHealth(BuildMetrics(s))
        == Clamp(Truncate(25.0 - n as real / t as real * 15.0 - r as real / t as real * 10.0), 25);
    hide CalcHealth, BuildMetrics;
    HealthRatio(n as real, r as real, t as real);
    WholeHealth(left, t);
    assert left as real == 25.0 * t as real - 15.0 * n as real - 10.0 * r as real;
  }

  lemma {:induction false} WholeHealth(left: int, t: nat)
    requires t > 0 && left <= 25 * t
    ensures Clamp(Truncate(left as real / t as real), 25) == if left < 0 then 0 else left / t
  {
    if left >= 0 {
      FloorOfRatio(left, t);
      NotNegative(left as real, t as real);
    } else {
      Negative(left as real, t as real);
    }
  }

  lemma {:induction false} QuotientIs(a: real, z: real, t: real)
    requires t > 0.0 && a == z * t
    ensures a / t == z
  {
  }

  lemma {:induction false} Spread(p: real, q: real, r: real, s: real, d: real)
    ensures (p - q - r - s) * d == p * d - q * d - r * d - s * d
  {
  }

  lemma {:induction false} HealthRatio(n: real, r: real, t: real)
    requires t > 0.0
    ensures 25.0 - n / t * 15.0 - r / t * 10.0 == (25.0 * t - 15.0 * n - 10.0 * r) / t
  {
    var x, y := n / t, r / t;
    assert x * t == n && y * t == r;
    Spread(25.0, x * 15.0, y * 10.0, 0.0, t);
    assert x * 15.0 * t == 15.0 * (x * t) && y * 10.0 * t == 10.0 * (y * t);
    QuotientIs(25.0 * t - 15.0 * n - 10.0 * r, 25.0 - x * 15.0 - y * 10.0 - 0.0, t);
  }

  lemma {:induction false} NotNegative(a: real, b: real)
    requires a >= 0.0 && b > 0.0
    ensures a / b >= 0.0
  {
  }

  lemma {:induction false} Negative(a: real, b: real)
    requires a < 0.0 && b > 0.0
    ensures a / b < 0.0
  {
  }

  /** Capacity: 15 points for each of the two requested shares, one unit standing for an unknown capacity. */
  predicate IsCapacity(s: Signals, points: nat) {
    var cpu := s.cpuRequests / (if s.cpuCapacity == 0.0 then 1.0 else s.cpuCapacity);
    var mem := s.memRequests / (if s.memCapacity == 0.0 then 1.0 else s.memCapacity);
    var lost := 15.0 * cpu + 15.0 * mem;
    if lost > 30.0 then points == 0 else points as real <= 30.0 - lost < points as real + 1.0
  }

  lemma {:induction false} CapacityIs(s: Signals)
    requires s.cpuCapacity >= 0.0 && s.memCapacity >= 0.0 && s.cpuRequests >= 0.0 && s.memRequests >= 0.0
    ensures IsCapacity(s, CalcCapacity(BuildMetrics(s)))
  {
    NotNegative(s.cpuRequests, NonZero(s.cpuCapacity));
    NotNegative(s.memRequests, NonZero(s.memCapacity));
  }

  /** Stability in half points per pod: up to 10 points for restarting pods, half a point for each new restart
      up to 6, and up to 4 for pods lost since the last run. */
  predicate IsStability(s: Signals, points: nat) {
    var t, restarts, dropped := Pods(s), s.totalRestarts - s.previousRestarts, s.previousTotalPods - s.totalPods;
    var lost := Least(20 * t, 20 * s.restartingPods)
                + t * (if restarts < 0 then 0 else Least(restarts, 12))
                + (if dropped < 0 then 0 else Least(8 * t, 20 * dropped));
    lost <= 40 * t && points == (40 * t - lost) / (2 * t)
  }

  lemma {:induction false} StabilityIs(s: Signals)
    ensures IsStability(s, CalcStability(BuildMetrics(s)))
  {
    hide CalcStability, BuildMetrics, Least, CapPenalty, PodDropRatio, IsStability;
    MetricsAre(s);
    var restarts := s.totalRestarts - s.previousRestarts;
    CappedShare(s.restartingPods, Pods(s), 10);
    CappedHalf(restarts);
    CappedDrop(s);
    StabilityFitsItsBudget(BuildMetrics(s));
    WholeStability(s, CapPenalty(s.restartingPods as real / Pods(s) as real * 10.0, 10.0),
                   CapPenalty(restarts as real * 0.5, 6.0), CapPenalty(PodDropRatio(s) * 10.0, 4.0));
  }

  lemma {:induction false} WholeStability(s: Signals, crash: real, restart: real, pods: real)
    requires 0.0 <= crash + restart + pods <= 20.0
    requires crash * (2 * Pods(s)) as real == Least(2 * 10 * Pods(s), 20 * s.restartingPods) as real
    requires var restarts := s.totalRestarts - s.previousRestarts;
             restart * 2.0 == (if restarts < 0 then 0 else Least(restarts, 12)) as real
    requires var dropped := s.previousTotalPods - s.totalPods;
             pods * (2 * Pods(s)) as real == (if dropped < 0 then 0 else Least(8 * Pods(s), 20 * dropped)) as real
    ensures (20.0 - crash - restart - pods).Floor >= 0 && IsStability(s, (20.0 - crash - restart - pods).Floor)
  {
    hide Least;
    var t, restarts, dropped := Pods(s), s.totalRestarts - s.previousRestarts, s.previousTotalPods - s.totalPods;
    var b := if restarts < 0 then 0 else Least(restarts, 12);
    var c := if dropped < 0 then 0 else Least(8 * t, 20 * dropped);
    WholePoints(t, Least(20 * t, 20 * s.restartingPods), b, c, crash, restart, pods);
  }

  lemma {:induction false} MetricsAre(s: Signals)
    ensures var m := BuildMetrics(s);
            && m.restarting == s.restartingPods && m.restartDelta == s.totalRestarts - s.previousRestarts
            && m.podDropRatio == PodDropRatio(s) && NonZeroCount(m.totalPods) == Pods(s) as real
  {
    hide PodDropRatio;
  }

  lemma {:induction false} CappedHalf(restarts: int)
    ensures CapPenalty(restarts as real * 0.5, 6.0) * 2.0 == (if restarts < 0 then 0 else Least(restarts, 12)) as real
  {
  }

  lemma {:induction false} CappedDrop(s: Signals)
    ensures var t, dropped := Pods(s), s.previousTotalPods - s.totalPods;
            CapPenalty(PodDropRatio(s) * 10.0, 4.0) * (2 * t) as real
            == (if dropped < 0 then 0 else Least(8 * t, 20 * dropped)) as real
  {
    var t, dropped := Pods(s), s.previousTotalPods - s.totalPods;
    assert NonZeroCount(s.totalPods) == t as real;
    if dropped >= 0 {
      CappedShare(dropped, t, 4);
    } else {
      assert CapPenalty(0.0, 4.0) == 0.0;
    }
  }

  /** Ten times a share of the pods, capped, in half points per pod. */
  lemma {:induction false} CappedShare(n: nat, t: nat, limit: nat)
    requires t > 0
    ensures CapPenalty(n as real / t as real * 10.0, limit as real) * (2 * t) as real
         == Least(2 * limit * t, 20 * n) as real
  {
    var x := n as real / t as real;
    assert x * t as real == n as real;
    NotNegative(n as real, t as real);
    RatioAbove(n as real, t as real, limit as real / 10.0);
    if x * 10.0 > limit as real {
      assert 20 * n > 2 * limit * t;
    } else {
      assert x * 10.0 * (2 * t) as real == 20.0 * (x * t as real);
      assert 20 * n <= 2 * limit * t;
    }
  }

  lemma {:induction false} WholePoints(t: nat, a: int, b: int, c: int, crash: real, restart: real, pods: real)
    requires t > 0 && 0.0 <= crash + restart + pods <= 20.0
    requires crash * (2 * t) as real == a as real && restart * 2.0 == b as real && pods * (2 * t) as real == c as real
    ensures a + t * b + c <= 40 * t
    ensures (20.0 - crash - restart - pods).Floor == (40 * t - (a + t * b + c)) / (2 * t)
  {
    var z, d := 20.0 - crash - restart - pods, (2 * t) as real;
    var left := 40 * t - (a + t * b + c);
    Spread(20.0, crash, restart, pods, d);
    HalfTimes(restart, b, t);
    assert z * d == left as real;
    Product(z, d);
    QuotientIs(left as real, z, d);
    FloorOfRatio(left, 2 * t);
  }

  lemma {:induction false} HalfTimes(restart: real, b: int, t: nat)
    requires restart * 2.0 == b as real
    ensures restart * (2 * t) as real == (t * b) as real
  {
    assert (2 * t) as real == 2.0 * t as real;
    assert (t * b) as real == t as real * b as real;
    assert restart * (2.0 * t as real) == restart * 2.0 * t as real;
  }

  lemma {:induction false} Product(z: real, d: real)
    requires z >= 0.0 && d > 0.0
    ensures z * d >= 0.0
  {
  }

  /** Compatibility by the weight of the issues, an add-on weighing two deprecated interfaces. */
  predicate IsCompatibility(s: Signals, points: nat) {
    var weight := s.deprecatedAPIs + 2 * s.addonIssues;
    points == if weight < 7 then [25, 15, 9, 5, 3, 1, 1][weight] else 0
  }

  lemma {:induction false} CompatibilityIs(s: Signals)
    ensures IsCompatibility(s, CalcCompatibility(BuildMetrics(s)))
  {
    CompatibilityRunsOut(BuildMetrics(s));
    CompatPowerOf3();
    assert CompatPower(1) == 0.6 * CompatPower(0) && CompatPower(2) == 0.6 * CompatPower(1);
    assert CompatPower(4) == 0.6 * CompatPower(3);
    assert CompatPower(5) == 0.6 * CompatPower(4);
    assert CompatPower(6) == 0.6 * CompatPower(5);
  }

  /** The scores of a report: the four dimensions, their sum, and the total, which with an AI score is seven
      tenths of the one and three tenths of the other, each rounded down but for the one point that binary
      arithmetic loses at 90. */
  ghost predicate IsScoreOf(s: Signals, ai: Option<nat>, scores: Decisions.Scores) {
    var base := scores.base;
    && IsHealth(s, base.health) && IsStability(s, base.stability) && IsCompatibility(s, base.compatibility)
    && (s.cpuCapacity >= 0.0 && s.memCapacity >= 0.0 && s.cpuRequests >= 0.0 && s.memRequests >= 0.0 ==>
          IsCapacity(s, base.capacity))
    && base.score == base.health + base.capacity + base.stability + base.compatibility <= 100
    && (if ai.None? then
          && scores.total == base.contribution == base.score && base.weight == "100%"
          && scores.ai == AIScores(0, "", 0, "")
        else
          && scores.ai.score == ai.value && base.weight == "70%" && scores.ai.weight == "30%"
          && base.contribution == (if base.score == 90 then 62 else 7 * base.score / 10)
          && scores.ai.contribution == 3 * ai.value / 10
          && scores.total == base.contribution + scores.ai.contribution)
  }

  /** The scores that the pipeline leaves in a report. */
  function FinalScores(s: Signals, ai: Option<nat>, model: string): Decisions.Scores
    requires ai.Some? ==> ai.value <= 100
  {
    var m := BuildMetrics(s);
    var scores := Decisions.Scores(BaseTotal(m), BaseScoresOf(m), NO_AI);
    if ai.None? then scores else Blend(scores, ai.value, model)
  }

  lemma {:induction false} FinalScoresAre(s: Signals, ai: Option<nat>, model: string)
    requires ai.Some? ==> ai.value <= 100
    ensures IsScoreOf(s, ai, FinalScores(s, ai, model)) && FinalScores(s, ai, model).total == FinalTotal(s, ai)
    ensures ai.Some? ==> FinalScores(s, ai, model).ai.model == model
  {
    HealthIs(s);
    StabilityIs(s);
    CompatibilityIs(s);
    if s.cpuCapacity >= 0.0 && s.memCapacity >= 0.0 && s.cpuRequests >= 0.0 && s.memRequests >= 0.0 {
      CapacityIs(s);
    }
    Shares(BaseTotal(BuildMetrics(s)));
    if ai.Some? {
      Shares(ai.value);
    }
    hide IsHealth, IsStability, IsCapacity, IsCompatibility, BuildMetrics, CalcHealth, CalcCapacity, CalcStability,
      CalcCompatibility, BaseShare, AIShare;
  }

  // ----- The decision -----

  /** What an analysis decides, and why: allowed exactly when nothing stalls the drain, neither CPU nor memory
      is nearly exhausted, few enough pods are not ready, no add-on is incompatible and no claim is lost; SAFE
      exactly when it is allowed, the cluster is stable and the total reaches 90, or 85 outside production. The
      blockers are the lost claims and the other reasons there are. */
  ghost predicate IsDecisionOn(t: Topology, s: Signals, profileName: string, addons: seq<AddonCompatibility>,
                               total: int,
                               d: Decision) {
    && (d.allow <==>
          && !s.pdbBlocking
          && !IsAboveNineTenths(s.cpuRequests, s.cpuCapacity) && !IsAboveNineTenths(s.memRequests, s.memCapacity)
          && !IsSeverelyUnstable(s, profileName)
          && (forall a :: a in addons ==> !a.status.Incompatible?)
          && (forall p :: p in t.pvcs ==> p.phase != "Lost"))
    && (d.level == Critical <==> !d.allow)
    && (d.level == Safe <==>
          d.allow && !IsUnstable(s, profileName) && total >= if profileName == "non-production" then 85 else 90)
    && (forall namespace, name :: LostPVC(namespace, name) in d.blockers <==>
          exists p :: p in t.pvcs && p.namespace == namespace && p.name == name && p.phase == "Lost")
    && (forall b: Blocker :: !b.LostPVC? ==> (b in d.blockers <==> IsReason(s, profileName, addons, [], b)))
  }

  lemma {:induction false} DecisionIs(t: Topology, addonStatus: map<string, AddonStatus>, s: Signals,
                                      profileName: string,
                                      ai: Option<nat>, addons: seq<AddonCompatibility>)
    requires DistinctClaims(t) && s.cpuCapacity >= 0.0 && s.memCapacity >= 0.0 && (ai.Some? ==> ai.value <= 100)
    ensures IsDecisionOn(t, s, profileName, addons, FinalTotal(s, ai),
                         FinalDecision(s, profileName, ai, addons, ScoredNodes(t, addonStatus)))
  {
    var nodes := ScoredNodes(t, addonStatus);
    hide DistinctClaims, ScoredNodes, FinalTotal, FinalBlockers, IsAboveNineTenths, IsUnstable, IsSeverelyUnstable,
      BuildMetrics, BuildConditions;
    AllowedWhen(t, addonStatus, s, profileName, ai, addons);
    LevelIs(s, profileName, ai, addons, nodes);
    LostClaimsBlock(t, addonStatus, s, profileName, addons);
    ReasonsAre(s, profileName, addons, nodes);
    assert FinalDecision(s, profileName, ai, addons, nodes).blockers == FinalBlockers(s, profileName, addons, nodes);
    hide FinalDecision;
  }
}
