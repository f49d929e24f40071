/** The upgrade report, and the three steps that decide it: the base analysis, the optional AI blend and
    the final layer of deterministic blockers. */
module Decisions {
  import opened Collections
  import opened Components
  import opened Inventory
  import opened Compatibility
  import opened Scoring
  import opened NamespaceRisks
  import Doubles

  /** Every reason that denies the upgrade. */
  datatype Blocker =
    | DrainStalled(pdb: Option<PDBIssue>)
    | CPUPressure(ratio: real)
    | MemoryPressure(ratio: real)
    | PodsNotReady(notReady: nat, total: nat)
    | IncompatibleAddon(name: string, version: string, requiredVersion: string)
    | LostPVC(namespace: string, name: string)

  datatype Decision = Decision(level: Level, allow: bool, blockers: seq<Blocker>)

  datatype BaseScores = BaseScores(
    score: nat, weight: string, contribution: nat, health: nat, capacity: nat, stability: nat, compatibility: nat)

  datatype AIScores = AIScores(score: nat, weight: string, contribution: nat, model: string)

  datatype Scores = Scores(total: nat, base: BaseScores, ai: AIScores)

  const NO_AI := AIScores(0, "", 0, "")

  /** An incompatible add-on and what depends on it. */
  datatype AddonImpact = AddonImpact(addon: string, version: string, requiredVersion: string, affected: seq<string>)

  class Report {
    var decision: Decision
    var scores: Scores
    var aiReasoning: string
    const conditions: Conditions
    const metrics: Metrics
    const pdbs: seq<PDBIssue>
    var addons: seq<AddonCompatibility>
    var graph: Graph?
    var byNamespace: seq<NamespaceRisk>
    var upgradeImpact: seq<AddonImpact>

    constructor (decision: Decision, scores: Scores, conditions: Conditions, metrics: Metrics, pdbs: seq<PDBIssue>)
      ensures this.decision == decision && this.scores == scores && aiReasoning == ""
      ensures this.conditions == conditions && this.metrics == metrics && this.pdbs == pdbs
      ensures addons == [] && graph == null && byNamespace == [] && upgradeImpact == []
    {
      this.decision, this.scores, this.aiReasoning := decision, scores, "";
      this.conditions, this.metrics, this.pdbs := conditions, metrics, pdbs;
      addons, graph, byNamespace, upgradeImpact := [], null, [], [];
    }
  }

  // ----- Step 1: the base analysis -----

  function BaseScoresOf(m: Metrics): BaseScores {
    var total := BaseTotal(m);
    BaseScores(total, "100%", total, CalcHealth(m), CalcCapacity(m), CalcStability(m), CalcCompatibility(m))
  }

  function Undecided(verdict: (Level, bool)): Decision {
    Decision(verdict.0, verdict.1, [])
  }

  method Calculate(s: Signals, profileName: string) returns (report: Report)
    ensures fresh(report)
    ensures report.metrics == BuildMetrics(s)
    ensures report.conditions == BuildConditions(s, report.metrics, ProfileFor(profileName))
    ensures report.pdbs == s.pdbIssues && report.aiReasoning == ""
    ensures report.scores == Scores(BaseTotal(report.metrics), BaseScoresOf(report.metrics), NO_AI)
    ensures report.decision == Undecided(Decide(report.scores.total, report.conditions, ProfileFor(profileName)))
    ensures report.addons == [] && report.graph == null && report.byNamespace == [] && report.upgradeImpact == []
  {
    hide CalcHealth, CalcCapacity, CalcStability, CalcCompatibility, BuildMetrics, BuildConditions, Decide;
    var profile := ProfileFor(profileName);
    var m := BuildMetrics(s);
    var c := BuildConditions(s, m, profile);
    var health, capacity := CalcHealth(m), CalcCapacity(m);
    var stability, compatibility := CalcStability(m), CalcCompatibility(m);
    var total := health + capacity + stability + compatibility;
    var base := BaseScores(total, "100%", total, health, capacity, stability, compatibility);
    report := new Report(Undecided(Decide(total, c, profile)), Scores(total, base, NO_AI), c, m, s.pdbIssues);
  }

  // ----- Step 2: the AI blend -----

  /** int(float64(score) * 0.7) and int(float64(score) * 0.3). */
  function BaseShare(score: nat): nat
    requires score <= 100
  {
    Doubles.TruncatedProduct(score, Doubles.SEVEN_TENTHS)
  }

  function AIShare(score: nat): nat
    requires score <= 100
  {
    Doubles.TruncatedProduct(score, Doubles.THREE_TENTHS)
  }

  lemma {:induction false} Shares(score: nat)
    requires score <= 100
    ensures BaseShare(score) == if score == 90 then 62 else 7 * score / 10
    ensures AIShare(score) == 3 * score / 10
  {
    Doubles.SevenTenthsIsShortOnlyAt90(score);
    Doubles.ThreeTenthsIsExact(score);
  }

  /** The scores after a blend: made from the base score, which no blend changes. */
  function Blend(scores: Scores, aiScore: nat, model: string): Scores
    requires scores.base.score <= 100 && aiScore <= 100
  {
    var share, ai := BaseShare(scores.base.score), AIShare(aiScore);
    Scores(share + ai, scores.base.(weight := "70%", contribution := share), AIScores(aiScore, "30%", ai, model))
  }

  method ApplyAIScore(report: Report, aiScore: nat, reasoning: string, model: string, profileName: string)
    requires report.scores.base.score <= 100 && aiScore <= 100
    modifies report`scores, report`aiReasoning, report`decision
    ensures report.scores == Blend(old(report.scores), aiScore, model)
    ensures report.aiReasoning == if reasoning != "" then reasoning else old(report.aiReasoning)
    ensures var verdict := Decide(report.scores.total, report.conditions, ProfileFor(profileName));
            report.decision == old(report.decision).(level := verdict.0, allow := verdict.1)
  {
    hide Decide;
    var baseContribution := Doubles.TruncatedProduct(report.scores.base.score, Doubles.SEVEN_TENTHS);
    var aiContribution := Doubles.TruncatedProduct(aiScore, Doubles.THREE_TENTHS);
    var blended := baseContribution + aiContribution;
    var base := report.scores.base.(weight := "70%", contribution := baseContribution);
    report.scores := report.scores.(base := base, ai := AIScores(aiScore, "30%", aiContribution, model));
    report.scores := report.scores.(total := blended);
    if reasoning != "" {
      report.aiReasoning := reasoning;
    }
    var verdict := Decide(blended, report.conditions, ProfileFor(profileName));
    report.decision := report.decision.(level := verdict.0, allow := verdict.1);
  }

  /** The total is the sum of the two contributions and stays within 0..100. */
  lemma {:induction false} BlendKeepsTotal(scores: Scores, aiScore: nat, model: string)
    requires scores.base.score <= 100 && aiScore <= 100
    ensures var blended := Blend(scores, aiScore, model);
            && blended.total == blended.base.contribution + blended.ai.contribution <= 100
            && blended.base.score == scores.base.score
            && 10 * blended.total <= 7 * scores.base.score + 3 * aiScore < 10 * blended.total + 20
  {
    Shares(scores.base.score);
    Shares(aiScore);
  }

  lemma {:induction false} ShareMonotone(score: nat, score': nat)
    requires score <= score' <= 100
    ensures BaseShare(score) <= BaseShare(score') && AIShare(score) <= AIShare(score')
  {
    Shares(score);
    Shares(score');
  }

  /** What a blend can change of a report. */
  datatype Blendable = Blendable(scores: Scores, aiReasoning: string, decision: Decision)

  /** One application of the AI score, as ApplyAIScore performs it. */
  function WithAI(b: Blendable, aiScore: nat, reasoning: string, model: string, c: Conditions,
                  p: ScoringProfile): Blendable
    requires b.scores.base.score <= 100 && aiScore <= 100
  {
    var scores := Blend(b.scores, aiScore, model);
    var verdict := Decide(scores.total, c, p);
    Blendable(scores, if reasoning != "" then reasoning else b.aiReasoning,
              b.decision.(level := verdict.0, allow := verdict.1))
  }

  /** Blending twice is blending with the last score alone, exactly when the last answer has a reasoning
      or the first one left the reasoning as it was. */
  lemma {:induction false} LastBlendWins(b: Blendable, s1: nat, r1: string, m1: string, s2: nat, r2: string, m2: string,
                      c: Conditions, p: ScoringProfile)
    requires b.scores.base.score <= 100 && s1 <= 100 && s2 <= 100
    ensures WithAI(WithAI(b, s1, r1, m1, c, p), s2, r2, m2, c, p) == WithAI(b, s2, r2, m2, c, p)
            <==> r2 != "" || r1 == "" || r1 == b.aiReasoning
  {
    hide Decide, BaseShare, AIShare;
  }

  // ----- Step 3: the deterministic blockers -----

  /** The blockers of the snapshot's conditions. */
  function ConditionBlockers(c: Conditions, m: Metrics, pdbs: seq<PDBIssue>): seq<Blocker> {
    (if c.pdbBlocking then [DrainStalled(if |pdbs| > 0 then Some(pdbs[0]) else None)] else [])
    + (if c.highCPUPressure then [CPUPressure(m.cpuPressure)] else [])
    + (if c.highMemoryPressure then [MemoryPressure(m.memoryPressure)] else [])
    + (if c.severelyUnstable then [PodsNotReady(m.notReady, m.totalPods)] else [])
  }

  function AddonBlocker(a: AddonCompatibility): Blocker {
    IncompatibleAddon(a.name, a.version, a.requiredVersion)
  }

  predicate IsLost(c: Component) {
    c.ctype == TypeStorage && c.status == "Lost"
  }

  function PVCBlocker(c: Component): Blocker {
    LostPVC(c.namespace, c.name)
  }

  /** Every blocker of a finalized report, in order. */
  function Blockers(c: Conditions, m: Metrics, pdbs: seq<PDBIssue>, addons: seq<AddonCompatibility>,
                    nodes: seq<Component>)
    : seq<Blocker>
  {
    ConditionBlockers(c, m, pdbs)
    + Map(AddonBlocker, IncompatibleOnes(addons))
    + Map(PVCBlocker, Filter(IsLost, nodes))
  }

  function NodesOf(g: Graph?): seq<Component>
    reads g
  {
    if g == null then [] else g.nodes
  }

  method CollectConditionBlockers(c: Conditions, m: Metrics, pdbs: seq<PDBIssue>) returns (b: seq<Blocker>)
    ensures b == ConditionBlockers(c, m, pdbs)
  {
    b := [];
    if c.pdbBlocking {
      if |pdbs| > 0 {
        b := b + [DrainStalled(Some(pdbs[0]))];
      } else {
        b := b + [DrainStalled(None)];
      }
    }
    if c.highCPUPressure {
      b := b + [CPUPressure(m.cpuPressure)];
    }
    if c.highMemoryPressure {
      b := b + [MemoryPressure(m.memoryPressure)];
    }
    if c.severelyUnstable {
      b := b + [PodsNotReady(m.notReady, m.totalPods)];
    }
  }

  method CollectBlockers(report: Report) returns (b: seq<Blocker>)
    ensures b == Blockers(report.conditions, report.metrics, report.pdbs, report.addons, NodesOf(report.graph))
  {
    hide ConditionBlockers, Map, Filter;
    b := CollectConditionBlockers(report.conditions, report.metrics, report.pdbs);
    ghost var start := b;
    var addons := report.addons;
    MapFilterNext(AddonBlocker, IsIncompatible, addons, 0);
    for i := 0 to |addons|
      invariant b == start + Map(AddonBlocker, Filter(IsIncompatible, addons[..i]))
    {
      MapFilterNext(AddonBlocker, IsIncompatible, addons, i);
      if addons[i].status == Incompatible {
        b := b + [AddonBlocker(addons[i])];
      }
    }
    ghost var withAddons := b;
    var nodes := NodesOf(report.graph);
    MapFilterNext(PVCBlocker, IsLost, nodes, 0);
    for i := 0 to |nodes|
      invariant b == withAddons + Map(PVCBlocker, Filter(IsLost, nodes[..i]))
    {
      MapFilterNext(PVCBlocker, IsLost, nodes, i);
      if nodes[i].ctype == TypeStorage && nodes[i].status == "Lost" {
        b := b + [PVCBlocker(nodes[i])];
      }
    }
  }

  /** Blockers have the last word; without any the earlier decision stands. */
  function Finalize(verdict: (Level, bool), blockers: seq<Blocker>): Decision {
    if |blockers| > 0 then Decision(Critical, false, blockers) else Decision(verdict.0, verdict.1, blockers)
  }

  method ApplyGraphDecision(report: Report)
    modifies report`decision
    ensures report.decision
         == Finalize((old(report.decision).level, old(report.decision).allow),
                     Blockers(report.conditions, report.metrics, report.pdbs, report.addons, NodesOf(report.graph)))
  {
    hide Blockers;
    var blockers := CollectBlockers(report);
    report.decision := report.decision.(blockers := blockers);
    if |blockers| > 0 {
      report.decision := report.decision.(level := Critical, allow := false);
    }
  }

  // ----- The whole pipeline -----

  /** The total the pipeline ends with. */
  function FinalTotal(s: Signals, ai: Option<nat>): nat
    requires ai.Some? ==> ai.value <= 100
  {
    var base := BaseTotal(BuildMetrics(s));
    if ai.None? then base else BaseShare(base) + AIShare(ai.value)
  }

  function FinalBlockers(s: Signals, profileName: string, addons: seq<AddonCompatibility>,
                         nodes: seq<Component>): seq<Blocker> {
    var m := BuildMetrics(s);
    Blockers(BuildConditions(s, m, ProfileFor(profileName)), m, s.pdbIssues, addons, nodes)
  }

  /** The decision the pipeline ends with, AI scoring skipped or applied. */
  function FinalDecision(s: Signals, profileName: string, ai: Option<nat>, addons: seq<AddonCompatibility>,
                         nodes: seq<Component>)
    : Decision
    requires ai.Some? ==> ai.value <= 100
  {
    var p := ProfileFor(profileName);
    Finalize(Decide(FinalTotal(s, ai), BuildConditions(s, BuildMetrics(s), p), p),
             FinalBlockers(s, profileName, addons, nodes))
  }

  lemma {:induction false} ConditionsBlock(c: Conditions, m: Metrics, pdbs: seq<PDBIssue>,
                                           addons: seq<AddonCompatibility>, nodes: seq<Component>)
    requires MustBlock(c)
    ensures Blockers(c, m, pdbs, addons, nodes) != []
  {
  }

  /** The gate is exactly the list of blockers: an upgrade is allowed iff there is none, and denied iff the
      level is CRITICAL. The conditions that decide on their own and the collected blockers agree. */
  lemma {:induction false} AllowedIffNoBlockers(s: Signals, profileName: string, ai: Option<nat>,
                                                addons: seq<AddonCompatibility>, nodes: seq<Component>)
    requires ai.Some? ==> ai.value <= 100
    ensures var d := FinalDecision(s, profileName, ai, addons, nodes);
            && (d.allow <==> d.blockers == [])
            && (d.allow <==> d.level != Critical)
  {
    var m := BuildMetrics(s);
    var c := BuildConditions(s, m, ProfileFor(profileName));
    hide BuildMetrics, BuildConditions, Blockers, FinalTotal;
    if MustBlock(c) {
      ConditionsBlock(c, m, s.pdbIssues, addons, nodes);
    }
  }

  /** AI scoring cannot block or unblock: whatever score it gives, or none, the gate and the blockers are
      the same; only SAFE and WARNING can trade places. */
  lemma {:induction false} AIDoesNotDecide(s: Signals, profileName: string, ai: Option<nat>, ai': Option<nat>,
                        addons: seq<AddonCompatibility>, nodes: seq<Component>)
    requires (ai.Some? ==> ai.value <= 100) && (ai'.Some? ==> ai'.value <= 100)
    ensures var d := FinalDecision(s, profileName, ai, addons, nodes);
            var d' := FinalDecision(s, profileName, ai', addons, nodes);
            && d.allow == d'.allow && d.blockers == d'.blockers
            && (d.level == Critical <==> d'.level == Critical)
  {
    hide BuildMetrics, BuildConditions, FinalBlockers, FinalTotal;
  }

  lemma {:induction false} FinalTotalFalls(s: Signals, s': Signals, ai: Option<nat>)
    requires Worse(s, s') && (ai.Some? ==> ai.value <= 100)
    ensures FinalTotal(s', ai) <= FinalTotal(s, ai)
  {
    hide BaseTotal, BuildMetrics, BaseShare, AIShare;
    TotalFalls(s, s');
    ShareMonotone(BaseTotal(BuildMetrics(s')), BaseTotal(BuildMetrics(s)));
  }

  lemma {:induction false} CountedConditions(c: Conditions, c': Conditions, m: Metrics, m': Metrics,
                                             pdbs: seq<PDBIssue>, pdbs': seq<PDBIssue>)
    requires (c.pdbBlocking ==> c'.pdbBlocking) && (c.highCPUPressure ==> c'.highCPUPressure)
    requires (c.highMemoryPressure ==> c'.highMemoryPressure) && (c.severelyUnstable ==> c'.severelyUnstable)
    ensures |ConditionBlockers(c, m, pdbs)| <= |ConditionBlockers(c', m', pdbs')|
  {
  }

  /** Worsening any signal of a cluster of fixed size, with no fewer incompatible add-ons and lost claims and
      the same AI score, never raises the total, never makes the decision milder and never loses a blocker. */
  lemma {:induction false} WorseIsNeverMilder(s: Signals, s': Signals, profileName: string, ai: Option<nat>,
                                              addons: seq<AddonCompatibility>, addons': seq<AddonCompatibility>,
                                              nodes: seq<Component>, nodes': seq<Component>)
    requires Worse(s, s') && (ai.Some? ==> ai.value <= 100)
    requires |IncompatibleOnes(addons)| <= |IncompatibleOnes(addons')|
    requires |Filter(IsLost, nodes)| <= |Filter(IsLost, nodes')|
    ensures FinalTotal(s', ai) <= FinalTotal(s, ai) <= 100
    ensures var d := FinalDecision(s, profileName, ai, addons, nodes);
            var d' := FinalDecision(s', profileName, ai, addons', nodes');
            IsNoMilder(d, d')
  {
    var p := ProfileFor(profileName);
    var m, m' := BuildMetrics(s), BuildMetrics(s');
    FinalTotalFalls(s, s', ai);
    FinalTotalBounded(s, ai);
    ConditionsWorsen(s, s', p);
    CountedConditions(BuildConditions(s, m, p), BuildConditions(s', m', p), m, m', s.pdbIssues, s'.pdbIssues);
    hide BuildMetrics, BuildConditions, ConditionBlockers, FinalTotal, IncompatibleOnes, ProfileFor, Filter;
  }

  /** d' is at least as severe as d, denies what d denies, and names at least as many reasons. */
  predicate IsNoMilder(d: Decision, d': Decision) {
    Severity(d.level) <= Severity(d'.level) && (d'.allow ==> d.allow) && |d.blockers| <= |d'.blockers|
  }

  lemma {:induction false} FinalTotalBounded(s: Signals, ai: Option<nat>)
    requires ai.Some? ==> ai.value <= 100
    ensures FinalTotal(s, ai) <= 100
  {
    hide BaseTotal, BuildMetrics, BaseShare, AIShare;
    Shares(BaseTotal(BuildMetrics(s)));
    if ai.Some? {
      Shares(ai.value);
    }
  }

  /** On the same snapshot and AI score the lenient profile never gives a more severe level. */
  lemma {:induction false} LenientIsNeverMoreSevere(s: Signals, ai: Option<nat>, addons: seq<AddonCompatibility>,
                                                    nodes: seq<Component>)
    requires ai.Some? ==> ai.value <= 100
    ensures var lenient := FinalDecision(s, "non-production", ai, addons, nodes);
            var strict := FinalDecision(s, "production", ai, addons, nodes);
            IsNoMilder(lenient, strict)
  {
    var m := BuildMetrics(s);
    CountedConditions(BuildConditions(s, m, NON_PRODUCTION), BuildConditions(s, m, PRODUCTION), m, m, s.pdbIssues,
                      s.pdbIssues);
    hide BuildMetrics, ConditionBlockers, FinalTotal, IncompatibleOnes;
  }

  // ----- Counting blockers -----

  predicate IsAddonBlocker(b: Blocker) {
    b.IncompatibleAddon?
  }

  function Truths(c: Conditions): nat {
    (if c.pdbBlocking then 1 else 0) + (if c.highCPUPressure then 1 else 0)
    + (if c.highMemoryPressure then 1 else 0) + (if c.severelyUnstable then 1 else 0)
  }

  lemma {:induction false} FilterMap(addons: seq<AddonCompatibility>)
    ensures Filter(IsAddonBlocker, Map(AddonBlocker, addons)) == Map(AddonBlocker, addons)
  {
    if addons != [] {
      FilterMap(addons[..|addons| - 1]);
      assert Map(AddonBlocker, addons)[..|addons| - 1] == Map(AddonBlocker, addons[..|addons| - 1]);
    }
  }

  lemma {:induction false} FilterNone(bs: seq<Blocker>)
    requires forall i :: 0 <= i < |bs| ==> !IsAddonBlocker(bs[i])
    ensures Filter(IsAddonBlocker, bs) == []
  {
    if bs != [] {
      FilterNone(bs[..|bs| - 1]);
    }
  }

  /** Each true condition, each incompatible add-on and each lost volume is one blocker, and the add-on
      entries are exactly those of the incompatible add-ons, in order. */
  lemma {:induction false} BlockersAreCounted(c: Conditions, m: Metrics, pdbs: seq<PDBIssue>,
                                              addons: seq<AddonCompatibility>, nodes: seq<Component>)
    ensures var b := Blockers(c, m, pdbs, addons, nodes);
            && |b| == Truths(c) + |IncompatibleOnes(addons)| + |Filter(IsLost, nodes)|
            && Filter(IsAddonBlocker, b) == Map(AddonBlocker, IncompatibleOnes(addons))
  {
    hide ConditionBlockers, IncompatibleOnes, Filter, Truths;
    var x, y := ConditionBlockers(c, m, pdbs), Map(AddonBlocker, IncompatibleOnes(addons));
    var z := Map(PVCBlocker, Filter(IsLost, nodes));
    CountConditions(c, m, pdbs);
    FilterMap(IncompatibleOnes(addons));
    FilterNone(z);
    FilterConcat(IsAddonBlocker, x, y);
    FilterConcat(IsAddonBlocker, x + y, z);
  }

  lemma {:induction false} CountConditions(c: Conditions, m: Metrics, pdbs: seq<PDBIssue>)
    ensures |ConditionBlockers(c, m, pdbs)| == Truths(c)
    ensures Filter(IsAddonBlocker, ConditionBlockers(c, m, pdbs)) == []
  {
    FilterNone(ConditionBlockers(c, m, pdbs));
  }
}
