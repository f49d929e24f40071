/** One upgrade analysis: compatibility, base score, graph, risk, blast radius, AI blend and decision, in
    the order the controller runs them. */
module Upgrade {
  import opened Collections
  import opened Components
  import opened Inventory
  import opened Ordering
  import opened Walks
  import opened BuiltGraphs
  import opened NamespaceRisks
  import opened RiskEngine
  import opened AtRiskReport
  import opened ScoredGraphs
  import opened Compatibility
  import opened Scoring
  import opened Decisions
  import opened SnapshotNodes
  import opened SnapshotDecisions

  /** The verdicts by add-on name; a repeated name keeps the last one. */
  function StatusMap(results: seq<AddonCompatibility>): map<string, AddonStatus> {
    if results == [] then map[]
    else
      var last := results[|results| - 1];
      StatusMap(results[..|results| - 1])[last.name := last.status]
  }

  /** The blast radius of one add-on: everything that depends on it, directly or transitively. */
  ghost predicate IsImpact(edges: seq<Edge>, a: AddonCompatibility, impact: AddonImpact) {
    && impact.addon == a.name && impact.version == a.version && impact.requiredVersion == a.requiredVersion
    && StrictlySorted(impact.affected)
    && forall d :: d in impact.affected <==> d != AddonId(a.name) && Reaches(edges, d, AddonId(a.name))
  }

  /** One entry per incompatible add-on, in order. */
  ghost predicate AreImpacts(edges: seq<Edge>, incompatible: seq<AddonCompatibility>, impacts: seq<AddonImpact>) {
    && |impacts| == |incompatible|
    && forall i :: 0 <= i < |impacts| ==> IsImpact(edges, incompatible[i], impacts[i])
  }

  method UpgradeImpact(addons: seq<AddonCompatibility>, g: Graph) returns (out: seq<AddonImpact>)
    ensures AreImpacts(g.edges, IncompatibleOnes(addons), out)
  {
    hide IsImpact;
    out := [];
    for i := 0 to |addons|
      invariant AreImpacts(g.edges, IncompatibleOnes(addons[..i]), out)
    {
      TakeNext(addons, i);
      var a := addons[i];
      if a.status != Incompatible {
        continue;
      }
      var rdeps := ReverseEdges(g.edges);
      var affected := DependentsOf(rdeps, AddonId(a.name), g.edges);
      var impact := AddonImpact(a.name, a.version, a.requiredVersion, affected);
      ImpactIs(g.edges, a, impact);
      out := out + [impact];
    }
    assert addons[..|addons|] == addons;
  }

  lemma {:induction false} ImpactIs(edges: seq<Edge>, a: AddonCompatibility, impact: AddonImpact)
    requires impact == AddonImpact(a.name, a.version, a.requiredVersion, impact.affected)
    requires StrictlySorted(impact.affected)
    requires forall d :: d in impact.affected <==> d != AddonId(a.name) && Reaches(edges, d, AddonId(a.name))
    ensures IsImpact(edges, a, impact)
  {
  }

  /** The result of a successful AI call. */
  datatype AIAnswer = AIAnswer(score: nat, reasoning: string, model: string)

  function ScoreOf(ai: Option<AIAnswer>): Option<nat> {
    if ai.None? then None else Some(ai.value.score)
  }

  /** The signals the score reads: the evaluation's count takes the place of the collected one. */
  function SignalsOf(snap: Snapshot, addons: seq<AddonCompatibility>): Signals {
    snap.signals.(addonIssues := |IncompatibleOnes(addons)|)
  }

  /** What one run of the pipeline finds: the verdicts, the scored nodes, the total and the decision. */
  ghost predicate IsAnalysis<V>(sv: Semver<V>, snap: Snapshot, targetVersion: string, m: Matrix, profileName: string,
                                ai: Option<nat>, addons: seq<AddonCompatibility>, nodes: seq<Component>, total: int,
                                decision: Decision)
  {
    && (ai.Some? ==> ai.value <= 100)
    && |addons| == |snap.topology.detectedAddons|
    && (forall i :: 0 <= i < |addons| ==>
          Judges(sv, snap.topology.detectedAddons[i], sv.parse(targetVersion), m, addons[i]))
    && nodes == ScoredNodes(snap.topology, StatusMap(addons))
    && total == FinalTotal(SignalsOf(snap, addons), ai)
    && decision == FinalDecision(SignalsOf(snap, addons), profileName, ai, addons, nodes)
  }

  /** Runs the pipeline. The number of incompatible add-ons that the evaluation counts is the one the score
      uses, the length of the upgrade impact and the number of add-on entries among the blockers; the
      blockers are these, the true conditions and the lost volumes of the graph, and nothing else. */
  method Analyze<V>(sv: Semver<V>, snap: Snapshot, targetVersion: string, m: Matrix, profileName: string,
                    ai: Option<AIAnswer>)
    returns (report: Report, g: Graph, signals: Signals)
    requires ai.Some? ==> ai.value.score <= 100
    ensures report.graph == g && g.edges == BuiltEdges(snap.topology)
    ensures signals == SignalsOf(snap, report.addons)
    ensures IsAnalysis(sv, snap, targetVersion, m, profileName, ScoreOf(ai), report.addons, g.nodes,
                       report.scores.total, report.decision)
    ensures IsScoreOf(signals, ScoreOf(ai), report.scores)
    ensures ai.Some? ==> report.aiReasoning == ai.value.reasoning && report.scores.ai.model == ai.value.model
    ensures DistinctClaims(snap.topology) && signals.cpuCapacity >= 0.0 && signals.memCapacity >= 0.0 ==>
              IsDecisionOn(snap.topology, snap.signals, profileName, report.addons, report.scores.total,
                           report.decision)
    ensures report.byNamespace == Summaries(g.nodes)
    ensures AreImpacts(g.edges, IncompatibleOnes(report.addons), report.upgradeImpact)
    ensures Filter(IsAddonBlocker, report.decision.blockers) == Map(AddonBlocker, IncompatibleOnes(report.addons))
    ensures |report.decision.blockers|
         == Truths(report.conditions) + |IncompatibleOnes(report.addons)| + |Filter(IsLost, g.nodes)|
  {
    hide IsScoreOf, IsDecisionOn, DistinctClaims, Judges, ScoredNodes, BuiltEdges, Summaries, AreImpacts, Decide,
      Blockers, BuildMetrics, BuildConditions,
      Truths, StatusMap,
      IncompatibleOnes, BaseTotal, CalcHealth, CalcCapacity, CalcStability, CalcCompatibility, Filter, Map;
    var results, incompatible := Evaluate(sv, snap.topology.detectedAddons, targetVersion, m);
    signals := snap.signals.(addonIssues := incompatible);
    report := Calculate(signals, profileName);
    var addonStatus := StatusesOf(results);
    var summaries;
    g, summaries := ScoreSnapshot(snap.topology, addonStatus);
    report.addons := results;
    report.graph := g;
    report.byNamespace := summaries;
    report.upgradeImpact := UpgradeImpact(results, g);
    if ai.Some? {
      ApplyAIScore(report, ai.value.score, ai.value.reasoning, ai.value.model, profileName);
    }
    ApplyGraphDecision(report);
    BlockersAreCounted(report.conditions, report.metrics, report.pdbs, results, g.nodes);
    AnalysisIs(snap.topology, addonStatus, snap.signals, signals, profileName, ai, results);
  }

  lemma {:induction false} AnalysisIs(t: Topology, addonStatus: map<string, AddonStatus>, collected: Signals,
                                      s: Signals,
                                      profileName: string, ai: Option<AIAnswer>, addons: seq<AddonCompatibility>)
    requires (ai.Some? ==> ai.value.score <= 100) && s == collected.(addonIssues := s.addonIssues)
    ensures var scores := FinalScores(s, ScoreOf(ai), if ai.Some? then ai.value.model else "");
            && IsScoreOf(s, ScoreOf(ai), scores) && (ai.Some? ==> scores.ai.model == ai.value.model)
    ensures DistinctClaims(t) && s.cpuCapacity >= 0.0 && s.memCapacity >= 0.0 ==>
              IsDecisionOn(t, collected, profileName, addons, FinalTotal(s, ScoreOf(ai)),
                           FinalDecision(s, profileName, ScoreOf(ai), addons, ScoredNodes(t, addonStatus)))
  {
    hide DistinctClaims, ScoredNodes, FinalTotal, FinalDecision, FinalScores, IsScoreOf;
    FinalScoresAre(s, ScoreOf(ai), if ai.Some? then ai.value.model else "");
    if DistinctClaims(t) && s.cpuCapacity >= 0.0 && s.memCapacity >= 0.0 {
      DecisionIs(t, addonStatus, s, profileName, ScoreOf(ai), addons);
    }
  }

  method StatusesOf(results: seq<AddonCompatibility>) returns (statuses: map<string, AddonStatus>)
    ensures statuses == StatusMap(results)
  {
    statuses := map[];
    for i := 0 to |results|
      invariant statuses == StatusMap(results[..i])
    {
      TakeNext(results, i);
      statuses := statuses[results[i].name := results[i].status];
    }
    assert results[..|results|] == results;
  }

  // ----- Two analyses -----

  /** The claims of a snapshot that the graph holds and that are lost. */
  function LostClaims(t: Topology): seq<Component> {
    Filter(IsLost, BuiltNodes(t))
  }

  /** Scoring loses and invents no lost claim. */
  lemma {:induction false} LostAreKept(nodes: seq<Component>, scored: seq<Component>)
    requires SameComponents(scored, nodes)
    ensures |Filter(IsLost, scored)| == |Filter(IsLost, nodes)|
  {
    if nodes != [] {
      var k := |nodes| - 1;
      assert scored[k].(risk := 0) == nodes[k].(risk := 0);
      SameBucket(scored[k], nodes[k]);
      LostAreKept(nodes[..k], scored[..k]);
    }
  }

  /** Two analyses with the same target, profile and AI score, of clusters of the same size: when the second
      has worse signals, no fewer incompatible add-ons and no fewer lost claims, its total is no higher and
      its decision no milder. The rules, the add-ons and the rest of the graph may all differ. */
  lemma {:induction false} WorseAnalysisIsNeverMilder<V>(sv: Semver<V>, targetVersion: string, profileName: string,
                                                         ai: Option<nat>, snap: Snapshot, snap': Snapshot,
                                                         m: Matrix, m': Matrix, addons: seq<AddonCompatibility>,
                                                         addons': seq<AddonCompatibility>,
                                                         nodes: seq<Component>, nodes': seq<Component>,
                                                         total: int, total': int, d: Decision, d': Decision)
    requires Worse(snap.signals.(addonIssues := 0), snap'.signals.(addonIssues := 0))
    requires |IncompatibleOnes(addons)| <= |IncompatibleOnes(addons')|
    ensures (&& IsAnalysis(sv, snap, targetVersion, m, profileName, ai, addons, nodes, total, d)
             && IsAnalysis(sv, snap', targetVersion, m', profileName, ai, addons', nodes', total', d')
             && |LostClaims(snap.topology)| <= |LostClaims(snap'.topology)|) ==>
              total' <= total && IsNoMilder(d, d')
  {
    hide Judges, StatusMap, FinalTotal, FinalDecision, IncompatibleOnes, BuiltNodes, BuiltEdges, RiskEngine.Scores,
      Filter, IsNoMilder;
    if && IsAnalysis(sv, snap, targetVersion, m, profileName, ai, addons, nodes, total, d)
       && IsAnalysis(sv, snap', targetVersion, m', profileName, ai, addons', nodes', total', d')
       && |LostClaims(snap.topology)| <= |LostClaims(snap'.topology)| {
      LostAreKept(BuiltNodes(snap.topology), nodes);
      LostAreKept(BuiltNodes(snap'.topology), nodes');
      WorseIsNeverMilder(SignalsOf(snap, addons), SignalsOf(snap', addons'), profileName, ai,
                         addons, addons', nodes, nodes');
    }
  }

  // ----- The blast radius is at risk -----

  /** Unique add-on names, as the collector's catalogue has them, make the verdicts by name exact. */
  lemma {:induction false} StatusMapIsExact(results: seq<AddonCompatibility>)
    requires forall i, j :: 0 <= i < j < |results| ==> results[i].name != results[j].name
    ensures forall r :: r in results ==> r.name in StatusMap(results) && StatusMap(results)[r.name] == r.status
  {
    if results != [] {
      var rest, last := results[..|results| - 1], results[|results| - 1];
      assert results == rest + [last];
      StatusMapIsExact(rest);
    }
  }

  /** Whatever the names, a node with an add-on's id is that add-on. */
  lemma {:induction false} AddonNode(t: Topology, name: string, c: Component)
    requires Offered(t, c) && c.id == AddonId(name)
    ensures c.ctype == TypeAddon && c.name == name
  {
    hide Id, Offered;
    OfferedShape(t, c);
    IdStartsWithKind("Addon", "", name);
    IdStartsWithKind(c.kind, IdNamespace(c), c.name);
    SameAddonName(name, c.name);
  }

  lemma {:induction false} SameAddonName(a: string, b: string)
    ensures Id("Addon", "", a) == Id("Addon", "", b) ==> a == b
  {
    assert ("Addon" + "/" + a)[6..] == a && ("Addon" + "/" + b)[6..] == b;
  }

  lemma {:induction false} CriticalAddon(t: Topology, addonStatus: map<string, AddonStatus>, name: string)
    requires name in addonStatus && addonStatus[name] == Incompatible
    ensures AddonId(name) in Ids(BuiltNodes(t)) ==> At(BuiltBase(t, addonStatus), AddonId(name)) == 90
  {
    hide BuiltNodes, BuiltEdges, Offered, AddonId;
    NodesAreOffered(t);
    BuiltIsWellFormed(t);
    BaseMapAt(BuiltNodes(t), addonStatus);
    IdsMember(BuiltNodes(t));
    if c :| c in BuiltNodes(t) && c.id == AddonId(name) {
      AddonNode(t, name, c);
    }
  }

  lemma {:induction false} ReachingEnds(edges: seq<Edge>, a: string, b: string)
    requires Reaches(edges, a, b)
    ensures (exists e :: e in edges && e.from == a) && (exists e :: e in edges && e.to == b)
  {
    var w :| WalkFrom(edges, w, a) && |w| > 1 && w[|w| - 1] == b;
    assert Linked(edges, w[0], w[1]) && Linked(edges, w[|w| - 2], w[|w| - 1]);
  }

  /** Every component in an incompatible add-on's blast radius is a node of the same report with a risk of
      at least 19: breadth-first reachability, the depth of built graphs and risk propagation agree. */
  lemma {:induction false} AffectedAreAtRisk(t: Topology, results: seq<AddonCompatibility>, a: AddonCompatibility,
                                             impact: AddonImpact, d: string)
    requires forall i, j :: 0 <= i < j < |results| ==> results[i].name != results[j].name
    requires a in IncompatibleOnes(results) && d in impact.affected
    ensures IsImpact(BuiltEdges(t), a, impact) ==>
              exists n :: n in ScoredNodes(t, StatusMap(results)) && n.id == d && n.risk >= 19
  {
    hide BuiltNodes, BuiltEdges, BuiltBase, ScoredNodes, IsWorst, IsImpact;
    if IsImpact(BuiltEdges(t), a, impact) {
      ImpactReaches(BuiltEdges(t), a, impact);
      FilterMember(IsIncompatible, results);
      StatusMapIsExact(results);
      ReachingEnds(BuiltEdges(t), d, AddonId(a.name));
      BuiltIsWellFormed(t);
      CriticalAddon(t, StatusMap(results), a.name);
      var n := ScoredNode(t, StatusMap(results), d);
      ScoredIsWorst(t, StatusMap(results));
      BuiltIsAcyclic(t);
      DependentsInherit(BuiltBase(t, StatusMap(results)), BuiltEdges(t), d, n.risk, AddonId(a.name));
    }
  }

  lemma {:induction false} ImpactReaches(edges: seq<Edge>, a: AddonCompatibility, impact: AddonImpact)
    requires IsImpact(edges, a, impact)
    ensures forall d :: d in impact.affected ==> Reaches(edges, d, AddonId(a.name))
  {
  }

  lemma {:induction false} ScoredNode(t: Topology, addonStatus: map<string, AddonStatus>,
                                      id: string) returns (n: Component)
    requires id in Ids(BuiltNodes(t))
    ensures n in ScoredNodes(t, addonStatus) && n.id == id
  {
    hide BuiltNodes, BuiltEdges, RiskEngine.Scores;
    IdsMember(BuiltNodes(t));
    var c :| c in BuiltNodes(t) && c.id == id;
    var i :| 0 <= i < |BuiltNodes(t)| && BuiltNodes(t)[i] == c;
    n := ScoredNodes(t, addonStatus)[i];
  }
}
