# MirOps: a verified model of the mirror, the risk engine and the upgrade decision

MirOps is a Kubernetes operator. It mirrors a cluster as a graph of components and dependencies, scores risk
on that graph, decides whether an upgrade may go ahead, and carries out remediation plans that a user has
approved or that were approved by configuration. This project models those parts and proves what they promise.

**Graph and risk.** `GraphBuilder` projects a snapshot into a graph in two passes. `BuiltGraphs` proves that
the result has unique ids and no dangling edge, that its edges are exactly the dependencies the snapshot
declares, and that every edge goes down one of four layers, so that no dependency walk is longer than three
hops and none is a cycle. `RiskSearch` is the memoised depth-first search with its cycle guard, on values;
`RiskEngine` is the code's search over a shared memo, proved to compute the same, and the write-back onto the
nodes. The specification (`Walks.IsWorst`) mentions no algorithm: a component's risk is the maximum, over all
dependency walks from it, of the base risk at the end, decayed once per hop. `ScoredGraphs.ScoredIsWorst` joins
them: for every snapshot, the search on the built graph yields that maximum, and the cycle guard never answers. On
any graph the search terminates and yields a risk between the base risk and 90 that some walk passes on. On a
cyclic one it can miss the maximum; `Cycles` shows where, and `ScoredGraphs.AtRiskOnAnyGraph` that what it misses
never decides whether a component is at risk. `AtRiskReport`, `NamespaceRisks` and
`Mirror` are the independent passes that list, count and aggregate what is at risk.

**In the snapshot's own fields.** `SnapshotNodes` says which node each entity of a snapshot becomes, field by field.
`SnapshotScores` says what it scores: a component's own trouble by its status, or three fifths of what a direct
dependency carries. `SnapshotDecisions` says which limits and reasons deny an upgrade, what makes it SAFE, and what
the four dimensions of the score are in whole numbers. None of these statements goes through the functions that
compute components, risks, limits, reasons or points, so they hold those to the source's constants and branches.

**Decision.** `Compatibility` evaluates add-ons, `Scoring` computes the readiness score, `Decisions` blends an
AI score in and lets the deterministic blockers have the last word. `Upgrade.Analyze` is the whole pipeline on
one report object. `Reanalysis` is the controller's skip and baseline logic over runs of reconciles whose reads may
be stale, `AICache` the memo of AI answers.

**Remediation.** `RemediationProtocol` is a state machine over the stored versions of one plan, any number of
workers with possibly stale copies, crashes, user edits, deletions and the analysis controller's proposals.
`RemediationTheorems` states what every reachable state satisfies. `RemediationController` holds the two
controllers as methods and proves that what they do, whatever happens between their API calls, is a run of
that machine, so that every state they meet and leave is one the theorems speak of.

`Doubles` models the three expressions `int(float64(x) * c)` in IEEE 754 binary64 arithmetic, so the integer
decay is exact because it is proved to be, and the 70 % share is short by one at exactly one score.

Three conventions: functions that a loop builds up recurse on the last element, as the loop does; a lemma whose
name ends in `Next` is one such step; every lemma turns Dafny's automatic induction off and writes its
inductive step out.

## Results that differ from the code's own documentation

- `RemediationTheorems.ReplacedPlanRunsIffResetLands`: the plan type has a status subresource
  (`api/v1/remediationplan_types.go:138`), so the emptied status that
  `internal/controller/remediationplan_controller.go:234` writes together with the spec is not stored. A finished
  plan that is replaced then stays finished, and unless it is deleted it never runs, approved or not. It runs again exactly
  when the emptied status is stored.
- `RemediationTheorems.PendingPlanOutlivesIffPhaseLands`: for the same reason the pending phase of line 241 is not
  stored. A new plan has no phase, so the next proposal replaces it and withdraws the user's approval and edits,
  although the comment at line 228 says that only a completed or failed plan is replaced.
- `RemediationTheorems.EditOrCrashSticks`, `StuckForever`: an edit of the spec while the actions run, or a crash,
  makes the final write impossible. The plan then reads as running until it is deleted.
- `RemediationPlans.UnrecognisedRiskIsAdmitted`: a risk level outside low, medium and high ranks below all of
  them, so the filter never drops it. (The enumeration on the API type would refuse such a plan as a whole; API
  validation is not part of this model.)
- `Compatibility.UsableIsMissedIff`: the inverse lookup does not check the add-on range it returns. The first rule
  that supports the target decides alone; a usable recommendation is missed exactly when that rule's range does not
  parse and a later supporting rule's does. `UnusableRangeIsRecommended` is an input where that happens.
- `Cycles.CycleIsUnderrated`: the comment at `internal/graph/risk.go:20-22` promises that a component inherits from
  what it depends on. On a cycle, which only another builder could make, the memo keeps what the guard cut short.
  `Cycles.LooplessIsWorst`: no component from which no walk loops is affected, wherever else there are cycles.
  `Cycles.WorstIffSettled`: all scores are right exactly when no edge passes on more than its dependent carries.
  `ScoredGraphs.AtRiskOnAnyGraph`: which components are at risk is right on every graph.
- `Reanalysis.Reconciler.Reconcile`: the skip reads the clock twice
  (`internal/controller/upgradeanalysis_controller.go:107-108`). When the interval ends between the two readings, the
  delay it asks for is not positive.
- `Mirror.NamespacesAre`: a namespace called `cluster-scoped` shares its summary with the cluster nodes
  (`internal/graph/risk.go:113-121`).
- `Reanalysis.StaleReadRunsAgain`: the interval does not keep a reconcile that reads an old version from analysing
  again; it keeps it from storing the result (`Reanalysis.WritesAreSpaced`).
- `Scoring.CompatibilityRunsOut`: the comment at `internal/analysis/score.go:158-164` says that the curve keeps
  grading the tail. In whole points the dimension is 0 from a weight of seven on.
- `Decisions.LastBlendWins`: the last blend replaces the earlier ones except for an earlier reasoning that an
  empty one leaves in place; the lemma has the exact condition.
- `Projection.AbsentLabelMatchesEmpty`: the comment at `internal/graph/build.go:200` asks for every selector entry
  to be present, but an entry with an empty value matches a missing label. `Projection.MatchIsSubsetIff` has the
  exact condition.

## Model

| member | source | states |
|---|---|---|
| Components.IdInjective | internal/graph/component.go:58-64 | ids made of slash-free parts determine kind, namespace and name, an empty namespace included |
| Components.SlashesCollide | internal/graph/component.go:58-64 | without that condition two different components can share an id |
| Components.IdStartsWithKind | internal/graph/component.go:53-64 | whatever namespace and name hold, the kind can be read off an id |
| Components.IdText | internal/graph/component.go:53-64 | an id is kind, namespace and name with slashes between them, the namespace left out when empty |
| Inventory.KindTexts | internal/graph/build.go:17-23 | the seven kind names |
| Projection.FirstPerIdKeepsIds | internal/graph/build.go:60-66 | deduplication keeps exactly the offered ids, each once, and invents no component |
| Projection.FirstPerIdTakesFirst | internal/graph/build.go:60-66 | of several components under one id the first offered is the one kept |
| Projection.MatchIsSubsetIff | internal/graph/build.go:200-208 | a subset of the labels always matches; a match is a subset iff every key asked to be empty is present |
| Projection.AbsentLabelMatchesEmpty | internal/graph/build.go:203 | an absent label matches an empty selector value |
| GraphBuilder.Builder.AddNode | internal/graph/build.go:60-66 | the nodes stay the first component offered under each id, and edges already refused stay rightly refused |
| GraphBuilder.Builder.AddEdge | internal/graph/build.go:68-74 | the edges stay the proposed ones whose ends both exist |
| GraphBuilder.Builder.AddAddons | internal/graph/build.go:78-87 | offers one component per detected add-on, in order, and records the id of every add-on name |
| GraphBuilder.Builder.AddInfra | internal/graph/build.go:89-93 | offers one cluster-scoped component per node, in order |
| GraphBuilder.Builder.AddWorkloads | internal/graph/build.go:95-107 | offers one component per workload, in order, and keeps what the edge pass needs of it, duplicates included |
| GraphBuilder.Builder.AddBarePods | internal/graph/build.go:109-120 | offers one component per standalone pod and proposes no edge |
| GraphBuilder.Builder.AddNetwork | internal/graph/build.go:122-129 | offers the services, then the ingresses |
| GraphBuilder.Builder.AddStorage | internal/graph/build.go:131-145 | offers one component per claim, with a first-consumer claim told apart from a stuck one |
| GraphBuilder.Builder.LinkIngress | internal/graph/build.go:149-161 | proposes the routes of one ingress, and cert-manager exactly when it uses TLS and cert-manager is detected |
| GraphBuilder.Builder.LinkService | internal/graph/build.go:163-175 | proposes one edge per workload of the namespace that the selector matches, none without a selector |
| GraphBuilder.Builder.LinkConfig | internal/graph/build.go:177-183 | offers and links the configuration a workload refers to |
| GraphBuilder.Builder.LinkStorage | internal/graph/build.go:184-186 | proposes the claims of a workload |
| GraphBuilder.Builder.LinkNodes | internal/graph/build.go:187-189 | proposes the nodes a workload runs on |
| GraphBuilder.Builder.LinkIstio | internal/graph/build.go:190-194 | proposes istio exactly when the workload has a sidecar and istio is detected |
| GraphBuilder.Builder.LinkWorkloads | internal/graph/build.go:177-196 | does these four for every recorded workload in order, configuration nodes and edges interleaved |
| GraphBuilder.KeptUnchanged | internal/graph/build.go:12-13 | a node added during the edge pass cannot revive an edge refused before: the interleaved passes equal "all nodes, then all edges" |
| GraphBuilder.BuildFromSnapshot | internal/graph/build.go:14-31 | the nodes are the first component per offered id; the edges are the proposed edges with both ends present, in order |
| BuiltGraphs.BuiltIsWellFormed | internal/graph/build.go:60-74 | for every snapshot ids are unique and no edge dangles |
| BuiltGraphs.NodesAreOffered | internal/graph/build.go:76-145 | every node is a component the snapshot offers, and every offered id has its node |
| SnapshotNodes.AddonIsMirrored | internal/graph/build.go:78-87 | an add-on has exactly one node, without a namespace in its id, with its version and its own namespace |
| SnapshotNodes.NodeIsMirrored | internal/graph/build.go:89-93 | a cluster node has exactly one node, without namespace, with its status |
| SnapshotNodes.WorkloadIsMirrored | internal/graph/build.go:95-107 | a workload has exactly one node, with its kind name, name, namespace and status |
| SnapshotNodes.BarePodIsMirrored | internal/graph/build.go:113-120 | a standalone pod has exactly one node, workload-typed, with its status |
| SnapshotNodes.ServiceIsMirrored | internal/graph/build.go:123-125 | a service has exactly one network node |
| SnapshotNodes.IngressIsMirrored | internal/graph/build.go:126-128 | an ingress has exactly one network node |
| SnapshotNodes.ClaimIsMirrored | internal/graph/build.go:131-145 | a claim has exactly one node, with its phase, a pending one that waits for its first consumer told apart |
| SnapshotNodes.ConfigIsMirrored | internal/graph/build.go:179-181 | what a workload refers to has exactly one node, in the workload's namespace |
| SnapshotNodes.LostNodeIsLostClaim | internal/graph/build.go:131-135 | a lost storage node is a claim that the snapshot reports lost |
| SnapshotNodes.NamesMakeIdsDistinct | internal/graph/component.go:58-64 | slash-free names, one entity per kind, namespace and name, make the ids distinct that these lemmas ask for |
| BuiltGraphs.EdgesAreDependencies | internal/graph/build.go:147-196 | with slash-free names an edge exists iff the snapshot declares that dependency and its end, in both directions, said without looking ids up |
| BuiltGraphs.IdExists | internal/graph/build.go:68-74 | an id is present iff a component of that kind, namespace and name is offered |
| BuiltGraphs.EdgesDescend | internal/graph/build.go:149-196 | every edge strictly lowers the layer of its kind, whatever the names |
| BuiltGraphs.WalksAreShort | internal/graph/build.go:149-196 | a walk of n hops starts at least n layers above its end |
| BuiltGraphs.BuiltIsAcyclic | internal/graph/build.go:25-28 | built graphs are acyclic and no walk has more than three hops |
| Doubles.SixTenthsIsExact | internal/graph/risk.go:51 | the binary64 decay int(float64(x)*0.6) is 3x/5 for every risk 0..100 |
| Walks.WorstIsUnique | internal/graph/risk.go:20-25 | the worst decayed base risk over all walks is one number |
| Walks.BoundsFromDependencies | internal/graph/risk.go:48-54 | bounds for the direct dependencies, decayed, and the base risk bound every walk: the recursive equation meets the walk maximum |
| Walks.WorstIsMonotone | internal/graph/risk.go:20-25 | the worst risk grows with base risks and with edges, and depends on nothing else |
| RiskEngine.BaseMapAt | internal/graph/risk.go:27-30 | with unique ids each component finds its own base risk and any other id reads 0 |
| Walks.WorstSolvesEquation | internal/graph/risk.go:48-54 | on any graph the worst risks solve the recursive equation: the largest of the base risk and the decayed risks of the direct dependencies |
| RiskSearch.TargetsAreLinked | internal/graph/risk.go:32-36 | the adjacency list of an id holds exactly what it depends on |
| RiskSearch.GuardAnswers | internal/graph/risk.go:45-47 | the guard answers only for an id from which a walk loops, and then with a risk some walk realises |
| RiskSearch.PathLoops | internal/graph/risk.go:45-47 | meeting an id again on the search path exhibits a walk from it that loops |
| RiskSearch.AllInherited | internal/graph/risk.go:48-57 | once all dependencies are looked at, the best so far is the risk, and no less than what their base risks pass on |
| RiskSearch.VisitIsRisk | internal/graph/risk.go:38-58 | on any graph every call keeps the memo right and returns a risk between base and 90 realised by a walk, no less than what direct base risks pass on unless the guard answers; where no walk from the id loops, it bounds every walk and the guard never answers |
| RiskSearch.ExploreIsRisk | internal/graph/risk.go:49-54 | the loop over the dependencies keeps that, whatever part of them has been looked at |
| RiskEngine.Adjacency | internal/graph/risk.go:32-36 | the adjacency map lists, per id, the targets in edge order |
| RiskEngine.Search.Compute | internal/graph/risk.go:38-58 | terminates on any graph, restores the visited ids, and leaves exactly the memo and the risk of the search on values, in binary64 arithmetic |
| RiskEngine.ApplyRisk | internal/graph/risk.go:26-65 | changes nothing but risks; each node gets its search risk, in node order with one shared memo; the summaries are those of the scored nodes |
| RiskEngine.ScoredIsRight | internal/graph/risk.go:26-65 | on any graph every scored risk lies between base risk and 90, is realised by a walk and no less than what direct base risks pass on; where no walk from the node loops, it is the maximum over all of them |
| Cycles.CycleIsUnderrated | internal/graph/risk.go:45-56 | on the cycle A-B with A on a lost claim the scores are 54, 0, 90 although the worst walk of B is worth 32 |
| Cycles.LooplessIsWorst | internal/graph/risk.go:38-62 | on any graph a component from which no walk loops carries the maximum over all its walks |
| Cycles.WorstIffSettled | internal/graph/risk.go:38-62 | on any graph whose edges end at components all scores are walk maxima iff no edge passes on more than its dependent carries |
| Cycles.WorstOfB | internal/graph/risk.go:20-25 | 32 is the maximum over all of the infinitely many walks of that graph from B |
| ScoredGraphs.ScoreSnapshot | internal/controller/upgradeanalysis_controller.go:178-179 | building and scoring leave the scored nodes and the edges of the snapshot, and their summaries |
| ScoredGraphs.ScoredIsWorst | internal/graph/risk.go:20-65 | for every snapshot and all verdicts each node carries the maximum decayed base risk over all its dependency walks |
| ScoredGraphs.GuardIsIdle | internal/graph/risk.go:45-47 | no search of a built graph ever reaches the cycle guard |
| SnapshotScores.BaseIsOwn | internal/graph/risk.go:67-107 | base risk by type and status, state by state, in both directions |
| SnapshotScores.ScoresSolveEquation | internal/graph/risk.go:48-57 | for every snapshot each node scores its own trouble or three fifths of a direct dependency's score, whichever is largest |
| SnapshotScores.CalmScore | internal/graph/risk.go:48-57 | a component above no trouble scores exactly its own |
| SnapshotScores.WorkloadScore | internal/graph/risk.go:79-89 | such a workload scores 70 iff Down or Failed, 40 iff Degraded, 10 iff Scaled to zero, else 0 |
| SnapshotScores.BarePodScore | internal/graph/risk.go:79-89 | so does every standalone pod |
| SnapshotScores.NodeScore | internal/graph/risk.go:90-94 | a cluster node scores 60 iff NotReady, else 0 |
| SnapshotScores.ClaimScore | internal/graph/risk.go:95-103 | a claim scores 90 iff Lost, 50 iff Pending and not waiting for its first consumer, else 0 |
| SnapshotScores.AddonScore | internal/graph/risk.go:70-78 | an add-on scores 90, 40 or 0 by its verdict, 0 without one |
| ScoredGraphs.RiskIgnoresOrder | internal/graph/risk.go:38-62 | the scores of two graphs with the same components and edges, in any order and with any repetition, agree on every component from which no walk loops |
| ScoredGraphs.MirrorIsAtMostUpgrade | internal/controller/clustermirror_controller.go:103-106 | a mirror, scored without verdicts, is nowhere above the upgrade scoring of the same snapshot, per component and per namespace |
| ScoredGraphs.SummariesMonotone | internal/graph/risk.go:123-151 | lower risks give lower maxima and counts in the same buckets |
| ScoredGraphs.ClaimRisk | internal/graph/build.go:137-145 | a lost claim is critical, a pending one is at risk unless it waits for its first consumer, any other has no base risk |
| ScoredGraphs.AtRiskIff | internal/graph/atrisk.go:21-38 | on any graph with unique ids, cycles included, a component is at risk iff it is failing itself or depends directly on an incompatible add-on or a lost claim |
| ScoredGraphs.AtRiskOnAnyGraph | internal/graph/risk.go:38-62 | on any graph a node reaches the threshold iff its base risk does or a direct dependency has base risk 90: the guard hides no at-risk component |
| ScoredGraphs.OnlyOneHopOf90 | internal/graph/risk.go:48-54 | an inherited risk is at most 54, and at least 50 only as 90 over one hop |
| ScoredGraphs.InheritedFromIsCritical | internal/graph/atrisk.go:35-49 | on any graph with unique non-empty ids, cycles included: an at-risk component with an InheritedFrom has risk 54 and it names a direct dependency of base risk 90 |
| ScoredGraphs.InheritedFromNamesTheCause | internal/graph/atrisk.go:14-16 | on a built graph that dependency is an incompatible add-on or a lost claim; without verdicts only a lost claim |
| ScoredGraphs.DependentsInherit | internal/graph/risk.go:20-22 | where no walk exceeds three hops, everything that depends on a component of base risk 90 has risk at least 19 |
| AtRiskReport.ReverseEdges | internal/graph/atrisk.go:64-71 | the reverse map lists, per id, the sources in edge order |
| AtRiskReport.SourcesAreLinked | internal/graph/atrisk.go:64-71 | these are exactly the direct dependents |
| AtRiskReport.DependentsOf | internal/graph/atrisk.go:73-92 | on any graph: terminates and returns, strictly sorted, exactly the ids that reach the start by one or more edges, without the start |
| AtRiskReport.ClosedHoldsAll | internal/graph/atrisk.go:73-92 | a set closed under direct dependents holds every transitive one |
| AtRiskReport.Riskiest | internal/graph/atrisk.go:94-103 | the highest risk, ties to the smallest id, as long as no id is the empty string |
| AtRiskReport.AtRisk | internal/graph/atrisk.go:24-57 | one entry per node at or above the threshold, highest first and by id, with its exact dependents and its riskiest direct dependency exactly where its own base risk is lower |
| AtRiskReport.ListMembers | internal/graph/atrisk.go:36-55 | the list has an entry for each node at 50 or above and for no other, ordered by falling risk and then by id |
| SnapshotScores.FailingIsListed | internal/graph/atrisk.go:36-48 | every workload and pod that is Down or Failed, every node NotReady and every claim lost or stuck is listed with its fields and status |
| Ordering.BelowIsLexicographic | internal/graph/atrisk.go:50-55 | the order of ids is the one of dictionaries |
| NamespaceRisks.AggregateByNamespace | internal/graph/risk.go:123-151 | one summary per bucket in order of first component: maximum, count and at-risk count of its components |
| NamespaceRisks.CountInto | internal/graph/risk.go:137-143 | counting a component through the shared accumulator updates its bucket's summary |
| NamespaceRisks.SummaryNext | internal/graph/risk.go:129-144 | one more component changes the summary of its own bucket only |
| Mirror.BuildMirrorReport | internal/analysis/mirror_report.go:87-113 | the summary counters, the at-risk list without verdicts and the add-on inventory |
| Mirror.SummariesConserve | internal/graph/risk.go:123-151 | the buckets' components add up to the node count and their at-risk counts to the number of nodes at or above the threshold |
| Mirror.BucketsAreDistinct | internal/graph/risk.go:129-136 | buckets are listed once, all of them and no other |
| Mirror.MaxIsExact | internal/graph/risk.go:138-140 | a bucket's risk bounds its components and is the risk of one of them |
| Mirror.MaxReachesThreshold | internal/graph/risk.go:138-143 | the maximum reaches the threshold iff the at-risk count is positive |
| Mirror.AffectedReachThreshold | internal/analysis/mirror_report.go:89-94 | the namespaces counted as at risk are those whose maximum reaches the threshold |
| Mirror.NamespacesAre | internal/graph/risk.go:109-151 | one summary for each namespace name some component belongs to, with exactly its components, its at-risk components and its highest risk |
| Mirror.PublishMirror | internal/controller/clustermirror_controller.go:103-126 | for every snapshot the separately counted numbers of a mirror agree, the summaries are those of its namespaces by name, the add-ons are inventoried field by field, and every failing entity is listed |
| Compatibility.RequiredAddonVersion | internal/compat/evaluate.go:92-101 | the add-on range of the first rule that supports the target |
| Compatibility.EvaluateAddon | internal/compat/evaluate.go:31-90 | the early returns and two rule loops compute a status defined on the set of rules, and recommend exactly for incompatible add-ons |
| Compatibility.Evaluate | internal/compat/evaluate.go:16-29 | one verdict per add-on in order: unknown iff version, target or a rule about the version is missing, compatible iff such a rule supports the target, incompatible iff none does; and the exact number of incompatible ones |
| Compatibility.VerdictIs | internal/compat/evaluate.go:31-90 | what the verdicts mean in parsed versions and ranges, each way round |
| Compatibility.StatusIgnoresRuleOrder | internal/compat/evaluate.go:49-76 | the status depends on the set of rules only |
| Compatibility.RecommendationIsSound | internal/compat/evaluate.go:78-81 | an incompatible version is not in the recommended range, and every version in it is compatible with the same target |
| Compatibility.RecommendedComesFromARule | internal/compat/evaluate.go:94-101 | a recommendation is the range of a rule that supports the target |
| Compatibility.NoRecommendation | internal/compat/evaluate.go:94-101 | exactly when a recommendation is missing |
| Compatibility.FirstSupportingIsRecommended | internal/compat/evaluate.go:94-101 | the recommendation is the add-on range of the first rule whose Kubernetes range holds the target |
| Compatibility.UsableIsMissedIff | internal/compat/evaluate.go:94-101 | it parses iff that range does, and a usable one is missed iff that range does not parse and a later supporting one does |
| Compatibility.MissingNeedsSupport | internal/compat/evaluate.go:94-101 | whenever a usable recommendation is missed there is such a first supporting rule |
| Compatibility.UnusableRangeIsRecommended | internal/compat/evaluate.go:94-101 | an input on which a usable recommendation is missed |
| Scoring.TotalFalls | internal/analysis/score.go:122-169 | a cluster of the same size that is worse in any signal and better in none never has a higher base total |
| Scoring.MetricsWorsen | internal/analysis/score.go:81-102 | worse signals make every metric worse |
| Scoring.ConditionsWorsen | internal/analysis/score.go:104-113 | worse signals keep every condition that held |
| Scoring.HealthFalls | internal/analysis/score.go:122-127 | worse pod ratios never raise health |
| Scoring.CapacityFalls | internal/analysis/score.go:129-135 | higher pressure never raises capacity |
| Scoring.StabilityFalls | internal/analysis/score.go:149-156 | more crash loops, restarts or lost pods never raise stability |
| Scoring.StabilityFitsItsBudget | internal/analysis/score.go:137-156 | the three capped penalties never leave the 20-point budget, so the final clamp changes nothing |
| Scoring.CompatibilityFalls | internal/analysis/score.go:165-169 | more issues never raise compatibility |
| Scoring.CompatPowerFalls | internal/analysis/score.go:167 | the decay is positive and falls with the number of issues |
| Scoring.CompatibilityGrades | internal/analysis/score.go:158-169 | the full 25 points iff there is no issue, and a penalty below the budget always |
| Scoring.CompatibilityRunsOut | internal/analysis/score.go:158-169 | 0 points iff the weighted issues reach seven |
| Scoring.BaseTotal | internal/analysis/score.go:37-41 | the base total stays within 100 |
| Doubles.ThreeTenthsIsExact | internal/analysis/score.go:449 | int(float64(x)*0.3) is 3x/10 on 0..100 |
| Doubles.SevenTenthsIsShortOnlyAt90 | internal/analysis/score.go:448 | int(float64(x)*0.7) is 7x/10 on 0..100 except 62 at 90 |
| Decisions.Calculate | internal/analysis/score.go:32-79 | the base report: metrics, conditions, scores and the verdict of the snapshot alone |
| Decisions.ApplyAIScore | internal/analysis/score.go:440-467 | the scores become the blend made from the untouched base score, the verdict is taken again, an empty reasoning changes nothing |
| Decisions.BlendKeepsTotal | internal/analysis/score.go:447-460 | the total is the sum of its contributions, within 0..100, and less than two points below the exact 70/30 value |
| Decisions.LastBlendWins | internal/analysis/score.go:446-467 | two applications equal the last one iff it has a reasoning or the first left the reasoning alone |
| Decisions.CollectBlockers | internal/analysis/score.go:490-534 | the blockers, in order: true conditions, incompatible add-ons, lost claims of the graph |
| Decisions.ApplyGraphDecision | internal/analysis/score.go:480-487 | any blocker makes the decision CRITICAL and denied; none leaves it |
| Decisions.AllowedIffNoBlockers | internal/analysis/score.go:469-487 | after the pipeline: allowed iff no blockers iff not CRITICAL |
| Decisions.AIDoesNotDecide | internal/controller/upgradeanalysis_controller.go:227-230 | allowed, blockers and CRITICAL are the same with AI skipped or applied with any score |
| Decisions.WorseIsNeverMilder | internal/analysis/score.go:178-189 | worsening any signal, with no fewer incompatible add-ons and lost claims, never raises the final total, never makes the level milder, never loses a blocker |
| Decisions.LenientIsNeverMoreSevere | internal/analysis/profile.go:21-43 | the non-production profile is never more severe on the same snapshot and AI score |
| Decisions.BlockersAreCounted | internal/analysis/score.go:490-534 | the blockers number the true conditions, the incompatible add-ons and the lost claims; the add-on entries are exactly the incompatible ones |
| Decisions.FinalTotalFalls | internal/analysis/score.go:447-460 | the blended total falls with the base total |
| SnapshotDecisions.ConditionsAre | internal/analysis/score.go:104-113 | the conditions by their limits: nine tenths of a capacity, 5 and 30 % of the pods not ready, or 15 and 60 % outside production |
| SnapshotDecisions.ReasonsAre | internal/analysis/score.go:490-534 | a blocker is given exactly when its reason holds in signals, verdicts and nodes, and carries their values |
| SnapshotDecisions.ReasonsAreOrdered | internal/analysis/score.go:490-534 | the blockers come in order: drain, CPU, memory and pods at most once each, then add-ons, then claims |
| SnapshotDecisions.VerdictIs | internal/analysis/score.go:171-189 | the verdict taken before the last layer denies iff a condition of the snapshot will be among the blockers, in the snapshot's fields |
| SnapshotDecisions.LostClaimsBlock | internal/analysis/score.go:526-532 | a lost-claim blocker is given exactly for the claims that the snapshot reports lost |
| SnapshotDecisions.AllowedWhen | internal/analysis/score.go:469-487 | an upgrade is allowed iff none of the six reasons holds, each in the snapshot's fields |
| SnapshotDecisions.LevelIs | internal/analysis/score.go:178-189 | CRITICAL iff denied, SAFE iff allowed, stable and at 90 or above, or 85 outside production, else WARNING |
| SnapshotDecisions.HealthIs | internal/analysis/score.go:122-127 | health in whole numbers: 15 points for the share of pods not ready and 10 for the share restarting |
| SnapshotDecisions.CapacityIs | internal/analysis/score.go:129-135 | capacity is 30 less 15 for each requested share, rounded down |
| SnapshotDecisions.StabilityIs | internal/analysis/score.go:149-156 | stability in whole numbers: at most 10 points for restarting pods, 6 for new restarts, 4 for lost pods |
| SnapshotDecisions.CompatibilityIs | internal/analysis/score.go:165-169 | compatibility by weight: 25, 15, 9, 5, 3, 1, 1 and then 0 |
| SnapshotDecisions.FinalScoresAre | internal/analysis/score.go:446-467 | the scores of a report: four dimensions, their sum, weights, contributions and total |
| SnapshotDecisions.DecisionIs | internal/controller/upgradeanalysis_controller.go:166-230 | gate, level and blockers of the whole pipeline in the fields of the snapshot |
| Upgrade.UpgradeImpact | internal/controller/upgradeanalysis_controller.go:294-310 | one entry per incompatible add-on, in order, with its exact transitive dependents |
| Upgrade.Analyze | internal/controller/upgradeanalysis_controller.go:156-230 | the pipeline on one report: one count of incompatible add-ons in evaluation, score, impact and blockers; the scored built graph; scores and decision in the fields of the snapshot |
| Upgrade.WorseAnalysisIsNeverMilder | internal/controller/upgradeanalysis_controller.go:156-230 | of two whole analyses the one with worse signals, no fewer incompatible add-ons and no fewer lost claims never has a higher total or a milder decision, whatever else differs in rules, add-ons and graph |
| Upgrade.StatusMapIsExact | internal/controller/upgradeanalysis_controller.go:174-177 | with unique names the status map gives every add-on its own verdict |
| Upgrade.AddonNode | internal/graph/component.go:53-56 | whatever the names, a node with an add-on's id is that add-on |
| Upgrade.CriticalAddon | internal/graph/risk.go:70-73 | an incompatible add-on of the graph has base risk 90 |
| Upgrade.AffectedAreAtRisk | internal/controller/upgradeanalysis_controller.go:296-310 | with unique add-on names every affected component of an incompatible add-on is a node of the same report with risk at least 19 |
| Reanalysis.Reconciler.Reconcile | internal/controller/upgradeanalysis_controller.go:99-154 | one reconcile from a possibly old version: skipped iff that version has a run of the same generation and refresh whose interval is not over, with a positive delay iff the second clock reading is inside too; rejected iff the target is not above the current version, by major and minor; otherwise it analyses with the read baseline and stores the new one, iff it read the newest version |
| Reanalysis.DeltasTelescope | internal/controller/upgradeanalysis_controller.go:126-127 | over any run, however old its reads, the committed restart deltas add up to the change of the stored total |
| Reanalysis.DeltasReachCurrentTotal | internal/controller/upgradeanalysis_controller.go:271-286 | from a fresh object they add up to the restarts the last committed analysis saw |
| Reanalysis.OnlyCommitsMoveTheBaseline | internal/controller/upgradeanalysis_controller.go:278-281 | skips, rejections and lost writes leave baseline, generation and refresh of the last commit |
| Reanalysis.DecisionsAreOnUpgrades | internal/controller/upgradeanalysis_controller.go:140-154 | over any run every stored decision came from a visit whose target was above the version the cluster ran: no downgrade is committed |
| Reanalysis.AnalysesAreSpaced | internal/controller/upgradeanalysis_controller.go:99-111 | after a commit a visit with the same spec and refresh that reads the newest version runs no sooner than its interval, whatever was rejected or failed between |
| Reanalysis.WritesAreSpaced | internal/controller/upgradeanalysis_controller.go:99-111 | however old the reads, nothing more is stored inside the interval, and a visit that runs there has read an old version |
| Reanalysis.StaleReadRunsAgain | internal/controller/upgradeanalysis_controller.go:87-111 | right after a first commit a visit one version behind analyses again and cannot store the result |
| Reanalysis.TimeSinceCommit | internal/controller/upgradeanalysis_controller.go:149-154 | the recorded time never falls behind the last commit |
| Reanalysis.RejectedGenerationRunsAgain | internal/controller/upgradeanalysis_controller.go:136-154 | a generation that was only rejected is not taken as observed: no later visit of it is skipped, whatever version it reads |
| RemediationPlans.ActionIdsDiffer | internal/controller/remediationplan_controller.go:199 | ids of different positions differ |
| RemediationPlans.DecimalRoundTrip | internal/controller/remediationplan_controller.go:199 | the decimal form of a number reads back as that number |
| RemediationPlans.AdmittedInOrder | internal/controller/remediationplan_controller.go:192-197 | the admitted positions are increasing and are exactly those within the maximum |
| RemediationPlans.PlanActions | internal/controller/remediationplan_controller.go:185-207 | the plan is the proposal's actions let through by level name, in order, each with its own fields and the id of its position, none skipped |
| RemediationPlans.RanksAreLevels | internal/controller/remediationplan_controller.go:247-255 | an action is within the maximum iff high only under high, medium only under medium or high, low under any level |
| RemediationPlans.DefaultPlansLowOnly | internal/controller/remediationplan_controller.go:186-189 | under an unset maximum every planned action is low or of no recognised level |
| RemediationPlans.PlanActionsAreFiltered | internal/controller/remediationplan_controller.go:191-207 | a plan has distinct ids, skips nothing and leaves out exactly the actions ranked above the maximum |
| RemediationPlans.UnrecognisedRiskIsAdmitted | internal/controller/remediationplan_controller.go:247-255 | wherever an action with an unrecognised level stands in a proposal it is planned, under every maximum |
| RemediationProtocol.ClaimKeeps | internal/controller/remediationplan_controller.go:41-58 | a claim, landing or not, keeps the invariant |
| RemediationProtocol.ActKeeps | internal/controller/remediationplan_controller.go:63-79 | dealing with one action, skipped or run, keeps the invariant |
| RemediationProtocol.FinishKeeps | internal/controller/remediationplan_controller.go:81-92 | a finish, landing or not, keeps the invariant |
| RemediationProtocol.ProposeKeeps | internal/controller/remediationplan_controller.go:225-244 | creation or replacement from any read, status stored or not, keeps the invariant |
| RemediationProtocol.OtherWriteKeeps | api/v1/remediationplan_types.go:136-138 | edits, deletions and resets keep the invariant |
| RemediationProtocol.StepKeeps | internal/controller/remediationplan_controller.go:33-96 | every step of anyone keeps the invariant |
| RemediationProtocol.RunKeeps | internal/controller/remediationplan_controller.go:33-96 | so does every run |
| RemediationTheorems.OneClaimPerReset | internal/controller/remediationplan_controller.go:41-58 | in every reachable state two successful claims have a deletion or a stored reset between them |
| RemediationTheorems.AtMostOneClaim | internal/controller/remediationplan_controller.go:41-58 | where spec writes do not store the status, a plan that is never deleted is claimed at most once |
| RemediationTheorems.OnlyApprovedActionsRun | internal/controller/remediationplan_controller.go:63-69 | every executed action is a non-skipped action of the exact spec that was approved when the phase became running, at most once per claim |
| RemediationTheorems.FinishedRanEverythingOnce | internal/controller/remediationplan_controller.go:60-92 | a finished plan has one result per action in order, skipped exactly where asked, each other action run once with that outcome, completed iff none failed |
| RemediationTheorems.OnlyEditsApprove | internal/controller/remediationplan_controller.go:228-237 | over any run without edits and deletions an approved plan has the very spec it had before: no proposal slips in under an approval |
| RemediationTheorems.PendingPlanOutlivesIffPhaseLands | internal/controller/remediationplan_controller.go:228-241 | an edited new plan outlives the next proposal iff its pending phase was stored |
| RemediationTheorems.ReplacedPlanRunsIffResetLands | internal/controller/remediationplan_controller.go:229-235 | a replaced plan can be claimed again iff its emptied status was stored; otherwise never, in any run without deletion |
| RemediationTheorems.FinishedStays | internal/controller/remediationplan_controller.go:45-49 | where spec writes do not store the status, a finished plan keeps its status and is never claimed again |
| RemediationTheorems.FinishLandsIffUntouched | internal/controller/remediationplan_controller.go:81-92 | the results are stored iff nobody wrote the plan since the claim |
| RemediationTheorems.EditOrCrashSticks | internal/controller/remediationplan_controller.go:56-92 | one edit of the spec or a crash during execution leaves a running plan that nobody can finish |
| RemediationTheorems.StuckForever | internal/controller/remediationplan_controller.go:45-49 | no later run without a deletion changes the status of such a plan |
| RemediationTheorems.StuckIsReachable | internal/controller/remediationplan_controller.go:33-96 | that state is reached by propose, approve, read, claim and one more edit |
| RemediationController.Cluster.Reconcile | internal/controller/remediationplan_controller.go:33-96 | one reconcile, whatever others do between its API calls, is a protocol run with the exact trace of its outcome: not runnable iff the plan read is unapproved, running or finished, conflict iff a runnable one was written since, lost iff it was written after the claim; from a reachable state to a reachable one |
| RemediationController.Cluster.Execute | internal/controller/remediationplan_controller.go:60-79 | the action loop is one act per action, and its all-succeeded flag says that no result failed |
| RemediationController.Cluster.Get | internal/controller/remediationplan_controller.go:36-39 | a possibly stale read: any version the object ever had |
| RemediationController.Cluster.CreateRemediationPlan | internal/controller/remediationplan_controller.go:182-245 | nothing is written without admitted actions; otherwise, after the steps of others, the exact new version: created with the configured approval if none was read and none is there, replaced unapproved if read without phase or finished and not written since, else unchanged |
| AICache.KeyIsInjective | internal/controller/ai_scorer.go:88-93 | the cache key determines provider, model, token limit and prompt |
| AICache.Scorer.Get | internal/controller/ai_scorer.go:50-57 | the stored entry exactly when its hash matches |
| AICache.Scorer.Put | internal/controller/ai_scorer.go:59-66 | replaces the entry of one analysis and no other |
| AICache.Scorer.ScoreWithAI | internal/controller/ai_scorer.go:72-116 | an answer, cached or not, was given to this very request and lies in 0..100; the provider is asked iff nothing fits, and its reply counts iff it decodes into that range; failures change nothing |

## Left out

- The collector: the snapshot is an input. Its documented kinds are datatypes. Slash-free names and unique add-on
  names are assumed only in the lemmas that say so.
- Floating point other than `int(float64(x) * c)`: ratios, pressures and powers of 0.6 are exact rationals.
- `Compatibility.EvaluateAddon`: version and range parsing, the normalisation loop of `parseSemver` included, are
  parameters; the notes are not modelled.
- Loading and cloning the compatibility matrix.
- The wording of blockers, issues, reasons and notes: a blocker is a datatype value with what its message shows.
- `Decisions.Calculate`: issues, reason and workload tables other than the disruption budgets are not modelled.
- `Mirror.BuildMirrorReport`: the pod metrics, workload tables and issues of the report are not modelled.
- `Reanalysis.Reconciler.Reconcile`: versions are given as major and minor numbers, the level is a parameter
  (`Upgrade.Analyze` computes it), and the object is found. Two reconciles of one object do not overlap, as the
  controller runtime arranges. Times are stored exactly, where the API keeps whole seconds.
- `Upgrade.Analyze`: a failed AI call is the absence of an answer; plan creation is
  `RemediationController.Cluster.CreateRemediationPlan`; report export and the other status fields are not modelled.
- `RemediationController.Cluster.CreateRemediationPlan`: the API server's validation of risk levels and action types
  is not modelled.
- `RemediationController.Cluster.Execute`: what an action does to the cluster; its outcome is a parameter, and
  timestamps and error texts are not kept.
- `AICache.Scorer.ScoreWithAI`: the provider call, the decoding of its reply, prompt text and error
  classification are parameters; the hash is assumed injective; the mutex is not modelled because each cache
  operation is one step.
- `AtRiskReport.Riskiest`: says nothing of which id wins when an id is the empty string, which no built graph has.
- `RiskEngine.ApplyRisk`: for a component from which a walk loops the result is that of the search on values; the exact
  condition for walk maxima there, `Cycles.WorstIffSettled`, is read off the scores and not off the graph alone.
- Stable sorting by the Go library is a stable insertion sort on values.
- Liveness: nothing says that a worker eventually reads or finishes.
- Integer width: counters are unbounded.
- Exporters, the report server, custom resource installation, the `main` packages and generated code.
