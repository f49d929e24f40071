/** What scoring does to a built graph: the theorems that join building, propagation and reporting. */
module ScoredGraphs {
  import opened Components
  import opened Inventory
  import opened Projection
  import opened BuiltGraphs
  import opened Walks
  import opened NamespaceRisks
  import opened RiskSearch
  import opened RiskEngine
  import opened AtRiskReport
  import opened GraphBuilder

  /** The base risks of a snapshot. */
  function BuiltBase(t: Topology, addonStatus: map<string, AddonStatus>): map<string, nat> {
    BaseMap(BuiltNodes(t), addonStatus)
  }

  /** The nodes of a snapshot's graph after scoring. */
  ghost function ScoredNodes(t: Topology, addonStatus: map<string, AddonStatus>): seq<Component> {
    Scored(BuiltNodes(t), BuiltEdges(t), addonStatus)
  }

  /** Builds the graph of a snapshot and scores it. */
  method ScoreSnapshot(t: Topology, addonStatus: map<string, AddonStatus>)
    returns (g: Graph, summaries: seq<NamespaceRisk>)
    ensures fresh(g)
    ensures g.nodes == ScoredNodes(t, addonStatus) && g.edges == BuiltEdges(t)
    ensures summaries == Summaries(g.nodes)
  {
    hide BuiltNodes, BuiltEdges, Scored, Summaries;
    g := BuildFromSnapshot(t);
    summaries := ApplyRisk(g, addonStatus);
  }

  /** For every snapshot and all verdicts, each node carries the worst decayed base risk over all
      dependency walks from it: on a built graph the memoised search with its guard meets the
      specification that has neither. */
  lemma {:induction false} ScoredIsWorst(t: Topology, addonStatus: map<string, AddonStatus>)
    ensures forall n :: n in ScoredNodes(t, addonStatus) ==>
              IsWorst(BuiltBase(t, addonStatus), BuiltEdges(t), n.id, n.risk)
  {
    hide BuiltNodes, BuiltEdges, Scored, IsRisk, IsWorst, Acyclic, BaseMap;
    BuiltIsAcyclic(t);
    ScoredIsRight(BuiltNodes(t), BuiltEdges(t), addonStatus);
    forall n | n in ScoredNodes(t, addonStatus)
      ensures IsWorst(BuiltBase(t, addonStatus), BuiltEdges(t), n.id, n.risk) {
      AcyclicRiskIsWorst(BuiltBase(t, addonStatus), BuiltEdges(t), n.id, n.risk);
    }
  }

  /** The cycle guard never answers a search of a built graph, whatever right answers are memoised. */
  lemma {:induction false} GuardIsIdle(t: Topology, addonStatus: map<string, AddonStatus>, eff: map<string, nat>,
                                       id: string)
    requires MemoIsRisk(BuiltBase(t, addonStatus), BuiltEdges(t), eff)
    ensures var ids := Searched(BuiltNodes(t), BuiltEdges(t)) + {id};
            Holds(ids, BuiltEdges(t)) && !Visit(BuiltBase(t, addonStatus), BuiltEdges(t), ids, eff, {}, id).guarded
  {
    hide BuiltNodes, BuiltEdges, BuiltBase, Visit, IsRisk, Hears, OnPath, Acyclic, Loopless;
    AreSearched(BuiltNodes(t), BuiltEdges(t));
    BuiltIsAcyclic(t);
    AcyclicIsLoopless(BuiltEdges(t), id);
    OnPathAlone(BuiltEdges(t), id);
    VisitIsRisk(BuiltBase(t, addonStatus), BuiltEdges(t), Searched(BuiltNodes(t), BuiltEdges(t)) + {id}, eff, {}, id,
                [id]);
  }

  lemma {:induction false} AcyclicRiskIsWorst(base: map<string, nat>, edges: seq<Edge>, id: string, r: nat)
    requires Acyclic(edges) && IsRisk(base, edges, id, r)
    ensures IsWorst(base, edges, id, r)
  {
    AcyclicIsLoopless(edges, id);
  }

  // ----- Independence of order, monotonicity -----

  /** Two graphs with the same components and the same edges, in any order and however often an edge is
      repeated, give a component the same score if no walk from it loops. */
  lemma {:induction false} RiskIgnoresOrder(nodes: seq<Component>, edges: seq<Edge>,
                                            nodes': seq<Component>, edges': seq<Edge>,
                                            addonStatus: map<string, AddonStatus>)
    requires UniqueIds(nodes) && UniqueIds(nodes')
    requires forall c :: c in nodes <==> c in nodes'
    requires forall e :: e in edges <==> e in edges'
    ensures forall n, n' :: (n in Scored(nodes, edges, addonStatus) && n' in Scored(nodes', edges', addonStatus)
                             && n.id == n'.id && Loopless(edges, n.id)) ==> n.risk == n'.risk
  {
    hide BaseRisk, BaseMap, Scored, Loopless;
    var base, base' := BaseMap(nodes, addonStatus), BaseMap(nodes', addonStatus);
    BaseMapAt(nodes, addonStatus);
    BaseMapAt(nodes', addonStatus);
    IdsMember(nodes);
    IdsMember(nodes');
    assert forall a :: At(base, a) == At(base', a);
    ScoredIsRight(nodes, edges, addonStatus);
    ScoredIsRight(nodes', edges', addonStatus);
    SameLinks(edges, edges');
    hide Hears, Bounds, Realised, Linked;
    forall n, n' | n in Scored(nodes, edges, addonStatus) && n' in Scored(nodes', edges', addonStatus)
                   && n.id == n'.id && Loopless(edges, n.id)
      ensures n.risk == n'.risk {
      WorstIsMonotone(base, edges, base', edges', n.id, n.risk, n'.risk);
      WorstIsMonotone(base', edges', base, edges, n.id, n'.risk, n.risk);
    }
  }

  lemma {:induction false} SameLinks(edges: seq<Edge>, edges': seq<Edge>)
    requires forall e :: e in edges <==> e in edges'
    ensures forall a, b :: Linked(edges, a, b) <==> Linked(edges', a, b)
    ensures forall id :: Loopless(edges, id) <==> Loopless(edges', id)
  {
    assert forall a, b :: Linked(edges, a, b) <==> Linked(edges', a, b);
    forall w ensures IsWalk(edges, w) <==> IsWalk(edges', w) {
    }
  }

  lemma {:induction false} BaseMapMonotone(nodes: seq<Component>, addonStatus: map<string, AddonStatus>)
    ensures forall id :: At(BaseMap(nodes, map[]), id) <= At(BaseMap(nodes, addonStatus), id)
  {
    if nodes != [] {
      var rest, last := nodes[..|nodes| - 1], nodes[|nodes| - 1];
      BaseMapMonotone(rest, addonStatus);
      forall id ensures At(BaseMap(nodes, map[]), id) <= At(BaseMap(nodes, addonStatus), id) {
        assert At(BaseMap(rest, map[]), id) <= At(BaseMap(rest, addonStatus), id);
      }
    }
  }

  /** A mirror, scored without add-on verdicts, is nowhere above the upgrade analysis of the same
      snapshot: not in a component, not in a namespace. */
  lemma {:induction false} MirrorIsAtMostUpgrade(t: Topology, addonStatus: map<string, AddonStatus>)
    ensures var mirror, upgrade := ScoredNodes(t, map[]), ScoredNodes(t, addonStatus);
            && |mirror| == |upgrade|
            && (forall i :: 0 <= i < |mirror| ==> mirror[i].id == upgrade[i].id && mirror[i].risk <= upgrade[i].risk)
            && Buckets(mirror) == Buckets(upgrade)
            && forall ns :: AtMostSummary(Summary(mirror, ns), Summary(upgrade, ns))
  {
    hide BaseMap, BuiltNodes, BuiltEdges, Scores, Summary, Buckets, IsWorst;
    var mirror, upgrade := ScoredNodes(t, map[]), ScoredNodes(t, addonStatus);
    BaseMapMonotone(BuiltNodes(t), addonStatus);
    ScoredIsWorst(t, map[]);
    ScoredIsWorst(t, addonStatus);
    forall i | 0 <= i < |mirror|
      ensures mirror[i].(risk := 0) == upgrade[i].(risk := 0) && mirror[i].risk <= upgrade[i].risk {
      assert mirror[i].(risk := 0) == BuiltNodes(t)[i].(risk := 0) == upgrade[i].(risk := 0);
      SameBucket(mirror[i], upgrade[i]);
      WorstIsMonotone(BuiltBase(t, map[]), BuiltEdges(t), BuiltBase(t, addonStatus), BuiltEdges(t),
                      mirror[i].id, mirror[i].risk, upgrade[i].risk);
    }
    SummariesMonotone(mirror, upgrade);
  }

  predicate AtMostSummary(a: NamespaceRisk, b: NamespaceRisk) {
    a.risk <= b.risk && a.components == b.components && a.atRisk <= b.atRisk
  }

  lemma {:induction false} SummariesMonotone(low: seq<Component>, high: seq<Component>)
    requires |low| == |high|
    requires forall i :: 0 <= i < |low| ==> low[i].(risk := 0) == high[i].(risk := 0) && low[i].risk <= high[i].risk
    ensures Buckets(low) == Buckets(high)
    ensures forall ns :: AtMostSummary(Summary(low, ns), Summary(high, ns))
  {
    hide Buckets, Summary;
    if low == [] {
      assert low == high;
    } else {
      var k := |low| - 1;
      SummariesMonotone(low[..k], high[..k]);
      SummaryNext(low, k);
      SummaryNext(high, k);
      assert low[..k + 1] == low && high[..k + 1] == high;
      SameBucket(low[k], high[k]);
      forall ns ensures AtMostSummary(Summary(low, ns), Summary(high, ns)) {
        assert AtMostSummary(Summary(low[..k], ns), Summary(high[..k], ns));
        assert Summary(low[..k + 1], ns) == Summary(low, ns) && Summary(high[..k + 1], ns) == Summary(high, ns);
      }
    }
  }

  lemma {:induction false} SameBucket(c: Component, c': Component)
    requires c.(risk := 0) == c'.(risk := 0)
    ensures NamespaceBucket(c) == NamespaceBucket(c')
    ensures c.id == c'.id && c.ctype == c'.ctype && c.name == c'.name && c.status == c'.status
  {
  }

  // ----- Blast radius -----

  lemma {:induction false} DecayIn3()
    ensures DecayBy(90, 0) == 90 && DecayBy(90, 1) == 54 && DecayBy(90, 2) == 32 && DecayBy(90, 3) == 19
  {
    assert DecayBy(90, 1) == Decay(DecayBy(90, 0));
    assert DecayBy(90, 2) == Decay(DecayBy(90, 1));
    assert DecayBy(90, 3) == Decay(DecayBy(90, 2));
  }

  /** Where no walk is longer than three hops, at least 19 of a base risk of 90 reaches every component that
      depends on it. */
  lemma {:induction false} DependentsInherit(base: map<string, nat>, edges: seq<Edge>, id: string, r: nat,
                                             source: string)
    requires forall w :: IsWalk(edges, w) ==> |w| <= 4
    requires IsWorst(base, edges, id, r)
    requires Reaches(edges, id, source) && At(base, source) == 90
    ensures r >= 19
  {
    hide DecayBy, Linked;
    var w :| WalkFrom(edges, w, id) && |w| > 1 && w[|w| - 1] == source;
    DecayIn3();
    assert Inherited(base, w) <= r;
  }

  // ----- Where an inherited risk comes from -----

  /** Decay leaves at most 54 of any base risk, and at least 50 only of 90 over a single hop. */
  lemma {:induction false} OnlyOneHopOf90(x: nat, hops: nat)
    requires x in {0, 10, 40, 50, 60, 70, 90} && hops >= 1
    ensures DecayBy(x, hops) <= 54
    ensures DecayBy(x, hops) >= 50 ==> x == 90 && hops == 1 && DecayBy(x, hops) == 54
  {
    if hops > 1 {
      OnlyOneHopOf90(x, hops - 1);
    } else {
      assert DecayBy(x, 1) == Decay(DecayBy(x, 0));
    }
  }

  lemma {:induction false} RiskMapAt(nodes: seq<Component>)
    requires UniqueIds(nodes)
    ensures forall c :: c in nodes ==> At(RiskMap(nodes), c.id) == c.risk
    ensures forall id :: id !in Ids(nodes) ==> At(RiskMap(nodes), id) == 0
  {
    if nodes != [] {
      var rest, last := nodes[..|nodes| - 1], nodes[|nodes| - 1];
      assert nodes == rest + [last];
      RiskMapAt(rest);
    }
  }

  /** On any graph with unique, non-empty ids, cycles and dangling edges included: when an at-risk
      component's risk is not its own, it is 54, and the report names a direct dependency whose own base
      risk is 90. */
  lemma {:induction false} InheritedFromIsCritical(before: seq<Component>, nodes: seq<Component>, edges: seq<Edge>,
                                addonStatus: map<string, AddonStatus>, c: AtRiskComponent, n: Component)
    requires UniqueIds(nodes) && SameComponents(nodes, before)
    requires forall e :: e in edges ==> e.to != ""
    requires forall m :: m in nodes ==> IsRisk(BaseMap(before, addonStatus), edges, m.id, m.risk)
    requires n in nodes && n.risk >= AT_RISK_THRESHOLD
    requires Reports(nodes, edges, addonStatus, c, n) && c.inheritedFrom != ""
    ensures c.risk == 54
    ensures exists m :: m in nodes && m.id == c.inheritedFrom && Linked(edges, n.id, m.id)
                        && m.risk == 90 && BaseRisk(m, addonStatus) == 90
  {
    hide BaseRisk;
    var base := BaseMap(before, addonStatus);
    SameBase(before, nodes, addonStatus);
    BaseMapAt(nodes, addonStatus);
    BaseMapValues(nodes, addonStatus);
    RiskMapAt(nodes);
    TargetsAreLinked(edges, n.id);
    var d := CriticalDependency(base, edges, n.id, n.risk);
    var m := HasNodeOf(nodes, base, d);
    CriticalRisk(base, edges, m.id, m.risk);
    var best := c.inheritedFrom;
    assert IsRiskiest(Targets(edges, n.id), RiskMap(nodes), best);
    assert At(RiskMap(nodes), best) >= 90;
    var b :| b in nodes && b.id == best by { IdsMember(nodes); }
    BaseOfCritical(base, edges, b.id, b.risk);
  }

  lemma {:induction false} SameBase(before: seq<Component>, nodes: seq<Component>,
                                    addonStatus: map<string, AddonStatus>)
    requires SameComponents(nodes, before)
    ensures BaseMap(before, addonStatus) == BaseMap(nodes, addonStatus)
  {
    hide BaseRisk;
    if nodes != [] {
      var c, c' := nodes[|nodes| - 1], before[|before| - 1];
      SameBase(before[..|before| - 1], nodes[..|nodes| - 1], addonStatus);
      SameBucket(c, c');
      SameBaseRisk(c, c', addonStatus);
    }
  }

  lemma {:induction false} SameBaseRisk(c: Component, c': Component, addonStatus: map<string, AddonStatus>)
    requires c.ctype == c'.ctype && c.name == c'.name && c.status == c'.status
    ensures BaseRisk(c, addonStatus) == BaseRisk(c', addonStatus)
  {
  }

  lemma {:induction false} CriticalDependency(base: map<string, nat>, edges: seq<Edge>, id: string,
                                              r: nat) returns (d: string)
    requires forall a :: At(base, a) in {0, 10, 40, 50, 60, 70, 90}
    requires IsRisk(base, edges, id, r) && At(base, id) < r && r >= 50
    ensures r == 54 && Linked(edges, id, d) && At(base, d) == 90
  {
    var w :| WalkFrom(edges, w, id) && Inherited(base, w) == r;
    OnlyOneHopOf90(At(base, w[|w| - 1]), |w| - 1);
    d := w[1];
  }

  lemma {:induction false} HasNodeOf(nodes: seq<Component>, base: map<string, nat>, d: string) returns (m: Component)
    requires At(base, d) == 90 && forall id :: id !in Ids(nodes) ==> At(base, id) == 0
    ensures m in nodes && m.id == d
  {
    IdsMember(nodes);
    m :| m in nodes && m.id == d;
  }

  lemma {:induction false} CriticalRisk(base: map<string, nat>, edges: seq<Edge>, id: string, r: nat)
    requires IsRisk(base, edges, id, r) && At(base, id) == 90
    ensures r == 90
  {
  }

  lemma {:induction false} BaseOfCritical(base: map<string, nat>, edges: seq<Edge>, id: string, r: nat)
    requires forall a :: At(base, a) in {0, 10, 40, 50, 60, 70, 90}
    requires IsRisk(base, edges, id, r) && r >= 90
    ensures At(base, id) == 90 && r == 90
  {
    var w :| WalkFrom(edges, w, id) && Inherited(base, w) == r;
    if |w| > 1 {
      OnlyOneHopOf90(At(base, w[|w| - 1]), |w| - 1);
    }
  }

  /** An incompatible add-on or a lost volume; without verdicts, only the volume. */
  predicate IsCritical(c: Component, addonStatus: map<string, AddonStatus>) {
    || (c.ctype == TypeAddon && c.name in addonStatus && addonStatus[c.name] == Incompatible)
    || (c.ctype == TypeStorage && c.status == "Lost")
  }

  /** Only these have base risk 90. */
  lemma {:induction false} CriticalBase(c: Component, addonStatus: map<string, AddonStatus>)
    ensures BaseRisk(c, addonStatus) == 90 <==> IsCritical(c, addonStatus)
  {
  }

  lemma {:induction false} BuiltEdgesEndSomewhere(t: Topology)
    ensures forall e :: e in BuiltEdges(t) ==> e.to != ""
  {
    hide Offered, BuiltNodes, BuiltEdges;
    BuiltIsWellFormed(t);
    NodesAreOffered(t);
    IdsMember(BuiltNodes(t));
    forall c | c in BuiltNodes(t) ensures c.id != "" {
      OfferedShape(t, c);
    }
  }

  /** On a built graph an inherited at-risk score is 54 and comes from an incompatible add-on or a lost
      volume it depends on directly; in a mirror, which has no verdicts, only from a lost volume. */
  lemma {:induction false} InheritedFromNamesTheCause(t: Topology, addonStatus: map<string, AddonStatus>,
                                                      c: AtRiskComponent, n: Component)
    ensures var nodes, edges := ScoredNodes(t, addonStatus), BuiltEdges(t);
            n in nodes && n.risk >= AT_RISK_THRESHOLD && Reports(nodes, edges, addonStatus, c, n)
            && c.inheritedFrom != "" ==>
              && c.risk == 54
              && exists m :: m in nodes && m.id == c.inheritedFrom && Linked(edges, n.id, m.id) && m.risk == 90
                             && IsCritical(m, addonStatus)
  {
    hide BuiltNodes, BuiltEdges, Scored, BaseMap, IsRisk, Hears, BaseRisk, Reports;
    var nodes, edges := ScoredNodes(t, addonStatus), BuiltEdges(t);
    if n in nodes && n.risk >= AT_RISK_THRESHOLD && Reports(nodes, edges, addonStatus, c, n) && c.inheritedFrom != "" {
      BuiltIsWellFormed(t);
      ScoredBase(BuiltNodes(t), edges, addonStatus);
      BuiltEdgesEndSomewhere(t);
      ScoredIsRight(BuiltNodes(t), edges, addonStatus);
      InheritedFromIsCritical(BuiltNodes(t), nodes, edges, addonStatus, c, n);
      var m :| m in nodes && m.id == c.inheritedFrom && Linked(edges, n.id, m.id)
               && m.risk == 90 && BaseRisk(m, addonStatus) == 90;
      CriticalBase(m, addonStatus);
    }
  }

  // ----- What is at risk at all -----

  /** The states that put a component at risk on their own. A degraded workload or an unknown add-on is not
      among them. */
  predicate IsFailing(c: Component, addonStatus: map<string, AddonStatus>) {
    match c.ctype
    case TypeAddon => c.name in addonStatus && addonStatus[c.name] == Incompatible
    case TypeWorkload => c.status == "Down" || c.status == "Failed"
    case TypeInfra => c.status == "NotReady"
    case TypeStorage => c.status == "Lost" || c.status == "Pending"
    case TypeNetwork => false
    case TypeConfig => false
  }

  lemma {:induction false} FailingBase(c: Component, addonStatus: map<string, AddonStatus>)
    ensures BaseRisk(c, addonStatus) >= AT_RISK_THRESHOLD <==> IsFailing(c, addonStatus)
  {
    assert !("Degraded" <= "Down") && !("Degraded" <= "Failed");
  }

  /** What a claim's phase means for its risk: a lost one is critical, a pending one is at risk unless it
      only waits for its first consumer, any other is fine. */
  lemma {:induction false} ClaimRisk(p: PVCRef, addonStatus: map<string, AddonStatus>)
    ensures IsCritical(PVCComponent(p), addonStatus) <==> p.phase == "Lost"
    ensures IsFailing(PVCComponent(p), addonStatus) <==>
              p.phase == "Lost" || (p.phase == "Pending" && p.bindingMode != "WaitForFirstConsumer")
    ensures !IsFailing(PVCComponent(p), addonStatus) ==> BaseRisk(PVCComponent(p), addonStatus) == 0
  {
    assert |"Pending (WaitForFirstConsumer)"| > |"Pending"| > |"Lost"|;
  }

  /** On any graph, cycles included, a node is at risk exactly when its own base risk is, or a direct
      dependency has base risk 90: what a cycle hides never decides. */
  lemma {:induction false} AtRiskOnAnyGraph(nodes: seq<Component>, edges: seq<Edge>,
                                            addonStatus: map<string, AddonStatus>)
    ensures var base := BaseMap(nodes, addonStatus);
            forall n :: n in Scored(nodes, edges, addonStatus) ==>
              (n.risk >= AT_RISK_THRESHOLD <==>
                 At(base, n.id) >= AT_RISK_THRESHOLD || exists d :: Linked(edges, n.id, d) && At(base, d) == 90)
  {
    hide BaseMap, BaseRisk, Scored, IsRisk, Linked;
    var base := BaseMap(nodes, addonStatus);
    BaseMapValues(nodes, addonStatus);
    ScoredIsRight(nodes, edges, addonStatus);
    forall n | n in Scored(nodes, edges, addonStatus)
      ensures n.risk >= AT_RISK_THRESHOLD <==>
                At(base, n.id) >= AT_RISK_THRESHOLD || exists d :: Linked(edges, n.id, d) && At(base, d) == 90 {
      AtLeastBase(base, edges, n.id, n.risk);
      if n.risk >= AT_RISK_THRESHOLD && At(base, n.id) < n.risk {
        var d := CriticalDependency(base, edges, n.id, n.risk);
      }
    }
  }

  /** The same in terms of components: with unique ids, a component is at risk exactly when it is failing
      itself or depends directly on an incompatible add-on or a lost volume. */
  lemma {:induction false} AtRiskIff(nodes: seq<Component>, edges: seq<Edge>, addonStatus: map<string, AddonStatus>)
    requires UniqueIds(nodes)
    ensures var scored := Scored(nodes, edges, addonStatus);
            forall n :: n in scored ==>
              (n.risk >= AT_RISK_THRESHOLD <==>
                 || IsFailing(n, addonStatus)
                 || exists m :: m in scored && Linked(edges, n.id, m.id) && IsCritical(m, addonStatus))
  {
    hide BaseMap, BaseRisk, Scored, IsFailing, IsCritical, Linked, Ids;
    var scored, base := Scored(nodes, edges, addonStatus), BaseMap(nodes, addonStatus);
    ScoredBase(nodes, edges, addonStatus);
    AtRiskOnAnyGraph(nodes, edges, addonStatus);
    forall n | n in scored
      ensures n.risk >= AT_RISK_THRESHOLD <==>
                || IsFailing(n, addonStatus)
                || exists m :: m in scored && Linked(edges, n.id, m.id) && IsCritical(m, addonStatus) {
      FailingBase(n, addonStatus);
      if d :| Linked(edges, n.id, d) && At(base, d) == 90 {
        var m := HasNodeOf(scored, base, d);
        CriticalBase(m, addonStatus);
      }
      if m :| m in scored && Linked(edges, n.id, m.id) && IsCritical(m, addonStatus) {
        CriticalBase(m, addonStatus);
      }
    }
  }

  lemma {:induction false} AtLeastBase(base: map<string, nat>, edges: seq<Edge>, id: string, r: nat)
    requires IsRisk(base, edges, id, r)
    ensures At(base, id) <= r
  {
  }

  /** With unique ids the base risks of a graph are those of its scored nodes. */
  lemma {:induction false} ScoredBase(nodes: seq<Component>, edges: seq<Edge>, addonStatus: map<string, AddonStatus>)
    requires UniqueIds(nodes)
    ensures var scored, base := Scored(nodes, edges, addonStatus), BaseMap(nodes, addonStatus);
            && UniqueIds(scored)
            && (forall c :: c in scored ==> At(base, c.id) == BaseRisk(c, addonStatus))
            && (forall id :: id !in Ids(scored) ==> At(base, id) == 0)
  {
    hide BaseMap, BaseRisk, Scores, Ids;
    var scored := Scored(nodes, edges, addonStatus);
    assert forall i :: 0 <= i < |nodes| ==> scored[i].id == nodes[i].id;
    SameBase(nodes, scored, addonStatus);
    BaseMapAt(scored, addonStatus);
  }
}
