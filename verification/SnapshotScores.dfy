/** What scoring a snapshot gives each entity, in the snapshot's own fields. */
module SnapshotScores {
  import opened Components
  import opened Inventory
  import opened Projection
  import opened BuiltGraphs
  import opened Walks
  import opened RiskSearch
  import opened RiskEngine
  import opened AtRiskReport
  import opened ScoredGraphs
  import opened SnapshotNodes

  /** What is r points of trouble in a component of its own: the states, one by one. */
  ghost predicate IsOwn(c: Component, addonStatus: map<string, AddonStatus>, r: nat) {
    match c.ctype
    case TypeWorkload => IsWorkloadTrouble(c.status, r)
    case TypeInfra => IsNodeTrouble(c.status, r)
    case TypeStorage => IsClaimTrouble(c.status, r)
    case TypeAddon => IsAddonTrouble(c.name, addonStatus, r)
    case TypeNetwork => r == 0
    case TypeConfig => r == 0
  }

  ghost predicate IsWorkloadTrouble(status: string, r: nat) {
    && r in {0, 10, 40, 70}
    && (r == 70 <==> status == "Down" || status == "Failed")
    && (r == 40 <==> "Degraded" <= status)
    && (r == 10 <==> status == "Scaled to zero")
  }

  ghost predicate IsNodeTrouble(status: string, r: nat) {
    r in {0, 60} && (r == 60 <==> status == "NotReady")
  }

  ghost predicate IsClaimTrouble(status: string, r: nat) {
    r in {0, 50, 90} && (r == 90 <==> status == "Lost") && (r == 50 <==> status == "Pending")
  }

  ghost predicate IsAddonTrouble(name: string, addonStatus: map<string, AddonStatus>, r: nat) {
    && r in {0, 40, 90}
    && (r == 90 <==> name in addonStatus && addonStatus[name].Incompatible?)
    && (r == 40 <==> name in addonStatus && addonStatus[name].Unknown?)
  }

  lemma {:induction false} BaseIsOwn(c: Component, addonStatus: map<string, AddonStatus>)
    ensures IsOwn(c, addonStatus, BaseRisk(c, addonStatus))
  {
    assert "Degraded"[0] == 'D' && "Degraded"[1] == 'e' && "Down"[1] == 'o' && "Failed"[0] == 'F';
    assert "Scaled to zero"[0] == 'S';
  }

  /** The scores of a snapshot solve one equation: a component carries its own trouble or three fifths of what
      a direct dependency carries, whichever is largest. */
  lemma {:induction false} ScoresSolveEquation(t: Topology, addonStatus: map<string, AddonStatus>)
    ensures var nodes, edges := ScoredNodes(t, addonStatus), BuiltEdges(t);
            forall n :: n in nodes ==>
              exists own: nat ::
                && IsOwn(n, addonStatus, own) && own <= n.risk
                && (forall m :: m in nodes && Linked(edges, n.id, m.id) ==> 3 * m.risk / 5 <= n.risk)
                && (n.risk == own || exists m :: m in nodes && Linked(edges, n.id, m.id) && n.risk == 3 * m.risk / 5)
  {
    hide BuiltNodes, BuiltEdges, ScoredNodes, BuiltBase, BaseRisk, IsOwn, IsWorst, Linked;
    var nodes, edges, base := ScoredNodes(t, addonStatus), BuiltEdges(t), BuiltBase(t, addonStatus);
    ScoredFacts(t, addonStatus);
    forall n | n in nodes
      ensures exists own: nat ::
                && IsOwn(n, addonStatus, own) && own <= n.risk
                && (forall m :: m in nodes && Linked(edges, n.id, m.id) ==> 3 * m.risk / 5 <= n.risk)
                && (n.risk == own || exists m :: m in nodes && Linked(edges, n.id, m.id) && n.risk == 3 * m.risk / 5) {
      BaseIsOwn(n, addonStatus);
      OneEquation(nodes, edges, base, n);
    }
  }

  lemma {:induction false} OneEquation(nodes: seq<Component>, edges: seq<Edge>, base: map<string, nat>, n: Component)
    requires n in nodes && forall m :: m in nodes ==> IsWorst(base, edges, m.id, m.risk)
    requires forall d :: Linked(edges, n.id, d) ==> exists m :: m in nodes && m.id == d
    ensures At(base, n.id) <= n.risk
    ensures forall m :: m in nodes && Linked(edges, n.id, m.id) ==> 3 * m.risk / 5 <= n.risk
    ensures n.risk == At(base, n.id) || exists m :: m in nodes && Linked(edges, n.id, m.id) && n.risk == 3 * m.risk / 5
  {
    SelfWalk(base, edges, n.id);
    forall m | m in nodes && Linked(edges, n.id, m.id) ensures Decay(m.risk) <= n.risk {
      RealisedByDependent(base, edges, n.id, m.id, m.risk);
    }
    var w :| WalkFrom(edges, w, n.id) && Inherited(base, w) == n.risk;
    if |w| > 1 {
      Tail(base, edges, w);
      var m :| m in nodes && m.id == w[1];
      assert Inherited(base, w[1..]) <= m.risk;
    } else {
      assert w == [n.id];
    }
  }

  /** The scored nodes carry their worst risks, their base risks are those of the base map, and their direct
      dependencies are nodes. */
  lemma {:induction false} ScoredFacts(t: Topology, addonStatus: map<string, AddonStatus>)
    ensures var nodes, edges, base := ScoredNodes(t, addonStatus), BuiltEdges(t), BuiltBase(t, addonStatus);
            && UniqueIds(nodes)
            && (forall n :: n in nodes ==> IsWorst(base, edges, n.id, n.risk))
            && (forall n :: n in nodes ==> At(base, n.id) == BaseRisk(n, addonStatus))
            && (forall e :: e in edges ==> exists m :: m in nodes && m.id == e.to)
            && (forall a, d :: Linked(edges, a, d) ==> exists m :: m in nodes && m.id == d)
  {
    hide BuiltNodes, BuiltEdges, Scored, BaseRisk, BaseMap, IsWorst;
    BuiltIsWellFormed(t);
    ScoredBase(BuiltNodes(t), BuiltEdges(t), addonStatus);
    ScoredIsWorst(t, addonStatus);
    IdsMember(BuiltNodes(t));
    forall id | id in Ids(BuiltNodes(t)) ensures exists m :: m in ScoredNodes(t, addonStatus) && m.id == id {
      var c :| c in BuiltNodes(t) && c.id == id;
      var i :| 0 <= i < |BuiltNodes(t)| && BuiltNodes(t)[i] == c;
      var m := ScoredNodes(t, addonStatus)[i];
      SameBucket(m, c);
    }
  }

  /** None of the components that id depends on, directly or transitively, is in trouble of its own. */
  ghost predicate IsCalm(t: Topology, addonStatus: map<string, AddonStatus>, id: string) {
    forall m :: m in ScoredNodes(t, addonStatus) && Reaches(BuiltEdges(t), id, m.id) ==> IsOwn(m, addonStatus, 0)
  }

  /** Above calm dependencies a component scores its own trouble. */
  lemma {:induction false} CalmScore(t: Topology, addonStatus: map<string, AddonStatus>, n: Component)
    ensures n in ScoredNodes(t, addonStatus) && IsCalm(t, addonStatus, n.id) ==> IsOwn(n, addonStatus, n.risk)
  {
    hide BuiltNodes, BuiltEdges, ScoredNodes, BuiltBase, BaseRisk, IsOwn, Linked;
    if n in ScoredNodes(t, addonStatus) && IsCalm(t, addonStatus, n.id) {
      var nodes, edges, base := ScoredNodes(t, addonStatus), BuiltEdges(t), BuiltBase(t, addonStatus);
      ScoredFacts(t, addonStatus);
      BaseIsOwn(n, addonStatus);
      SelfWalk(base, edges, n.id);
      var w :| WalkFrom(edges, w, n.id) && Inherited(base, w) == n.risk;
      if |w| > 1 {
        assert Linked(edges, w[|w| - 2], w[|w| - 1]);
        var m :| m in nodes && m.id == w[|w| - 1];
        assert Reaches(edges, n.id, m.id);
        BaseIsOwn(m, addonStatus);
        OneOwn(m, addonStatus, BaseRisk(m, addonStatus), 0);
        NothingDecays(|w| - 1);
      } else {
        assert w == [n.id];
      }
    }
  }

  lemma {:induction false} OneOwn(c: Component, addonStatus: map<string, AddonStatus>, r: nat, s: nat)
    requires IsOwn(c, addonStatus, r) && IsOwn(c, addonStatus, s)
    ensures r == s
  {
  }

  lemma {:induction false} NothingDecays(hops: nat)
    ensures DecayBy(0, hops) == 0
  {
    if hops > 0 {
      NothingDecays(hops - 1);
    }
  }

  /** What a mirrored entity scores. */
  lemma {:induction false} ScoredEntity(t: Topology, addonStatus: map<string, AddonStatus>,
                                        c: Component) returns (n: Component)
    requires HasOnly(BuiltNodes(t), c)
    ensures n in ScoredNodes(t, addonStatus) && n.(risk := c.risk) == c
    ensures forall m :: m in ScoredNodes(t, addonStatus) && m.id == c.id ==> m == n
  {
    hide BuiltNodes, BuiltEdges, Scores;
    var b :| b in BuiltNodes(t) && b.(risk := c.risk) == c && forall m :: m in BuiltNodes(t) && m.id == c.id ==> m == b;
    var i :| 0 <= i < |BuiltNodes(t)| && BuiltNodes(t)[i] == b;
    n := ScoredNodes(t, addonStatus)[i];
    ScoredFacts(t, addonStatus);
  }

  /** A component of the lowest layer depends on nothing. */
  lemma {:induction false} LeafIsCalm(t: Topology, addonStatus: map<string, AddonStatus>, id: string)
    requires LayerOf(id) == 0
    ensures IsCalm(t, addonStatus, id)
  {
    hide BuiltEdges, ScoredNodes, LayerOf, IsOwn;
    EdgesDescend(t);
    forall d ensures !Reaches(BuiltEdges(t), id, d) {
      LeafReachesNothing(BuiltEdges(t), id, d);
    }
  }

  lemma {:induction false} LeafReachesNothing(edges: seq<Edge>, id: string, d: string)
    requires Descends(edges) && LayerOf(id) == 0
    ensures !Reaches(edges, id, d)
  {
    forall w | WalkFrom(edges, w, id) ensures |w| == 1 {
      if |w| > 1 {
        Tail(map[], edges, w);
      }
    }
  }

  lemma {:induction false} LeafLayers(namespace: string, name: string)
    ensures LayerOf(Id("Pod", namespace, name)) == 0 && LayerOf(Id("Node", namespace, name)) == 0
    ensures LayerOf(Id("PVC", namespace, name)) == 0 && LayerOf(Id("Addon", namespace, name)) == 0
  {
    hide LayerOf, Id;
    LayerConstants();
    assert Layer("Pod") == 0;
    assert SlashFree("Pod") && SlashFree("Node") && SlashFree("PVC") && SlashFree("Addon");
    IdLayer("Pod", namespace, name);
    IdLayer("Node", namespace, name);
    IdLayer("PVC", namespace, name);
    IdLayer("Addon", namespace, name);
  }

  /** A mirrored entity of the lowest layer scores its own trouble. */
  lemma {:induction false} LeafScore(t: Topology, addonStatus: map<string, AddonStatus>,
                                     c: Component) returns (n: Component)
    requires HasOnly(BuiltNodes(t), c) && LayerOf(c.id) == 0
    ensures n in ScoredNodes(t, addonStatus) && n.(risk := c.risk) == c
    ensures IsOwn(n, addonStatus, n.risk)
  {
    hide BuiltNodes, ScoredNodes, HasOnly, IsCalm, LayerOf, IsOwn;
    n := ScoredEntity(t, addonStatus, c);
    LeafIsCalm(t, addonStatus, n.id);
    CalmScore(t, addonStatus, n);
  }

  /** A workload that is not above any trouble scores 70, 40, 10 or 0 by its own status. */
  lemma {:induction false} WorkloadScore(t: Topology, addonStatus: map<string, AddonStatus>, w: Workload)
    requires DistinctIds(t) && w in t.workloads
    ensures exists n :: n in ScoredNodes(t, addonStatus)
                        && n.id == Id(WorkloadKindName(w.kind), w.namespace, w.name) && n.status == w.status
                        && (IsCalm(t, addonStatus, n.id) ==>
                              && n.risk in {0, 10, 40, 70}
                              && (n.risk == 70 <==> w.status == "Down" || w.status == "Failed")
                              && (n.risk == 40 <==> "Degraded" <= w.status)
                              && (n.risk == 10 <==> w.status == "Scaled to zero"))
  {
    hide DistinctIds, BuiltNodes, ScoredNodes, HasOnly, IsCalm, Id;
    WorkloadIsMirrored(t, w);
    var n := ScoredEntity(t, addonStatus,
                          Component(Id(WorkloadKindName(w.kind), w.namespace, w.name), WorkloadKindName(w.kind), w.name,
                                    w.namespace, TypeWorkload, "", w.status, 0));
    if IsCalm(t, addonStatus, n.id) {
      CalmScore(t, addonStatus, n);
    }
  }

  /** A standalone pod depends on nothing. */
  lemma {:induction false} BarePodScore(t: Topology, addonStatus: map<string, AddonStatus>, p: BarePod)
    requires DistinctIds(t) && p in t.barePods
    ensures exists n :: n in ScoredNodes(t, addonStatus)
                        && n.id == Id("Pod", p.namespace, p.name) && n.status == p.status
                        && n.risk in {0, 10, 40, 70}
                        && (n.risk == 70 <==> p.status == "Down" || p.status == "Failed")
                        && (n.risk == 40 <==> "Degraded" <= p.status)
                        && (n.risk == 10 <==> p.status == "Scaled to zero")
  {
    hide DistinctIds, BuiltNodes, ScoredNodes, HasOnly, Id, LayerOf;
    BarePodIsMirrored(t, p);
    LeafLayers(p.namespace, p.name);
    var c := Component(Id("Pod", p.namespace, p.name), "Pod", p.name, p.namespace, TypeWorkload, "", p.status, 0);
    var n := LeafScore(t, addonStatus, c);
  }

  lemma {:induction false} NodePoints(c: Component, addonStatus: map<string, AddonStatus>)
    requires IsOwn(c, addonStatus, c.risk) && c.ctype == TypeInfra
    ensures c.risk == if c.status == "NotReady" then 60 else 0
  {
  }

  lemma {:induction false} NodeScore(t: Topology, addonStatus: map<string, AddonStatus>, node: NodeWorkload)
    requires DistinctIds(t) && node in t.nodeWorkloads
    ensures exists n :: n in ScoredNodes(t, addonStatus)
                        && n.id == Id("Node", "", node.name) && n.status == node.status
                        && n.risk == if node.status == "NotReady" then 60 else 0
  {
    hide DistinctIds, BuiltNodes, ScoredNodes, HasOnly, IsOwn, Id, LayerOf;
    NodeIsMirrored(t, node);
    LeafLayers("", node.name);
    var c := Component(Id("Node", "", node.name), "Node", node.name, "", TypeInfra, "", node.status, 0);
    var n := LeafScore(t, addonStatus, c);
    NodePoints(n, addonStatus);
  }

  /** The points of a claim by its phase and binding mode. */
  lemma {:induction false} ClaimPoints(p: PVCRef, c: Component, addonStatus: map<string, AddonStatus>)
    requires IsOwn(c, addonStatus, c.risk) && c.ctype == TypeStorage
    requires c.status == if p.phase == "Pending" && p.bindingMode == "WaitForFirstConsumer"
                         then "Pending (WaitForFirstConsumer)" else p.phase
    ensures p.phase == "Lost" <==> c.status == "Lost"
    ensures c.risk == if p.phase == "Lost" then 90
                      else if p.phase == "Pending" && p.bindingMode != "WaitForFirstConsumer" then 50
                      else 0
  {
    assert |"Pending (WaitForFirstConsumer)"| > |"Pending"| > |"Lost"|;
  }

  /** A pending claim that waits for its first consumer is not in trouble. */
  lemma {:induction false} ClaimScore(t: Topology, addonStatus: map<string, AddonStatus>, p: PVCRef)
    requires DistinctClaims(t) && p in t.pvcs
    ensures exists n :: n in ScoredNodes(t, addonStatus) && n.id == Id("PVC", p.namespace, p.name)
                        && n.namespace == p.namespace && n.name == p.name && n.ctype == TypeStorage
                        && (p.phase == "Lost" <==> n.status == "Lost")
                        && n.risk == if p.phase == "Lost" then 90
                                     else if p.phase == "Pending" && p.bindingMode != "WaitForFirstConsumer" then 50
                                     else 0
  {
    hide DistinctClaims, BuiltNodes, ScoredNodes, HasOnly, IsOwn, Id, LayerOf;
    ClaimIsMirrored(t, p);
    LeafLayers(p.namespace, p.name);
    var waits := p.phase == "Pending" && p.bindingMode == "WaitForFirstConsumer";
    var status := if waits then "Pending (WaitForFirstConsumer)" else p.phase;
    var c := Component(Id("PVC", p.namespace, p.name), "PVC", p.name, p.namespace, TypeStorage, "", status, 0);
    var n := LeafScore(t, addonStatus, c);
    ClaimPoints(p, n, addonStatus);
  }

  lemma {:induction false} AddonPoints(c: Component, addonStatus: map<string, AddonStatus>)
    requires IsOwn(c, addonStatus, c.risk) && c.ctype == TypeAddon
    ensures c.risk == if c.name in addonStatus && addonStatus[c.name].Incompatible? then 90
                      else if c.name in addonStatus && addonStatus[c.name].Unknown? then 40
                      else 0
  {
  }

  lemma {:induction false} AddonScore(t: Topology, addonStatus: map<string, AddonStatus>, a: DetectedAddon)
    requires DistinctIds(t) && a in t.detectedAddons
    ensures exists n :: n in ScoredNodes(t, addonStatus)
                        && n.id == AddonId(a.name) && n.version == a.version && n.namespace == a.namespace
                        && n.risk == if a.name in addonStatus && addonStatus[a.name].Incompatible? then 90
                                     else if a.name in addonStatus && addonStatus[a.name].Unknown? then 40
                                     else 0
  {
    hide DistinctIds, BuiltNodes, ScoredNodes, HasOnly, IsOwn, Id, LayerOf;
    AddonIsMirrored(t, a);
    LeafLayers("", a.name);
    var c := Component(AddonId(a.name), "Addon", a.name, a.namespace, TypeAddon, a.version, "", 0);
    var n := LeafScore(t, addonStatus, c);
    AddonPoints(n, addonStatus);
  }

  // ----- What is listed -----

  /** The list names the entity with its own fields. */
  ghost predicate IsListed(out: seq<AtRiskComponent>, id: string, kind: string, name: string, namespace: string,
                           status: string) {
    exists c :: c in out && c.id == id && c.kind == kind && c.name == name && c.namespace == namespace
                && c.status == status && c.risk >= 50
  }

  lemma {:induction false} TroubleIsListed(t: Topology, addonStatus: map<string, AddonStatus>,
                                           out: seq<AtRiskComponent>,
                                           c: Component)
    requires HasOnly(BuiltNodes(t), c) && exists own: nat :: IsOwn(c, addonStatus, own) && own >= 50
    ensures IsAtRiskList(ScoredNodes(t, addonStatus), BuiltEdges(t), addonStatus, out) ==>
              IsListed(out, c.id, c.kind, c.name, c.namespace, c.status)
  {
    hide BuiltNodes, BuiltEdges, ScoredNodes, HasOnly, IsAtRiskList, IsOwn, Reaches, Targets, RiskMap, BaseRisk;
    if IsAtRiskList(ScoredNodes(t, addonStatus), BuiltEdges(t), addonStatus, out) {
      ListMembers(ScoredNodes(t, addonStatus), BuiltEdges(t), addonStatus, out);
      var n := ScoredEntity(t, addonStatus, c);
      var r: nat :| IsOwn(c, addonStatus, r) && r >= 50;
      OwnIsCarried(t, addonStatus, c, n, r);
      var e :| e in out && Reports(ScoredNodes(t, addonStatus), BuiltEdges(t), addonStatus, e, n);
    }
  }

  lemma {:induction false} OwnIsCarried(t: Topology, addonStatus: map<string, AddonStatus>, c: Component, n: Component,
                                        r: nat)
    requires n in ScoredNodes(t, addonStatus) && n.(risk := c.risk) == c && IsOwn(c, addonStatus, r)
    ensures r <= n.risk
  {
    assert IsOwn(n, addonStatus, r);
    hide BuiltNodes, BuiltEdges, ScoredNodes, IsOwn;
    ScoresSolveEquation(t, addonStatus);
    var own: nat :| IsOwn(n, addonStatus, own) && own <= n.risk;
    OneOwn(n, addonStatus, own, r);
  }

  /** Every workload that is down or failed, every node that is not ready and every claim that is lost or stuck
      is in the at-risk list, with its status. */
  ghost predicate ListsFailing(t: Topology, out: seq<AtRiskComponent>) {
    && (forall w :: w in t.workloads && w.status in {"Down", "Failed"} ==>
          IsListed(out, Id(WorkloadKindName(w.kind), w.namespace, w.name), WorkloadKindName(w.kind), w.name,
                   w.namespace, w.status))
    && (forall p :: p in t.barePods && p.status in {"Down", "Failed"} ==>
          IsListed(out, Id("Pod", p.namespace, p.name), "Pod", p.name, p.namespace, p.status))
    && (forall n :: n in t.nodeWorkloads && n.status == "NotReady" ==>
          IsListed(out, Id("Node", "", n.name), "Node", n.name, "", "NotReady"))
    && (forall p :: p in t.pvcs && p.phase == "Lost" ==>
          IsListed(out, Id("PVC", p.namespace, p.name), "PVC", p.name, p.namespace, "Lost"))
    && (forall p :: p in t.pvcs && p.phase == "Pending" && p.bindingMode != "WaitForFirstConsumer" ==>
          IsListed(out, Id("PVC", p.namespace, p.name), "PVC", p.name, p.namespace, "Pending"))
  }

  lemma {:induction false} FailingIsListed(t: Topology, addonStatus: map<string, AddonStatus>,
                                           out: seq<AtRiskComponent>)
    requires DistinctIds(t)
    ensures IsAtRiskList(ScoredNodes(t, addonStatus), BuiltEdges(t), addonStatus, out) ==> ListsFailing(t, out)
  {
    hide BuiltNodes, BuiltEdges, ScoredNodes, HasOnly, IsAtRiskList, IsListed, Id, WorkloadKindName, DistinctWorkloads,
      DistinctPods, DistinctServices, DistinctIngresses, DistinctConfig, DistinctClaims;
    if IsAtRiskList(ScoredNodes(t, addonStatus), BuiltEdges(t), addonStatus, out) {
      forall w | w in t.workloads && w.status in {"Down", "Failed"}
        ensures IsListed(out, Id(WorkloadKindName(w.kind), w.namespace, w.name), WorkloadKindName(w.kind),
                         w.name, w.namespace, w.status) {
        WorkloadIsMirrored(t, w);
        FailingWorkload(WorkloadComponent(w), addonStatus);
        TroubleIsListed(t, addonStatus, out, WorkloadComponent(w));
      }
      forall p | p in t.barePods && p.status in {"Down", "Failed"}
        ensures IsListed(out, Id("Pod", p.namespace, p.name), "Pod", p.name, p.namespace, p.status) {
        BarePodIsMirrored(t, p);
        FailingWorkload(BarePodComponent(p), addonStatus);
        TroubleIsListed(t, addonStatus, out, BarePodComponent(p));
      }
      forall n | n in t.nodeWorkloads && n.status == "NotReady"
        ensures IsListed(out, Id("Node", "", n.name), "Node", n.name, "", "NotReady") {
        NodeIsMirrored(t, n);
        assert IsOwn(NodeComponent(n), addonStatus, 60);
        TroubleIsListed(t, addonStatus, out, NodeComponent(n));
      }
      forall p | p in t.pvcs && (p.phase == "Lost" || (p.phase == "Pending" && p.bindingMode != "WaitForFirstConsumer"))
        ensures IsListed(out, Id("PVC", p.namespace, p.name), "PVC", p.name, p.namespace, p.phase) {
        ClaimIsMirrored(t, p);
        assert IsOwn(PVCComponent(p), addonStatus, if p.phase == "Lost" then 90 else 50);
        TroubleIsListed(t, addonStatus, out, PVCComponent(p));
      }
    }
  }

  lemma {:induction false} FailingWorkload(c: Component, addonStatus: map<string, AddonStatus>)
    requires c.ctype == TypeWorkload && c.status in {"Down", "Failed"}
    ensures IsOwn(c, addonStatus, 70)
  {
    assert "Degraded"[0] == 'D' && "Degraded"[1] == 'e' && "Down"[1] == 'o' && "Failed"[0] == 'F';
    assert "Scaled to zero"[0] == 'S';
  }
}
