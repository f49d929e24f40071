/** The mirror report's headline numbers, and their agreement with the graph and the at-risk list. */
module Mirror {
  import opened Collections
  import opened Components
  import opened Inventory
  import opened Ordering
  import opened NamespaceRisks
  import opened AtRiskReport
  import opened BuiltGraphs
  import opened ScoredGraphs
  import opened SnapshotNodes
  import opened SnapshotScores

  datatype MirrorSummary = MirrorSummary(
    components: nat, edges: nat, atRisk: nat, namespaces: nat, namespacesAtRisk: nat)

  datatype MirrorAddon = MirrorAddon(name: string, namespace: string, version: string)

  datatype MirrorReport = MirrorReport(
    clusterVersion: string, summary: MirrorSummary, atRisk: seq<AtRiskComponent>, byNamespace: seq<NamespaceRisk>,
    addons: seq<MirrorAddon>)

  function TotalAtRisk(rs: seq<NamespaceRisk>): nat {
    if rs == [] then 0 else TotalAtRisk(rs[..|rs| - 1]) + rs[|rs| - 1].atRisk
  }

  function TotalComponents(rs: seq<NamespaceRisk>): nat {
    if rs == [] then 0 else TotalComponents(rs[..|rs| - 1]) + rs[|rs| - 1].components
  }

  function Affected(rs: seq<NamespaceRisk>): seq<NamespaceRisk> {
    Filter((r: NamespaceRisk) => r.atRisk > 0, rs)
  }

  function AddonEntry(a: DetectedAddon): MirrorAddon {
    MirrorAddon(a.name, a.namespace, a.version)
  }

  method BuildMirrorReport(snap: Snapshot, g: Graph, nsRisk: seq<NamespaceRisk>) returns (report: MirrorReport)
    ensures report.summary == MirrorSummary(|g.nodes|, |g.edges|, TotalAtRisk(nsRisk), |nsRisk|, |Affected(nsRisk)|)
    ensures IsAtRiskList(g.nodes, g.edges, map[], report.atRisk) && |report.atRisk| == |AtRiskNodes(g.nodes)|
    ensures report.byNamespace == nsRisk && report.clusterVersion == snap.clusterVersion
    ensures report.addons == Map(AddonEntry, snap.topology.detectedAddons)
  {
    hide IsAtRiskList;
    var atRisk, namespacesAtRisk := 0, 0;
    for i := 0 to |nsRisk|
      invariant atRisk == TotalAtRisk(nsRisk[..i])
      invariant namespacesAtRisk == |Affected(nsRisk[..i])|
    {
      TakeNext(nsRisk, i);
      atRisk := atRisk + nsRisk[i].atRisk;
      if nsRisk[i].atRisk > 0 {
        namespacesAtRisk := namespacesAtRisk + 1;
      }
    }
    assert nsRisk[..|nsRisk|] == nsRisk;
    var detected := snap.topology.detectedAddons;
    var addons: seq<MirrorAddon> := [];
    for i := 0 to |detected|
      invariant addons == Map(AddonEntry, detected[..i])
    {
      MapNext(AddonEntry, detected, i);
      addons := addons + [AddonEntry(detected[i])];
    }
    assert detected[..|detected|] == detected;
    var summary := MirrorSummary(|g.nodes|, |g.edges|, atRisk, |nsRisk|, namespacesAtRisk);
    var list := AtRisk(g, map[]);
    report := MirrorReport(snap.clusterVersion, summary, list, nsRisk, addons);
  }

  // ----- Conservation -----

  lemma {:induction false} BucketsAreDistinct(nodes: seq<Component>)
    ensures Distinct(Buckets(nodes))
    ensures forall c :: c in nodes ==> NamespaceBucket(c) in Buckets(nodes)
    ensures forall ns :: ns in Buckets(nodes) ==> exists c :: c in nodes && NamespaceBucket(c) == ns
  {
    if nodes != [] {
      var rest, last := nodes[..|nodes| - 1], nodes[|nodes| - 1];
      assert nodes == rest + [last];
      BucketsAreDistinct(rest);
    }
  }

  /** The totals over a list of bucket names, as one more component is counted. */
  function AtRiskOver(nodes: seq<Component>, names: seq<string>): nat {
    TotalAtRisk(Map((ns: string) => Summary(nodes, ns), names))
  }

  function ComponentsOver(nodes: seq<Component>, names: seq<string>): nat {
    TotalComponents(Map((ns: string) => Summary(nodes, ns), names))
  }

  lemma {:induction false} OverNext(nodes: seq<Component>, k: nat, names: seq<string>)
    requires k < |nodes| && Distinct(names)
    ensures var here := if NamespaceBucket(nodes[k]) in names then 1 else 0;
            && ComponentsOver(nodes[..k + 1], names) == ComponentsOver(nodes[..k], names) + here
            && AtRiskOver(nodes[..k + 1], names)
               == AtRiskOver(nodes[..k], names) + (if IsAtRisk(nodes[k]) then here else 0)
  {
    if names != [] {
      var rest, last := names[..|names| - 1], names[|names| - 1];
      assert names == rest + [last];
      OverNext(nodes, k, rest);
      SummaryNext(nodes, k);
      OverLast(nodes[..k], names);
      OverLast(nodes[..k + 1], names);
      hide Summary, ComponentsOver, AtRiskOver;
    }
  }

  lemma {:induction false} OverLast(nodes: seq<Component>, names: seq<string>)
    requires names != []
    ensures var rest, last := names[..|names| - 1], names[|names| - 1];
            && ComponentsOver(nodes, names) == ComponentsOver(nodes, rest) + Summary(nodes, last).components
            && AtRiskOver(nodes, names) == AtRiskOver(nodes, rest) + Summary(nodes, last).atRisk
  {
    var f := (ns: string) => Summary(nodes, ns);
    hide Summary;
    assert Map(f, names)[..|names| - 1] == Map(f, names[..|names| - 1]);
  }

  lemma {:induction false} NothingOver(names: seq<string>)
    ensures ComponentsOver([], names) == 0 && AtRiskOver([], names) == 0
  {
    if names != [] {
      NothingOver(names[..|names| - 1]);
      OverLast([], names);
    }
  }

  lemma {:induction false} Conserved(nodes: seq<Component>, k: nat, names: seq<string>)
    requires k <= |nodes| && Distinct(names)
    requires forall c :: c in nodes ==> NamespaceBucket(c) in names
    ensures ComponentsOver(nodes[..k], names) == k
    ensures AtRiskOver(nodes[..k], names) == |AtRiskNodes(nodes[..k])|
  {
    hide ComponentsOver, AtRiskOver, AtRiskNodes, NamespaceBucket;
    if k == 0 {
      NothingOver(names);
      NoneAtRisk(nodes);
    } else {
      Conserved(nodes, k - 1, names);
      OverNext(nodes, k - 1, names);
      AtRiskNext(nodes, k - 1);
    }
  }

  lemma {:induction false} NoneAtRisk(nodes: seq<Component>)
    ensures nodes[..0] == [] && AtRiskNodes(nodes[..0]) == []
  {
  }

  lemma {:induction false} AtRiskNext(nodes: seq<Component>, k: nat)
    requires k < |nodes|
    ensures |AtRiskNodes(nodes[..k + 1])| == |AtRiskNodes(nodes[..k])| + (if IsAtRisk(nodes[k]) then 1 else 0)
  {
    TakeNext(nodes, k);
  }

  /** Every component is in exactly one summary: counts add up to the whole graph. */
  lemma {:induction false} SummariesConserve(nodes: seq<Component>)
    ensures TotalComponents(Summaries(nodes)) == |nodes|
    ensures TotalAtRisk(Summaries(nodes)) == |AtRiskNodes(nodes)|
  {
    BucketsAreDistinct(nodes);
    Conserved(nodes, |nodes|, Buckets(nodes));
    assert nodes[..|nodes|] == nodes;
  }

  /** A bucket's risk is the exact maximum of its components' risks. */
  lemma {:induction false} MaxIsExact(nodes: seq<Component>)
    ensures forall c :: c in nodes ==> c.risk <= MaxRisk(nodes)
    ensures nodes != [] ==> exists c :: c in nodes && c.risk == MaxRisk(nodes)
  {
    if nodes != [] {
      var rest, last := nodes[..|nodes| - 1], nodes[|nodes| - 1];
      assert nodes == rest + [last];
      MaxIsExact(rest);
      assert last in nodes;
      if rest != [] && MaxRisk(rest) > last.risk {
        var c :| c in rest && c.risk == MaxRisk(rest);
        assert c in nodes;
      }
    }
  }

  /** It reaches the threshold exactly when the bucket counts a component at risk. */
  lemma {:induction false} MaxReachesThreshold(nodes: seq<Component>)
    ensures MaxRisk(nodes) >= AT_RISK_THRESHOLD <==> |AtRiskNodes(nodes)| > 0
  {
    if nodes != [] {
      MaxReachesThreshold(nodes[..|nodes| - 1]);
    }
  }

  // ----- Namespaces by name -----

  /** Cluster nodes belong to no namespace, and a component without one to the default namespace. */
  predicate Belongs(c: Component, ns: string) {
    if c.ctype == TypeInfra then ns == "cluster-scoped"
    else c.namespace == ns || (c.namespace == "" && ns == "default")
  }

  /** One summary for each name some component belongs to and for no other, with exactly its components, those
      of them at 50 or above, and the highest risk among them. */
  ghost predicate AreNamespaces(nodes: seq<Component>, rs: seq<NamespaceRisk>) {
    && (forall i, j :: 0 <= i < j < |rs| ==> rs[i].namespace != rs[j].namespace)
    && (forall c, ns :: c in nodes && ns != "" && Belongs(c, ns) ==> exists r :: r in rs && r.namespace == ns)
    && (forall r :: r in rs ==> IsNamespace(nodes, r))
  }

  ghost predicate IsNamespace(nodes: seq<Component>, r: NamespaceRisk) {
    && r.components == |Filter((c: Component) => Belongs(c, r.namespace), nodes)|
    && r.atRisk == |Filter((c: Component) => Belongs(c, r.namespace) && c.risk >= 50, nodes)|
    && (forall c :: c in nodes && Belongs(c, r.namespace) ==> c.risk <= r.risk)
    && exists c :: c in nodes && Belongs(c, r.namespace) && c.risk == r.risk
  }

  lemma {:induction false} BelongsIs(c: Component, ns: string)
    requires ns != ""
    ensures Belongs(c, ns) <==> NamespaceBucket(c) == ns
  {
  }

  lemma {:induction false} NamespacesAre(nodes: seq<Component>)
    ensures AreNamespaces(nodes, Summaries(nodes))
  {
    var names, rs := Buckets(nodes), Summaries(nodes);
    BucketsAreDistinct(nodes);
    assert |rs| == |names| && forall i :: 0 <= i < |rs| ==> rs[i] == Summary(nodes, names[i]);
    assert forall i :: 0 <= i < |rs| ==> rs[i].namespace == names[i];
    hide Summaries, Summary, Buckets, Belongs, NamespaceBucket, IsNamespace;
    forall c, ns | c in nodes && ns != "" && Belongs(c, ns) ensures exists r :: r in rs && r.namespace == ns {
      BelongsIs(c, ns);
      var i :| 0 <= i < |names| && names[i] == ns;
      assert rs[i] in rs;
    }
    forall r | r in rs ensures IsNamespace(nodes, r) {
      var i :| 0 <= i < |rs| && rs[i] == r;
      assert names[i] in names;
      var c :| c in nodes && NamespaceBucket(c) == names[i];
      OneNamespace(nodes, c, names[i]);
    }
  }

  lemma {:induction false} BucketIsNamed(c: Component)
    ensures NamespaceBucket(c) != ""
  {
  }

  lemma {:induction false} OneNamespace(nodes: seq<Component>, c: Component, ns: string)
    requires c in nodes && NamespaceBucket(c) == ns
    ensures IsNamespace(nodes, Summary(nodes, ns))
  {
    hide Belongs, NamespaceBucket, Filter, MaxRisk;
    BucketIsNamed(c);
    forall d ensures Belongs(d, ns) <==> NamespaceBucket(d) == ns {
      BelongsIs(d, ns);
    }
    FilterMember((d: Component) => NamespaceBucket(d) == ns, nodes);
    MaxIsExact(InBucket(nodes, ns));
    NamespaceCounts(nodes, ns);
  }

  lemma {:induction false} NamespaceCounts(nodes: seq<Component>, ns: string)
    requires forall d :: Belongs(d, ns) <==> NamespaceBucket(d) == ns
    ensures InBucket(nodes, ns) == Filter((d: Component) => Belongs(d, ns), nodes)
    ensures AtRiskNodes(InBucket(nodes, ns)) == Filter((d: Component) => Belongs(d, ns) && d.risk >= 50, nodes)
  {
    if nodes != [] {
      hide Belongs, NamespaceBucket;
      var k := |nodes| - 1;
      NamespaceCounts(nodes[..k], ns);
      var rest := InBucket(nodes[..k], ns);
      assert (rest + [nodes[k]])[..|rest|] == rest;
    }
  }

  /** The published numbers of a mirror agree, although they are counted in separate passes: the
      namespaces' at-risk counts add up to the length of the at-risk list and to the number of components
      at or above the threshold, the namespaces' components to the node count, and the namespaces at risk
      are those whose maximum reaches the threshold. */
  method PublishMirror(snap: Snapshot) returns (report: MirrorReport, g: Graph)
    ensures g.nodes == ScoredNodes(snap.topology, map[]) && g.edges == BuiltEdges(snap.topology)
    ensures IsAtRiskList(g.nodes, g.edges, map[], report.atRisk)
    ensures DistinctIds(snap.topology) ==> ListsFailing(snap.topology, report.atRisk)
    ensures report.byNamespace == Summaries(g.nodes) && AreNamespaces(g.nodes, report.byNamespace)
    ensures |report.addons| == |snap.topology.detectedAddons|
    ensures forall i :: 0 <= i < |report.addons| ==>
              var a := snap.topology.detectedAddons[i]; report.addons[i] == MirrorAddon(a.name, a.namespace, a.version)
    ensures report.clusterVersion == snap.clusterVersion && report.summary.edges == |g.edges|
    ensures report.summary.components == |g.nodes| == TotalComponents(report.byNamespace)
    ensures report.summary.atRisk == |report.atRisk| == |AtRiskNodes(g.nodes)|
    ensures report.summary.namespaces == |Buckets(g.nodes)|
    ensures report.summary.namespacesAtRisk
         == |Filter((r: NamespaceRisk) => r.risk >= AT_RISK_THRESHOLD, report.byNamespace)|
  {
    hide ScoredNodes, BuiltEdges, IsAtRiskList, DistinctIds, ListsFailing, AreNamespaces;
    var summaries;
    g, summaries := ScoreSnapshot(snap.topology, map[]);
    report := BuildMirrorReport(snap, g, summaries);
    if DistinctIds(snap.topology) {
      FailingIsListed(snap.topology, map[], report.atRisk);
    }
    NamespacesAre(g.nodes);
    SummariesConserve(g.nodes);
    AffectedReachThreshold(g.nodes);
  }

  lemma {:induction false} AffectedReachThreshold(nodes: seq<Component>)
    ensures Affected(Summaries(nodes)) == Filter((r: NamespaceRisk) => r.risk >= AT_RISK_THRESHOLD, Summaries(nodes))
  {
    forall ns ensures Summary(nodes, ns).atRisk > 0 <==> Summary(nodes, ns).risk >= AT_RISK_THRESHOLD {
      MaxReachesThreshold(InBucket(nodes, ns));
    }
    var rs := Summaries(nodes);
    assert forall i :: 0 <= i < |rs| ==> rs[i] == Summary(nodes, Buckets(nodes)[i]);
    SameFilter((r: NamespaceRisk) => r.atRisk > 0, (r: NamespaceRisk) => r.risk >= AT_RISK_THRESHOLD, rs);
  }

  lemma {:induction false} SameFilter<T>(p: T -> bool, q: T -> bool, xs: seq<T>)
    requires forall i :: 0 <= i < |xs| ==> p(xs[i]) == q(xs[i])
    ensures Filter(p, xs) == Filter(q, xs)
  {
    if xs != [] {
      SameFilter(p, q, xs[..|xs| - 1]);
    }
  }
}
