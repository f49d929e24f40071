/** The two-pass builder: first all nodes, then all edges, so that edges only link components that exist. */
module GraphBuilder {
  import opened Collections
  import opened Components
  import opened Inventory
  import opened Projection
  import opened BuiltGraphs

  /** What the edge passes need of a workload. */
  datatype WorkloadRef = WorkloadRef(id: string, workload: Workload)

  predicate Records(refs: seq<WorkloadRef>, workloads: seq<Workload>) {
    && |refs| == |workloads|
    && forall i :: 0 <= i < |refs| ==> refs[i] == WorkloadRef(WorkloadId(workloads[i]), workloads[i])
  }

  lemma {:induction false} ConfigIdKind(w: Workload, ref: ConfigRef)
    ensures IsConfigKind(KindPart(ConfigComponent(w, ref).id))
  {
    assert SlashFree(ConfigKindName(ref.kind));
    IdStartsWithKind(ConfigKindName(ref.kind), w.namespace, ref.name);
  }

  predicate IsConfigKind(kind: string) {
    kind == "ConfigMap" || kind == "Secret"
  }

  lemma {:induction false} WorkloadIdIsNoConfigId(w: Workload)
    ensures KindPart(WorkloadId(w)) == WorkloadKindName(w.kind)
    ensures !IsConfigKind(KindPart(WorkloadId(w)))
  {
    assert SlashFree(WorkloadKindName(w.kind));
    IdStartsWithKind(WorkloadKindName(w.kind), w.namespace, w.name);
  }

  class Builder {
    var nodes: seq<Component>
    var edges: seq<Edge>
    var known: set<string>
    var addonIds: map<string, string>
    var workloads: seq<WorkloadRef>
    ghost var offered: seq<Component>
    ghost var proposed: seq<Edge>

    ghost predicate Valid()
      reads this
    {
      && known == Ids(nodes)
      && nodes == FirstPerId(offered)
      && edges == Kept(known, proposed)
      && AllSettled(known, proposed)
    }

    ghost predicate InNodePass()
      reads this
    {
      Valid() && proposed == []
    }

    constructor ()
      ensures InNodePass() && offered == [] && addonIds == map[] && workloads == []
    {
      nodes, edges, known, addonIds, workloads := [], [], {}, map[], [];
      offered, proposed := [], [];
    }

    method AddNode(c: Component)
      requires Valid()
      requires proposed == [] || IsConfigKind(KindPart(c.id))
      modifies this`nodes, this`known, this`offered
      ensures Valid() && c.id in known && old(known) <= known
      ensures offered == old(offered) + [c]
    {
      hide FirstPerId, Kept, AllSettled, Ids, KindPart;
      FirstPerIdNext(offered, c);
      offered := offered + [c];
      if c.id in known {
        return;
      }
      KeptUnchanged(proposed, known, c.id);
      IdsNext(nodes, c);
      known := known + {c.id};
      nodes := nodes + [c];
    }

    method AddEdge(from: string, to: string, etype: EdgeType)
      requires Valid() && Settled(known, from) && Settled(known, to)
      modifies this`edges, this`proposed
      ensures Valid()
      ensures proposed == old(proposed) + [Edge(from, to, etype)]
    {
      hide FirstPerId, Kept, AllSettled, Ids, KindPart;
      KeptNext(known, proposed, Edge(from, to, etype));
      proposed := proposed + [Edge(from, to, etype)];
      if from !in known || to !in known {
        return;
      }
      edges := edges + [Edge(from, to, etype)];
    }

    method AddAddons(t: Topology)
      requires InNodePass() && addonIds == map[]
      modifies this`nodes, this`known, this`offered, this`addonIds
      ensures InNodePass()
      ensures offered == old(offered) + Map(AddonComponent, t.detectedAddons)
      ensures Resolves(addonIds, t.detectedAddons)
    {
      hide FirstPerId, Kept, AllSettled, Ids;
      for i := 0 to |t.detectedAddons|
        invariant InNodePass()
        invariant offered == old(offered) + Map(AddonComponent, t.detectedAddons[..i])
        invariant Resolves(addonIds, t.detectedAddons[..i])
      {
        var a := t.detectedAddons[i];
        ResolvesNext(addonIds, t.detectedAddons, i);
        addonIds := addonIds[a.name := AddonId(a.name)];
        MapNext(AddonComponent, t.detectedAddons, i);
        AddNode(AddonComponent(a));
      }
      assert t.detectedAddons[..|t.detectedAddons|] == t.detectedAddons;
    }

    method AddInfra(t: Topology)
      requires InNodePass()
      modifies this`nodes, this`known, this`offered
      ensures InNodePass()
      ensures offered == old(offered) + Map(NodeComponent, t.nodeWorkloads)
    {
      hide FirstPerId, Kept, AllSettled, Ids;
      for i := 0 to |t.nodeWorkloads|
        invariant InNodePass()
        invariant offered == old(offered) + Map(NodeComponent, t.nodeWorkloads[..i])
      {
        MapNext(NodeComponent, t.nodeWorkloads, i);
        AddNode(NodeComponent(t.nodeWorkloads[i]));
      }
    }

    method AddWorkloads(t: Topology)
      requires InNodePass() && workloads == []
      modifies this`nodes, this`known, this`offered, this`workloads
      ensures InNodePass()
      ensures offered == old(offered) + Map(WorkloadComponent, t.workloads)
      ensures Records(workloads, t.workloads)
    {
      hide FirstPerId, Kept, AllSettled, Ids;
      for i := 0 to |t.workloads|
        invariant InNodePass()
        invariant offered == old(offered) + Map(WorkloadComponent, t.workloads[..i])
        invariant Records(workloads, t.workloads[..i])
      {
        MapNext(WorkloadComponent, t.workloads, i);
        AddNode(WorkloadComponent(t.workloads[i]));
        workloads := workloads + [WorkloadRef(WorkloadId(t.workloads[i]), t.workloads[i])];
      }
    }

    method AddBarePods(t: Topology)
      requires InNodePass()
      modifies this`nodes, this`known, this`offered
      ensures InNodePass()
      ensures offered == old(offered) + Map(BarePodComponent, t.barePods)
    {
      hide FirstPerId, Kept, AllSettled, Ids;
      for i := 0 to |t.barePods|
        invariant InNodePass()
        invariant offered == old(offered) + Map(BarePodComponent, t.barePods[..i])
      {
        MapNext(BarePodComponent, t.barePods, i);
        AddNode(BarePodComponent(t.barePods[i]));
      }
    }

    method AddNetwork(t: Topology)
      requires InNodePass()
      modifies this`nodes, this`known, this`offered
      ensures InNodePass()
      ensures offered == old(offered) + Map(ServiceComponent, t.services) + Map(IngressComponent, t.ingresses)
    {
      hide FirstPerId, Kept, AllSettled, Ids;
      for i := 0 to |t.services|
        invariant InNodePass()
        invariant offered == old(offered) + Map(ServiceComponent, t.services[..i])
      {
        MapNext(ServiceComponent, t.services, i);
        AddNode(ServiceComponent(t.services[i]));
      }
      ghost var start := offered;
      for i := 0 to |t.ingresses|
        invariant InNodePass()
        invariant offered == start + Map(IngressComponent, t.ingresses[..i])
      {
        MapNext(IngressComponent, t.ingresses, i);
        AddNode(IngressComponent(t.ingresses[i]));
      }
    }

    method AddStorage(t: Topology)
      requires InNodePass()
      modifies this`nodes, this`known, this`offered
      ensures InNodePass()
      ensures offered == old(offered) + Map(PVCComponent, t.pvcs)
    {
      hide FirstPerId, Kept, AllSettled, Ids;
      for i := 0 to |t.pvcs|
        invariant InNodePass()
        invariant offered == old(offered) + Map(PVCComponent, t.pvcs[..i])
      {
        MapNext(PVCComponent, t.pvcs, i);
        AddNode(PVCComponent(t.pvcs[i]));
      }
    }

    method LinkIngress(addons: seq<DetectedAddon>, ing: IngressRef)
      requires Valid() && Resolves(addonIds, addons)
      modifies this`edges, this`proposed
      ensures Valid()
      ensures proposed == old(proposed) + IngressEdges(addons, ing)
    {
      hide FirstPerId, Kept, AllSettled, Ids, Id, KindPart, HasAddon;
      var ingId := Id("Ingress", ing.namespace, ing.name);
      IdStartsWithKind("Ingress", ing.namespace, ing.name);
      ghost var toService := (svc: string) => Edge(ingId, Id("Service", ing.namespace, svc), RoutesTo);
      for j := 0 to |ing.services|
        invariant Valid()
        invariant proposed == old(proposed) + Map(toService, ing.services[..j])
      {
        MapNext(toService, ing.services, j);
        IdStartsWithKind("Service", ing.namespace, ing.services[j]);
        AddEdge(ingId, Id("Service", ing.namespace, ing.services[j]), RoutesTo);
      }
      if ing.hasTLS {
        if "cert-manager" in addonIds {
          IdStartsWithKind("Addon", "", "cert-manager");
          AddEdge(ingId, addonIds["cert-manager"], DependsOn);
        }
      }
      assert ing.services[..|ing.services|] == ing.services;
    }

    method LinkIngresses(t: Topology)
      requires Valid() && Resolves(addonIds, t.detectedAddons)
      modifies this`edges, this`proposed
      ensures Valid()
      ensures proposed == old(proposed) + AllIngressEdges(t.detectedAddons, t.ingresses)
    {
      hide FirstPerId, Kept, AllSettled, Ids, AllIngressEdges, IngressEdges, Resolves;
      AllIngressEdgesNext(t, 0);
      for k := 0 to |t.ingresses|
        invariant Valid()
        invariant proposed == old(proposed) + AllIngressEdges(t.detectedAddons, t.ingresses[..k])
      {
        AllIngressEdgesNext(t, k);
        LinkIngress(t.detectedAddons, t.ingresses[k]);
      }
    }

    method LinkService(s: ServiceRef, all: seq<Workload>)
      requires Valid() && Records(workloads, all)
      modifies this`edges, this`proposed
      ensures Valid()
      ensures proposed == old(proposed) + ServiceEdges(all, s)
    {
      hide FirstPerId, Kept, AllSettled, Ids, Id, KindPart, WorkloadId, SelectEdges, LabelsMatch;
      if s.selector == map[] {
        return;
      }
      var svcId := Id("Service", s.namespace, s.name);
      IdStartsWithKind("Service", s.namespace, s.name);
      SelectEdgesNext(all, 0, s);
      for j := 0 to |workloads|
        invariant Valid()
        invariant proposed == old(proposed) + SelectEdges(all[..j], s)
      {
        SelectEdgesNext(all, j, s);
        var w := workloads[j];
        if w.workload.namespace == s.namespace && LabelsMatch(s.selector, w.workload.podLabels) {
          WorkloadIdIsNoConfigId(all[j]);
          AddEdge(svcId, w.id, Selects);
        }
      }
    }

    method LinkServices(t: Topology)
      requires Valid() && Records(workloads, t.workloads)
      modifies this`edges, this`proposed
      ensures Valid()
      ensures proposed == old(proposed) + AllServiceEdges(t.workloads, t.services)
    {
      hide FirstPerId, Kept, AllSettled, Ids, AllServiceEdges, ServiceEdges, Records;
      AllServiceEdgesNext(t, 0);
      for k := 0 to |t.services|
        invariant Valid()
        invariant proposed == old(proposed) + AllServiceEdges(t.workloads, t.services[..k])
      {
        AllServiceEdgesNext(t, k);
        LinkService(t.services[k], t.workloads);
      }
    }

    method LinkConfig(w: Workload)
      requires Valid()
      modifies this`nodes, this`known, this`offered, this`edges, this`proposed
      ensures Valid()
      ensures offered == old(offered) + ConfigComponents(w)
      ensures proposed == old(proposed) + ConfigEdges(w)
    {
      hide FirstPerId, Kept, AllSettled, Ids;
      WorkloadIdIsNoConfigId(w);
      ghost var toComponent := (ref: ConfigRef) => ConfigComponent(w, ref);
      ghost var toEdge := (ref: ConfigRef) => Edge(WorkloadId(w), ConfigComponent(w, ref).id, UsesConfig);
      for j := 0 to |w.configRefs|
        invariant Valid()
        invariant offered == old(offered) + Map(toComponent, w.configRefs[..j])
        invariant proposed == old(proposed) + Map(toEdge, w.configRefs[..j])
      {
        var ref := w.configRefs[j];
        MapNext(toComponent, w.configRefs, j);
        MapNext(toEdge, w.configRefs, j);
        ConfigIdKind(w, ref);
        AddNode(ConfigComponent(w, ref));
        AddEdge(WorkloadId(w), ConfigComponent(w, ref).id, UsesConfig);
      }
      assert w.configRefs[..|w.configRefs|] == w.configRefs;
    }

    method LinkStorage(w: Workload)
      requires Valid()
      modifies this`edges, this`proposed
      ensures Valid()
      ensures proposed == old(proposed) + StorageEdges(w)
    {
      hide FirstPerId, Kept, AllSettled, Ids, Id, KindPart;
      WorkloadIdIsNoConfigId(w);
      ghost var toClaim := (claim: string) => Edge(WorkloadId(w), Id("PVC", w.namespace, claim), UsesStorage);
      for j := 0 to |w.pvcs|
        invariant Valid()
        invariant proposed == old(proposed) + Map(toClaim, w.pvcs[..j])
      {
        MapNext(toClaim, w.pvcs, j);
        IdStartsWithKind("PVC", w.namespace, w.pvcs[j]);
        AddEdge(WorkloadId(w), Id("PVC", w.namespace, w.pvcs[j]), UsesStorage);
      }
      assert w.pvcs[..|w.pvcs|] == w.pvcs;
    }

    method LinkNodes(w: Workload)
      requires Valid()
      modifies this`edges, this`proposed
      ensures Valid()
      ensures proposed == old(proposed) + NodeEdges(w)
    {
      hide FirstPerId, Kept, AllSettled, Ids, Id, KindPart;
      WorkloadIdIsNoConfigId(w);
      ghost var toNode := (node: string) => Edge(WorkloadId(w), Id("Node", "", node), RunsOn);
      for j := 0 to |w.nodes|
        invariant Valid()
        invariant proposed == old(proposed) + Map(toNode, w.nodes[..j])
      {
        MapNext(toNode, w.nodes, j);
        IdStartsWithKind("Node", "", w.nodes[j]);
        AddEdge(WorkloadId(w), Id("Node", "", w.nodes[j]), RunsOn);
      }
      assert w.nodes[..|w.nodes|] == w.nodes;
    }

    method LinkIstio(w: Workload, addons: seq<DetectedAddon>)
      requires Valid() && Resolves(addonIds, addons)
      modifies this`edges, this`proposed
      ensures Valid()
      ensures proposed == old(proposed) + IstioEdges(addons, w)
    {
      hide FirstPerId, Kept, AllSettled, Ids, Id, KindPart;
      if w.usesIstioSidecar {
        if "istio" in addonIds {
          WorkloadIdIsNoConfigId(w);
          IdStartsWithKind("Addon", "", "istio");
          AddEdge(WorkloadId(w), addonIds["istio"], DependsOn);
        }
      }
    }

    method LinkWorkloads(t: Topology)
      requires Valid() && Records(workloads, t.workloads) && Resolves(addonIds, t.detectedAddons)
      modifies this`nodes, this`known, this`offered, this`edges, this`proposed
      ensures Valid()
      ensures offered == old(offered) + FlatMap(ConfigComponents, t.workloads)
      ensures proposed == old(proposed) + AllWorkloadEdges(t.detectedAddons, t.workloads)
    {
      hide FirstPerId, Kept, AllSettled, Ids, FlatMap, ConfigComponents, ConfigEdges, StorageEdges, NodeEdges,
        IstioEdges, AllWorkloadEdges, Resolves, HasAddon;
      WorkloadsEnds(t);
      for k := 0 to |workloads|
        invariant Valid()
        invariant offered == old(offered) + FlatMap(ConfigComponents, t.workloads[..k])
        invariant proposed == old(proposed) + AllWorkloadEdges(t.detectedAddons, t.workloads[..k])
      {
        WorkloadsNext(t, k);
        assert workloads[k].workload == t.workloads[k];
        LinkConfig(workloads[k].workload);
        LinkStorage(workloads[k].workload);
        LinkNodes(workloads[k].workload);
        LinkIstio(workloads[k].workload, t.detectedAddons);
      }
    }
  }

  lemma {:induction false} WorkloadsNext(t: Topology, k: nat)
    requires k < |t.workloads|
    ensures FlatMap(ConfigComponents, t.workloads[..k + 1])
         == FlatMap(ConfigComponents, t.workloads[..k]) + ConfigComponents(t.workloads[k])
    ensures AllWorkloadEdges(t.detectedAddons, t.workloads[..k + 1])
         == AllWorkloadEdges(t.detectedAddons, t.workloads[..k]) + WorkloadEdges(t.detectedAddons, t.workloads[k])
  {
    TakeNext(t.workloads, k);
  }

  lemma {:induction false} WorkloadsEnds(t: Topology)
    ensures FlatMap(ConfigComponents, t.workloads[..0]) == []
    ensures AllWorkloadEdges(t.detectedAddons, t.workloads[..0]) == []
    ensures t.workloads[..|t.workloads|] == t.workloads
  {
  }

  method AddNodes(t: Topology) returns (b: Builder)
    ensures fresh(b) && b.InNodePass() && b.offered == PassComponents(t)
    ensures Resolves(b.addonIds, t.detectedAddons) && Records(b.workloads, t.workloads)
  {
    hide FirstPerId, Kept, AllSettled, Ids, Map, Records;
    b := new Builder();
    b.AddAddons(t);
    b.AddInfra(t);
    b.AddWorkloads(t);
    b.AddBarePods(t);
    b.AddNetwork(t);
    b.AddStorage(t);
    assert [] + Map(AddonComponent, t.detectedAddons) == Map(AddonComponent, t.detectedAddons);
  }

  /** The graph of a snapshot: the first component offered under each id, and the proposed edges both
      of whose ends exist. */
  method BuildFromSnapshot(t: Topology) returns (g: Graph)
    ensures fresh(g)
    ensures g.nodes == BuiltNodes(t) && g.edges == BuiltEdges(t)
  {
    hide FirstPerId, Kept, AllSettled, Ids, FlatMap, PassComponents, AllIngressEdges, AllServiceEdges,
      AllWorkloadEdges, Resolves, Records;
    var b := AddNodes(t);
    b.LinkIngresses(t);
    b.LinkServices(t);
    b.LinkWorkloads(t);
    assert [] + AllIngressEdges(t.detectedAddons, t.ingresses) == AllIngressEdges(t.detectedAddons, t.ingresses);
    g := new Graph(b.nodes, b.edges);
  }

  /** The add-on ids on record are exactly those of the detected add-ons. */
  ghost predicate Resolves(ids: map<string, string>, addons: seq<DetectedAddon>) {
    && (forall name :: name in ids <==> HasAddon(addons, name))
    && (forall name :: name in ids ==> ids[name] == AddonId(name))
  }

  lemma {:induction false} ResolvesNext(ids: map<string, string>, addons: seq<DetectedAddon>, i: nat)
    requires i < |addons| && Resolves(ids, addons[..i])
    ensures Resolves(ids[addons[i].name := AddonId(addons[i].name)], addons[..i + 1])
  {
    TakeNext(addons, i);
    assert addons[i] in addons[..i + 1];
    forall name ensures HasAddon(addons[..i + 1], name) <==> HasAddon(addons[..i], name) || name == addons[i].name {
      if HasAddon(addons[..i], name) {
        var a :| a in addons[..i] && a.name == name;
        assert a in addons[..i + 1];
      }
    }
  }

  /** No later node can revive an edge that was refused because this end was missing: only
      configuration nodes are added after the first edge. */
  predicate Settled(known: set<string>, id: string) {
    id in known || !IsConfigKind(KindPart(id))
  }

  predicate AllSettled(known: set<string>, edges: seq<Edge>) {
    edges == [] ||
    (AllSettled(known, edges[..|edges| - 1])
     && Settled(known, edges[|edges| - 1].from) && Settled(known, edges[|edges| - 1].to))
  }

  lemma {:induction false} KeptUnchanged(edges: seq<Edge>, known: set<string>, id: string)
    requires AllSettled(known, edges) && (edges == [] || id in known || IsConfigKind(KindPart(id)))
    ensures Kept(known + {id}, edges) == Kept(known, edges) && AllSettled(known + {id}, edges)
  {
    hide KindPart;
    if edges != [] {
      KeptUnchanged(edges[..|edges| - 1], known, id);
    }
  }

  lemma {:induction false} KeptNext(known: set<string>, edges: seq<Edge>, e: Edge)
    ensures Kept(known, edges + [e])
         == Kept(known, edges) + (if e.from in known && e.to in known then [e] else [])
    ensures AllSettled(known, edges + [e])
         == (AllSettled(known, edges) && Settled(known, e.from) && Settled(known, e.to))
  {
    hide KindPart;
    assert (edges + [e])[..|edges + [e]| - 1] == edges;
  }

  lemma {:induction false} IdsNext(nodes: seq<Component>, c: Component)
    ensures Ids(nodes + [c]) == Ids(nodes) + {c.id}
  {
    assert (nodes + [c])[..|nodes + [c]| - 1] == nodes;
  }

  lemma {:induction false} FirstPerIdNext(cs: seq<Component>, c: Component)
    ensures FirstPerId(cs + [c])
         == if c.id in Ids(FirstPerId(cs)) then FirstPerId(cs) else FirstPerId(cs) + [c]
  {
    assert (cs + [c])[..|cs + [c]| - 1] == cs;
  }
}
