/** What holds of every built graph: which components and edges it has, and that it is layered. */
module BuiltGraphs {
  import opened Collections
  import opened Components
  import opened Inventory
  import opened Projection
  import opened Walks

  /** The nodes of a snapshot's graph. */
  function BuiltNodes(t: Topology): seq<Component> {
    FirstPerId(OfferedComponents(t))
  }

  function BuiltEdges(t: Topology): seq<Edge> {
    Kept(Ids(BuiltNodes(t)), ProposedEdges(t))
  }

  /** Names and namespaces without slashes, as the cluster API requires. */
  ghost predicate SlashFreeNames(t: Topology) {
    && (forall a :: a in t.detectedAddons ==> SlashFree(a.name))
    && (forall n :: n in t.nodeWorkloads ==> SlashFree(n.name))
    && (forall w :: w in t.workloads ==> SlashFreeWorkload(w))
    && (forall p :: p in t.barePods ==> SlashFree(p.namespace) && SlashFree(p.name))
    && (forall s :: s in t.services ==> SlashFree(s.namespace) && SlashFree(s.name))
    && (forall i :: i in t.ingresses ==> SlashFree(i.namespace) && SlashFree(i.name)
                                         && forall svc :: svc in i.services ==> SlashFree(svc))
    && (forall p :: p in t.pvcs ==> SlashFree(p.namespace) && SlashFree(p.name))
  }

  ghost predicate SlashFreeWorkload(w: Workload) {
    && SlashFree(w.namespace) && SlashFree(w.name)
    && (forall ref :: ref in w.configRefs ==> SlashFree(ref.name))
    && (forall claim :: claim in w.pvcs ==> SlashFree(claim))
    && (forall node :: node in w.nodes ==> SlashFree(node))
  }

  // ----- Layers -----

  /** Ingresses are above services, services above workloads, workloads above everything else. */
  function Layer(kind: string): nat {
    if kind == "Ingress" then 3
    else if kind == "Service" then 2
    else if kind in {"Deployment", "StatefulSet", "DaemonSet", "Job", "CronJob"} then 1
    else 0
  }

  function LayerOf(id: string): (l: nat)
    ensures l <= 3
  {
    Layer(KindPart(id))
  }

  lemma {:induction false} IdLayer(kind: string, namespace: string, name: string)
    requires SlashFree(kind)
    ensures LayerOf(Id(kind, namespace, name)) == Layer(kind)
  {
    IdStartsWithKind(kind, namespace, name);
  }

  lemma {:induction false} LayerConstants()
    ensures Layer("Ingress") == 3 && Layer("Service") == 2 && Layer("Addon") == 0
    ensures Layer("ConfigMap") == 0 && Layer("Secret") == 0 && Layer("PVC") == 0 && Layer("Node") == 0
  {
  }

  lemma {:induction false} WorkloadLayer(w: Workload)
    ensures LayerOf(WorkloadId(w)) == 1
  {
    assert SlashFree(WorkloadKindName(w.kind));
    IdLayer(WorkloadKindName(w.kind), w.namespace, w.name);
  }

  lemma {:induction false} IngressEdgesMember(addons: seq<DetectedAddon>, i: IngressRef)
    ensures forall e :: e in IngressEdges(addons, i) <==>
              && e.from == Id("Ingress", i.namespace, i.name)
              && (|| (e.etype == RoutesTo
                      && exists svc :: svc in i.services && e.to == Id("Service", i.namespace, svc))
                  || (e.etype == DependsOn && i.hasTLS && HasAddon(addons, "cert-manager")
                      && e.to == AddonId("cert-manager")))
  {
    hide Id;
    MapMember((svc: string) => Edge(Id("Ingress", i.namespace, i.name), Id("Service", i.namespace, svc), RoutesTo),
              i.services);
  }

  lemma {:induction false} IngressEdgesDescend(addons: seq<DetectedAddon>, i: IngressRef, e: Edge)
    requires e in IngressEdges(addons, i)
    ensures LayerOf(e.from) > LayerOf(e.to)
  {
    hide LayerOf, Layer, Id;
    LayerConstants();
    IngressEdgesMember(addons, i);
    IdLayer("Ingress", i.namespace, i.name);
    if svc :| svc in i.services && e.to == Id("Service", i.namespace, svc) {
      IdLayer("Service", i.namespace, svc);
    } else {
      IdLayer("Addon", "", "cert-manager");
    }
  }

  lemma {:induction false} ServiceEdgesDescend(workloads: seq<Workload>, s: ServiceRef, e: Edge)
    requires e in ServiceEdges(workloads, s)
    ensures LayerOf(e.from) > LayerOf(e.to)
  {
    hide LayerOf, Layer, Id, LabelsMatch;
    LayerConstants();
    SelectEdgesMember(workloads, s);
    IdLayer("Service", s.namespace, s.name);
    var w :| w in workloads && Selected(s, w) && e == SelectEdge(s, w);
    WorkloadLayer(w);
  }

  lemma {:induction false} WorkloadEdgesMember(addons: seq<DetectedAddon>, w: Workload)
    ensures forall e :: e in WorkloadEdges(addons, w) <==>
              && e.from == WorkloadId(w)
              && (|| (e.etype == UsesConfig
                      && exists ref :: ref in w.configRefs && e.to == ConfigComponent(w, ref).id)
                  || (e.etype == UsesStorage
                      && exists claim :: claim in w.pvcs && e.to == Id("PVC", w.namespace, claim))
                  || (e.etype == RunsOn && exists node :: node in w.nodes && e.to == Id("Node", "", node))
                  || (e.etype == DependsOn && w.usesIstioSidecar && HasAddon(addons, "istio")
                      && e.to == AddonId("istio")))
  {
    hide Id, WorkloadId, ConfigComponent;
    MapMember((ref: ConfigRef) => Edge(WorkloadId(w), ConfigComponent(w, ref).id, UsesConfig), w.configRefs);
    MapMember((claim: string) => Edge(WorkloadId(w), Id("PVC", w.namespace, claim), UsesStorage), w.pvcs);
    MapMember((node: string) => Edge(WorkloadId(w), Id("Node", "", node), RunsOn), w.nodes);
  }

  lemma {:induction false} ClusterKinds()
    ensures SlashFree("PVC") && SlashFree("Node") && SlashFree("Addon")
  {
  }

  lemma {:induction false} WorkloadEdgesDescend(addons: seq<DetectedAddon>, w: Workload, e: Edge)
    requires e in WorkloadEdges(addons, w)
    ensures LayerOf(e.from) > LayerOf(e.to)
  {
    hide LayerOf, Layer, Id, WorkloadId, SlashFree, WorkloadEdges, HasAddon, ConfigKindName;
    assert SlashFree("PVC") && SlashFree("Node") && SlashFree("Addon") by { ClusterKinds(); }
    LayerConstants();
    WorkloadEdgesMember(addons, w);
    WorkloadLayer(w);
    if e.etype == UsesConfig {
      var ref :| ref in w.configRefs && e.to == ConfigComponent(w, ref).id;
      ConfigKindNames(ref.kind);
      IdLayer(ConfigKindName(ref.kind), w.namespace, ref.name);
    } else if e.etype == UsesStorage {
      var claim :| claim in w.pvcs && e.to == Id("PVC", w.namespace, claim);
      IdLayer("PVC", w.namespace, claim);
    } else if e.etype == RunsOn {
      var node :| node in w.nodes && e.to == Id("Node", "", node);
      IdLayer("Node", "", node);
    } else {
      IdLayer("Addon", "", "istio");
    }
  }

  lemma {:induction false} SelectEdgesMember(workloads: seq<Workload>, s: ServiceRef)
    ensures forall e :: e in SelectEdges(workloads, s)
                   <==> exists w :: w in workloads && Selected(s, w) && e == SelectEdge(s, w)
  {
    hide Selected, SelectEdge;
    if workloads != [] {
      var rest, last := workloads[..|workloads| - 1], workloads[|workloads| - 1];
      assert workloads == rest + [last];
      SelectEdgesMember(rest, s);
    }
  }

  /** Where a proposed edge comes from. */
  lemma {:induction false} ProposedEdgesMember(t: Topology)
    ensures forall e :: e in ProposedEdges(t) <==>
              || (exists i :: i in t.ingresses && e in IngressEdges(t.detectedAddons, i))
              || (exists s :: s in t.services && e in ServiceEdges(t.workloads, s))
              || (exists w :: w in t.workloads && e in WorkloadEdges(t.detectedAddons, w))
  {
    hide IngressEdges, ServiceEdges, WorkloadEdges;
    FlatMapMember((i: IngressRef) => IngressEdges(t.detectedAddons, i), t.ingresses);
    FlatMapMember((s: ServiceRef) => ServiceEdges(t.workloads, s), t.services);
    FlatMapMember((w: Workload) => WorkloadEdges(t.detectedAddons, w), t.workloads);
  }

  lemma {:induction false} KeptMember(t: Topology)
    ensures forall e :: e in BuiltEdges(t) <==>
              e in ProposedEdges(t) && e.from in Ids(OfferedComponents(t)) && e.to in Ids(OfferedComponents(t))
  {
    hide ProposedEdges, OfferedComponents;
    FirstPerIdKeepsIds(OfferedComponents(t));
    FilterMember((e: Edge) => e.from in Ids(BuiltNodes(t)) && e.to in Ids(BuiltNodes(t)), ProposedEdges(t));
  }

  /** Every edge goes down at least one of the four layers, whatever the names. */
  lemma {:induction false} EdgesDescend(t: Topology)
    ensures forall e :: e in BuiltEdges(t) ==> LayerOf(e.from) > LayerOf(e.to)
  {
    hide LayerOf, ProposedEdges, IngressEdges, ServiceEdges, WorkloadEdges, BuiltEdges, OfferedComponents;
    KeptMember(t);
    ProposedEdgesMember(t);
    forall e | e in BuiltEdges(t) ensures LayerOf(e.from) > LayerOf(e.to) {
      if i :| i in t.ingresses && e in IngressEdges(t.detectedAddons, i) {
        IngressEdgesDescend(t.detectedAddons, i, e);
      } else if s :| s in t.services && e in ServiceEdges(t.workloads, s) {
        ServiceEdgesDescend(t.workloads, s, e);
      } else {
        var w :| w in t.workloads && e in WorkloadEdges(t.detectedAddons, w);
        WorkloadEdgesDescend(t.detectedAddons, w, e);
      }
    }
  }

  ghost predicate Descends(edges: seq<Edge>) {
    forall e :: e in edges ==> LayerOf(e.from) > LayerOf(e.to)
  }

  /** A walk of n hops starts at least n layers above its end: no walk is longer than three hops. */
  lemma {:induction false} WalksAreShort(edges: seq<Edge>, w: seq<string>)
    requires Descends(edges) && IsWalk(edges, w)
    ensures LayerOf(w[0]) >= LayerOf(w[|w| - 1]) + |w| - 1
  {
    hide LayerOf;
    if |w| > 1 {
      Tail(map[], edges, w);
      WalksAreShort(edges, w[1..]);
    }
  }

  /** Built graphs have no cycles. */
  lemma {:induction false} BuiltIsAcyclic(t: Topology)
    ensures Descends(BuiltEdges(t)) && Acyclic(BuiltEdges(t))
    ensures forall w :: IsWalk(BuiltEdges(t), w) ==> |w| <= 4
  {
    hide BuiltEdges, LayerOf, Linked;
    EdgesDescend(t);
    var edges := BuiltEdges(t);
    forall w | IsWalk(edges, w) ensures |w| <= 4 && (|w| > 1 ==> w[0] != w[|w| - 1]) {
      WalksAreShort(edges, w);
    }
  }

  /** Ids are unique and no edge dangles, for every snapshot. */
  lemma {:induction false} BuiltIsWellFormed(t: Topology)
    ensures UniqueIds(BuiltNodes(t))
    ensures forall e :: e in BuiltEdges(t) ==> e.from in Ids(BuiltNodes(t)) && e.to in Ids(BuiltNodes(t))
  {
    hide BuiltEdges, OfferedComponents;
    FirstPerIdKeepsIds(OfferedComponents(t));
    KeptMember(t);
  }

  // ----- The edge relation -----

  ghost predicate HasService(t: Topology, namespace: string, name: string) {
    exists s :: s in t.services && s.namespace == namespace && s.name == name
  }

  ghost predicate HasPVC(t: Topology, namespace: string, name: string) {
    exists p :: p in t.pvcs && p.namespace == namespace && p.name == name
  }

  ghost predicate HasNode(t: Topology, name: string) {
    exists n :: n in t.nodeWorkloads && n.name == name
  }

  ghost predicate IngressDependency(t: Topology, i: IngressRef, e: Edge) {
    && e.from == Id("Ingress", i.namespace, i.name)
    && (|| (e.etype == RoutesTo
            && exists svc :: svc in i.services && HasService(t, i.namespace, svc)
                             && e.to == Id("Service", i.namespace, svc))
        || (e.etype == DependsOn && i.hasTLS && HasAddon(t.detectedAddons, "cert-manager")
            && e.to == AddonId("cert-manager")))
  }

  ghost predicate ServiceDependency(t: Topology, s: ServiceRef, e: Edge) {
    && e.etype == Selects && e.from == Id("Service", s.namespace, s.name)
    && s.selector != map[]
    && exists w :: w in t.workloads && w.namespace == s.namespace && LabelsMatch(s.selector, w.podLabels)
                   && e.to == WorkloadId(w)
  }

  ghost predicate WorkloadDependency(t: Topology, w: Workload, e: Edge) {
    && e.from == WorkloadId(w)
    && (|| (e.etype == UsesConfig
            && exists ref :: ref in w.configRefs && e.to == Id(ConfigKindName(ref.kind), w.namespace, ref.name))
        || (e.etype == UsesStorage
            && exists claim :: claim in w.pvcs && HasPVC(t, w.namespace, claim)
                               && e.to == Id("PVC", w.namespace, claim))
        || (e.etype == RunsOn
            && exists node :: node in w.nodes && HasNode(t, node) && e.to == Id("Node", "", node))
        || (e.etype == DependsOn && w.usesIstioSidecar && HasAddon(t.detectedAddons, "istio")
            && e.to == AddonId("istio")))
  }

  /** The dependencies of the snapshot, said without ids being looked up. */
  ghost predicate Dependency(t: Topology, e: Edge) {
    || (exists i :: i in t.ingresses && IngressDependency(t, i, e))
    || (exists s :: s in t.services && ServiceDependency(t, s, e))
    || (exists w :: w in t.workloads && WorkloadDependency(t, w, e))
  }

  // ----- Which ids exist -----

  /** Add-ons and cluster nodes have ids without a namespace. */
  function IdNamespace(c: Component): string {
    if c.kind == "Addon" || c.kind == "Node" then "" else c.namespace
  }

  /** A component the snapshot offers: its id follows from its kind, namespace and name. */
  ghost predicate Offered(t: Topology, c: Component) {
    || (exists a :: a in t.detectedAddons && c == AddonComponent(a))
    || (exists n :: n in t.nodeWorkloads && c == NodeComponent(n))
    || (exists w :: w in t.workloads && c == WorkloadComponent(w))
    || (exists p :: p in t.barePods && c == BarePodComponent(p))
    || (exists s :: s in t.services && c == ServiceComponent(s))
    || (exists i :: i in t.ingresses && c == IngressComponent(i))
    || (exists p :: p in t.pvcs && c == PVCComponent(p))
    || (exists w :: w in t.workloads && c in ConfigComponents(w))
  }

  lemma {:induction false} OfferedMember(t: Topology)
    ensures forall c :: c in OfferedComponents(t) <==> Offered(t, c)
  {
    hide AddonComponent, NodeComponent, WorkloadComponent, BarePodComponent, ServiceComponent, IngressComponent,
      PVCComponent, ConfigComponents;
    MapMember(AddonComponent, t.detectedAddons);
    MapMember(NodeComponent, t.nodeWorkloads);
    MapMember(WorkloadComponent, t.workloads);
    MapMember(BarePodComponent, t.barePods);
    MapMember(ServiceComponent, t.services);
    MapMember(IngressComponent, t.ingresses);
    MapMember(PVCComponent, t.pvcs);
    FlatMapMember(ConfigComponents, t.workloads);
  }

  /** What a component's kind says of it: its id, its type, and that the snapshot has such an entity. */
  ghost predicate WellShaped(t: Topology, c: Component) {
    && SlashFree(c.kind) && c.id == Id(c.kind, IdNamespace(c), c.name)
    && (c.kind == "Service" ==> HasService(t, c.namespace, c.name))
    && (c.kind == "PVC" <==> c.ctype == TypeStorage)
    && (c.kind == "PVC" ==> HasPVC(t, c.namespace, c.name))
    && (c.kind == "Node" ==> HasNode(t, c.name))
    && (c.kind == "Addon" ==> HasAddon(t.detectedAddons, c.name))
    && (c.kind == "Addon" <==> c.ctype == TypeAddon)
    && (SlashFreeNames(t) ==> SlashFree(IdNamespace(c)) && SlashFree(c.name))
  }

  lemma {:induction false} ClusterShapes(t: Topology)
    ensures forall a :: a in t.detectedAddons ==> WellShaped(t, AddonComponent(a))
    ensures forall n :: n in t.nodeWorkloads ==> WellShaped(t, NodeComponent(n))
  {
    hide Id;
  }

  lemma {:induction false} NetworkShapes(t: Topology)
    ensures forall s :: s in t.services ==> WellShaped(t, ServiceComponent(s))
    ensures forall i :: i in t.ingresses ==> WellShaped(t, IngressComponent(i))
  {
    hide Id;
  }

  lemma {:induction false} PodShapes(t: Topology)
    ensures forall p :: p in t.barePods ==> WellShaped(t, BarePodComponent(p))
    ensures forall p :: p in t.pvcs ==> WellShaped(t, PVCComponent(p))
  {
    hide Id;
  }

  /** The names of workload kinds: slash-free and none of the other kinds. */
  lemma {:induction false} WorkloadKindNames(kind: WorkloadKind)
    ensures SlashFree(WorkloadKindName(kind))
    ensures WorkloadKindName(kind) !in {"Service", "PVC", "Node", "Addon", "Pod", "Ingress", "ConfigMap", "Secret"}
  {
  }

  lemma {:induction false} ConfigKindNames(kind: ConfigKind)
    ensures SlashFree(ConfigKindName(kind))
    ensures ConfigKindName(kind) in {"ConfigMap", "Secret"}
    ensures ConfigKindName(kind) !in {"Service", "PVC", "Node", "Addon", "Pod", "Ingress"}
    ensures Layer(ConfigKindName(kind)) == 0
  {
  }

  lemma {:induction false} WorkloadShapes(t: Topology, w: Workload)
    requires w in t.workloads
    ensures WellShaped(t, WorkloadComponent(w))
    ensures forall ref :: ref in w.configRefs ==> WellShaped(t, ConfigComponent(w, ref))
  {
    hide Id, WorkloadKindName, ConfigKindName, SlashFree;
    WorkloadKindNames(w.kind);
    forall ref | ref in w.configRefs ensures WellShaped(t, ConfigComponent(w, ref)) {
      ConfigKindNames(ref.kind);
    }
  }

  lemma {:induction false} OfferedShape(t: Topology, c: Component)
    requires Offered(t, c)
    ensures WellShaped(t, c)
  {
    hide WellShaped, AddonComponent, NodeComponent, ServiceComponent, IngressComponent, BarePodComponent, PVCComponent,
      WorkloadComponent, ConfigComponent;
    ClusterShapes(t);
    NetworkShapes(t);
    PodShapes(t);
    forall w | w in t.workloads ensures WellShaped(t, WorkloadComponent(w)) {
      WorkloadShapes(t, w);
    }
    if w :| w in t.workloads && c in ConfigComponents(w) {
      MapMember((ref: ConfigRef) => ConfigComponent(w, ref), w.configRefs);
      WorkloadShapes(t, w);
    }
  }

  /** The id of a kind, namespace and name exists exactly when a component of that kind has them. */
  lemma {:induction false} IdExists(t: Topology, kind: string, namespace: string, name: string)
    requires SlashFreeNames(t) && SlashFree(kind) && SlashFree(namespace) && SlashFree(name)
    ensures Id(kind, namespace, name) in Ids(OfferedComponents(t)) <==>
              exists c :: Offered(t, c) && c.kind == kind && IdNamespace(c) == namespace && c.name == name
  {
    hide Id, Offered, SlashFreeNames;
    OfferedMember(t);
    IdsMember(OfferedComponents(t));
    var id := Id(kind, namespace, name);
    if id in Ids(OfferedComponents(t)) {
      var c :| Offered(t, c) && c.id == id;
      OfferedShape(t, c);
      IdInjective(kind, namespace, name, c.kind, IdNamespace(c), c.name);
    }
    if c :| Offered(t, c) && c.kind == kind && IdNamespace(c) == namespace && c.name == name {
      OfferedShape(t, c);
    }
  }

  lemma {:induction false} ServiceIdExists(t: Topology, namespace: string, name: string)
    requires SlashFreeNames(t) && SlashFree(namespace) && SlashFree(name)
    ensures Id("Service", namespace, name) in Ids(OfferedComponents(t)) <==> HasService(t, namespace, name)
  {
    IdExists(t, "Service", namespace, name);
    if s :| s in t.services && s.namespace == namespace && s.name == name {
      assert Offered(t, ServiceComponent(s));
    }
    if c :| Offered(t, c) && c.kind == "Service" && IdNamespace(c) == namespace && c.name == name {
      OfferedShape(t, c);
    }
  }

  lemma {:induction false} PVCIdExists(t: Topology, namespace: string, name: string)
    requires SlashFreeNames(t) && SlashFree(namespace) && SlashFree(name)
    ensures Id("PVC", namespace, name) in Ids(OfferedComponents(t)) <==> HasPVC(t, namespace, name)
  {
    IdExists(t, "PVC", namespace, name);
    if p :| p in t.pvcs && p.namespace == namespace && p.name == name {
      assert Offered(t, PVCComponent(p));
    }
    if c :| Offered(t, c) && c.kind == "PVC" && IdNamespace(c) == namespace && c.name == name {
      OfferedShape(t, c);
    }
  }

  lemma {:induction false} NodeIdExists(t: Topology, name: string)
    requires SlashFreeNames(t) && SlashFree(name)
    ensures Id("Node", "", name) in Ids(OfferedComponents(t)) <==> HasNode(t, name)
  {
    IdExists(t, "Node", "", name);
    if n :| n in t.nodeWorkloads && n.name == name {
      assert Offered(t, NodeComponent(n));
    }
    if c :| Offered(t, c) && c.kind == "Node" && IdNamespace(c) == "" && c.name == name {
      OfferedShape(t, c);
    }
  }

  lemma {:induction false} OfferedIdExists(t: Topology, c: Component)
    requires Offered(t, c)
    ensures c.id in Ids(OfferedComponents(t))
  {
    hide Offered;
    OfferedMember(t);
    IdsMember(OfferedComponents(t));
  }

  lemma {:induction false} AddonIdExists(t: Topology, name: string)
    requires HasAddon(t.detectedAddons, name)
    ensures AddonId(name) in Ids(OfferedComponents(t))
  {
    var a :| a in t.detectedAddons && a.name == name;
    OfferedIdExists(t, AddonComponent(a));
  }

  // ----- Both directions -----

  lemma {:induction false} IngressRelation(t: Topology, i: IngressRef, e: Edge)
    requires SlashFreeNames(t) && i in t.ingresses
    ensures (e in IngressEdges(t.detectedAddons, i)
             && e.from in Ids(OfferedComponents(t)) && e.to in Ids(OfferedComponents(t)))
            <==> IngressDependency(t, i, e)
  {
    hide Id, HasService, HasAddon, Ids, OfferedComponents;
    IngressEdgesMember(t.detectedAddons, i);
    OfferedIdExists(t, IngressComponent(i));
    forall svc | svc in i.services
      ensures Id("Service", i.namespace, svc) in Ids(OfferedComponents(t)) <==> HasService(t, i.namespace, svc) {
      ServiceIdExists(t, i.namespace, svc);
    }
    if HasAddon(t.detectedAddons, "cert-manager") {
      AddonIdExists(t, "cert-manager");
    }
  }

  lemma {:induction false} ServiceRelation(t: Topology, s: ServiceRef, e: Edge)
    requires s in t.services
    ensures (e in ServiceEdges(t.workloads, s)
             && e.from in Ids(OfferedComponents(t)) && e.to in Ids(OfferedComponents(t)))
            <==> ServiceDependency(t, s, e)
  {
    hide Id, WorkloadId, LabelsMatch, Ids, OfferedComponents;
    SelectEdgesMember(t.workloads, s);
    OfferedIdExists(t, ServiceComponent(s));
    forall w | w in t.workloads ensures WorkloadId(w) in Ids(OfferedComponents(t)) {
      OfferedIdExists(t, WorkloadComponent(w));
    }
    if ServiceDependency(t, s, e) {
      var w :| w in t.workloads && w.namespace == s.namespace && LabelsMatch(s.selector, w.podLabels)
               && e.to == WorkloadId(w);
      assert Selected(s, w) && e == SelectEdge(s, w);
    }
  }

  lemma {:induction false} WorkloadRelation(t: Topology, w: Workload, e: Edge)
    requires SlashFreeNames(t) && w in t.workloads
    ensures (e in WorkloadEdges(t.detectedAddons, w)
             && e.from in Ids(OfferedComponents(t)) && e.to in Ids(OfferedComponents(t)))
            <==> WorkloadDependency(t, w, e)
  {
    hide Id, WorkloadId, HasPVC, HasNode, HasAddon, Ids, OfferedComponents;
    WorkloadEdgesMember(t.detectedAddons, w);
    OfferedIdExists(t, WorkloadComponent(w));
    forall ref | ref in w.configRefs ensures ConfigComponent(w, ref).id in Ids(OfferedComponents(t)) {
      MapMember((r: ConfigRef) => ConfigComponent(w, r), w.configRefs);
      OfferedIdExists(t, ConfigComponent(w, ref));
    }
    forall claim | claim in w.pvcs
      ensures Id("PVC", w.namespace, claim) in Ids(OfferedComponents(t)) <==> HasPVC(t, w.namespace, claim) {
      PVCIdExists(t, w.namespace, claim);
    }
    forall node | node in w.nodes
      ensures Id("Node", "", node) in Ids(OfferedComponents(t)) <==> HasNode(t, node) {
      NodeIdExists(t, node);
    }
    if HasAddon(t.detectedAddons, "istio") {
      AddonIdExists(t, "istio");
    }
  }

  /** The edges of a built graph are exactly the dependencies of its snapshot. */
  lemma {:induction false} EdgesAreDependencies(t: Topology)
    requires SlashFreeNames(t)
    ensures forall e :: e in BuiltEdges(t) <==> Dependency(t, e)
  {
    hide SlashFreeNames, BuiltEdges, ProposedEdges, IngressEdges, ServiceEdges, WorkloadEdges, OfferedComponents,
      IngressDependency, ServiceDependency, WorkloadDependency, Ids;
    KeptMember(t);
    ProposedEdgesMember(t);
    forall e ensures e in BuiltEdges(t) <==> Dependency(t, e) {
      forall i | i in t.ingresses { IngressRelation(t, i, e); }
      forall s | s in t.services { ServiceRelation(t, s, e); }
      forall w | w in t.workloads { WorkloadRelation(t, w, e); }
    }
  }

  /** The nodes of a built graph are offered by the snapshot, and every offered id has its node. */
  lemma {:induction false} NodesAreOffered(t: Topology)
    ensures forall c :: c in BuiltNodes(t) ==> Offered(t, c)
    ensures forall c :: Offered(t, c) ==> c.id in Ids(BuiltNodes(t))
  {
    hide Offered, OfferedComponents;
    FirstPerIdKeepsIds(OfferedComponents(t));
    OfferedMember(t);
    IdsMember(OfferedComponents(t));
  }
}
