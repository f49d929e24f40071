/** What a snapshot's graph holds, in the snapshot's own fields: one node per entity, with its status. */
module SnapshotNodes {
  import opened Collections
  import opened Components
  import opened Inventory
  import opened Projection
  import opened BuiltGraphs

  /** An id belongs to one entity of its kind, as in every cluster. */
  ghost predicate DistinctIds(t: Topology) {
    && (forall a, b :: a in t.detectedAddons && b in t.detectedAddons && a.name == b.name ==> a == b)
    && (forall n, m :: n in t.nodeWorkloads && m in t.nodeWorkloads && n.name == m.name ==> n == m)
    && DistinctWorkloads(t) && DistinctPods(t) && DistinctServices(t) && DistinctIngresses(t) && DistinctClaims(t)
    && DistinctConfig(t)
  }

  ghost predicate DistinctWorkloads(t: Topology) {
    forall v, w :: v in t.workloads && w in t.workloads
                   && Id(WorkloadKindName(v.kind), v.namespace, v.name)
                      == Id(WorkloadKindName(w.kind), w.namespace, w.name) ==>
                     v == w
  }

  ghost predicate DistinctPods(t: Topology) {
    forall p, q :: p in t.barePods && q in t.barePods
                   && Id("Pod", p.namespace, p.name) == Id("Pod", q.namespace, q.name) ==>
                     p == q
  }

  ghost predicate DistinctServices(t: Topology) {
    forall r, s :: r in t.services && s in t.services
                   && Id("Service", r.namespace, r.name) == Id("Service", s.namespace, s.name) ==>
                     r == s
  }

  ghost predicate DistinctIngresses(t: Topology) {
    forall i, j :: i in t.ingresses && j in t.ingresses
                   && Id("Ingress", i.namespace, i.name) == Id("Ingress", j.namespace, j.name) ==>
                     i == j
  }

  ghost predicate DistinctClaims(t: Topology) {
    forall p, q :: p in t.pvcs && q in t.pvcs && Id("PVC", p.namespace, p.name) == Id("PVC", q.namespace, q.name) ==>
                     p == q
  }

  /** Here two references may mean the same entity. */
  ghost predicate DistinctConfig(t: Topology) {
    forall v, w, r, s :: v in t.workloads && w in t.workloads && r in v.configRefs && s in w.configRefs
                         && Id(ConfigKindName(r.kind), v.namespace, r.name)
                            == Id(ConfigKindName(s.kind), w.namespace, s.name) ==>
                           r == s && v.namespace == w.namespace
  }

  /** Exactly one node has that id, and but for its risk it is c. */
  ghost predicate HasOnly(nodes: seq<Component>, c: Component) {
    exists n :: n in nodes && n.(risk := c.risk) == c && forall m :: m in nodes && m.id == c.id ==> m == n
  }

  /** A kind says which list an offered component comes from. */
  lemma {:induction false} KindTellsList(t: Topology, c: Component)
    requires Offered(t, c)
    ensures c.kind == "Addon" ==> exists a :: a in t.detectedAddons && c == AddonComponent(a)
    ensures c.kind == "Node" ==> exists n :: n in t.nodeWorkloads && c == NodeComponent(n)
    ensures c.kind == "Pod" ==> exists p :: p in t.barePods && c == BarePodComponent(p)
    ensures c.kind == "Service" ==> exists s :: s in t.services && c == ServiceComponent(s)
    ensures c.kind == "Ingress" ==> exists i :: i in t.ingresses && c == IngressComponent(i)
    ensures c.kind == "PVC" ==> exists p :: p in t.pvcs && c == PVCComponent(p)
    ensures c.kind in {"ConfigMap", "Secret"} ==> exists w :: w in t.workloads && c in ConfigComponents(w)
    ensures c.kind !in {"Addon", "Node", "Pod", "Service", "Ingress", "PVC", "ConfigMap", "Secret"} ==>
              exists w :: w in t.workloads && c == WorkloadComponent(w)
  {
    hide Id;
    if w :| w in t.workloads && c == WorkloadComponent(w) {
      WorkloadKindNames(w.kind);
    } else if w :| w in t.workloads && c in ConfigComponents(w) {
      MapMember((ref: ConfigRef) => ConfigComponent(w, ref), w.configRefs);
      var ref :| ref in w.configRefs && c == ConfigComponent(w, ref);
      ConfigKindNames(ref.kind);
    }
  }

  lemma {:induction false} SameIdSameKind(t: Topology, c: Component, d: Component)
    requires Offered(t, c) && Offered(t, d) && c.id == d.id
    ensures c.kind == d.kind
  {
    hide Offered;
    OfferedShape(t, c);
    OfferedShape(t, d);
    IdStartsWithKind(c.kind, IdNamespace(c), c.name);
    IdStartsWithKind(d.kind, IdNamespace(d), d.name);
  }

  /** A component that no other shares its id with is the only node of that id. */
  lemma {:induction false} OnlyNode(t: Topology, c: Component)
    requires Offered(t, c) && forall d :: Offered(t, d) && d.id == c.id ==> d == c
    ensures HasOnly(BuiltNodes(t), c)
  {
    hide Offered, BuiltNodes;
    NodesAreOffered(t);
    IdsMember(BuiltNodes(t));
    var n :| n in BuiltNodes(t) && n.id == c.id;
    assert n == c;
  }

  /** An add-on is one node without a namespace in its id, with its version and its own namespace. */
  lemma {:induction false} AddonIsMirrored(t: Topology, a: DetectedAddon)
    requires DistinctIds(t) && a in t.detectedAddons
    ensures HasOnly(BuiltNodes(t),
                    Component(AddonId(a.name), "Addon", a.name, a.namespace, TypeAddon, a.version, "", 0))
  {
    hide BuiltNodes, HasOnly, Id;
    var c := AddonComponent(a);
    forall d | Offered(t, d) && d.id == c.id ensures d == c {
      SameIdSameKind(t, c, d);
      KindTellsList(t, d);
      var other :| other in t.detectedAddons && d == AddonComponent(other);
      SameSuffix("Addon", a.name, other.name);
    }
    OnlyNode(t, c);
  }

  /** A cluster node is one node without a namespace, with its status. */
  lemma {:induction false} NodeIsMirrored(t: Topology, n: NodeWorkload)
    requires DistinctIds(t) && n in t.nodeWorkloads
    ensures HasOnly(BuiltNodes(t), Component(Id("Node", "", n.name), "Node", n.name, "", TypeInfra, "", n.status, 0))
  {
    hide BuiltNodes, HasOnly, Id;
    var c := NodeComponent(n);
    forall d | Offered(t, d) && d.id == c.id ensures d == c {
      SameIdSameKind(t, c, d);
      KindTellsList(t, d);
      var other :| other in t.nodeWorkloads && d == NodeComponent(other);
      SameSuffix("Node", n.name, other.name);
    }
    OnlyNode(t, c);
  }

  /** A workload is one node, with its status. */
  lemma {:induction false} WorkloadIsMirrored(t: Topology, w: Workload)
    requires DistinctIds(t) && w in t.workloads
    ensures HasOnly(BuiltNodes(t),
                    Component(Id(WorkloadKindName(w.kind), w.namespace, w.name), WorkloadKindName(w.kind), w.name,
                              w.namespace, TypeWorkload, "", w.status, 0))
  {
    hide BuiltNodes, HasOnly, Id;
    var c := WorkloadComponent(w);
    forall d | Offered(t, d) && d.id == c.id ensures d == c {
      SameIdSameKind(t, c, d);
      WorkloadKindNames(w.kind);
      KindTellsList(t, d);
      var other :| other in t.workloads && d == WorkloadComponent(other);
    }
    OnlyNode(t, c);
  }

  /** A standalone pod is one node, with its status. */
  lemma {:induction false} BarePodIsMirrored(t: Topology, p: BarePod)
    requires DistinctIds(t) && p in t.barePods
    ensures HasOnly(BuiltNodes(t),
                    Component(Id("Pod", p.namespace, p.name), "Pod", p.name, p.namespace, TypeWorkload, "",
                              p.status, 0))
  {
    hide BuiltNodes, HasOnly, Id;
    var c := BarePodComponent(p);
    forall d | Offered(t, d) && d.id == c.id ensures d == c {
      SameIdSameKind(t, c, d);
      KindTellsList(t, d);
      var other :| other in t.barePods && d == BarePodComponent(other);
    }
    OnlyNode(t, c);
  }

  /** A service is one node. */
  lemma {:induction false} ServiceIsMirrored(t: Topology, s: ServiceRef)
    requires DistinctIds(t) && s in t.services
    ensures HasOnly(BuiltNodes(t), Component(Id("Service", s.namespace, s.name), "Service", s.name, s.namespace,
                                              TypeNetwork, "", "", 0))
  {
    hide BuiltNodes, HasOnly, Id;
    var c := ServiceComponent(s);
    forall d | Offered(t, d) && d.id == c.id ensures d == c {
      SameIdSameKind(t, c, d);
      KindTellsList(t, d);
      var other :| other in t.services && d == ServiceComponent(other);
    }
    OnlyNode(t, c);
  }

  /** An ingress is one node. */
  lemma {:induction false} IngressIsMirrored(t: Topology, i: IngressRef)
    requires DistinctIds(t) && i in t.ingresses
    ensures HasOnly(BuiltNodes(t), Component(Id("Ingress", i.namespace, i.name), "Ingress", i.name, i.namespace,
                                              TypeNetwork, "", "", 0))
  {
    hide BuiltNodes, HasOnly, Id;
    var c := IngressComponent(i);
    forall d | Offered(t, d) && d.id == c.id ensures d == c {
      SameIdSameKind(t, c, d);
      KindTellsList(t, d);
      var other :| other in t.ingresses && d == IngressComponent(other);
    }
    OnlyNode(t, c);
  }

  /** A claim is one node, with its phase; a pending one that waits for its first consumer is told apart. */
  lemma {:induction false} ClaimIsMirrored(t: Topology, p: PVCRef)
    requires DistinctClaims(t) && p in t.pvcs
    ensures var waits := p.phase == "Pending" && p.bindingMode == "WaitForFirstConsumer";
            HasOnly(BuiltNodes(t),
                    Component(Id("PVC", p.namespace, p.name), "PVC", p.name, p.namespace, TypeStorage, "",
                              if waits then "Pending (WaitForFirstConsumer)" else p.phase, 0))
  {
    hide BuiltNodes, HasOnly, Id;
    var c := PVCComponent(p);
    forall d | Offered(t, d) && d.id == c.id ensures d == c {
      SameIdSameKind(t, c, d);
      KindTellsList(t, d);
      var other :| other in t.pvcs && d == PVCComponent(other);
    }
    OnlyNode(t, c);
  }

  /** What a workload refers to is one node, in the workload's namespace. */
  lemma {:induction false} ConfigIsMirrored(t: Topology, w: Workload, ref: ConfigRef)
    requires DistinctIds(t) && w in t.workloads && ref in w.configRefs
    ensures HasOnly(BuiltNodes(t),
                    Component(Id(ConfigKindName(ref.kind), w.namespace, ref.name), ConfigKindName(ref.kind), ref.name,
                              w.namespace, TypeConfig, "", "", 0))
  {
    hide BuiltNodes, HasOnly, Id;
    var c := ConfigComponent(w, ref);
    MapMember((r: ConfigRef) => ConfigComponent(w, r), w.configRefs);
    ConfigKindNames(ref.kind);
    forall d | Offered(t, d) && d.id == c.id ensures d == c {
      SameIdSameKind(t, c, d);
      KindTellsList(t, d);
      var v :| v in t.workloads && d in ConfigComponents(v);
      MapMember((r: ConfigRef) => ConfigComponent(v, r), v.configRefs);
      var other :| other in v.configRefs && d == ConfigComponent(v, other);
    }
    OnlyNode(t, c);
  }

  lemma {:induction false} SameSuffix(kind: string, a: string, b: string)
    requires Id(kind, "", a) == Id(kind, "", b)
    ensures a == b
  {
    assert (kind + "/" + a)[|kind| + 1..] == a && (kind + "/" + b)[|kind| + 1..] == b;
  }

  /** A lost claim in the graph is a lost claim of the snapshot. */
  lemma {:induction false} LostNodeIsLostClaim(t: Topology, c: Component)
    requires c in BuiltNodes(t) && c.ctype == TypeStorage && c.status == "Lost"
    ensures exists p :: p in t.pvcs && c.namespace == p.namespace && c.name == p.name && p.phase == "Lost"
  {
    hide BuiltNodes, Id;
    NodesAreOffered(t);
    if w :| w in t.workloads && c in ConfigComponents(w) {
      MapMember((r: ConfigRef) => ConfigComponent(w, r), w.configRefs);
    }
  }

  /** One entity per kind, namespace and name, as the API server keeps them. */
  ghost predicate DistinctNames(t: Topology) {
    && (forall a, b :: a in t.detectedAddons && b in t.detectedAddons && a.name == b.name ==> a == b)
    && (forall n, m :: n in t.nodeWorkloads && m in t.nodeWorkloads && n.name == m.name ==> n == m)
    && (forall v, w :: v in t.workloads && w in t.workloads
                       && v.kind == w.kind && v.namespace == w.namespace && v.name == w.name ==>
          v == w)
    && (forall p, q :: p in t.barePods && q in t.barePods && p.namespace == q.namespace && p.name == q.name ==> p == q)
    && (forall r, s :: r in t.services && s in t.services && r.namespace == s.namespace && r.name == s.name ==> r == s)
    && (forall i, j :: i in t.ingresses && j in t.ingresses && i.namespace == j.namespace && i.name == j.name ==>
          i == j)
    && (forall p, q :: p in t.pvcs && q in t.pvcs && p.namespace == q.namespace && p.name == q.name ==> p == q)
  }

  lemma {:induction false} SlashFreeIdsAreDistinct(t: Topology)
    requires SlashFreeNames(t) && DistinctNames(t)
    ensures DistinctWorkloads(t) && DistinctConfig(t)
  {
    hide Id, SlashFree, WorkloadKindName, ConfigKindName, DistinctNames;
    forall v, w | v in t.workloads && w in t.workloads
                  && Id(WorkloadKindName(v.kind), v.namespace, v.name)
                     == Id(WorkloadKindName(w.kind), w.namespace, w.name)
      ensures v == w {
      WorkloadKindNames(v.kind);
      WorkloadKindNames(w.kind);
      IdInjective(WorkloadKindName(v.kind), v.namespace, v.name, WorkloadKindName(w.kind), w.namespace, w.name);
      SameKindName(v.kind, w.kind);
      OneWorkload(t, v, w);
    }
    forall v, w, r, s | v in t.workloads && w in t.workloads && r in v.configRefs && s in w.configRefs
                        && Id(ConfigKindName(r.kind), v.namespace, r.name)
                           == Id(ConfigKindName(s.kind), w.namespace, s.name)
      ensures r == s && v.namespace == w.namespace {
      ConfigKindNames(r.kind);
      ConfigKindNames(s.kind);
      IdInjective(ConfigKindName(r.kind), v.namespace, r.name, ConfigKindName(s.kind), w.namespace, s.name);
      SameConfigKindName(r.kind, s.kind);
    }
  }

  lemma {:induction false} OneWorkload(t: Topology, v: Workload, w: Workload)
    requires DistinctNames(t) && v in t.workloads && w in t.workloads
    requires v.kind == w.kind && v.namespace == w.namespace && v.name == w.name
    ensures v == w
  {
  }

  lemma {:induction false} SameKindName(kind: WorkloadKind, kind': WorkloadKind)
    requires WorkloadKindName(kind) == WorkloadKindName(kind')
    ensures kind == kind'
  {
    KindTexts();
  }

  lemma {:induction false} SameConfigKindName(kind: ConfigKind, kind': ConfigKind)
    requires ConfigKindName(kind) == ConfigKindName(kind')
    ensures kind == kind'
  {
    KindTexts();
  }

  lemma {:induction false} SameIdSameName(kind: string, namespace: string, name: string, namespace': string,
                                          name': string)
    requires SlashFree(kind) && SlashFree(namespace) && SlashFree(name) && SlashFree(namespace') && SlashFree(name')
    ensures Id(kind, namespace, name) == Id(kind, namespace', name') ==> namespace == namespace' && name == name'
  {
    if Id(kind, namespace, name) == Id(kind, namespace', name') {
      IdInjective(kind, namespace, name, kind, namespace', name');
    }
  }

  /** With slash-free names that makes the ids distinct. */
  lemma {:induction false} NamesMakeIdsDistinct(t: Topology)
    requires SlashFreeNames(t) && DistinctNames(t)
    ensures DistinctIds(t)
  {
    SlashFreeIdsAreDistinct(t);
    assert SlashFree("Pod") && SlashFree("Service") && SlashFree("Ingress") && SlashFree("PVC");
    hide Id, SlashFree, DistinctWorkloads, DistinctConfig;
    forall p, q | p in t.barePods && q in t.barePods {
      SameIdSameName("Pod", p.namespace, p.name, q.namespace, q.name);
    }
    forall r, s | r in t.services && s in t.services {
      SameIdSameName("Service", r.namespace, r.name, s.namespace, s.name);
    }
    forall i, j | i in t.ingresses && j in t.ingresses {
      SameIdSameName("Ingress", i.namespace, i.name, j.namespace, j.name);
    }
    forall p, q | p in t.pvcs && q in t.pvcs { SameIdSameName("PVC", p.namespace, p.name, q.namespace, q.name); }
  }
}
