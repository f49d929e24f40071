/** What the graph built from a snapshot should hold: the components offered to it in order, and the
    edges proposed to it in order. */
module Projection {
  import opened Collections
  import opened Components
  import opened Inventory

  function AddonComponent(a: DetectedAddon): Component {
    Component(AddonId(a.name), "Addon", a.name, a.namespace, TypeAddon, a.version, "", 0)
  }

  function NodeComponent(n: NodeWorkload): Component {
    Component(Id("Node", "", n.name), "Node", n.name, "", TypeInfra, "", n.status, 0)
  }

  function WorkloadId(w: Workload): string {
    Id(WorkloadKindName(w.kind), w.namespace, w.name)
  }

  function WorkloadComponent(w: Workload): Component {
    Component(WorkloadId(w), WorkloadKindName(w.kind), w.name, w.namespace, TypeWorkload, "", w.status, 0)
  }

  function BarePodComponent(p: BarePod): Component {
    Component(Id("Pod", p.namespace, p.name), "Pod", p.name, p.namespace, TypeWorkload, "", p.status, 0)
  }

  function ServiceComponent(s: ServiceRef): Component {
    Component(Id("Service", s.namespace, s.name), "Service", s.name, s.namespace, TypeNetwork, "", "", 0)
  }

  function IngressComponent(i: IngressRef): Component {
    Component(Id("Ingress", i.namespace, i.name), "Ingress", i.name, i.namespace, TypeNetwork, "", "", 0)
  }

  /** A Pending claim that waits for its first consumer is reported apart from a stuck one. */
  function PVCStatus(p: PVCRef): string {
    if p.phase == "Pending" && p.bindingMode == "WaitForFirstConsumer"
    then "Pending (WaitForFirstConsumer)"
    else p.phase
  }

  function PVCComponent(p: PVCRef): Component {
    Component(Id("PVC", p.namespace, p.name), "PVC", p.name, p.namespace, TypeStorage, "", PVCStatus(p), 0)
  }

  function ConfigComponent(w: Workload, ref: ConfigRef): Component {
    Component(Id(ConfigKindName(ref.kind), w.namespace, ref.name), ConfigKindName(ref.kind), ref.name, w.namespace,
              TypeConfig, "", "", 0)
  }

  function ConfigComponents(w: Workload): seq<Component> {
    Map((ref: ConfigRef) => ConfigComponent(w, ref), w.configRefs)
  }

  /** The components of the node passes, in their order. */
  function PassComponents(t: Topology): seq<Component> {
    Map(AddonComponent, t.detectedAddons)
    + Map(NodeComponent, t.nodeWorkloads)
    + Map(WorkloadComponent, t.workloads)
    + Map(BarePodComponent, t.barePods)
    + Map(ServiceComponent, t.services)
    + Map(IngressComponent, t.ingresses)
    + Map(PVCComponent, t.pvcs)
  }

  /** All components offered to the graph; those a workload's configuration adds come last. */
  function OfferedComponents(t: Topology): seq<Component> {
    PassComponents(t) + FlatMap(ConfigComponents, t.workloads)
  }

  /** The first component offered under each id. */
  function FirstPerId(cs: seq<Component>): seq<Component> {
    if cs == [] then []
    else
      var rest, last := FirstPerId(cs[..|cs| - 1]), cs[|cs| - 1];
      if last.id in Ids(rest) then rest else rest + [last]
  }

  lemma {:induction false} FirstPerIdKeepsIds(cs: seq<Component>)
    ensures Ids(FirstPerId(cs)) == Ids(cs)
    ensures UniqueIds(FirstPerId(cs))
    ensures forall n :: n in FirstPerId(cs) ==> n in cs
  {
    if cs != [] {
      var rest, last := cs[..|cs| - 1], cs[|cs| - 1];
      assert cs == rest + [last];
      FirstPerIdKeepsIds(rest);
      IdsMember(FirstPerId(rest));
      if last.id !in Ids(rest) {
        assert FirstPerId(cs) == FirstPerId(rest) + [last];
        assert FirstPerId(cs)[..|FirstPerId(cs)| - 1] == FirstPerId(rest);
      }
    }
  }

  /** Of several components under one id the first is kept. */
  lemma {:induction false} FirstPerIdTakesFirst(cs: seq<Component>, n: Component)
    requires n in FirstPerId(cs)
    ensures exists i :: 0 <= i < |cs| && cs[i] == n && forall j :: 0 <= j < i ==> cs[j].id != n.id
  {
    var rest, last := cs[..|cs| - 1], cs[|cs| - 1];
    if n in FirstPerId(rest) {
      FirstPerIdTakesFirst(rest, n);
    } else {
      FirstPerIdKeepsIds(rest);
      IdsMember(rest);
      assert forall j :: 0 <= j < |rest| ==> rest[j] in rest;
    }
  }

  predicate HasAddon(addons: seq<DetectedAddon>, name: string) {
    exists a :: a in addons && a.name == name
  }

  function LabelAt(labels: map<string, string>, key: string): string {
    if key in labels then labels[key] else ""
  }

  /** Every selector entry is the label of that key, a missing label reading as the empty string. */
  predicate LabelsMatch(selector: map<string, string>, labels: map<string, string>) {
    forall k :: k in selector ==> LabelAt(labels, k) == selector[k]
  }

  /** The selector is a subset of the labels, as a cluster selects. */
  predicate IsSubset(selector: map<string, string>, labels: map<string, string>) {
    forall k :: k in selector ==> k in labels && labels[k] == selector[k]
  }

  /** A subset always matches, and a match is a subset exactly when every key that is asked to be empty is
      there. */
  lemma {:induction false} MatchIsSubsetIff(selector: map<string, string>, labels: map<string, string>)
    ensures IsSubset(selector, labels) ==> LabelsMatch(selector, labels)
    ensures LabelsMatch(selector, labels) ==>
              (IsSubset(selector, labels) <==> forall k :: k in selector && selector[k] == "" ==> k in labels)
  {
    if LabelsMatch(selector, labels) && forall k :: k in selector && selector[k] == "" ==> k in labels {
      forall k | k in selector ensures k in labels && labels[k] == selector[k] {
        assert LabelAt(labels, k) == selector[k];
      }
    }
  }

  /** The two differ: an absent label counts as an empty one. */
  lemma {:induction false} AbsentLabelMatchesEmpty(key: string)
    ensures LabelsMatch(map[key := ""], map[]) && !IsSubset(map[key := ""], map[])
  {
    assert key in map[key := ""];
  }

  function IngressEdges(addons: seq<DetectedAddon>, i: IngressRef): seq<Edge> {
    var id := Id("Ingress", i.namespace, i.name);
    Map((svc: string) => Edge(id, Id("Service", i.namespace, svc), RoutesTo), i.services)
    + (if i.hasTLS && HasAddon(addons, "cert-manager") then [Edge(id, AddonId("cert-manager"), DependsOn)] else [])
  }

  predicate Selected(s: ServiceRef, w: Workload) {
    w.namespace == s.namespace && LabelsMatch(s.selector, w.podLabels)
  }

  /** One edge per workload a service selects. */
  function SelectEdges(workloads: seq<Workload>, s: ServiceRef): seq<Edge> {
    if workloads == [] then []
    else
      var rest, last := workloads[..|workloads| - 1], workloads[|workloads| - 1];
      SelectEdges(rest, s) + (if Selected(s, last) then [SelectEdge(s, last)] else [])
  }

  function SelectEdge(s: ServiceRef, w: Workload): Edge {
    Edge(Id("Service", s.namespace, s.name), WorkloadId(w), Selects)
  }

  /** A service without a selector selects nothing. */
  function ServiceEdges(workloads: seq<Workload>, s: ServiceRef): seq<Edge> {
    if s.selector == map[] then [] else SelectEdges(workloads, s)
  }

  function ConfigEdges(w: Workload): seq<Edge> {
    Map((ref: ConfigRef) => Edge(WorkloadId(w), ConfigComponent(w, ref).id, UsesConfig), w.configRefs)
  }

  function StorageEdges(w: Workload): seq<Edge> {
    Map((claim: string) => Edge(WorkloadId(w), Id("PVC", w.namespace, claim), UsesStorage), w.pvcs)
  }

  function NodeEdges(w: Workload): seq<Edge> {
    Map((node: string) => Edge(WorkloadId(w), Id("Node", "", node), RunsOn), w.nodes)
  }

  function IstioEdges(addons: seq<DetectedAddon>, w: Workload): seq<Edge> {
    if w.usesIstioSidecar && HasAddon(addons, "istio")
    then [Edge(WorkloadId(w), AddonId("istio"), DependsOn)]
    else []
  }

  function WorkloadEdges(addons: seq<DetectedAddon>, w: Workload): seq<Edge> {
    ConfigEdges(w) + StorageEdges(w) + NodeEdges(w) + IstioEdges(addons, w)
  }

  function AllIngressEdges(addons: seq<DetectedAddon>, ings: seq<IngressRef>): seq<Edge> {
    FlatMap((i: IngressRef) => IngressEdges(addons, i), ings)
  }

  function AllServiceEdges(workloads: seq<Workload>, services: seq<ServiceRef>): seq<Edge> {
    FlatMap((s: ServiceRef) => ServiceEdges(workloads, s), services)
  }

  function AllWorkloadEdges(addons: seq<DetectedAddon>, workloads: seq<Workload>): seq<Edge> {
    FlatMap((w: Workload) => WorkloadEdges(addons, w), workloads)
  }

  lemma {:induction false} SelectEdgesNext(workloads: seq<Workload>, j: nat, s: ServiceRef)
    ensures SelectEdges(workloads[..0], s) == []
    ensures workloads[..|workloads|] == workloads
    ensures j < |workloads| ==>
              SelectEdges(workloads[..j + 1], s)
              == SelectEdges(workloads[..j], s)
                 + (if Selected(s, workloads[j]) then [SelectEdge(s, workloads[j])] else [])
  {
    if j < |workloads| {
      TakeNext(workloads, j);
    }
  }

  lemma {:induction false} AllServiceEdgesNext(t: Topology, k: nat)
    ensures AllServiceEdges(t.workloads, t.services[..0]) == []
    ensures t.services[..|t.services|] == t.services
    ensures k < |t.services| ==>
              AllServiceEdges(t.workloads, t.services[..k + 1])
              == AllServiceEdges(t.workloads, t.services[..k]) + ServiceEdges(t.workloads, t.services[k])
  {
    if k < |t.services| {
      TakeNext(t.services, k);
    }
  }

  lemma {:induction false} AllIngressEdgesNext(t: Topology, k: nat)
    ensures AllIngressEdges(t.detectedAddons, t.ingresses[..0]) == []
    ensures t.ingresses[..|t.ingresses|] == t.ingresses
    ensures k < |t.ingresses| ==>
              AllIngressEdges(t.detectedAddons, t.ingresses[..k + 1])
              == AllIngressEdges(t.detectedAddons, t.ingresses[..k]) + IngressEdges(t.detectedAddons, t.ingresses[k])
  {
    if k < |t.ingresses| {
      TakeNext(t.ingresses, k);
    }
  }

  /** All edges proposed to the graph. */
  function ProposedEdges(t: Topology): seq<Edge> {
    AllIngressEdges(t.detectedAddons, t.ingresses)
    + AllServiceEdges(t.workloads, t.services)
    + AllWorkloadEdges(t.detectedAddons, t.workloads)
  }

  /** The edges both of whose ends are known. */
  function Kept(known: set<string>, edges: seq<Edge>): seq<Edge> {
    Filter((e: Edge) => e.from in known && e.to in known, edges)
  }
}
