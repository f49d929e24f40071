/** The cluster snapshot the collector hands to the analysis, as far as the analysis reads it. */
module Inventory {
  datatype WorkloadKind = Deployment | StatefulSet | DaemonSet | Job | CronJob

  function WorkloadKindName(kind: WorkloadKind): string {
    match kind
    case Deployment => "Deployment"
    case StatefulSet => "StatefulSet"
    case DaemonSet => "DaemonSet"
    case Job => "Job"
    case CronJob => "CronJob"
  }

  datatype ConfigKind = ConfigMap | Secret

  function ConfigKindName(kind: ConfigKind): string {
    match kind
    case ConfigMap => "ConfigMap"
    case Secret => "Secret"
  }

  /** The names under which the collector reports the kinds. */
  lemma {:induction false} KindTexts()
    ensures WorkloadKindName(Deployment) == "Deployment" && WorkloadKindName(StatefulSet) == "StatefulSet"
    ensures WorkloadKindName(DaemonSet) == "DaemonSet" && WorkloadKindName(Job) == "Job"
    ensures WorkloadKindName(CronJob) == "CronJob"
    ensures ConfigKindName(ConfigMap) == "ConfigMap" && ConfigKindName(Secret) == "Secret"
  {
  }

  datatype ConfigRef = ConfigRef(kind: ConfigKind, name: string)

  datatype Workload = Workload(
    kind: WorkloadKind, namespace: string, name: string, status: string,
    podLabels: map<string, string>, configRefs: seq<ConfigRef>, pvcs: seq<string>, nodes: seq<string>,
    usesIstioSidecar: bool)

  datatype BarePod = BarePod(namespace: string, name: string, status: string)

  datatype PVCRef = PVCRef(namespace: string, name: string, phase: string, bindingMode: string)

  datatype ServiceRef = ServiceRef(namespace: string, name: string, selector: map<string, string>)

  datatype IngressRef = IngressRef(namespace: string, name: string, services: seq<string>, hasTLS: bool)

  datatype DetectedAddon = DetectedAddon(name: string, version: string, namespace: string)

  datatype NodeWorkload = NodeWorkload(name: string, status: string)

  datatype PDBIssue = PDBIssue(namespace: string, name: string)

  /** The parts of the snapshot the graph mirrors. */
  datatype Topology = Topology(
    detectedAddons: seq<DetectedAddon>, nodeWorkloads: seq<NodeWorkload>, workloads: seq<Workload>,
    barePods: seq<BarePod>, services: seq<ServiceRef>, ingresses: seq<IngressRef>, pvcs: seq<PVCRef>)

  /** The counters and capacities the score reads. */
  datatype Signals = Signals(
    totalPods: nat, notReadyPods: nat, totalRestarts: nat, restartingPods: nat,
    cpuRequests: real, cpuCapacity: real, memRequests: real, memCapacity: real,
    previousTotalPods: nat, previousRestarts: nat,
    deprecatedAPIs: nat, addonIssues: nat, pdbBlocking: bool, pdbIssues: seq<PDBIssue>)

  datatype Snapshot = Snapshot(clusterVersion: string, topology: Topology, signals: Signals)
}
