/** A Kubernetes cluster's state as its reader reports it, as far as alerts and restart counts use it. */
module Kube {

  datatype Node = Node(name: string, ready: bool)

  /** A deployment, statefulset or daemonset. */
  datatype Workload = Workload(namespace: string, kind: string, name: string, desired: int, available: int)

  datatype Phase = Pending | Running | Succeeded | Failed | Unknown

  datatype Container = Container(name: string, restarts: int)

  /** `workload` names the owner of a pod by its kind and name. */
  datatype Pod = Pod(
    namespace: string, name: string, uid: string, workload: string, phase: Phase, created: int,
    containers: seq<Container>)

  /** What was read at one time, in unix seconds. `error` when the API could not be read. */
  datatype ClusterState = ClusterState(
    time: int, error: bool, nodes: seq<Node>, workloads: seq<Workload>, pods: seq<Pod>)

  /** namespace/kind/name, which alerts use as their target. */
  function Key(w: Workload): string {
    w.namespace + "/" + (w.kind + "/" + w.name)
  }

  function Missing(w: Workload): nat {
    if w.desired > w.available then w.desired - w.available else 0
  }

  function WorkloadKey(p: Pod): string {
    p.namespace + "/" + p.workload
  }
}
