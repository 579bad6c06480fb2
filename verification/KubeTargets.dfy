/** What a Kubernetes rule checks in a cluster's state: its nodes, or its workloads together with pods
    of their own, each with its value. */
module KubeTargets {
  import opened Basics
  import opened Kube
  import Alerting

  datatype Target = Target(name: string, value: int)

  predicate InNamespace(wanted: string, namespace: string) {
    wanted == "" || wanted == namespace
  }

  function AddKey(keys: seq<string>, key: string): seq<string> {
    if key in keys then keys else keys + [key]
  }

  function WorkloadKeys(workloads: seq<Workload>, wanted: string): seq<string> {
    if workloads == [] then []
    else
      var before := WorkloadKeys(Front(workloads), wanted);
      if InNamespace(wanted, Last(workloads).namespace) then AddKey(before, Key(Last(workloads))) else before
  }

  function PodKeys(keys: seq<string>, pods: seq<Pod>, wanted: string): seq<string> {
    if pods == [] then keys
    else
      var before := PodKeys(keys, Front(pods), wanted);
      if InNamespace(wanted, Last(pods).namespace) then AddKey(before, WorkloadKey(Last(pods))) else before
  }

  function PodsOf(pods: seq<Pod>, key: string): seq<Pod> {
    if pods == [] then []
    else PodsOf(Front(pods), key) + if WorkloadKey(Last(pods)) == key then [Last(pods)] else []
  }

  function PendingIn(pods: seq<Pod>): nat {
    if pods == [] then 0 else PendingIn(Front(pods)) + if Last(pods).phase.Pending? then 1 else 0
  }

  function NodeTargets(nodes: seq<Node>): seq<Target> {
    if nodes == [] then [] else NodeTargets(Front(nodes)) + [Target(Last(nodes).name, if Last(nodes).ready then 0 else 1)]
  }

  function WorkloadTargets(workloads: seq<Workload>, wanted: string): seq<Target> {
    if workloads == [] then []
    else WorkloadTargets(Front(workloads), wanted)
         + if InNamespace(wanted, Last(workloads).namespace) then [Target(Key(Last(workloads)), Missing(Last(workloads)))] else []
  }

  function PendingTargets(keys: seq<string>, pods: seq<Pod>): seq<Target> {
    if keys == [] then []
    else PendingTargets(Front(keys), pods) + [Target(Last(keys), PendingIn(PodsOf(pods, Last(keys))))]
  }

  function RestartTargets(keys: seq<string>, restarts: map<string, int>): seq<Target> {
    if keys == [] then []
    else RestartTargets(Front(keys), restarts) + [Target(Last(keys), if Last(keys) in restarts then restarts[Last(keys)] else 0)]
  }

  /** The targets of a rule by its metric. */
  function Targets(metric: Alerting.Metric, wanted: string, state: ClusterState, restarts: map<string, int>): seq<Target> {
    var keys := PodKeys(WorkloadKeys(state.workloads, wanted), state.pods, wanted);
    match metric
    case KubeNode => NodeTargets(state.nodes)
    case KubeWorkload => WorkloadTargets(state.workloads, wanted)
    case KubePending => PendingTargets(keys, state.pods)
    case KubeRestarts => RestartTargets(keys, restarts)
    case _ => []
  }

  /** The pods that belong to a key. */
  lemma {:induction false} PodsOfAre(pods: seq<Pod>, key: string, pod: Pod)
    ensures multiset(PodsOf(pods, key))[pod] == if pod.namespace + "/" + pod.workload == key then multiset(pods)[pod] else 0
  {
    if pods != [] {
      PodsOfAre(Front(pods), key, pod);
      assert pods == Front(pods) + [Last(pods)];
    }
  }

  // ---------------------------------------------------------------- the algorithm

  method CollectKeys(workloads: seq<Workload>, pods: seq<Pod>, wanted: string) returns (keys: seq<string>,
                     groups: map<string, seq<Pod>>)
    ensures keys == PodKeys(WorkloadKeys(workloads, wanted), pods, wanted)
    ensures groups.Keys == set key | key in keys
    ensures forall key :: key in groups ==> groups[key] == PodsOf(pods, key)
  {
    keys, groups := [], map[];
    for i := 0 to |workloads|
      invariant keys == WorkloadKeys(workloads[..i], wanted) && groups.Keys == set key | key in keys
      invariant forall key :: key in groups ==> groups[key] == []
    {
      assert Front(workloads[..i + 1]) == workloads[..i];
      if InNamespace(wanted, workloads[i].namespace) && Key(workloads[i]) !in groups {
        keys, groups := keys + [Key(workloads[i])], groups[Key(workloads[i]) := []];
      }
    }
    assert workloads[..|workloads|] == workloads && pods[..|pods|] == pods;
    for i := 0 to |pods|
      invariant keys == PodKeys(WorkloadKeys(workloads, wanted), pods[..i], wanted) && groups.Keys == set key | key in keys
      invariant forall key :: key in groups ==> groups[key] == []
    {
      assert Front(pods[..i + 1]) == pods[..i];
      if InNamespace(wanted, pods[i].namespace) && WorkloadKey(pods[i]) !in groups {
        keys, groups := keys + [WorkloadKey(pods[i])], groups[WorkloadKey(pods[i]) := []];
      }
    }
    for i := 0 to |pods|
      invariant groups.Keys == set key | key in keys
      invariant forall key :: key in groups ==> groups[key] == PodsOf(pods[..i], key)
    {
      assert Front(pods[..i + 1]) == pods[..i];
      if WorkloadKey(pods[i]) in groups {
        groups := groups[WorkloadKey(pods[i]) := groups[WorkloadKey(pods[i])] + [pods[i]]];
      }
    }
  }

  method CountPending(pods: seq<Pod>) returns (count: nat)
    ensures count == PendingIn(pods)
  {
    count := 0;
    for i := 0 to |pods|
      invariant count == PendingIn(pods[..i])
    {
      assert Front(pods[..i + 1]) == pods[..i];
      if pods[i].phase.Pending? {
        count := count + 1;
      }
    }
    assert pods[..|pods|] == pods;
  }

  /** The targets of a pending rule: its keys, and how many of each key's pods are pending. */
  method PendingRuleTargets(state: ClusterState, wanted: string) returns (targets: seq<Target>)
    ensures targets == Targets(Alerting.KubePending, wanted, state, map[])
  {
    var keys, groups := CollectKeys(state.workloads, state.pods, wanted);
    targets := [];
    for i := 0 to |keys|
      invariant targets == PendingTargets(keys[..i], state.pods)
    {
      assert Front(keys[..i + 1]) == keys[..i] && keys[i] in groups;
      var pending := CountPending(groups[keys[i]]);
      targets := targets + [Target(keys[i], pending)];
    }
    assert keys[..|keys|] == keys;
  }

  // ---------------------------------------------------------------- every pending pod counts once

  function Names(targets: seq<Target>): seq<string> {
    seq(|targets|, i requires 0 <= i < |targets| => targets[i].name)
  }

  function Total(targets: seq<Target>): int {
    if targets == [] then 0 else Total(Front(targets)) + Last(targets).value
  }

  /** The pending pods of a namespace. */
  function PendingPods(pods: seq<Pod>, wanted: string): nat {
    if pods == [] then 0
    else PendingPods(Front(pods), wanted)
         + if Last(pods).phase.Pending? && (wanted == "" || Last(pods).namespace == wanted) then 1 else 0
  }

  lemma {:induction false} WorkloadKeysDistinct(workloads: seq<Workload>, wanted: string)
    ensures Distinct(WorkloadKeys(workloads, wanted))
  {
    if workloads != [] {
      WorkloadKeysDistinct(Front(workloads), wanted);
    }
  }

  lemma {:induction false} PodKeysDistinct(keys: seq<string>, pods: seq<Pod>, wanted: string)
    requires Distinct(keys)
    ensures Distinct(PodKeys(keys, pods, wanted))
  {
    if pods != [] {
      PodKeysDistinct(keys, Front(pods), wanted);
    }
  }

  /** A key comes from a workload or a pod of the namespace. */
  ghost predicate Sourced(key: string, workloads: seq<Workload>, pods: seq<Pod>, wanted: string) {
    || (exists w :: w in workloads && (wanted == "" || w.namespace == wanted) && Key(w) == key)
    || (exists p :: p in pods && (wanted == "" || p.namespace == wanted) && WorkloadKey(p) == key)
  }

  lemma {:induction false} WorkloadKeysSourced(workloads: seq<Workload>, wanted: string, key: string)
    requires key in WorkloadKeys(workloads, wanted)
    ensures exists w :: w in workloads && (wanted == "" || w.namespace == wanted) && Key(w) == key
  {
    assert workloads == Front(workloads) + [Last(workloads)];
    if key in WorkloadKeys(Front(workloads), wanted) {
      WorkloadKeysSourced(Front(workloads), wanted, key);
    }
  }

  lemma {:induction false} PodKeysSourced(workloads: seq<Workload>, pods: seq<Pod>, wanted: string, key: string)
    requires key in PodKeys(WorkloadKeys(workloads, wanted), pods, wanted)
    ensures Sourced(key, workloads, pods, wanted)
  {
    if pods == [] {
      WorkloadKeysSourced(workloads, wanted, key);
    } else {
      assert pods == Front(pods) + [Last(pods)];
      if key in PodKeys(WorkloadKeys(workloads, wanted), Front(pods), wanted) {
        PodKeysSourced(workloads, Front(pods), wanted, key);
      }
    }
  }

  lemma {:induction false} WorkloadKeysComplete(workloads: seq<Workload>, wanted: string, i: nat)
    requires i < |workloads| && InNamespace(wanted, workloads[i].namespace)
    ensures Key(workloads[i]) in WorkloadKeys(workloads, wanted)
  {
    if i < |workloads| - 1 {
      WorkloadKeysComplete(Front(workloads), wanted, i);
    }
  }

  lemma {:induction false} PodKeysKeep(keys: seq<string>, pods: seq<Pod>, wanted: string, key: string)
    requires key in keys
    ensures key in PodKeys(keys, pods, wanted)
  {
    if pods != [] {
      PodKeysKeep(keys, Front(pods), wanted, key);
    }
  }

  /** The keys are those of the workloads and the pods of the namespace, and an empty namespace is every
      one. */
  lemma KeysAre(workloads: seq<Workload>, pods: seq<Pod>, wanted: string, key: string)
    ensures key in PodKeys(WorkloadKeys(workloads, wanted), pods, wanted) <==> Sourced(key, workloads, pods, wanted)
  {
    var keys := WorkloadKeys(workloads, wanted);
    if key in PodKeys(keys, pods, wanted) {
      PodKeysSourced(workloads, pods, wanted, key);
    }
    if w :| w in workloads && (wanted == "" || w.namespace == wanted) && Key(w) == key {
      var i :| 0 <= i < |workloads| && workloads[i] == w;
      WorkloadKeysComplete(workloads, wanted, i);
      PodKeysKeep(keys, pods, wanted, key);
    }
    if p :| p in pods && (wanted == "" || p.namespace == wanted) && WorkloadKey(p) == key {
      var i :| 0 <= i < |pods| && pods[i] == p;
      PodKeysComplete(keys, pods, wanted, i);
    }
  }

  lemma {:induction false} PodKeysComplete(keys: seq<string>, pods: seq<Pod>, wanted: string, i: nat)
    requires i < |pods| && InNamespace(wanted, pods[i].namespace)
    ensures WorkloadKey(pods[i]) in PodKeys(keys, pods, wanted)
  {
    if i < |pods| - 1 {
      PodKeysComplete(keys, Front(pods), wanted, i);
    }
  }

  ghost predicate SlashFree(state: ClusterState) {
    && (forall w :: w in state.workloads ==> '/' !in w.namespace)
    && (forall p :: p in state.pods ==> '/' !in p.namespace)
  }

  /** A pod goes with the workload that owns it, and with no other. */
  lemma OwnerHasKey(p: Pod, w: Workload)
    requires '/' !in p.namespace && '/' !in w.namespace
    ensures WorkloadKey(p) == Key(w) <==> p.namespace == w.namespace && p.workload == w.kind + "/" + w.name
  {
    if WorkloadKey(p) == Key(w) {
      JoinInjective('/', p.namespace, p.workload, w.namespace, w.kind + "/" + w.name);
    }
  }

  /** A pod's key is among the rule's keys exactly when the pod is in the rule's namespace. */
  lemma KeyedIffInNamespace(state: ClusterState, wanted: string, i: nat)
    requires SlashFree(state) && i < |state.pods|
    ensures WorkloadKey(state.pods[i]) in PodKeys(WorkloadKeys(state.workloads, wanted), state.pods, wanted)
       <==> wanted == "" || state.pods[i].namespace == wanted
  {
    var pod := state.pods[i];
    var keys := PodKeys(WorkloadKeys(state.workloads, wanted), state.pods, wanted);
    if InNamespace(wanted, pod.namespace) {
      PodKeysComplete(WorkloadKeys(state.workloads, wanted), state.pods, wanted, i);
    }
    if WorkloadKey(pod) in keys {
      PodKeysSourced(state.workloads, state.pods, wanted, WorkloadKey(pod));
      if w :| w in state.workloads && (wanted == "" || w.namespace == wanted) && Key(w) == WorkloadKey(pod) {
        OwnerHasKey(pod, w);
      } else {
        var p :| p in state.pods && (wanted == "" || p.namespace == wanted) && WorkloadKey(p) == WorkloadKey(pod);
        JoinInjective('/', p.namespace, p.workload, pod.namespace, pod.workload);
      }
    }
  }

  function PendingKeyed(pods: seq<Pod>, keys: seq<string>): nat {
    if pods == [] then 0
    else PendingKeyed(Front(pods), keys) + if Last(pods).phase.Pending? && WorkloadKey(Last(pods)) in keys then 1 else 0
  }

  lemma PendingOfKeyMore(pods: seq<Pod>, key: string)
    requires pods != []
    ensures PendingIn(PodsOf(pods, key))
         == PendingIn(PodsOf(Front(pods), key)) + if Last(pods).phase.Pending? && WorkloadKey(Last(pods)) == key then 1 else 0
  {
    if WorkloadKey(Last(pods)) == key {
      assert Front(PodsOf(pods, key)) == PodsOf(Front(pods), key);
    } else {
      assert PodsOf(pods, key) == PodsOf(Front(pods), key);
    }
  }

  lemma TotalMore(keys: seq<string>, pods: seq<Pod>)
    requires keys != []
    ensures Total(PendingTargets(keys, pods)) == Total(PendingTargets(Front(keys), pods)) + PendingIn(PodsOf(pods, Last(keys)))
  {
    assert Front(PendingTargets(keys, pods)) == PendingTargets(Front(keys), pods);
  }

  lemma {:induction false} OnePodMore(keys: seq<string>, pods: seq<Pod>)
    requires pods != [] && Distinct(keys)
    ensures Total(PendingTargets(keys, pods))
         == Total(PendingTargets(keys, Front(pods))) + if Last(pods).phase.Pending? && WorkloadKey(Last(pods)) in keys then 1 else 0
    decreases |keys|
  {
    if keys != [] {
      DistinctFront(keys);
      OnePodMore(Front(keys), pods);
      TotalMore(keys, pods);
      TotalMore(keys, Front(pods));
      PendingOfKeyMore(pods, Last(keys));
      InFrontOrLast(keys, WorkloadKey(Last(pods)));
    }
  }

  lemma {:induction false} NoPodsNoPending(keys: seq<string>)
    ensures Total(PendingTargets(keys, [])) == 0
  {
    if keys != [] {
      NoPodsNoPending(Front(keys));
      assert Front(PendingTargets(keys, [])) == PendingTargets(Front(keys), []);
    }
  }

  lemma {:induction false} TotalIsKeyed(keys: seq<string>, pods: seq<Pod>)
    requires Distinct(keys)
    ensures Total(PendingTargets(keys, pods)) == PendingKeyed(pods, keys)
    decreases |pods|
  {
    if pods == [] {
      NoPodsNoPending(keys);
    } else {
      TotalIsKeyed(keys, Front(pods));
      OnePodMore(keys, pods);
    }
  }

  lemma {:induction false} KeyedIsPending(pods: seq<Pod>, keys: seq<string>, wanted: string)
    requires forall i :: 0 <= i < |pods| ==> (WorkloadKey(pods[i]) in keys <==> InNamespace(wanted, pods[i].namespace))
    ensures PendingKeyed(pods, keys) == PendingPods(pods, wanted)
  {
    if pods != [] {
      assert Last(pods) == pods[|pods| - 1];
      assert forall i :: 0 <= i < |Front(pods)| ==> Front(pods)[i] == pods[i];
      KeyedIsPending(Front(pods), keys, wanted);
    }
  }

  lemma {:induction false} PendingNames(keys: seq<string>, pods: seq<Pod>)
    ensures Names(PendingTargets(keys, pods)) == keys
  {
    if keys != [] {
      PendingNames(Front(keys), pods);
      assert keys == Front(keys) + [Last(keys)];
      assert Names(PendingTargets(keys, pods)) == Names(PendingTargets(Front(keys), pods)) + [Last(keys)];
    }
  }

  /** A pending rule's targets are distinct, and their values add up to exactly the pending pods of
      the rule's namespace: no pod is missed and none counts twice. */
  lemma PendingPodsCountOnce(state: ClusterState, wanted: string)
    requires SlashFree(state)
    ensures var targets := Targets(Alerting.KubePending, wanted, state, map[]);
            Distinct(Names(targets)) && Total(targets) == PendingPods(state.pods, wanted)
  {
    var keys := PodKeys(WorkloadKeys(state.workloads, wanted), state.pods, wanted);
    WorkloadKeysDistinct(state.workloads, wanted);
    PodKeysDistinct(WorkloadKeys(state.workloads, wanted), state.pods, wanted);
    PendingNames(keys, state.pods);
    TotalIsKeyed(keys, state.pods);
    forall i | 0 <= i < |state.pods|
      ensures WorkloadKey(state.pods[i]) in keys <==> InNamespace(wanted, state.pods[i].namespace)
    {
      KeyedIffInNamespace(state, wanted, i);
    }
    KeyedIsPending(state.pods, keys, wanted);
  }

  // ---------------------------------------------------------------- what each rule checks

  /** A node rule has one target per node, in order, of value one when the node is not ready. */
  lemma {:induction false} NodeTargetsAre(nodes: seq<Node>)
    ensures |NodeTargets(nodes)| == |nodes|
    ensures forall i :: 0 <= i < |nodes| ==>
      NodeTargets(nodes)[i].name == nodes[i].name && NodeTargets(nodes)[i].value == if nodes[i].ready then 0 else 1
  {
    if nodes != [] {
      NodeTargetsAre(Front(nodes));
      assert Last(nodes) == nodes[|nodes| - 1] && forall i :: 0 <= i < |Front(nodes)| ==> Front(nodes)[i] == nodes[i];
    }
  }

  /** A workload rule has a target for each workload of its namespace, with the replicas it lacks. */
  lemma {:induction false} WorkloadTargetsAre(workloads: seq<Workload>, wanted: string, target: Target)
    ensures target in WorkloadTargets(workloads, wanted) <==>
              exists w :: && w in workloads && (wanted == "" || w.namespace == wanted) && target.name == Key(w)
                          && target.value == if w.available < w.desired then w.desired - w.available else 0
  {
    if workloads != [] {
      WorkloadTargetsAre(Front(workloads), wanted, target);
      assert workloads == Front(workloads) + [Last(workloads)];
    }
  }

  /** A restart rule has a target for each key, with the restarts counted for it. */
  lemma {:induction false} RestartTargetsAre(keys: seq<string>, restarts: map<string, int>)
    ensures Names(RestartTargets(keys, restarts)) == keys
    ensures forall i :: 0 <= i < |keys| ==>
      && (keys[i] in restarts ==> RestartTargets(keys, restarts)[i].value == restarts[keys[i]])
      && (keys[i] !in restarts ==> RestartTargets(keys, restarts)[i].value == 0)
  {
    if keys != [] {
      RestartTargetsAre(Front(keys), restarts);
      var before := RestartTargets(Front(keys), restarts);
      assert forall i :: 0 <= i < |before| ==> Names(before)[i] == Front(keys)[i] == keys[i];
      assert forall i :: 0 <= i < |before| ==> RestartTargets(keys, restarts)[i] == before[i];
    }
  }

  /** A restart rule checks each workload and pod owner of its namespace once, by its own restarts. */
  lemma RestartRuleChecks(state: ClusterState, wanted: string, restarts: map<string, int>, key: string)
    ensures var targets := Targets(Alerting.KubeRestarts, wanted, state, restarts);
            && Distinct(Names(targets))
            && (key in Names(targets) <==> Sourced(key, state.workloads, state.pods, wanted))
            && forall t :: t in targets ==> t.value == if t.name in restarts then restarts[t.name] else 0
  {
    var keys := PodKeys(WorkloadKeys(state.workloads, wanted), state.pods, wanted);
    WorkloadKeysDistinct(state.workloads, wanted);
    PodKeysDistinct(WorkloadKeys(state.workloads, wanted), state.pods, wanted);
    KeysAre(state.workloads, state.pods, wanted, key);
    RestartTargetsAre(keys, restarts);
    var targets := RestartTargets(keys, restarts);
    forall t | t in targets ensures t.value == if t.name in restarts then restarts[t.name] else 0 {
      var i :| 0 <= i < |targets| && targets[i] == t;
      assert Names(targets)[i] == keys[i];
    }
  }

  // ---------------------------------------------------------------- what is critical

  /** Some target of that name is critical for a rule. */
  ghost predicate Trouble(rule: Alerting.Rule, targets: seq<Target>, name: string) {
    exists k :: 0 <= k < |targets| && targets[k].name == name && Alerting.RuleStatus(rule, targets[k].value as real).Critical?
  }

  lemma TroubleOneMore(rule: Alerting.Rule, targets: seq<Target>, target: Target, name: string)
    ensures Trouble(rule, targets + [target], name)
       <==> Trouble(rule, targets, name) || (target.name == name && Alerting.RuleStatus(rule, target.value as real).Critical?)
  {
    var all := targets + [target];
    assert all[|targets|] == target && forall k :: 0 <= k < |targets| ==> all[k] == targets[k];
  }

  /** A node rule is critical on a name exactly when a node of that name is not ready. */
  lemma {:induction false} NodeTroubleIffNotReady(rule: Alerting.Rule, nodes: seq<Node>, name: string)
    requires rule.metric.KubeNode?
    ensures Trouble(rule, NodeTargets(nodes), name) <==> Node(name, false) in nodes
  {
    if nodes != [] {
      NodeTroubleIffNotReady(rule, Front(nodes), name);
      InFrontOrLast(nodes, Node(name, false));
      TroubleOneMore(rule, NodeTargets(Front(nodes)), Target(Last(nodes).name, if Last(nodes).ready then 0 else 1), name);
    }
  }

  ghost predicate ShortOf(workloads: seq<Workload>, wanted: string, name: string) {
    exists w :: w in workloads && (wanted == "" || w.namespace == wanted) && Key(w) == name && w.available < w.desired
  }

  lemma ShortOfOneMore(workloads: seq<Workload>, wanted: string, name: string)
    requires workloads != []
    ensures ShortOf(workloads, wanted, name) <==>
              ShortOf(Front(workloads), wanted, name)
              || ((wanted == "" || Last(workloads).namespace == wanted) && Key(Last(workloads)) == name
                  && Last(workloads).available < Last(workloads).desired)
  {
    assert workloads == Front(workloads) + [Last(workloads)];
  }

  /** A workload rule is critical on a key exactly when a workload of that key in its namespace has
      fewer replicas available than it should. */
  lemma {:induction false} WorkloadTroubleIffShort(rule: Alerting.Rule, workloads: seq<Workload>, wanted: string, name: string)
    requires rule.metric.KubeWorkload?
    ensures Trouble(rule, WorkloadTargets(workloads, wanted), name) <==> ShortOf(workloads, wanted, name)
  {
    if workloads != [] {
      var before := WorkloadTargets(Front(workloads), wanted);
      WorkloadTroubleIffShort(rule, Front(workloads), wanted, name);
      ShortOfOneMore(workloads, wanted, name);
      TroubleOneMore(rule, before, Target(Key(Last(workloads)), Missing(Last(workloads))), name);
      assert before + [] == before;
    }
  }

  ghost predicate HasPending(pods: seq<Pod>, key: string) {
    exists p :: p in pods && p.phase == Pending && WorkloadKey(p) == key
  }

  lemma {:induction false} PendingInIff(pods: seq<Pod>, key: string)
    ensures PendingIn(PodsOf(pods, key)) > 0 <==> HasPending(pods, key)
  {
    if pods != [] {
      PendingInIff(Front(pods), key);
      PendingOfKeyMore(pods, key);
      assert pods == Front(pods) + [Last(pods)];
    }
  }

  lemma {:induction false} PendingTrouble(rule: Alerting.Rule, keys: seq<string>, pods: seq<Pod>, name: string)
    requires rule.metric.KubePending?
    ensures Trouble(rule, PendingTargets(keys, pods), name) <==> name in keys && HasPending(pods, name)
  {
    if keys != [] {
      PendingTrouble(rule, Front(keys), pods, name);
      InFrontOrLast(keys, name);
      PendingInIff(pods, Last(keys));
      TroubleOneMore(rule, PendingTargets(Front(keys), pods), Target(Last(keys), PendingIn(PodsOf(pods, Last(keys)))), name);
    }
  }

  /** A pending rule is critical on a key exactly when a pod of that key in its namespace is pending. */
  lemma PendingTroubleIffPending(rule: Alerting.Rule, state: ClusterState, wanted: string, restarts: map<string, int>, name: string)
    requires rule.metric.KubePending? && SlashFree(state)
    ensures Trouble(rule, Targets(rule.metric, wanted, state, restarts), name) <==>
              exists p :: p in state.pods && p.phase == Pending && (wanted == "" || p.namespace == wanted) && WorkloadKey(p) == name
  {
    var keys := PodKeys(WorkloadKeys(state.workloads, wanted), state.pods, wanted);
    PendingTrouble(rule, keys, state.pods, name);
    forall p | p in state.pods ensures WorkloadKey(p) in keys <==> wanted == "" || p.namespace == wanted {
      var i :| 0 <= i < |state.pods| && state.pods[i] == p;
      KeyedIffInNamespace(state, wanted, i);
    }
  }
}
