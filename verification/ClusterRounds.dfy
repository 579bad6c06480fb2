/** What a round over a cluster means for its nodes, workloads and pods: after a round over a state that is
    young enough, the problems noticed are exactly those the state shows. */
module ClusterRounds {
  import opened Basics
  import opened Alerting
  import opened AlertRules
  import opened AlertHistory
  import opened Evaluation
  import Kube
  import KubeTargets

  /** A state is trusted for ninety seconds, and once it is not it never is again. */
  lemma StaleStays(state: Kube.ClusterState, now: int, later: int)
    ensures IsStale(state, now) <==> now > state.time * 1_000_000_000 + 90_000_000_000
    ensures IsStale(state, now) && now <= later ==> IsStale(state, later)
  {
  }

  /** A key has a problem that is noticed: an alert is open with nothing about to resolve it, or one is
      about to open. */
  predicate Noticed(w: World, key: Key) {
    OpenAlert(w.alerts, key).Some? != Waits(w, key)
  }

  lemma CheckNotices(w: World, key: Key, interval: int, status: Status, value: real, at: int, fault: Fault)
    requires UniqueOpen(w.alerts) && !Late(w, key, at) && !fault.ReadFault?
    ensures var w' := CheckSample(w, key, interval, status, value, at, fault);
            UniqueOpen(w'.alerts) && Late(w', key, at) && (Noticed(w', key) <==> !status.Normal?)
  {
    CheckEffect(w, key, interval, status, value, at, fault);
  }

  /** Other keys are noticed as before. */
  lemma CheckLeaves(w: World, touched: Key, interval: int, status: Status, value: real, at: int, fault: Fault, key: Key)
    requires UniqueOpen(w.alerts) && touched != key
    ensures var w' := CheckSample(w, touched, interval, status, value, at, fault);
            UniqueOpen(w'.alerts) && (Late(w', key, at) <==> Late(w, key, at)) && (Noticed(w', key) <==> Noticed(w, key))
  {
    CheckFrame(w, touched, interval, status, value, at, fault, key);
    var w' := CheckSample(w, touched, interval, status, value, at, fault);
    assert OpenSeverity(w'.alerts, key).Some? == OpenSeverity(w.alerts, key).Some?;
  }

  function KeyOf(rule: Rule, target: KubeTargets.Target): Key {
    Key("", rule.name, rule.metric, target.name)
  }

  ghost predicate IsFirst(targets: seq<KubeTargets.Target>, i: nat) {
    i < |targets| && forall j :: 0 <= j < i ==> targets[j].name != targets[i].name
  }

  /** The checks of a round notice a target exactly when its value is a problem. */
  lemma {:induction false} ChecksNotice(w: World, rule: Rule, targets: seq<KubeTargets.Target>, at: int, checks: seq<Action>,
                                        faults: nat -> Fault, i: nat)
    requires AreChecks(checks, rule, targets, at, faults) && IsFirst(targets, i) && !faults(i).ReadFault?
    requires UniqueOpen(w.alerts) && !Late(w, KeyOf(rule, targets[i]), at)
    ensures var w', key := RunFrom(w, checks), KeyOf(rule, targets[i]);
            && UniqueOpen(w'.alerts) && (Late(w', key, at) <==> i < |checks|)
            && (i < |checks| ==> (Noticed(w', key) <==> !RuleStatus(rule, targets[i].value as real).Normal?))
    decreases |checks|
  {
    if checks != [] {
      var n := |checks| - 1;
      assert Last(checks) == checks[n] && forall k :: 0 <= k < n ==> Front(checks)[k] == checks[k];
      ChecksNotice(w, rule, targets, at, Front(checks), faults, i);
      CheckOfTarget(RunFrom(w, Front(checks)), rule, targets, at, n, faults(n), i);
    }
  }

  lemma CheckOfTarget(w: World, rule: Rule, targets: seq<KubeTargets.Target>, at: int, n: nat, fault: Fault, i: nat)
    requires n < |targets| && IsFirst(targets, i) && (i == n ==> !fault.ReadFault?)
    requires UniqueOpen(w.alerts) && (Late(w, KeyOf(rule, targets[i]), at) <==> i < n)
    ensures var w', key := Step(w, CheckOf(rule, targets[n], at, fault)), KeyOf(rule, targets[i]);
            && UniqueOpen(w'.alerts) && (Late(w', key, at) <==> i <= n)
            && (i < n ==> (Noticed(w', key) <==> Noticed(w, key)))
            && (i == n ==> (Noticed(w', key) <==> !RuleStatus(rule, targets[i].value as real).Normal?))
  {
    var t := targets[n];
    if i == n {
      CheckNotices(w, KeyOf(rule, t), Interval(rule), RuleStatus(rule, t.value as real), t.value as real, at, fault);
    } else if t.name != targets[i].name {
      CheckLeaves(w, KeyOf(rule, t), Interval(rule), RuleStatus(rule, t.value as real), t.value as real, at, fault,
                  KeyOf(rule, targets[i]));
    }
  }

  /** Alerts that stay under a key, open or not, keep what is found for it. */
  lemma SameOpen(alerts: seq<Alert>, alerts': seq<Alert>, key: Key)
    requires |alerts'| == |alerts| && forall i :: 0 <= i < |alerts| ==> alerts'[i].key == alerts[i].key
    requires forall i :: 0 <= i < |alerts| && alerts[i].key == key ==> alerts'[i] == alerts[i]
    ensures OpenAlert(alerts', key).Some? == OpenAlert(alerts, key).Some?
  {
    var found, found' := OpenAlert(alerts, key), OpenAlert(alerts', key);
    if found.Some? {
      assert IsOpen(alerts'[found.value]);
    }
    if found'.Some? {
      assert IsOpen(alerts[found'.value]);
    }
  }

  /** Sweeping up what is gone leaves alone what is there. */
  lemma SweepKeepsPresent(w: World, rule: Rule, present: set<string>, at: int, name: string)
    requires name in present
    ensures var key := Key("", rule.name, rule.metric, name);
            var w' := GoneRound(w, rule, present, at);
            (Noticed(w', key) <==> Noticed(w, key)) && SameAt(w.checked, w'.checked, key) && SameAt(w.pending, w'.pending, key)
  {
    var ids := OpenAlertsOf(w.alerts, rule.name, |w.alerts|);
    OpenAlertsAreListed(w.alerts, rule.name, |w.alerts|);
    GoneListResolves(w, rule, present, at, ids);
    SweptStays(w, GoneList(w, rule, present, at, ids), rule, present, at, ids, name);
  }

  lemma SweptStays(w: World, w': World, rule: Rule, present: set<string>, at: int, ids: seq<nat>, name: string)
    requires name in present && ResolvesGone(w, w', rule, present, at, ids)
    ensures var key := Key("", rule.name, rule.metric, name);
            var after := ForgetStep(w', rule, present);
            (Noticed(after, key) <==> Noticed(w, key)) && SameAt(w.checked, after.checked, key) && SameAt(w.pending, after.pending, key)
  {
    SameOpen(w.alerts, w'.alerts, Key("", rule.name, rule.metric, name));
  }

  /** After a round that succeeds on a state newer than what was checked, a target is noticed exactly when
      its value is a problem for the rule. */
  lemma RoundNotices(rule: Rule, targets: seq<KubeTargets.Target>, at: int, w: World, w': World, checks: seq<Action>,
                     looked: seq<nat>, lost: Option<nat>, faults: nat -> Fault, i: nat)
    requires RoundDone(rule, targets, at, w, w', true, checks, looked, lost, faults) && UniqueOpen(w.alerts)
    requires IsFirst(targets, i) && !faults(i).ReadFault? && !Late(w, KeyOf(rule, targets[i]), at)
    ensures Noticed(w', KeyOf(rule, targets[i])) <==> !RuleStatus(rule, targets[i].value as real).Normal?
  {
    var present := set t | t in targets :: t.name;
    ChecksNotice(w, rule, targets, at, checks, faults, i);
    assert targets[i] in targets;
    SweepKeepsPresent(RunFrom(w, checks), rule, present, at, targets[i].name);
  }

  // ---------------------------------------------------------------- nodes, workloads and pods

  /** A node that is not ready is noticed, and one that is ready is not. */
  lemma NodesAreNoticed(rule: Rule, namespace: string, state: Kube.ClusterState, restarts: Option<map<string, int>>, w: World,
                        w': World, checks: seq<Action>, looked: seq<nat>, lost: Option<nat>, faults: nat -> Fault, i: nat)
    requires rule.metric.KubeNode? && UniqueOpen(w.alerts)
    requires RoundDone(rule, TargetsOf(rule, namespace, state, restarts), state.time * SECOND, w, w', true, checks, looked, lost, faults)
    requires i < |state.nodes| && forall j :: 0 <= j < i ==> state.nodes[j].name != state.nodes[i].name
    requires !faults(i).ReadFault? && !Late(w, Key("", rule.name, KubeNode, state.nodes[i].name), state.time * SECOND)
    ensures Noticed(w', Key("", rule.name, KubeNode, state.nodes[i].name)) <==> !state.nodes[i].ready
  {
    var targets := TargetsOf(rule, namespace, state, restarts);
    KubeTargets.NodeTargetsAre(state.nodes);
    RoundNotices(rule, targets, state.time * SECOND, w, w', checks, looked, lost, faults, i);
  }

  /** A target that is the only one of its name is noticed exactly when there is trouble with the name. */
  lemma TroubleIsNoticed(rule: Rule, targets: seq<KubeTargets.Target>, at: int, w: World, w': World, checks: seq<Action>,
                         looked: seq<nat>, lost: Option<nat>, faults: nat -> Fault, i: nat)
    requires rule.metric.KubeWorkload? || rule.metric.KubePending?
    requires RoundDone(rule, targets, at, w, w', true, checks, looked, lost, faults) && UniqueOpen(w.alerts)
    requires Distinct(KubeTargets.Names(targets)) && i < |targets|
    requires !faults(i).ReadFault? && !Late(w, KeyOf(rule, targets[i]), at)
    ensures Noticed(w', KeyOf(rule, targets[i])) <==> KubeTargets.Trouble(rule, targets, targets[i].name)
  {
    var names := KubeTargets.Names(targets);
    assert forall k :: 0 <= k < |targets| ==> names[k] == targets[k].name;
    assert forall k :: 0 <= k < |targets| && targets[k].name == targets[i].name ==> k == i;
    RoundNotices(rule, targets, at, w, w', checks, looked, lost, faults, i);
  }

  /** A workload is noticed exactly when it has fewer replicas available than it should. */
  lemma WorkloadsAreNoticed(rule: Rule, namespace: string, state: Kube.ClusterState, restarts: Option<map<string, int>>, w: World,
                            w': World, checks: seq<Action>, looked: seq<nat>, lost: Option<nat>, faults: nat -> Fault,
                            targets: seq<KubeTargets.Target>, i: nat)
    requires rule.metric.KubeWorkload? && UniqueOpen(w.alerts) && targets == TargetsOf(rule, namespace, state, restarts)
    requires RoundDone(rule, targets, state.time * SECOND, w, w', true, checks, looked, lost, faults)
    requires Distinct(KubeTargets.Names(targets)) && i < |targets|
    requires !faults(i).ReadFault? && !Late(w, KeyOf(rule, targets[i]), state.time * SECOND)
    ensures Noticed(w', KeyOf(rule, targets[i])) <==> KubeTargets.ShortOf(state.workloads, namespace, targets[i].name)
  {
    TroubleIsNoticed(rule, targets, state.time * SECOND, w, w', checks, looked, lost, faults, i);
    KubeTargets.WorkloadTroubleIffShort(rule, state.workloads, namespace, targets[i].name);
  }

  /** A pod's owner is noticed exactly when one of its pods in the namespace is pending. */
  lemma PendingIsNoticed(rule: Rule, namespace: string, state: Kube.ClusterState, restarts: Option<map<string, int>>, w: World,
                         w': World, checks: seq<Action>, looked: seq<nat>, lost: Option<nat>, faults: nat -> Fault,
                         targets: seq<KubeTargets.Target>, i: nat)
    requires rule.metric.KubePending? && UniqueOpen(w.alerts) && targets == TargetsOf(rule, namespace, state, restarts)
    requires RoundDone(rule, targets, state.time * SECOND, w, w', true, checks, looked, lost, faults)
    requires KubeTargets.SlashFree(state) && i < |targets|
    requires !faults(i).ReadFault? && !Late(w, KeyOf(rule, targets[i]), state.time * SECOND)
    ensures Noticed(w', KeyOf(rule, targets[i])) <==>
              exists p :: && p in state.pods && p.phase == Kube.Pending && (namespace == "" || p.namespace == namespace)
                          && Kube.WorkloadKey(p) == targets[i].name
  {
    KubeTargets.PendingPodsCountOnce(state, namespace);
    TroubleIsNoticed(rule, targets, state.time * SECOND, w, w', checks, looked, lost, faults, i);
    KubeTargets.PendingTroubleIffPending(rule, state, namespace, if restarts.Some? then restarts.value else map[], targets[i].name);
  }
}
