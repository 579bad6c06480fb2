/** Container restarts, counted between the states of a cluster that one host's agent reports. */
module KubeRestarts {
  import opened Basics
  import opened Kube

  /** Restarts of one container that a comparison of two states found. */
  datatype Restart = Restart(namespace: string, workload: string, pod: string, container: string, count: int)

  // ---------------------------------------------------------------- comparing two states

  function CounterKey(uid: string, container: string): string {
    uid + "/" + container
  }

  function AddContainers(counters: map<string, int>, uid: string, containers: seq<Container>): map<string, int> {
    if containers == [] then counters
    else AddContainers(counters, uid, Front(containers))[CounterKey(uid, Last(containers).name) := Last(containers).restarts]
  }

  /** The restart counters of a state's containers. */
  function Counters(pods: seq<Pod>): map<string, int> {
    if pods == [] then map[] else AddContainers(Counters(Front(pods)), Last(pods).uid, Last(pods).containers)
  }

  predicate Known(pods: seq<Pod>, uid: string) {
    exists p :: p in pods && p.uid == uid
  }

  /** A counter that went down counts from zero. */
  function Increase(counters: map<string, int>, key: string, now: int): int {
    if key in counters && counters[key] <= now then now - counters[key] else now
  }

  function PodRestarts(counters: map<string, int>, pod: Pod, containers: seq<Container>): seq<Restart> {
    if containers == [] then []
    else
      var c := Last(containers);
      var count := Increase(counters, CounterKey(pod.uid, c.name), c.restarts);
      PodRestarts(counters, pod, Front(containers))
      + if count <= 0 then [] else [Restart(pod.namespace, pod.workload, pod.name, c.name, count)]
  }

  function RestartsIn(prev: ClusterState, counters: map<string, int>, pods: seq<Pod>): seq<Restart> {
    if pods == [] then []
    else
      var pod := Last(pods);
      RestartsIn(prev, counters, Front(pods))
      + if !Known(prev.pods, pod.uid) && pod.created <= prev.time then [] else PodRestarts(counters, pod, pod.containers)
  }

  function RestartsBetween(prev: ClusterState, next: ClusterState): seq<Restart> {
    if prev.time == 0 then [] else RestartsIn(prev, Counters(prev.pods), next.pods)
  }

  method Restarts(prev: ClusterState, next: ClusterState) returns (restarts: seq<Restart>)
    ensures restarts == RestartsBetween(prev, next)
  {
    restarts := [];
    if prev.time == 0 {
      return;
    }
    var counters: map<string, int>, known: set<string> := map[], {};
    for i := 0 to |prev.pods|
      invariant counters == Counters(prev.pods[..i])
      invariant forall uid :: uid in known <==> Known(prev.pods[..i], uid)
    {
      assert Front(prev.pods[..i + 1]) == prev.pods[..i] && prev.pods[..i + 1] == prev.pods[..i] + [prev.pods[i]];
      known := known + {prev.pods[i].uid};
      counters := CollectCounters(counters, prev.pods[i]);
    }
    assert prev.pods[..|prev.pods|] == prev.pods && next.pods[..|next.pods|] == next.pods;
    for i := 0 to |next.pods|
      invariant restarts == RestartsIn(prev, counters, next.pods[..i])
    {
      assert Front(next.pods[..i + 1]) == next.pods[..i];
      var pod := next.pods[i];
      if pod.uid in known || pod.created > prev.time {
        var more := CompareContainers(counters, pod);
        restarts := restarts + more;
      }
    }
  }

  method CollectCounters(counters: map<string, int>, pod: Pod) returns (more: map<string, int>)
    ensures more == AddContainers(counters, pod.uid, pod.containers)
  {
    more := counters;
    for j := 0 to |pod.containers|
      invariant more == AddContainers(counters, pod.uid, pod.containers[..j])
    {
      assert Front(pod.containers[..j + 1]) == pod.containers[..j];
      more := more[CounterKey(pod.uid, pod.containers[j].name) := pod.containers[j].restarts];
    }
    assert pod.containers[..|pod.containers|] == pod.containers;
  }

  method CompareContainers(counters: map<string, int>, pod: Pod) returns (restarts: seq<Restart>)
    ensures restarts == PodRestarts(counters, pod, pod.containers)
  {
    restarts := [];
    for j := 0 to |pod.containers|
      invariant restarts == PodRestarts(counters, pod, pod.containers[..j])
    {
      assert Front(pod.containers[..j + 1]) == pod.containers[..j];
      var c := pod.containers[j];
      var count := c.restarts;
      var key := CounterKey(pod.uid, c.name);
      if key in counters && counters[key] <= count {
        count := count - counters[key];
      }
      if count <= 0 {
        continue;
      }
      restarts := restarts + [Restart(pod.namespace, pod.workload, pod.name, c.name, count)];
    }
    assert pod.containers[..|pod.containers|] == pod.containers;
  }

  // ---------------------------------------------------------------- reports

  /** A cluster with its reader's host, none once that host is removed, and its newest state. */
  datatype Cluster = Cluster(owner: Option<nat>, state: ClusterState)

  /** The cluster, the restarts stored, and the states accepted so far. */
  datatype World = World(cluster: Option<Cluster>, rows: seq<Restart>, accepted: seq<ClusterState>)

  const EMPTY := World(None, [], [])

  /** What is kept of a cluster whose first report could not read it. */
  const UNREAD := ClusterState(0, false, [], [], [])

  function SaveReport(w: World, host: nat, state: ClusterState): World {
    match w.cluster
    case None =>
      if state.error then w.(cluster := Some(Cluster(Some(host), UNREAD)))
      else w.(cluster := Some(Cluster(Some(host), state)), accepted := w.accepted + [state])
    case Some(Cluster(owner, prev)) =>
      if owner.Some? && owner.value != host then w
      else if state.error then w.(cluster := Some(Cluster(Some(host), prev)))
      else if state.time <= prev.time then w
      else World(Some(Cluster(Some(host), state)), w.rows + RestartsBetween(prev, state), w.accepted + [state])
  }

  datatype Action = Report(host: nat, state: ClusterState) | HostRemoved

  function Step(w: World, action: Action): World {
    match action
    case Report(host, state) => SaveReport(w, host, state)
    case HostRemoved => if w.cluster.None? then w else w.(cluster := Some(w.cluster.value.(owner := None)))
  }

  function Run(actions: seq<Action>): World {
    if actions == [] then EMPTY else Step(Run(Front(actions)), Last(actions))
  }

  class ClusterStore {
    var cluster: Option<Cluster>
    var rows: seq<Restart>
    ghost var accepted: seq<ClusterState>

    ghost function State(): World
      reads this
    {
      World(cluster, rows, accepted)
    }

    constructor ()
      ensures State() == EMPTY
    {
      cluster, rows, accepted := None, [], [];
    }

    /** Keeps what a host's agent read. Only the host that reports the cluster may. */
    method SaveClusterReport(host: nat, state: ClusterState) returns (taken: bool)
      modifies this
      ensures State() == SaveReport(old(State()), host, state)
      ensures taken <==> old(cluster).Some? && old(cluster).value.owner.Some? && old(cluster).value.owner.value != host
    {
      if cluster.None? {
        if state.error {
          cluster := Some(Cluster(Some(host), UNREAD));
        } else {
          cluster, accepted := Some(Cluster(Some(host), state)), accepted + [state];
        }
        return false;
      }
      var owner, prev := cluster.value.owner, cluster.value.state;
      if owner.Some? && owner.value != host {
        return true;
      }
      if state.error {
        cluster := Some(Cluster(Some(host), prev));
        return false;
      }
      if state.time <= prev.time {
        return false;
      }
      var restarts := Restarts(prev, state);
      cluster, rows, accepted := Some(Cluster(Some(host), state)), rows + restarts, accepted + [state];
      return false;
    }
  }

  // ---------------------------------------------------------------- one container through every state

  datatype ContainerId = ContainerId(uid: string, namespace: string, pod: string, container: string)

  /** The pod and the container of an id are at these places, and nowhere else, in a state. */
  ghost predicate ListedAt(pods: seq<Pod>, id: ContainerId, i: int, j: int) {
    && 0 <= i < |pods| && 0 <= j < |pods[i].containers|
    && pods[i].uid == id.uid && pods[i].namespace == id.namespace && pods[i].name == id.pod
    && pods[i].containers[j].name == id.container && pods[i].containers[j].restarts >= 0
    && (forall k :: 0 <= k < |pods| && k != i ==> pods[k].uid != id.uid && !(pods[k].namespace == id.namespace && pods[k].name == id.pod))
    && (forall k :: 0 <= k < |pods[i].containers| && k != j ==> pods[i].containers[k].name != id.container)
    && (forall k :: 0 <= k < |pods| ==> '/' !in pods[k].uid)
  }

  ghost predicate Lists(state: ClusterState, id: ContainerId) {
    exists i, j :: ListedAt(state.pods, id, i, j)
  }

  /** The container's restart counter in a state. */
  ghost function Counter(state: ClusterState, id: ContainerId): int
    requires Lists(state, id)
  {
    var i, j :| ListedAt(state.pods, id, i, j);
    state.pods[i].containers[j].restarts
  }

  lemma ListedOnce(pods: seq<Pod>, id: ContainerId, i: int, j: int, m: int, n: int)
    requires ListedAt(pods, id, i, j) && ListedAt(pods, id, m, n)
    ensures i == m && j == n
  {
    assert pods[m].uid == id.uid;
    assert pods[i].containers[n].name == id.container;
  }

  lemma CounterIs(state: ClusterState, id: ContainerId, i: int, j: int)
    requires ListedAt(state.pods, id, i, j)
    ensures Counter(state, id) == state.pods[i].containers[j].restarts >= 0
  {
    var m, n :| ListedAt(state.pods, id, m, n) && Counter(state, id) == state.pods[m].containers[n].restarts;
    ListedOnce(state.pods, id, i, j, m, n);
  }

  /** The restarts stored for a container. */
  function Stored(rows: seq<Restart>, id: ContainerId): int {
    if rows == [] then 0
    else Stored(Front(rows), id)
         + if Last(rows).namespace == id.namespace && Last(rows).pod == id.pod && Last(rows).container == id.container
           then Last(rows).count else 0
  }

  lemma {:induction false} StoredConcat(a: seq<Restart>, b: seq<Restart>, id: ContainerId)
    ensures Stored(a + b, id) == Stored(a, id) + Stored(b, id)
  {
    if b == [] {
      assert a + b == a;
    } else {
      assert Front(a + b) == a + Front(b);
      StoredConcat(a, Front(b), id);
    }
  }

  /** How much a counter rose, where a drop counts from zero. */
  function Rise(before: int, after: int): int {
    if before <= after then after - before else after
  }

  lemma {:induction false} ContainersKeepOthers(counters: map<string, int>, uid: string, containers: seq<Container>, key: string)
    requires forall k :: 0 <= k < |containers| ==> CounterKey(uid, containers[k].name) != key
    ensures var more := AddContainers(counters, uid, containers);
            (key in more <==> key in counters) && (key in counters ==> more[key] == counters[key])
  {
    if containers != [] {
      assert CounterKey(uid, containers[|containers| - 1].name) != key;
      ContainersKeepOthers(counters, uid, Front(containers), key);
    }
  }

  lemma {:induction false} ContainersCount(counters: map<string, int>, uid: string, containers: seq<Container>, j: nat)
    requires j < |containers| && forall k :: 0 <= k < |containers| && k != j ==> containers[k].name != containers[j].name
    ensures var key, more := CounterKey(uid, containers[j].name), AddContainers(counters, uid, containers);
            key in more && more[key] == containers[j].restarts
  {
    if j < |containers| - 1 {
      assert CounterKey(uid, containers[|containers| - 1].name) != CounterKey(uid, containers[j].name) by {
        assert CounterKey(uid, containers[j].name)[|uid| + 1..] == containers[j].name;
        assert CounterKey(uid, containers[|containers| - 1].name)[|uid| + 1..] == containers[|containers| - 1].name;
      }
      ContainersCount(counters, uid, Front(containers), j);
    }
  }

  /** The comparison finds a listed container's earlier counter. */
  lemma {:induction false} CountersFind(pods: seq<Pod>, id: ContainerId, i: int, j: int)
    requires ListedAt(pods, id, i, j)
    ensures var key := CounterKey(id.uid, id.container);
            key in Counters(pods) && Counters(pods)[key] == pods[i].containers[j].restarts
  {
    var pod := Last(pods);
    assert pod == pods[|pods| - 1];
    if i == |pods| - 1 {
      ContainersCount(Counters(Front(pods)), pod.uid, pod.containers, j);
    } else {
      CountersFind(Front(pods), id, i, j);
      forall k | 0 <= k < |pod.containers| ensures CounterKey(pod.uid, pod.containers[k].name) != CounterKey(id.uid, id.container) {
        if CounterKey(pod.uid, pod.containers[k].name) == CounterKey(id.uid, id.container) {
          JoinInjective('/', pod.uid, pod.containers[k].name, id.uid, id.container);
        }
      }
      ContainersKeepOthers(Counters(Front(pods)), pod.uid, pod.containers, CounterKey(id.uid, id.container));
    }
  }

  /** What one more container of a pod adds for an id. */
  lemma OneMoreContainer(counters: map<string, int>, pod: Pod, containers: seq<Container>, id: ContainerId)
    requires containers != []
    ensures var c := Last(containers);
            var count := Increase(counters, CounterKey(pod.uid, c.name), c.restarts);
            var added := if count > 0 && pod.namespace == id.namespace && pod.name == id.pod && c.name == id.container then count else 0;
            Stored(PodRestarts(counters, pod, containers), id) == Stored(PodRestarts(counters, pod, Front(containers)), id) + added
  {
    var c := Last(containers);
    var count := Increase(counters, CounterKey(pod.uid, c.name), c.restarts);
    var more := if count <= 0 then [] else [Restart(pod.namespace, pod.workload, pod.name, c.name, count)];
    StoredConcat(PodRestarts(counters, pod, Front(containers)), more, id);
    assert more != [] ==> Front(more) == [];
  }

  lemma {:induction false} PodStores(counters: map<string, int>, pod: Pod, containers: seq<Container>, id: ContainerId)
    ensures !(pod.namespace == id.namespace && pod.name == id.pod) || (forall k :: 0 <= k < |containers| ==> containers[k].name != id.container)
            ==> Stored(PodRestarts(counters, pod, containers), id) == 0
  {
    if containers != [] {
      PodStores(counters, pod, Front(containers), id);
      assert Last(containers) == containers[|containers| - 1];
      assert forall k :: 0 <= k < |Front(containers)| ==> Front(containers)[k] == containers[k];
      OneMoreContainer(counters, pod, containers, id);
    }
  }

  /** A container's earlier counter. One that was not there counts from zero. */
  ghost predicate CountedAs(counters: map<string, int>, id: ContainerId, before: int) {
    var key := CounterKey(id.uid, id.container);
    if key in counters then counters[key] == before else before == 0
  }

  lemma {:induction false} PodStoresRise(counters: map<string, int>, pod: Pod, containers: seq<Container>,
                                         id: ContainerId, j: nat, before: int)
    requires pod.uid == id.uid && pod.namespace == id.namespace && pod.name == id.pod
    requires j < |containers| && containers[j].name == id.container && containers[j].restarts >= 0 && before >= 0
    requires forall k :: 0 <= k < |containers| && k != j ==> containers[k].name != id.container
    requires CountedAs(counters, id, before)
    ensures Stored(PodRestarts(counters, pod, containers), id) == Rise(before, containers[j].restarts)
  {
    var earlier, c := Front(containers), containers[|containers| - 1];
    assert forall k :: 0 <= k < |earlier| ==> earlier[k] == containers[k];
    if j == |containers| - 1 {
      assert Increase(counters, CounterKey(pod.uid, c.name), c.restarts) == Rise(before, c.restarts) >= 0;
      PodStores(counters, pod, earlier, id);
      assert Stored(PodRestarts(counters, pod, earlier), id) == 0;
    } else {
      PodStoresRise(counters, pod, earlier, id, j, before);
      assert c.name != id.container;
    }
    OneMoreContainer(counters, pod, containers, id);
  }

  /** What one more pod adds for an id: nothing when it is old and was not there before. */
  lemma OneMorePod(prev: ClusterState, counters: map<string, int>, pods: seq<Pod>, id: ContainerId)
    requires pods != []
    ensures var pod := pods[|pods| - 1];
            var added := if !Known(prev.pods, pod.uid) && pod.created <= prev.time then 0
                         else Stored(PodRestarts(counters, pod, pod.containers), id);
            Stored(RestartsIn(prev, counters, pods), id) == Stored(RestartsIn(prev, counters, Front(pods)), id) + added
  {
    var pod := Last(pods);
    var more := if !Known(prev.pods, pod.uid) && pod.created <= prev.time then [] else PodRestarts(counters, pod, pod.containers);
    StoredConcat(RestartsIn(prev, counters, Front(pods)), more, id);
  }

  /** Between two states that list a container, exactly its counter's rise is stored for it. */
  lemma {:induction false} PodsStoreRise(prev: ClusterState, counters: map<string, int>, pods: seq<Pod>,
                                         id: ContainerId, i: int, j: int, before: int)
    requires ListedAt(pods, id, i, j) && before >= 0 && (Known(prev.pods, id.uid) || prev.time < pods[i].created)
    requires CountedAs(counters, id, before)
    ensures Stored(RestartsIn(prev, counters, pods), id) == Rise(before, pods[i].containers[j].restarts)
  {
    var pod, earlier := pods[|pods| - 1], Front(pods);
    assert forall k :: 0 <= k < |earlier| ==> earlier[k] == pods[k];
    OneMorePod(prev, counters, pods, id);
    if i == |pods| - 1 {
      PodStoresRise(counters, pod, pod.containers, id, j, before);
      OthersStoreNothing(prev, counters, earlier, id);
    } else {
      PodsStoreRise(prev, counters, earlier, id, i, j, before);
      PodStores(counters, pod, pod.containers, id);
    }
  }

  lemma {:induction false} OthersStoreNothing(prev: ClusterState, counters: map<string, int>, pods: seq<Pod>, id: ContainerId)
    requires forall k :: 0 <= k < |pods| ==> !(pods[k].namespace == id.namespace && pods[k].name == id.pod)
    ensures Stored(RestartsIn(prev, counters, pods), id) == 0
  {
    if pods != [] {
      var pod := pods[|pods| - 1];
      assert forall k :: 0 <= k < |Front(pods)| ==> Front(pods)[k] == pods[k];
      OthersStoreNothing(prev, counters, Front(pods), id);
      PodStores(counters, pod, pod.containers, id);
      OneMorePod(prev, counters, pods, id);
    }
  }

  lemma RiseIsStored(prev: ClusterState, next: ClusterState, id: ContainerId)
    requires Lists(prev, id) && Lists(next, id) && prev.time != 0
    ensures Stored(RestartsBetween(prev, next), id) == Rise(Counter(prev, id), Counter(next, id))
  {
    var i, j :| ListedAt(prev.pods, id, i, j);
    var m, n :| ListedAt(next.pods, id, m, n);
    CounterIs(prev, id, i, j);
    CounterIs(next, id, m, n);
    CountersFind(prev.pods, id, i, j);
    assert prev.pods[i] in prev.pods;
    PodsStoreRise(prev, Counters(prev.pods), next.pods, id, m, n, Counter(prev, id));
  }

  lemma {:induction false} NotCounted(pods: seq<Pod>, id: ContainerId)
    requires '/' !in id.uid && forall k :: 0 <= k < |pods| ==> pods[k].uid != id.uid && '/' !in pods[k].uid
    ensures CounterKey(id.uid, id.container) !in Counters(pods)
  {
    if pods != [] {
      var pod := Last(pods);
      assert pod == pods[|pods| - 1];
      NotCounted(Front(pods), id);
      forall k | 0 <= k < |pod.containers| ensures CounterKey(pod.uid, pod.containers[k].name) != CounterKey(id.uid, id.container) {
        if CounterKey(pod.uid, pod.containers[k].name) == CounterKey(id.uid, id.container) {
          JoinInjective('/', pod.uid, pod.containers[k].name, id.uid, id.container);
        }
      }
      ContainersKeepOthers(Counters(Front(pods)), pod.uid, pod.containers, CounterKey(id.uid, id.container));
    }
  }

  /** Of a pod that the earlier state does not have, all of a container's counter is stored when the pod
      was made since, and nothing otherwise. So a pod that is missing from one state and back in the
      next loses what its counter rose meanwhile. */
  lemma FirstSeenIsStoredIff(prev: ClusterState, next: ClusterState, id: ContainerId, i: nat, j: nat)
    requires ListedAt(next.pods, id, i, j) && forall k :: 0 <= k < |prev.pods| ==> prev.pods[k].uid != id.uid && '/' !in prev.pods[k].uid
    ensures Stored(RestartsBetween(prev, next), id)
         == if prev.time != 0 && prev.time < next.pods[i].created then next.pods[i].containers[j].restarts else 0
  {
    NotCounted(prev.pods, id);
    if prev.time != 0 && prev.time < next.pods[i].created {
      PodsStoreRise(prev, Counters(prev.pods), next.pods, id, i, j, 0);
    } else if prev.time != 0 {
      OldPodStoresNothing(prev, Counters(prev.pods), next.pods, id, i, j);
    }
  }

  lemma {:induction false} OldPodStoresNothing(prev: ClusterState, counters: map<string, int>, pods: seq<Pod>, id: ContainerId,
                                               i: nat, j: nat)
    requires ListedAt(pods, id, i, j) && !Known(prev.pods, id.uid) && pods[i].created <= prev.time
    ensures Stored(RestartsIn(prev, counters, pods), id) == 0
  {
    var pod, earlier := pods[|pods| - 1], Front(pods);
    assert forall k :: 0 <= k < |earlier| ==> earlier[k] == pods[k];
    OneMorePod(prev, counters, pods, id);
    if i == |pods| - 1 {
      OthersStoreNothing(prev, counters, earlier, id);
    } else {
      OldPodStoresNothing(prev, counters, earlier, id, i, j);
      PodStores(counters, pod, pod.containers, id);
    }
  }

  /** What is stored after a state of time zero, which is taken for a cluster's first. */
  function Noted(prev: ClusterState, rise: int): int {
    if prev.time == 0 then 0 else rise
  }

  /** Between two states that list a container, its rise is stored exactly when the earlier state has
      a time other than zero or there is no rise to store. */
  lemma RiseIsStoredIff(prev: ClusterState, next: ClusterState, id: ContainerId)
    requires Lists(prev, id) && Lists(next, id)
    ensures Stored(RestartsBetween(prev, next), id) == Noted(prev, Rise(Counter(prev, id), Counter(next, id)))
    ensures Stored(RestartsBetween(prev, next), id) == Rise(Counter(prev, id), Counter(next, id))
       <==> prev.time != 0 || Rise(Counter(prev, id), Counter(next, id)) == 0
  {
    if prev.time != 0 {
      RiseIsStored(prev, next, id);
    }
  }

  // ---------------------------------------------------------------- conservation over every run

  /** Every accepted state lists the container. */
  ghost predicate Followed(states: seq<ClusterState>, id: ContainerId) {
    forall k :: 0 <= k < |states| ==> Lists(states[k], id)
  }

  /** The rises right after a state of time zero. */
  ghost function Hidden(states: seq<ClusterState>, id: ContainerId): int
    requires Followed(states, id)
  {
    if |states| <= 1 then 0
    else
      var prev, rise := Last(Front(states)), Rise(Counter(Last(Front(states)), id), Counter(Last(states), id));
      Hidden(Front(states), id) + (rise - Noted(prev, rise))
  }

  /** The counter does not rise right after any state of time zero. */
  ghost predicate StillAfterZero(states: seq<ClusterState>, id: ContainerId)
    requires Followed(states, id)
  {
    forall k :: 0 < k < |states| ==> Still(states[k - 1], states[k], id)
  }

  ghost predicate Still(prev: ClusterState, next: ClusterState, id: ContainerId)
    requires Lists(prev, id) && Lists(next, id)
  {
    prev.time == 0 ==> Rise(Counter(prev, id), Counter(next, id)) == 0
  }

  /** How much the container's counter rose over the accepted states. */
  ghost function Rises(states: seq<ClusterState>, id: ContainerId): int
    requires Followed(states, id)
  {
    if |states| <= 1 then 0
    else Rises(Front(states), id) + Rise(Counter(Last(Front(states)), id), Counter(Last(states), id))
  }

  ghost predicate InOrder(w: World) {
    && (forall k, m :: 0 <= k < m < |w.accepted| ==> w.accepted[k].time < w.accepted[m].time)
    && (w.cluster.None? ==> w.accepted == [])
    && (w.cluster.Some? ==> w.cluster.value.state == if w.accepted == [] then UNREAD else Last(w.accepted))
  }

  /** Accepted states come in strictly increasing time, whatever is reported and by whom. */
  lemma {:induction false} AcceptedTimesIncrease(actions: seq<Action>)
    ensures InOrder(Run(actions))
  {
    if actions != [] {
      AcceptedTimesIncrease(Front(actions));
    }
  }

  lemma RisesOneMore(states: seq<ClusterState>, state: ClusterState, id: ContainerId)
    requires Followed(states + [state], id)
    ensures Followed(states, id) && Lists(state, id)
    ensures Rises(states + [state], id) == if states == [] then 0 else Rises(states, id) + Rise(Counter(Last(states), id), Counter(state, id))
  {
    var longer := states + [state];
    assert Front(longer) == states && longer[|states|] == state;
    assert forall k :: 0 <= k < |states| ==> longer[k] == states[k];
  }

  lemma HiddenOneMore(states: seq<ClusterState>, state: ClusterState, id: ContainerId)
    requires states != [] && Followed(states, id) && Followed(states + [state], id) && Lists(Last(states), id) && Lists(state, id)
    ensures var rise := Rise(Counter(Last(states), id), Counter(state, id));
            Hidden(states + [state], id) == Hidden(states, id) + (rise - Noted(Last(states), rise))
  {
    assert Front(states + [state]) == states && Last(states + [state]) == state;
  }

  lemma StillOneMore(states: seq<ClusterState>, state: ClusterState, id: ContainerId)
    requires states != [] && Followed(states, id) && Followed(states + [state], id) && Lists(Last(states), id) && Lists(state, id)
    ensures StillAfterZero(states + [state], id) <==> StillAfterZero(states, id) && Still(Last(states), state, id)
  {
    var longer := states + [state];
    assert longer[|states|] == state && longer[|states| - 1] == Last(states);
    assert forall k :: 0 <= k < |states| ==> longer[k] == states[k];
  }

  /** One accepted state stores the rise since the one before, unless that one has time zero. */
  lemma AcceptedStores(rows: seq<Restart>, states: seq<ClusterState>, state: ClusterState, id: ContainerId)
    requires states != [] && Followed(states, id) && Followed(states + [state], id)
    requires Stored(rows, id) == Rises(states, id) - Hidden(states, id)
    ensures Stored(rows + RestartsBetween(Last(states), state), id) == Rises(states + [state], id) - Hidden(states + [state], id)
  {
    RisesOneMore(states, state, id);
    assert Last(states) == states[|states| - 1];
    RiseIsStoredIff(Last(states), state, id);
    HiddenOneMore(states, state, id);
    StoredConcat(rows, RestartsBetween(Last(states), state), id);
  }

  /** Over any reports, with read errors, late and repeated times and wrong hosts among them, the
      restarts stored for a container that every accepted state lists are the rises of its counter,
      less those hidden by a state of time zero. */
  lemma {:induction false} RestartsStored(actions: seq<Action>, id: ContainerId)
    requires Followed(Run(actions).accepted, id)
    ensures Stored(Run(actions).rows, id) == Rises(Run(actions).accepted, id) - Hidden(Run(actions).accepted, id)
  {
    if actions != [] {
      var w, w' := Run(Front(actions)), Run(actions);
      AcceptedTimesIncrease(Front(actions));
      if w'.accepted != w.accepted {
        RisesOneMore(w.accepted, Last(w'.accepted), id);
      }
      RestartsStored(Front(actions), id);
      StepStores(w, Last(actions), id);
    }
  }

  lemma StepStores(w: World, action: Action, id: ContainerId)
    requires InOrder(w) && Followed(w.accepted, id) && Followed(Step(w, action).accepted, id)
    requires Stored(w.rows, id) == Rises(w.accepted, id) - Hidden(w.accepted, id)
    ensures var w' := Step(w, action);
            Stored(w'.rows, id) == Rises(w'.accepted, id) - Hidden(w'.accepted, id)
  {
    var w' := Step(w, action);
    if w'.accepted != w.accepted {
      var state := Last(w'.accepted);
      assert w'.accepted == w.accepted + [state];
      if w.accepted == [] {
        assert w'.rows == w.rows;
      } else {
        AcceptedStores(w.rows, w.accepted, state, id);
      }
    }
  }

  lemma {:induction false} HiddenIsZeroIff(states: seq<ClusterState>, id: ContainerId)
    requires Followed(states, id)
    ensures Hidden(states, id) >= 0 && (Hidden(states, id) == 0 <==> StillAfterZero(states, id))
  {
    if |states| > 1 {
      var earlier, last := Front(states), Last(states);
      assert states == earlier + [last] && last == states[|states| - 1] && Last(earlier) == states[|states| - 2];
      assert forall k :: 0 <= k < |earlier| ==> earlier[k] == states[k];
      HiddenIsZeroIff(earlier, id);
      HiddenOneMore(earlier, last, id);
      StillOneMore(earlier, last, id);
      CounterIsNatural(last, id);
    }
  }

  /** Over any reports, exactly the rises of a container's counter are stored if and only if the
      counter does not rise right after a state of time zero. No more than the rises ever are. */
  lemma RestartsAreConserved(actions: seq<Action>, id: ContainerId)
    requires Followed(Run(actions).accepted, id)
    ensures Stored(Run(actions).rows, id) <= Rises(Run(actions).accepted, id)
    ensures Stored(Run(actions).rows, id) == Rises(Run(actions).accepted, id) <==> StillAfterZero(Run(actions).accepted, id)
  {
    RestartsStored(actions, id);
    HiddenIsZeroIff(Run(actions).accepted, id);
  }

  ghost predicate NeverDrops(states: seq<ClusterState>, id: ContainerId)
    requires Followed(states, id)
  {
    forall k :: 0 < k < |states| ==> Counter(states[k - 1], id) <= Counter(states[k], id)
  }

  lemma CounterIsNatural(state: ClusterState, id: ContainerId)
    requires Lists(state, id)
    ensures Counter(state, id) >= 0
  {
    var i, j :| ListedAt(state.pods, id, i, j);
    CounterIs(state, id, i, j);
  }

  lemma NeverDropsOneMore(states: seq<ClusterState>, state: ClusterState, id: ContainerId)
    requires Followed(states, id) && Followed(states + [state], id) && states != [] && Lists(state, id)
    ensures NeverDrops(states + [state], id) <==> NeverDrops(states, id) && Counter(Last(states), id) <= Counter(state, id)
  {
    var longer := states + [state];
    assert forall k :: 0 <= k < |states| ==> longer[k] == states[k];
    assert longer[|states|] == state && longer[|states| - 1] == Last(states);
  }

  /** The rises add up to last minus first exactly when the counter never drops, and to more
      otherwise. */
  lemma {:induction false} RisesAddUp(states: seq<ClusterState>, id: ContainerId)
    requires Followed(states, id) && states != []
    ensures Rises(states, id) >= Counter(Last(states), id) - Counter(states[0], id)
    ensures Rises(states, id) == Counter(Last(states), id) - Counter(states[0], id) <==> NeverDrops(states, id)
  {
    if |states| > 1 {
      var earlier, last := Front(states), Last(states);
      assert states == earlier + [last];
      RisesOneMore(earlier, last, id);
      RisesAddUp(earlier, id);
      NeverDropsOneMore(earlier, last, id);
      CounterIsNatural(last, id);
    }
  }

  /** A cluster read at time zero with no restarts, and at time one with a restart that is not stored. */
  lemma TimeZeroHidesRestarts(host: nat, uid: string)
    requires '/' !in uid
    ensures var id := ContainerId(uid, "shop", "web-1", "web");
            var first := ClusterState(0, false, [], [], [Pod("shop", "web-1", uid, "deployment/web", Running, 0, [Container("web", 0)])]);
            var second := ClusterState(1, false, [], [], [Pod("shop", "web-1", uid, "deployment/web", Running, 0, [Container("web", 1)])]);
            var w := Run([Report(host, first), Report(host, second)]);
            && w.accepted == [first, second] && Followed(w.accepted, id)
            && Rises(w.accepted, id) == 1 && Stored(w.rows, id) == 0
  {
    var id := ContainerId(uid, "shop", "web-1", "web");
    var first := ClusterState(0, false, [], [], [Pod("shop", "web-1", uid, "deployment/web", Running, 0, [Container("web", 0)])]);
    var second := ClusterState(1, false, [], [], [Pod("shop", "web-1", uid, "deployment/web", Running, 0, [Container("web", 1)])]);
    assert ListedAt(first.pods, id, 0, 0) && ListedAt(second.pods, id, 0, 0);
    assert Lists(first, id) && Lists(second, id);
    CounterIs(first, id, 0, 0);
    CounterIs(second, id, 0, 0);
    RunOfTwo(host, first, second);
    assert [first] + [second] == [first, second];
    RisesOneMore([first], second, id);
  }

  lemma RunOfTwo(host: nat, first: ClusterState, second: ClusterState)
    requires !first.error && !second.error && first.time == 0 && second.time == 1
    ensures Run([Report(host, first), Report(host, second)]) == World(Some(Cluster(Some(host), second)), [], [first, second])
  {
    var actions := [Report(host, first), Report(host, second)];
    assert Front(actions) == [Report(host, first)] && Front([Report(host, first)]) == [];
    var w1 := Run([Report(host, first)]);
    assert Run([]) == EMPTY && w1 == Step(EMPTY, Report(host, first)) && EMPTY.accepted + [first] == [first];
    assert w1 == World(Some(Cluster(Some(host), first)), [], [first]);
  }
}
