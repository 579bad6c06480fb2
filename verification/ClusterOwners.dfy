/** Who reports a cluster: the host that began, until it is removed. What others send changes nothing, and
    every restart listed is one of a container that was reported. */
module ClusterOwners {
  import opened Basics
  import opened Kube
  import opened KubeRestarts

  predicate OwnedBy(w: World, host: nat) {
    w.cluster.Some? && w.cluster.value.owner == Some(host)
  }

  /** The reports of one host. */
  function Only(actions: seq<Action>, host: nat): seq<Action> {
    if actions == [] then []
    else Only(Front(actions), host) + if Last(actions).Report? && Last(actions).host != host then [] else [Last(actions)]
  }

  lemma StepKeepsOwner(w: World, action: Action, host: nat)
    requires OwnedBy(w, host) && action.Report?
    ensures OwnedBy(Step(w, action), host) && (action.host != host ==> Step(w, action) == w)
  {
  }

  lemma RunOneMore(before: seq<Action>, action: Action)
    ensures Run(before + [action]) == Step(Run(before), action)
  {
    assert Front(before + [action]) == before;
  }

  /** A host that reports a cluster goes on doing so until it is removed, and everything is as if no other
      host had reported. */
  lemma {:induction false} OthersAreRefused(before: seq<Action>, more: seq<Action>, host: nat)
    requires OwnedBy(Run(before), host) && HostRemoved !in more
    ensures OwnedBy(Run(before + more), host) && Run(before + more) == Run(before + Only(more, host))
  {
    if more == [] {
      assert before + more == before;
    } else {
      var last := Last(more);
      InFrontOrLast(more, HostRemoved);
      OthersAreRefused(before, Front(more), host);
      FrontOfSum(before, more);
      StepKeepsOwner(Run(before + Front(more)), last, host);
      if last.host == host {
        assert before + Only(more, host) == before + Only(Front(more), host) + [last];
        RunOneMore(before + Only(Front(more), host), last);
      } else {
        assert Only(more, host) == Only(Front(more), host);
      }
    }
  }

  /** A cluster whose host was removed keeps its state, and the next host that reports it anew or cannot
      read it takes it over. One that cannot read it leaves the state alone. */
  lemma FreedClusterIsTaken(w: World, host: nat, state: ClusterState)
    requires w.cluster.Some?
    ensures var freed := Step(w, HostRemoved);
            var next := Step(freed, Report(host, state));
            && freed.cluster == Some(Cluster(None, w.cluster.value.state)) && freed.rows == w.rows
            && (OwnedBy(next, host) <==> state.error || state.time > w.cluster.value.state.time)
            && (state.error ==> next.cluster.value.state == w.cluster.value.state && next.rows == w.rows)
            && (!OwnedBy(next, host) ==> next == freed)
  {
  }

  /** The first report of a cluster makes its host the one that reports it. */
  lemma FirstReportOwns(host: nat, state: ClusterState)
    ensures OwnedBy(Run([Report(host, state)]), host)
  {
    RunOneMore([], Report(host, state));
    assert [] + [Report(host, state)] == [Report(host, state)];
  }

  // ---------------------------------------------------------------- rows

  /** A restart is of a container of a pod, under the pod's own names. */
  ghost predicate IsOf(r: Restart, p: Pod) {
    && r.namespace == p.namespace && r.workload == p.workload && r.pod == p.name && r.count > 0
    && exists c :: c in p.containers && c.name == r.container
  }

  lemma {:induction false} PodRowsAreOf(counters: map<string, int>, pod: Pod, containers: seq<Container>, r: Restart)
    requires r in PodRestarts(counters, pod, containers)
    ensures r.namespace == pod.namespace && r.workload == pod.workload && r.pod == pod.name && r.count > 0
    ensures exists c :: c in containers && c.name == r.container
  {
    assert containers == Front(containers) + [Last(containers)];
    if r in PodRestarts(counters, pod, Front(containers)) {
      PodRowsAreOf(counters, pod, Front(containers), r);
    }
  }

  lemma {:induction false} RowsAreOf(prev: ClusterState, counters: map<string, int>, pods: seq<Pod>, r: Restart)
    requires r in RestartsIn(prev, counters, pods)
    ensures exists p :: p in pods && IsOf(r, p)
  {
    assert pods == Front(pods) + [Last(pods)];
    if r in RestartsIn(prev, counters, Front(pods)) {
      RowsAreOf(prev, counters, Front(pods), r);
    } else {
      PodRowsAreOf(counters, Last(pods), Last(pods).containers, r);
      assert IsOf(r, Last(pods));
    }
  }

  /** Some accepted state has the pod a restart is of. */
  ghost predicate Reported(states: seq<ClusterState>, r: Restart) {
    exists s, p :: s in states && p in s.pods && IsOf(r, p)
  }

  lemma StepRowsAreReported(w: World, action: Action)
    requires forall r :: r in w.rows ==> Reported(w.accepted, r)
    ensures forall r :: r in Step(w, action).rows ==> Reported(Step(w, action).accepted, r)
  {
    var w' := Step(w, action);
    forall r | r in w'.rows ensures Reported(w'.accepted, r) {
      if r in w.rows {
        var s, p :| s in w.accepted && p in s.pods && IsOf(r, p);
        assert s in w'.accepted;
      } else {
        var prev := w.cluster.value.state;
        RowsAreOf(prev, Counters(prev.pods), action.state.pods, r);
        assert action.state in w'.accepted;
      }
    }
  }

  /** Over every run, each restart listed is of a container that a host reported, counted at least once. */
  lemma {:induction false} RowsAreReported(actions: seq<Action>)
    ensures forall r :: r in Run(actions).rows ==> Reported(Run(actions).accepted, r)
  {
    if actions != [] {
      RowsAreReported(Front(actions));
      StepRowsAreReported(Run(Front(actions)), Last(actions));
    }
  }
}
