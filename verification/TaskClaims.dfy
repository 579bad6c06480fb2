/** When a claim loses a run. A claim marks a going run lost, because an agent asks while it runs
    nothing. What counts is whether the table has the run as going: a call that outlives its agent
    finds one that really is, and an agent whose end reports all failed finds one that is over. */
module TaskClaims {
  import opened Basics
  import opened TaskRuns
  import opened TaskProtocol

  /** A claim turns a run lost exactly when the run is going for the claim's host. No other row of a
      claim's host or of another host is lost by it. */
  lemma ClaimLosesIff(w: World, call: nat, id: nat)
    requires call in w.calls && !w.calls[call].Blocked? && id in w.runs
    ensures var runs := ClaimStep(w, call).runs;
            id in runs && (runs[id].status.Lost? && !w.runs[id].status.Lost? <==> Going(w.runs, w.calls[call].host, id))
  {
  }

  /** An agent asks one call at a time, and only while the table has no going run of its host. */
  predicate AsksWhileFree(w: World, action: Action) {
    action.StartCall? ==>
      && (forall c :: c in w.calls ==> w.calls[c].host != action.host)
      && (forall id :: id in w.runs && w.runs[id].host == action.host ==> !w.runs[id].status.Running?)
  }

  /** Every call is started so. */
  ghost predicate Orderly(w: World, actions: seq<Action>)
    decreases |actions|
  {
    actions == [] || (Enabled(w, actions[0]) && AsksWhileFree(w, actions[0]) && Orderly(Step(w, actions[0]), actions[1..]))
  }

  /** A host has one call at most, and no run is going while it has one. */
  ghost predicate FreeCallers(w: World) {
    && (forall c, d :: c in w.calls && d in w.calls && w.calls[c].host == w.calls[d].host ==> c == d)
    && (forall c, id :: c in w.calls && id in w.runs && w.runs[id].host == w.calls[c].host ==> !w.runs[id].status.Running?)
  }

  lemma StepKeepsFree(w: World, action: Action)
    requires FreeCallers(w) && Enabled(w, action) && AsksWhileFree(w, action)
    ensures FreeCallers(Step(w, action))
  {
    if action.Claim? {
      ClaimKeepsFree(w, action.call);
    }
  }

  lemma ClaimKeepsFree(w: World, call: nat)
    requires FreeCallers(w) && call in w.calls && !w.calls[call].Blocked?
    ensures FreeCallers(ClaimStep(w, call))
  {
    var w' := ClaimStep(w, call);
    forall c, id | c in w'.calls && id in w'.runs && w'.runs[id].host == w'.calls[c].host ensures !w'.runs[id].status.Running? {
      assert c in w.calls && w'.calls[c].host == w.calls[c].host;
      if c == call {
        assert id !in Claimed(w.runs, w.calls[call].host, w.now);
      }
    }
  }

  lemma {:induction false} RunKeepsFree(w: World, actions: seq<Action>, w': World)
    requires FreeCallers(w) && Orderly(w, actions) && Reaches(w, actions, w')
    ensures FreeCallers(w')
    decreases |actions|
  {
    if actions != [] {
      StepKeepsFree(w, actions[0]);
      RunKeepsFree(Step(w, actions[0]), actions[1..], w');
    }
  }

  /** What the claim relies on: over every run in which agents ask one call at a time, and only while
      the table has no going run of their host, no claim changes a run that is going. */
  lemma FreeHostsLoseNothing(actions: seq<Action>, w: World, call: nat, id: nat)
    requires Reaches(EMPTY, actions, w) && Orderly(EMPTY, actions)
    requires Enabled(w, Claim(call)) && id in w.runs && w.runs[id].status.Running?
    ensures id in Step(w, Claim(call)).runs && Step(w, Claim(call)).runs[id] == w.runs[id]
  {
    RunKeepsFree(EMPTY, actions, w);
  }

  lemma {:induction false} ReachesFurther(w: World, actions: seq<Action>, mid: World, action: Action)
    requires Reaches(w, actions, mid) && Enabled(mid, action)
    ensures Reaches(w, actions + [action], Step(mid, action))
    decreases |actions|
  {
    var all := actions + [action];
    if actions == [] {
      assert all[1..] == [];
      assert Reaches(Step(w, action), all[1..], Step(mid, action));
    } else {
      ReachesFurther(Step(w, actions[0]), actions[1..], mid, action);
      assert all[1..] == actions[1..] + [action];
    }
  }

  // ---------------------------------------------------------------- two ways to lose a run

  /** A call waits, its agent goes away, and the agent's next call waits too. A run is asked for,
      both hear of it, the newer one claims it and then the older one claims. */
  function StaleRun(host: nat, timeout: nat): seq<Action> {
    [StartCall(0, host), Claim(0), StartCall(1, host), Claim(1),
     Request(host, timeout), Wake(0), HearWake(0), HearWake(1), Claim(1), Claim(0)]
  }

  lemma TwoCanWait(host: nat, timeout: nat)
    ensures Reaches(EMPTY, StaleRun(host, timeout)[..4],
                    EMPTY.(waiting := map[host := 0], nextChannel := 1, calls := map[0 := Blocked(host, 0, 0), 1 := Blocked(host, 0, 0)]))
  {
    var actions := StaleRun(host, timeout);
    var w1 := Step(EMPTY, StartCall(0, host));
    var w2 := Step(w1, Claim(0));
    var w3 := Step(w2, StartCall(1, host));
    assert Claimed(EMPTY.runs, host, 0) == {} && ClaimUpdate(EMPTY.runs, host, 0) == map[];
    assert w2 == w1.(calls := map[0 := Blocked(host, 0, 0)]);
    assert actions[..0] == [] && actions[..1] == actions[..0] + [StartCall(0, host)] && actions[..2] == actions[..1] + [Claim(0)];
    assert actions[..3] == actions[..2] + [StartCall(1, host)] && actions[..4] == actions[..3] + [Claim(1)];
    ReachesFurther(EMPTY, actions[..0], EMPTY, StartCall(0, host));
    ReachesFurther(EMPTY, actions[..1], w1, Claim(0));
    ReachesFurther(EMPTY, actions[..2], w2, StartCall(1, host));
    ReachesFurther(EMPTY, actions[..3], w3, Claim(1));
    assert w1 == EMPTY.(waiting := map[host := 0], nextChannel := 1, calls := map[0 := Holding(host, 0)]);
    assert w3 == w2.(calls := map[0 := Blocked(host, 0, 0), 1 := Holding(host, 0)]);
    assert Handouts(w3.runs, {}, 0, 0) == [];
    assert Step(w3, Claim(1)) == w3.(calls := map[0 := Blocked(host, 0, 0), 1 := Blocked(host, 0, 0)]);
  }

  lemma BothHear(host: nat, timeout: nat)
    ensures var run := NewRun(host, timeout, 0);
            Reaches(EMPTY, StaleRun(host, timeout)[..8],
                    EMPTY.(runs := map[0 := run], nextRun := 1, closed := {0}, nextChannel := 1,
                           calls := map[0 := Woken(host), 1 := Woken(host)]))
  {
    var actions := StaleRun(host, timeout);
    TwoCanWait(host, timeout);
    var w4 := EMPTY.(waiting := map[host := 0], nextChannel := 1, calls := map[0 := Blocked(host, 0, 0), 1 := Blocked(host, 0, 0)]);
    var w5 := Step(w4, Request(host, timeout));
    var w6 := Step(w5, Wake(0));
    assert w6 == w4.(runs := map[0 := NewRun(host, timeout, 0)], nextRun := 1, waiting := map[], closed := {0});
    var w7 := Step(w6, HearWake(0));
    assert actions[..5] == actions[..4] + [Request(host, timeout)] && actions[..6] == actions[..5] + [Wake(0)];
    assert actions[..7] == actions[..6] + [HearWake(0)] && actions[..8] == actions[..7] + [HearWake(1)];
    ReachesFurther(EMPTY, actions[..4], w4, Request(host, timeout));
    ReachesFurther(EMPTY, actions[..5], w5, Wake(0));
    ReachesFurther(EMPTY, actions[..6], w6, HearWake(0));
    ReachesFurther(EMPTY, actions[..7], w7, HearWake(1));
    assert w7 == w6.(calls := map[0 := Woken(host), 1 := Blocked(host, 0, 0)]);
    assert Step(w7, HearWake(1)) == w6.(calls := map[0 := Woken(host), 1 := Woken(host)]);
  }

  /** A run that was handed out a moment ago is lost, and handed out to nobody else. */
  lemma StaleCallLosesRun(host: nat, timeout: nat)
    ensures exists w :: Reaches(EMPTY, StaleRun(host, timeout), w)
                        && 0 in w.runs && w.runs[0].status.Lost? && w.handouts == [Handout(0, 0, 0)] && w.ends == []
  {
    var actions := StaleRun(host, timeout);
    BothHear(host, timeout);
    var run := NewRun(host, timeout, 0);
    var w8 := EMPTY.(runs := map[0 := run], nextRun := 1, closed := {0}, nextChannel := 1, calls := map[0 := Woken(host), 1 := Woken(host)]);
    assert Claimed(w8.runs, host, 0) == {0};
    assert Handouts(w8.runs, {0}, 1, 0) == Handouts(w8.runs, {0}, 0, 0) + [Handout(0, 0, 0)];
    var w9 := Step(w8, Claim(1));
    assert w9.runs[0].status.Running? && w9.handouts == [Handout(0, 0, 0)];
    assert Claimed(w9.runs, host, 0) == {} && Handouts(w9.runs, {}, 1, 0) == Handouts(w9.runs, {}, 0, 0) == [];
    var w10 := Step(w9, Claim(0));
    assert actions[..9] == actions[..8] + [Claim(1)] && actions == actions[..9] + [Claim(0)];
    ReachesFurther(EMPTY, actions[..8], w8, Claim(1));
    ReachesFurther(EMPTY, actions[..9], w9, Claim(0));
    assert w10.runs[0].status.Lost? && w10.handouts == [Handout(0, 0, 0)] && w10.ends == [];
  }
}
