/** What the statements on the run table do to each row, and what that means for a run that waits: no
    sweep touches it within its two minutes, so it is there for the claim that comes. */
module TaskSweeps {
  import opened Basics
  import opened TaskRuns
  import opened TaskProtocol

  /** A sweep changes exactly the runs that waited or went on too long. */
  lemma SweepChanges(runs: Table, now: int)
    ensures var swept := SweepLost(SweepExpired(runs, now), now);
            swept.Keys == runs.Keys && forall id :: id in runs ==> SweptTo(runs[id], now, swept[id])
  {
  }

  /** What a claim makes of a row: the host's going run is lost, its queued run of less than two minutes
      starts, and any other row is as it was. */
  lemma ClaimChanges(runs: Table, host: nat, now: int, id: nat)
    requires id in runs
    ensures var run, claimed := runs[id], ClaimUpdate(runs, host, now);
            && claimed.Keys == runs.Keys
            && (run.host == host && run.status.Running? ==>
                  claimed[id] == run.(status := Lost, finishedAt := Some(now), error := AgentRestarted))
            && (run.host == host && run.status.Queued? && now - run.requestedAt < 120 * SECOND ==>
                  claimed[id] == run.(status := Running, startedAt := Some(now)))
            && (run.host != host || !(run.status.Running? || (run.status.Queued? && now - run.requestedAt < 120 * SECOND)) ==>
                  claimed[id] == run)
  {
  }

  /** A purge removes exactly the ended runs asked for before a time, and changes none. */
  lemma PurgeRemoves(runs: Table, before: int, id: nat)
    ensures id in Purge(runs, before) <==>
              id in runs && (runs[id].status.Queued? || runs[id].status.Running? || before <= runs[id].requestedAt)
    ensures id in Purge(runs, before) ==> Purge(runs, before)[id] == runs[id]
  {
  }

  /** A queued run is as it was, or was handed out since. */
  ghost predicate WaitsOrHandedOut(w: World, w': World, id: nat)
    requires id in w.runs
  {
    || (id in w'.runs && w'.runs[id] == w.runs[id])
    || exists k :: |w.handouts| <= k < |w'.handouts| && w'.handouts[k].id == id
  }

  lemma StepLetsWait(w: World, action: Action, id: nat)
    requires Sound(w) && Enabled(w, action) && id in w.runs && w.runs[id].status.Queued?
    requires w.now - w.runs[id].requestedAt < 120 * SECOND
    ensures w.now <= Step(w, action).now && |w.handouts| <= |Step(w, action).handouts| && WaitsOrHandedOut(w, Step(w, action), id)
  {
    if action.Claim? {
      ClaimHandsOutOne(w, action.call);
      var host := w.calls[action.call].host;
      if w.runs[id].host == host {
        assert id in Claimed(w.runs, host, w.now);
        var w' := Step(w, action);
        assert w'.handouts[|w'.handouts| - 1].id == id;
      }
    }
  }

  lemma HandoutsGrow(w: World, action: Action)
    requires Sound(w) && Enabled(w, action)
    ensures w.now <= Step(w, action).now && w.handouts <= Step(w, action).handouts
  {
    if action.Claim? {
      ClaimHandsOutOne(w, action.call);
    }
  }

  lemma {:induction false} RunGrows(w: World, actions: seq<Action>, w': World)
    requires Sound(w) && Reaches(w, actions, w')
    ensures w.now <= w'.now && w.handouts <= w'.handouts
    decreases |actions|
  {
    if actions != [] {
      HandoutsGrow(w, actions[0]);
      StepKeeps(w, actions[0]);
      RunGrows(Step(w, actions[0]), actions[1..], w');
    }
  }

  /** Whatever happens within two minutes of its request, a queued run is still queued or was handed out:
      no sweep, purge, report or other host's claim takes it away. */
  lemma {:induction false} QueuedRunWaits(w: World, actions: seq<Action>, w': World, id: nat)
    requires Sound(w) && Reaches(w, actions, w') && id in w.runs && w.runs[id].status.Queued?
    requires w'.now - w.runs[id].requestedAt < 120 * SECOND
    ensures WaitsOrHandedOut(w, w', id)
    decreases |actions|
  {
    if actions != [] {
      var mid := Step(w, actions[0]);
      StepKeeps(w, actions[0]);
      RunGrows(mid, actions[1..], w');
      HandoutsGrow(w, actions[0]);
      StepLetsWait(w, actions[0], id);
      if id in mid.runs && mid.runs[id] == w.runs[id] {
        QueuedRunWaits(mid, actions[1..], w', id);
      } else {
        var k :| |w.handouts| <= k < |mid.handouts| && mid.handouts[k].id == id;
        assert w'.handouts[k] == mid.handouts[k];
      }
    }
  }

  /** A claim of its host within the two minutes hands it out. */
  lemma ClaimTakesQueued(w: World, call: nat, id: nat)
    requires Sound(w) && Enabled(w, Claim(call)) && id in w.runs && w.runs[id].status.Queued?
    requires w.runs[id].host == w.calls[call].host && w.now - w.runs[id].requestedAt < 120 * SECOND
    ensures var w' := Step(w, Claim(call));
            && id in w'.runs && w'.runs[id].status.Running? && w'.runs[id].startedAt == Some(w.now)
            && w'.handouts == w.handouts + [Handout(id, w.runs[id].requestedAt, w.now)]
  {
    ClaimHandsOutOne(w, call);
    assert id in Claimed(w.runs, w.calls[call].host, w.now);
    var w' := Step(w, Claim(call));
    assert w'.handouts == w'.handouts[..|w.handouts|] + [w'.handouts[|w.handouts|]];
  }
}
