/** What the table holds of a run's output under every interleaving: the reports made for that run, by its
    host and while it was going, in their order, and nothing of other runs. */
module TaskStored {
  import opened Basics
  import opened Utf8
  import opened TaskRuns
  import opened TaskProtocol
  import R = TaskReports

  /** The reports on a run among some actions. */
  function ReportsFor(actions: seq<Action>, host: nat, id: nat): seq<R.Report> {
    if actions == [] then []
    else
      var rest := ReportsFor(actions[1..], host, id);
      match actions[0]
      case Report(h, i, text, truncated) => if h == host && i == id then [R.Report(text, truncated)] + rest else rest
      case _ => rest
  }

  lemma {:induction false} AppliedConcat(run: TaskRun, a: seq<R.Report>, b: seq<R.Report>)
    ensures R.Applied(R.Applied(run, a), b) == R.Applied(run, a + b)
  {
    if b == [] {
      assert a + b == a;
    } else {
      AppliedConcat(run, a, Front(b));
      FrontOfSum(a, b);
    }
  }

  lemma AppliedOne(run: TaskRun, report: R.Report)
    ensures R.Applied(run, [report]) == WithOutput(run, report.text, report.truncated)
  {
    assert Front([report]) == [] && R.Applied(run, []) == run;
  }

  /** What a step leaves of a going run: it stays as it is, it gets a report of its own, or it ends. */
  ghost predicate GoesOn(run: TaskRun, id: nat, action: Action, runs: Table) {
    && id in runs && !runs[id].status.Queued?
    && (runs[id].status.Running? ==>
          runs[id] == if action.Report? && action.host == run.host && action.id == id
                      then WithOutput(run, action.text, action.truncated) else run)
  }

  lemma GoingClaim(w: World, call: nat, id: nat)
    requires Enabled(w, Claim(call)) && id in w.runs && w.runs[id].status.Running?
    ensures GoesOn(w.runs[id], id, Claim(call), Step(w, Claim(call)).runs)
  {
    assert Step(w, Claim(call)).runs == ClaimUpdate(w.runs, w.calls[call].host, w.now);
  }

  lemma GoingRowStep(w: World, action: Action, id: nat)
    requires Enabled(w, action) && id in w.runs && w.runs[id].status.Running?
    requires action.Report? || action.Finish? || action.Expire? || action.Lose? || action.PurgeRuns?
    ensures GoesOn(w.runs[id], id, action, Step(w, action).runs)
  {
  }

  lemma GoingStep(w: World, action: Action, id: nat)
    requires Sound(w) && Enabled(w, action) && id in w.runs && w.runs[id].status.Running?
    ensures GoesOn(w.runs[id], id, action, Step(w, action).runs)
  {
    match action
    case Claim(call) => GoingClaim(w, call, id);
    case Request(host, timeout) => assert w.nextRun != id;
    case Report(_, _, _, _) => GoingRowStep(w, action, id);
    case Finish(_, _, _) => GoingRowStep(w, action, id);
    case Expire => GoingRowStep(w, action, id);
    case Lose => GoingRowStep(w, action, id);
    case PurgeRuns(_) => GoingRowStep(w, action, id);
    case _ =>
  }

  lemma {:induction false} EndedStaysEnded(w: World, actions: seq<Action>, w': World, id: nat)
    requires Sound(w) && Reaches(w, actions, w') && id in w.runs && !IsActive(w.runs[id])
    ensures id in w'.runs ==> w'.runs[id] == w.runs[id]
    decreases |actions|
  {
    if actions != [] {
      var mid := Step(w, actions[0]);
      StepKeeps(w, actions[0]);
      EndedRunsStay(w, actions[0], id);
      if id in mid.runs {
        EndedStaysEnded(mid, actions[1..], w', id);
      } else {
        GoneStaysGone(mid, actions[1..], w', id);
      }
    }
  }

  lemma GoneStepStays(w: World, action: Action, id: nat)
    requires Sound(w) && Enabled(w, action) && id !in w.runs && id < w.nextRun
    ensures id !in Step(w, action).runs && id < Step(w, action).nextRun
  {
  }

  /** The id of a purged run is not used again. */
  lemma {:induction false} GoneStaysGone(w: World, actions: seq<Action>, w': World, id: nat)
    requires Sound(w) && Reaches(w, actions, w') && id !in w.runs && id < w.nextRun
    ensures id !in w'.runs
    decreases |actions|
  {
    if actions != [] {
      StepKeeps(w, actions[0]);
      GoneStepStays(w, actions[0], id);
      GoneStaysGone(Step(w, actions[0]), actions[1..], w', id);
    }
  }

  /** Under every interleaving, a run that is going has what was reported on it, and is otherwise as it
      was. */
  lemma {:induction false} GoingRunHasReports(w: World, actions: seq<Action>, w': World, id: nat)
    requires Sound(w) && Reaches(w, actions, w') && id in w.runs && w.runs[id].status.Running?
    requires id in w'.runs && w'.runs[id].status.Running?
    ensures w'.runs[id] == R.Applied(w.runs[id], ReportsFor(actions, w.runs[id].host, id))
    decreases |actions|
  {
    if actions != [] {
      var mid := Step(w, actions[0]);
      StepKeeps(w, actions[0]);
      GoingStep(w, actions[0], id);
      if !mid.runs[id].status.Running? {
        EndedStaysEnded(mid, actions[1..], w', id);
        assert false;
      }
      GoingRunHasReports(mid, actions[1..], w', id);
      OneReportFirst(w.runs[id], actions, id, mid.runs[id]);
    }
  }

  lemma OneReportFirst(run: TaskRun, actions: seq<Action>, id: nat, mid: TaskRun)
    requires actions != [] && mid.host == run.host
    requires mid == if actions[0].Report? && actions[0].host == run.host && actions[0].id == id
                    then WithOutput(run, actions[0].text, actions[0].truncated) else run
    ensures R.Applied(mid, ReportsFor(actions[1..], run.host, id)) == R.Applied(run, ReportsFor(actions, run.host, id))
  {
    if actions[0].Report? && actions[0].host == run.host && actions[0].id == id {
      var report := R.Report(actions[0].text, actions[0].truncated);
      AppliedOne(run, report);
      AppliedConcat(run, [report], ReportsFor(actions[1..], run.host, id));
    }
  }

  /** A run that has ended holds the text of some reports, up to the limit. */
  ghost predicate EndedWith(run: TaskRun, reports: seq<R.Report>, ended: TaskRun, now: int) {
    && ended.output == Left(R.Total(reports), 262144)
    && (ended.truncated <==> R.Flagged(reports) || |R.Total(reports)| > 262144)
    && ended.startedAt == run.startedAt && ended.finishedAt == Some(now)
  }

  /** When a run ends, its output is the text of its reports and of its end report, up to the limit. */
  lemma EndedRunHasReports(w: World, actions: seq<Action>, w': World, id: nat, result: TaskResult, w'': World)
    requires Sound(w) && Reaches(w, actions, w') && id in w.runs && w.runs[id].status.Running?
    requires w.runs[id].output == [] && !w.runs[id].truncated
    requires id in w'.runs && w'.runs[id].status.Running? && w'' == Step(w', Finish(w.runs[id].host, id, result))
    ensures id in w''.runs
    ensures EndedWith(w.runs[id], ReportsFor(actions, w.runs[id].host, id) + [R.Report(result.output, result.truncated)],
                      w''.runs[id], w'.now)
  {
    var run, going, reports := w.runs[id], w'.runs[id], ReportsFor(actions, w.runs[id].host, id);
    GoingRunHasReports(w, actions, w', id);
    AppliedKeepsOthers(run, reports);
    FinishGives(w', run.host, id, result);
    FinishedHas(run, reports, going, result, w'.now);
  }

  /** An accepted end ends the run, and is on record once more; any other is not. */
  lemma FinishGives(w: World, host: nat, id: nat, result: TaskResult)
    ensures var w' := Step(w, Finish(host, id, result));
            if Going(w.runs, host, id)
            then id in w'.runs && w'.runs[id] == Finished(w.runs[id], result, w.now) && w'.ends == w.ends + [id] && !Going(w'.runs, host, id)
            else w' == w
  {
  }

  lemma FinishedHas(run: TaskRun, reports: seq<R.Report>, going: TaskRun, result: TaskResult, now: int)
    requires going == R.Applied(run, reports) && run.output == [] && !run.truncated
    ensures EndedWith(run, reports + [R.Report(result.output, result.truncated)], Finished(going, result, now), now)
  {
    var last := R.Report(result.output, result.truncated);
    AppliedKeepsOthers(run, reports);
    AppliedOne(going, last);
    AppliedConcat(run, reports, [last]);
    R.StoredOutput(run, reports + [last]);
  }

  lemma {:induction false} AppliedKeepsOthers(run: TaskRun, reports: seq<R.Report>)
    ensures var applied := R.Applied(run, reports); applied == run.(output := applied.output, truncated := applied.truncated)
  {
    if reports != [] {
      AppliedKeepsOthers(run, Front(reports));
    }
  }

  /** Time passes between steps, and changes nothing by itself. */
  lemma TimePasses(w: World, time: nat)
    ensures Step(w, Tick(time)) == w.(now := Step(w, Tick(time)).now) && Step(w, Tick(time)).now - w.now == time
  {
  }

  /** A call that ends is gone, and its host may ask again; nothing else changes. */
  lemma CallEnds(w: World, call: nat)
    ensures var w' := Step(w, EndCall(call));
            && call !in w'.calls && w' == w.(calls := w'.calls)
            && forall other :: other != call && other in w.calls ==> other in w'.calls && w'.calls[other] == w.calls[other]
  {
  }
}
