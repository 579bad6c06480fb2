/** The task run table. Each store statement or transaction is one step on it. */
module TaskRuns {
  import opened Basics
  import opened Utf8

  /** A queued run waits this long for its agent. */
  const PICKUP_WINDOW: int := 2 * MINUTE
  /** A run may go unreported this long past its timeout. */
  const LOST_AFTER: int := MINUTE
  /** Output past this many characters is cut off. */
  const OUTPUT_LIMIT: nat := 262144
  /** And how many of the error an agent reports. */
  const ERROR_LIMIT: nat := 500

  datatype RunStatus = Queued | Running | Succeeded | Failed | TimedOut | Expired | Lost

  /** A request for a task and what became of it. Hosts are known by their number. */
  datatype TaskRun = TaskRun(
    host: nat, status: RunStatus, timeout: nat, requestedAt: int,
    startedAt: Option<int>, finishedAt: Option<int>, exitCode: int, output: Text, truncated: bool, error: RunError)

  /** What the store writes about a run it ends itself, or what the agent reported. */
  datatype RunError = Reported(text: Text) | AgentRestarted | NeverPickedUp | WentSilent

  type Table = map<nat, TaskRun>

  predicate IsActive(run: TaskRun) {
    run.status.Queued? || run.status.Running?
  }

  predicate Busy(runs: Table, host: nat) {
    exists id :: id in runs && runs[id].host == host && IsActive(runs[id])
  }

  /** A host has at most one run waiting or going. */
  ghost predicate OneActive(runs: Table) {
    forall i, j :: i in runs && j in runs && runs[i].host == runs[j].host && IsActive(runs[i]) && IsActive(runs[j]) ==> i == j
  }

  function NewRun(host: nat, timeout: nat, now: int): TaskRun {
    TaskRun(host, Queued, timeout, now, None, None, 0, [], false, Reported([]))
  }

  // ---------------------------------------------------------------- claims

  predicate Claimable(run: TaskRun, host: nat, now: int) {
    run.host == host && run.status.Queued? && run.requestedAt > now - PICKUP_WINDOW
  }

  /** The runs a claim hands out. */
  function Claimed(runs: Table, host: nat, now: int): set<nat> {
    set id | id in runs && Claimable(runs[id], host, now)
  }

  /** An agent asks while it runs nothing, so a run still going was lost. */
  function ClaimUpdate(runs: Table, host: nat, now: int): Table {
    map id | id in runs ::
      if runs[id].host == host && runs[id].status.Running? then runs[id].(status := Lost, finishedAt := Some(now), error := AgentRestarted)
      else if Claimable(runs[id], host, now) then runs[id].(status := Running, startedAt := Some(now))
      else runs[id]
  }

  // ---------------------------------------------------------------- reports

  /** The first characters of a text. */
  function Left(text: Text, count: nat): Text {
    if |text| <= count then text else text[..count]
  }

  predicate Going(runs: Table, host: nat, id: nat) {
    id in runs && runs[id].host == host && runs[id].status.Running?
  }

  function WithOutput(run: TaskRun, text: Text, truncated: bool): TaskRun {
    var clean := WithoutNul(text);
    run.(output := run.output + Left(clean, if |run.output| <= OUTPUT_LIMIT then OUTPUT_LIMIT - |run.output| else 0),
         truncated := run.truncated || truncated || |run.output| + |clean| > OUTPUT_LIMIT)
  }

  datatype TaskResult = TaskResult(output: Text, truncated: bool, exitCode: int, timedOut: bool, error: Text)

  function ResultStatus(result: TaskResult): RunStatus {
    if result.timedOut then TimedOut
    else if result.error != [] || result.exitCode != 0 then Failed
    else Succeeded
  }

  function Finished(run: TaskRun, result: TaskResult, now: int): TaskRun {
    WithOutput(run, result.output, result.truncated)
      .(status := ResultStatus(result), exitCode := result.exitCode, finishedAt := Some(now),
        error := Reported(Left(WithoutNul(result.error), ERROR_LIMIT)))
  }

  // ---------------------------------------------------------------- sweeping and purging

  function SweepExpired(runs: Table, now: int): Table {
    map id | id in runs ::
      if runs[id].status.Queued? && runs[id].requestedAt <= now - PICKUP_WINDOW
      then runs[id].(status := Expired, finishedAt := Some(now), error := NeverPickedUp) else runs[id]
  }

  predicate Silent(run: TaskRun, now: int) {
    run.status.Running? && run.startedAt.Some? && run.startedAt.value + run.timeout * SECOND + LOST_AFTER < now
  }

  function SweepLost(runs: Table, now: int): Table {
    map id | id in runs :: if Silent(runs[id], now) then runs[id].(status := Lost, finishedAt := Some(now), error := WentSilent) else runs[id]
  }

  function Purge(runs: Table, before: int): Table {
    map id | id in runs && !(runs[id].requestedAt < before && !IsActive(runs[id])) :: runs[id]
  }

  /** What a sweep makes of a row: a run that waited two minutes expires, one that went on for a minute
      past its timeout is lost, and any other row is as it was. */
  ghost predicate SweptTo(run: TaskRun, now: int, after: TaskRun) {
    if run.status.Queued? && now - run.requestedAt >= 120 * SECOND then
      after == run.(status := Expired, finishedAt := Some(now), error := NeverPickedUp)
    else if run.status.Running? && run.startedAt.Some? && now - run.startedAt.value > (run.timeout + 60) * SECOND then
      after == run.(status := Lost, finishedAt := Some(now), error := WentSilent)
    else after == run
  }

  // ---------------------------------------------------------------- the store

  class TaskStore {
    var runs: Table
    var nextId: nat

    ghost predicate Valid()
      reads this
    {
      OneActive(runs) && forall id :: id in runs ==> id < nextId
    }

    constructor ()
      ensures Valid() && runs == map[] && nextId == 0
    {
      runs := map[];
      nextId := 0;
    }

    /** Queues a run of a listed task for a host that is free. */
    method RequestTaskRun(host: nat, timeout: nat, listed: bool, now: int) returns (id: Option<nat>)
      requires Valid()
      modifies this
      ensures Valid()
      ensures id.Some? <==>
                listed && forall other :: other in old(runs) && old(runs)[other].host == host ==>
                  !old(runs)[other].status.Queued? && !old(runs)[other].status.Running?
      ensures id.Some? ==> id.value == old(nextId) && runs == old(runs)[id.value := NewRun(host, timeout, now)] && nextId == old(nextId) + 1
      ensures id.Some? ==>
                var run := runs[id.value];
                && run.host == host && run.status.Queued? && run.requestedAt == now && run.timeout == timeout
                && run.startedAt.None? && run.finishedAt.None? && run.output == [] && !run.truncated
      ensures id.None? ==> runs == old(runs) && nextId == old(nextId)
    {
      id := None;
      if listed && !Busy(runs, host) {
        id := Some(nextId);
        runs := runs[nextId := NewRun(host, timeout, now)];
        nextId := nextId + 1;
      }
    }

    /** Starts the host's queued run, if it is young enough. A run found going is marked lost, and then
        nothing is handed out. */
    method ClaimTaskRun(host: nat, now: int) returns (id: Option<nat>)
      requires Valid()
      modifies this`runs
      ensures Valid() && runs == ClaimUpdate(old(runs), host, now)
      ensures id.None? <==> Claimed(old(runs), host, now) == {}
      ensures id.Some? <==> exists i :: i in old(runs) && old(runs)[i].host == host && old(runs)[i].status.Queued?
                                        && now - old(runs)[i].requestedAt < 120 * SECOND
      ensures id.Some? ==> id.value in old(runs) && Claimed(old(runs), host, now) == {id.value} && Going(runs, host, id.value)
      ensures (exists i :: i in old(runs) && old(runs)[i].host == host && old(runs)[i].status.Running?) ==> id.None?
    {
      var waiting := Claimed(runs, host, now);
      assert forall i :: i in waiting <==>
        i in runs && runs[i].host == host && runs[i].status.Queued? && now - runs[i].requestedAt < 120 * SECOND;
      id := None;
      if waiting != {} {
        var one :| one in waiting;
        assert waiting == {one};
        id := Some(one);
      }
      runs := ClaimUpdate(runs, host, now);
    }

    method AppendTaskOutput(host: nat, id: nat, text: Text, truncated: bool) returns (found: bool)
      requires Valid()
      modifies this`runs
      ensures Valid() && found == (id in old(runs) && old(runs)[id].host == host && old(runs)[id].status.Running?)
      ensures runs == if found then old(runs)[id := WithOutput(old(runs)[id], text, truncated)] else old(runs)
    {
      found := Going(runs, host, id);
      if found {
        runs := runs[id := WithOutput(runs[id], text, truncated)];
      }
    }

    method FinishTaskRun(host: nat, id: nat, result: TaskResult, now: int) returns (found: bool)
      requires Valid()
      modifies this`runs
      ensures Valid() && found == (id in old(runs) && old(runs)[id].host == host && old(runs)[id].status.Running?)
      ensures runs == if found then old(runs)[id := Finished(old(runs)[id], result, now)] else old(runs)
      ensures found ==> !IsActive(runs[id])
      ensures found ==> runs[id].error.Reported? && NUL !in runs[id].error.text
      ensures found ==> runs[id].error.text <= WithoutNul(result.error)
      ensures found ==> |runs[id].error.text| == if |WithoutNul(result.error)| < 500 then |WithoutNul(result.error)| else 500
      ensures found ==> runs[id].exitCode == result.exitCode && runs[id].finishedAt == Some(now)
      ensures found ==> (runs[id].status.TimedOut? <==> result.timedOut)
      ensures found ==> (runs[id].status.Succeeded? <==> !result.timedOut && result.error == [] && result.exitCode == 0)
    {
      found := Going(runs, host, id);
      WithoutNulShrinks(result.error);
      if found {
        runs := runs[id := Finished(runs[id], result, now)];
      }
    }

    /** Expires what waited too long and gives up on what fell silent. */
    method SweepTaskRuns(now: int)
      requires Valid()
      modifies this`runs
      ensures Valid() && runs == SweepLost(SweepExpired(old(runs), now), now)
      ensures runs.Keys == old(runs).Keys && forall id :: id in runs ==> SweptTo(old(runs)[id], now, runs[id])
    {
      runs := SweepExpired(runs, now);
      runs := SweepLost(runs, now);
    }

    method PurgeTaskRuns(before: int)
      requires Valid()
      modifies this`runs
      ensures Valid() && runs == Purge(old(runs), before)
      ensures forall id :: id in runs ==> id in old(runs) && runs[id] == old(runs)[id]
      ensures forall id :: id in old(runs) ==>
                (id in runs <==> old(runs)[id].status.Queued? || old(runs)[id].status.Running? || before <= old(runs)[id].requestedAt)
    {
      runs := Purge(runs, before);
    }
  }
}
