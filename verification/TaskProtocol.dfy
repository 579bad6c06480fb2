/** Task runs from request to end, under every interleaving of dashboard requests, agents' NextTask
    calls with their wake-up channels, reports, sweeps and purges. */
module TaskProtocol {
  import opened Basics
  import opened Utf8
  import opened TaskRuns

  // ---------------------------------------------------------------- the wake-up channels

  /** The channels agents wait on, by host. A channel is a number; closing it is for good. */
  class TaskWaiters {
    var waiting: map<nat, nat>
    var closed: set<nat>
    var nextChannel: nat

    ghost predicate Valid()
      reads this
    {
      ChannelsSound(waiting, closed, nextChannel)
    }

    constructor ()
      ensures Valid() && waiting == map[] && closed == {} && nextChannel == 0
    {
      waiting, closed, nextChannel := map[], {}, 0;
    }

    /** The channel to wait on for a host. Everyone who waits for the host has the same one. */
    method Wait(host: nat) returns (channel: nat)
      requires Valid()
      modifies this
      ensures Valid() && closed == old(closed)
      ensures channel !in closed && waiting == old(waiting)[host := channel]
      ensures if host in old(waiting) then channel == old(waiting)[host] && nextChannel == old(nextChannel)
              else channel == old(nextChannel) && nextChannel == old(nextChannel) + 1
    {
      if host in waiting {
        channel := waiting[host];
        assert waiting == waiting[host := channel];
      } else {
        channel := nextChannel;
        waiting := waiting[host := channel];
        nextChannel := nextChannel + 1;
      }
    }

    /** Closes the host's channel, so that everyone holding it goes on. */
    method Wake(host: nat)
      requires Valid()
      modifies this
      ensures Valid() && nextChannel == old(nextChannel) && waiting == old(waiting) - {host}
      ensures closed == old(closed) + if host in old(waiting) then {old(waiting)[host]} else {}
    {
      if host in waiting {
        closed := closed + {waiting[host]};
        waiting := waiting - {host};
      }
    }
  }

  /** The channels in the map are open, and no two hosts share one. */
  ghost predicate ChannelsSound(waiting: map<nat, nat>, closed: set<nat>, nextChannel: nat) {
    && (forall h :: h in waiting ==> waiting[h] !in closed && waiting[h] < nextChannel)
    && (forall g, h :: g in waiting && h in waiting && waiting[g] == waiting[h] ==> g == h)
    && (forall c :: c in closed ==> c < nextChannel)
  }

  // ---------------------------------------------------------------- the protocol

  /** Where a NextTask call is: it holds a channel and has not looked yet, it found nothing and is
      blocked on the channel, or it was woken and is about to look again. `seen` is the first run
      id that did not exist when the blocked call looked. */
  datatype Call =
    | Holding(host: nat, channel: nat)
    | Blocked(host: nat, channel: nat, seen: nat)
    | Woken(host: nat)

  /** A run handed to an agent. */
  datatype Handout = Handout(id: nat, requestedAt: int, at: int)

  /** `requesters` are the runs whose requester has not done its wake yet, with their hosts.
      `handouts` and `ends` record every run handed out and every end report accepted. */
  datatype World = World(
    now: int, runs: Table, nextRun: nat,
    waiting: map<nat, nat>, closed: set<nat>, nextChannel: nat,
    calls: map<nat, Call>, requesters: map<nat, nat>,
    handouts: seq<Handout>, ends: seq<nat>)

  const EMPTY := World(0, map[], 0, map[], {}, 0, map[], map[], [], [])

  datatype Action =
    | Tick(time: nat)
    | Request(host: nat, timeout: nat)
    | Wake(run: nat)
    | StartCall(call: nat, host: nat)
    | Claim(call: nat)
    | HearWake(call: nat)
    | EndCall(call: nat)
    | Report(host: nat, id: nat, text: Text, truncated: bool)
    | Finish(host: nat, id: nat, result: TaskResult)
    | Expire
    | Lose
    | PurgeRuns(before: int)

  predicate Enabled(w: World, action: Action) {
    match action
    case Wake(run) => run in w.requesters
    case StartCall(call, _) => call !in w.calls
    case Claim(call) => call in w.calls && !w.calls[call].Blocked?
    case HearWake(call) => call in w.calls && w.calls[call].Blocked? && w.calls[call].channel in w.closed
    case _ => true
  }

  function RequestStep(w: World, host: nat, timeout: nat): World {
    if Busy(w.runs, host) then w
    else w.(runs := w.runs[w.nextRun := NewRun(host, timeout, w.now)], nextRun := w.nextRun + 1,
            requesters := w.requesters[w.nextRun := host])
  }

  function WakeStep(w: World, run: nat): World
    requires run in w.requesters
  {
    var host := w.requesters[run];
    w.(requesters := w.requesters - {run}, waiting := w.waiting - {host},
       closed := w.closed + if host in w.waiting then {w.waiting[host]} else {})
  }

  function StartStep(w: World, call: nat, host: nat): World {
    if host in w.waiting then w.(calls := w.calls[call := Holding(host, w.waiting[host])])
    else w.(calls := w.calls[call := Holding(host, w.nextChannel)],
            waiting := w.waiting[host := w.nextChannel], nextChannel := w.nextChannel + 1)
  }

  /** What a claim hands out, in the order of the ids. There is at most one, as proved below. */
  function Handouts(runs: Table, ids: set<nat>, upTo: nat, now: int): seq<Handout> {
    if upTo == 0 then []
    else Handouts(runs, ids, upTo - 1, now)
         + if upTo - 1 in ids && upTo - 1 in runs then [Handout(upTo - 1, runs[upTo - 1].requestedAt, now)] else []
  }

  function ClaimStep(w: World, call: nat): World
    requires call in w.calls && !w.calls[call].Blocked?
  {
    var host := w.calls[call].host;
    var ids := Claimed(w.runs, host, w.now);
    var calls :=
      if ids == {} && w.calls[call].Holding? then w.calls[call := Blocked(host, w.calls[call].channel, w.nextRun)]
      else w.calls - {call};
    w.(runs := ClaimUpdate(w.runs, host, w.now), calls := calls,
       handouts := w.handouts + Handouts(w.runs, ids, w.nextRun, w.now))
  }

  function FinishStep(w: World, host: nat, id: nat, result: TaskResult): World {
    if Going(w.runs, host, id) then w.(runs := w.runs[id := Finished(w.runs[id], result, w.now)], ends := w.ends + [id]) else w
  }

  function Step(w: World, action: Action): World
    requires Enabled(w, action)
  {
    match action
    case Tick(time) => w.(now := w.now + time)
    case Request(host, timeout) => RequestStep(w, host, timeout)
    case Wake(run) => WakeStep(w, run)
    case StartCall(call, host) => StartStep(w, call, host)
    case Claim(call) => ClaimStep(w, call)
    case HearWake(call) => w.(calls := w.calls[call := Woken(w.calls[call].host)])
    case EndCall(call) => w.(calls := w.calls - {call})
    case Report(host, id, text, truncated) =>
      if Going(w.runs, host, id) then w.(runs := w.runs[id := WithOutput(w.runs[id], text, truncated)]) else w
    case Finish(host, id, result) => FinishStep(w, host, id, result)
    case Expire => w.(runs := SweepExpired(w.runs, w.now))
    case Lose => w.(runs := SweepLost(w.runs, w.now))
    case PurgeRuns(before) => w.(runs := Purge(w.runs, before))
  }

  ghost predicate Reaches(w: World, actions: seq<Action>, w': World)
    decreases |actions|
  {
    if actions == [] then w == w'
    else Enabled(w, actions[0]) && Reaches(Step(w, actions[0]), actions[1..], w')
  }

  // ---------------------------------------------------------------- invariants

  ghost predicate TableSound(w: World) {
    && OneActive(w.runs)
    && (forall id :: id in w.runs ==> id < w.nextRun)
    && (forall id :: id in w.requesters ==> id < w.nextRun)
    && (forall id :: id in w.requesters && id in w.runs ==> w.requesters[id] == w.runs[id].host)
  }

  /** Every open channel a call holds is the one in the map. */
  ghost predicate HoldsMapped(w: World, call: Call) {
    !call.Woken? && call.channel !in w.closed ==> call.host in w.waiting && w.waiting[call.host] == call.channel
  }

  /** A call blocked on an open channel misses nothing: the requester of every run asked for since
      it looked, and of every run it could claim now, has yet to do its wake. */
  ghost predicate MissesNothing(w: World, call: Call) {
    call.Blocked? && call.channel !in w.closed ==>
      forall id :: id in w.runs && w.runs[id].host == call.host && (id >= call.seen || Claimable(w.runs[id], call.host, w.now))
        ==> id in w.requesters
  }

  ghost predicate CallsSound(w: World) {
    && ChannelsSound(w.waiting, w.closed, w.nextChannel)
    && (forall c :: c in w.calls ==> HoldsMapped(w, w.calls[c]) && MissesNothing(w, w.calls[c]))
    && (forall c :: c in w.calls && !w.calls[c].Woken? ==> w.calls[c].channel < w.nextChannel)
  }

  /** A run is handed out once, in its pickup window, and ends by report once. */
  ghost predicate RecordsSound(w: World) {
    && (forall i, j :: 0 <= i < j < |w.handouts| ==> w.handouts[i].id != w.handouts[j].id)
    && (forall i :: 0 <= i < |w.handouts| ==>
          && w.handouts[i].at < w.handouts[i].requestedAt + PICKUP_WINDOW
          && w.handouts[i].id < w.nextRun
          && (w.handouts[i].id in w.runs ==> !w.runs[w.handouts[i].id].status.Queued?))
    && (forall i, j :: 0 <= i < j < |w.ends| ==> w.ends[i] != w.ends[j])
    && (forall i :: 0 <= i < |w.ends| ==> w.ends[i] < w.nextRun && (w.ends[i] in w.runs ==> !IsActive(w.runs[w.ends[i]])))
  }

  ghost predicate Sound(w: World) {
    TableSound(w) && CallsSound(w) && RecordsSound(w)
  }

  // ---------------------------------------------------------------- steps on the table only

  /** The rows move on: hosts stay, no run becomes active again or goes back into the queue. */
  ghost predicate RunsProgress(runs: Table, runs': Table) {
    forall id :: id in runs' ==>
      && id in runs && runs'[id].host == runs[id].host && runs'[id].requestedAt == runs[id].requestedAt
      && (IsActive(runs'[id]) ==> IsActive(runs[id])) && (runs'[id].status.Queued? ==> runs[id].status.Queued?)
  }

  lemma ProgressKeeps(w: World, w': World)
    requires Sound(w) && w' == w.(runs := w'.runs, now := w'.now) && w.now <= w'.now && RunsProgress(w.runs, w'.runs)
    ensures Sound(w')
  {
    forall c | c in w'.calls ensures HoldsMapped(w', w'.calls[c]) && MissesNothing(w', w'.calls[c]) {
      assert HoldsMapped(w, w.calls[c]) && MissesNothing(w, w.calls[c]);
    }
  }

  /** Reports, sweeps, purges and the clock move rows on. */
  lemma RowStepKeeps(w: World, action: Action)
    requires Sound(w) && (action.Tick? || action.Report? || action.Expire? || action.Lose? || action.PurgeRuns?)
    ensures Sound(Step(w, action))
  {
    ProgressKeeps(w, Step(w, action));
  }

  lemma FinishKeeps(w: World, host: nat, id: nat, result: TaskResult)
    requires Sound(w)
    ensures Sound(FinishStep(w, host, id, result))
  {
    if Going(w.runs, host, id) {
      var w' := FinishStep(w, host, id, result);
      ProgressKeeps(w, w'.(ends := w.ends));
      assert forall i :: 0 <= i < |w.ends| ==> w.ends[i] != id;
    }
  }

  // ---------------------------------------------------------------- requests, wakes and calls

  lemma RequestKeeps(w: World, host: nat, timeout: nat)
    requires Sound(w)
    ensures Sound(RequestStep(w, host, timeout))
  {
    var w' := RequestStep(w, host, timeout);
    forall c | c in w'.calls ensures HoldsMapped(w', w'.calls[c]) && MissesNothing(w', w'.calls[c]) {
      assert HoldsMapped(w, w.calls[c]) && MissesNothing(w, w.calls[c]);
    }
  }

  lemma WakeKeeps(w: World, run: nat)
    requires Sound(w) && run in w.requesters
    ensures Sound(WakeStep(w, run))
  {
    var host, w' := w.requesters[run], WakeStep(w, run);
    forall c | c in w'.calls ensures HoldsMapped(w', w'.calls[c]) && MissesNothing(w', w'.calls[c]) {
      assert HoldsMapped(w, w.calls[c]) && MissesNothing(w, w.calls[c]);
    }
  }

  /** A new channel for a host that has none in the map. */
  lemma NewChannelKeeps(waiting: map<nat, nat>, closed: set<nat>, nextChannel: nat, host: nat)
    requires ChannelsSound(waiting, closed, nextChannel) && host !in waiting
    ensures ChannelsSound(waiting[host := nextChannel], closed, nextChannel + 1) && nextChannel !in closed
  {
  }

  lemma StartKeeps(w: World, call: nat, host: nat)
    requires Sound(w) && call !in w.calls
    ensures Sound(StartStep(w, call, host))
  {
    var w' := StartStep(w, call, host);
    if host !in w.waiting {
      NewChannelKeeps(w.waiting, w.closed, w.nextChannel, host);
    }
    assert TableSound(w') && RecordsSound(w') && ChannelsSound(w'.waiting, w'.closed, w'.nextChannel);
    forall c | c in w'.calls ensures HoldsMapped(w', w'.calls[c]) && MissesNothing(w', w'.calls[c]) {
      if c != call {
        assert w'.calls[c] == w.calls[c] && HoldsMapped(w, w.calls[c]) && MissesNothing(w, w.calls[c]);
      }
    }
  }

  lemma {:induction false} HandoutsAre(runs: Table, ids: set<nat>, upTo: nat, now: int)
    requires forall i, j :: i in ids && j in ids ==> i == j
    requires forall id :: id in ids ==> id in runs
    ensures var handouts := Handouts(runs, ids, upTo, now);
            && |handouts| <= 1
            && (handouts == [] <==> forall id :: id in ids ==> id >= upTo)
            && (handouts != [] ==> handouts[0].id in ids && handouts[0] == Handout(handouts[0].id, runs[handouts[0].id].requestedAt, now))
  {
    if upTo > 0 {
      HandoutsAre(runs, ids, upTo - 1, now);
    }
  }

  /** A claim hands out the host's waiting run if there is one, and only then. A claim that finds a
      run going marks it lost and hands out nothing. */
  lemma ClaimHandsOutOne(w: World, call: nat)
    requires Sound(w) && call in w.calls && !w.calls[call].Blocked?
    ensures var host, w' := w.calls[call].host, ClaimStep(w, call);
            && w'.handouts[..|w.handouts|] == w.handouts
            && |w.handouts| <= |w'.handouts| <= |w.handouts| + 1
            && (|w'.handouts| == |w.handouts| <==> Claimed(w.runs, host, w.now) == {})
            && (|w'.handouts| > |w.handouts| ==>
                  var id := Last(w'.handouts).id;
                  && Claimed(w.runs, host, w.now) == {id} && w'.runs[id].status.Running?
                  && Last(w'.handouts) == Handout(id, w.runs[id].requestedAt, w.now))
            && (forall lost :: lost in w.runs && Going(w.runs, host, lost) ==> w'.runs[lost].status.Lost? && w'.handouts == w.handouts)
  {
    var host := w.calls[call].host;
    var ids := Claimed(w.runs, host, w.now);
    HandoutsAre(w.runs, ids, w.nextRun, w.now);
    assert ids != {} ==> exists id :: id in ids;
    var handouts := Handouts(w.runs, ids, w.nextRun, w.now);
    if handouts != [] {
      assert forall id :: id in ids ==> id == handouts[0].id;
      assert ids == {handouts[0].id};
    }
  }

  lemma ClaimKeepsCalls(w: World, call: nat)
    requires Sound(w) && call in w.calls && !w.calls[call].Blocked?
    ensures TableSound(ClaimStep(w, call)) && CallsSound(ClaimStep(w, call))
  {
    var w' := ClaimStep(w, call);
    forall c | c in w'.calls ensures HoldsMapped(w', w'.calls[c]) && MissesNothing(w', w'.calls[c]) {
      assert HoldsMapped(w, w.calls[c]) && MissesNothing(w, w.calls[c]);
      if c == call {
        assert forall id :: id in w.runs ==> id !in Claimed(w.runs, w.calls[call].host, w.now);
      }
    }
  }

  lemma ClaimKeepsRecords(w: World, call: nat)
    requires Sound(w) && call in w.calls && !w.calls[call].Blocked?
    ensures RecordsSound(ClaimStep(w, call))
  {
    ClaimHandsOutOne(w, call);
    var w' := ClaimStep(w, call);
    assert forall i :: 0 <= i < |w.handouts| ==> w'.handouts[i] == w.handouts[i];
    if |w'.handouts| > |w.handouts| {
      var id := Last(w'.handouts).id;
      assert id in Claimed(w.runs, w.calls[call].host, w.now);
    }
  }

  lemma CallChangeKeeps(w: World, w': World)
    requires Sound(w) && w' == w.(calls := w'.calls)
    requires forall c :: c in w'.calls ==> w'.calls[c].Woken? || (c in w.calls && w'.calls[c] == w.calls[c])
    ensures Sound(w')
  {
    forall c | c in w'.calls ensures HoldsMapped(w', w'.calls[c]) && MissesNothing(w', w'.calls[c]) {
      assert c in w.calls ==> HoldsMapped(w, w.calls[c]) && MissesNothing(w, w.calls[c]);
    }
  }

  // ---------------------------------------------------------------- every run

  lemma StepKeeps(w: World, action: Action)
    requires Sound(w) && Enabled(w, action)
    ensures Sound(Step(w, action))
  {
    var w' := Step(w, action);
    match action
    case Request(host, timeout) => RequestKeeps(w, host, timeout);
    case Wake(run) => WakeKeeps(w, run);
    case StartCall(call, host) => StartKeeps(w, call, host);
    case Claim(call) =>
      ClaimKeepsCalls(w, call);
      ClaimKeepsRecords(w, call);
    case HearWake(_) => CallChangeKeeps(w, w');
    case EndCall(_) => CallChangeKeeps(w, w');
    case Finish(host, id, result) => FinishKeeps(w, host, id, result);
    case _ => RowStepKeeps(w, action);
  }

  lemma {:induction false} RunKeeps(w: World, actions: seq<Action>, w': World)
    requires Sound(w) && Reaches(w, actions, w')
    ensures Sound(w')
    decreases |actions|
  {
    if actions != [] {
      StepKeeps(w, actions[0]);
      RunKeeps(Step(w, actions[0]), actions[1..], w');
    }
  }

  lemma EveryRunIsSound(actions: seq<Action>, w: World)
    requires Reaches(EMPTY, actions, w)
    ensures Sound(w)
  {
    RunKeeps(EMPTY, actions, w);
  }

  /** No lost wake-up, under every interleaving: while a call is blocked on an open channel, the
      requester of every run asked for since the call looked, and of every run the call could
      claim, has not done its wake yet. */
  lemma NoLostWakeUp(actions: seq<Action>, w: World, call: nat, id: nat)
    requires Reaches(EMPTY, actions, w)
    requires call in w.calls && w.calls[call].Blocked? && w.calls[call].channel !in w.closed
    requires id in w.runs && w.runs[id].host == w.calls[call].host
    requires id >= w.calls[call].seen || Claimable(w.runs[id], w.runs[id].host, w.now)
    ensures id in w.requesters
  {
    EveryRunIsSound(actions, w);
    assert MissesNothing(w, w.calls[call]);
  }

  /** And that wake unblocks the call. */
  lemma WakeUnblocks(actions: seq<Action>, w: World, call: nat, run: nat)
    requires Reaches(EMPTY, actions, w)
    requires call in w.calls && w.calls[call].Blocked? && run in w.requesters && w.requesters[run] == w.calls[call].host
    ensures Enabled(WakeStep(w, run), HearWake(call))
  {
    EveryRunIsSound(actions, w);
    assert HoldsMapped(w, w.calls[call]);
  }

  /** Every open channel anyone holds is the one in the map. */
  lemma OpenChannelsAreMapped(actions: seq<Action>, w: World, call: nat)
    requires Reaches(EMPTY, actions, w)
    requires call in w.calls && !w.calls[call].Woken? && w.calls[call].channel !in w.closed
    ensures w.calls[call].host in w.waiting && w.waiting[w.calls[call].host] == w.calls[call].channel
  {
    EveryRunIsSound(actions, w);
    assert HoldsMapped(w, w.calls[call]);
  }

  /** The life of a run, under every interleaving: one active run per host, each run handed out by
      at most one claim and within the pickup window of its request, and at most one end report
      accepted for it. */
  lemma RunsLiveOnce(actions: seq<Action>, w: World)
    requires Reaches(EMPTY, actions, w)
    ensures OneActive(w.runs)
    ensures forall i, j :: 0 <= i < j < |w.handouts| ==> w.handouts[i].id != w.handouts[j].id
    ensures forall i :: 0 <= i < |w.handouts| ==> w.handouts[i].at < w.handouts[i].requestedAt + PICKUP_WINDOW
    ensures forall i, j :: 0 <= i < j < |w.ends| ==> w.ends[i] != w.ends[j]
  {
    EveryRunIsSound(actions, w);
  }

  /** An ended run never changes again. It stays as it is until it is purged. */
  lemma EndedRunsStay(w: World, action: Action, id: nat)
    requires Sound(w) && Enabled(w, action) && id in w.runs && !IsActive(w.runs[id])
    ensures var runs := Step(w, action).runs;
            if id in runs then runs[id] == w.runs[id] else action.PurgeRuns? && w.runs[id].requestedAt < action.before
  {
  }
}
