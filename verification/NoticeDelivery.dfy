/** The notification table as one: what each row says, who it is for, and how its delivery goes. Notices
    are queued, channels deleted and batches delivered in any order, and a channel still gets the
    resolution of an alert after what it was told before. */
module NoticeDelivery {
  import opened Basics
  import opened Alerting
  import opened AlertNotices
  import opened NoticeQueue
  import N = Notifications
  import Delivery

  /** The queue, and what each of its rows says. */
  datatype Table = Table(queue: N.Queue, entries: seq<Entry>)

  const NOTHING := Table(N.EMPTY, [])

  predicate Matches(row: N.Row, entry: Entry) {
    row.alert == entry.alert && row.channel == entry.channel
  }

  ghost predicate Matched(t: Table) {
    |t.entries| == |t.queue.rows| && forall id :: 0 <= id < |t.entries| ==> Matches(t.queue.rows[id], t.entries[id])
  }

  /** What the first n rows say, without those that are gone. */
  function Live(rows: seq<N.Row>, entries: seq<Entry>, n: nat): seq<Entry>
    requires n <= |rows| && n <= |entries|
  {
    if n == 0 then []
    else if rows[n - 1].status.Removed? then Live(rows, entries, n - 1)
    else Live(rows, entries, n - 1) + [entries[n - 1]]
  }

  function LiveIn(t: Table): seq<Entry>
    requires |t.entries| == |t.queue.rows|
  {
    Live(t.queue.rows, t.entries, |t.entries|)
  }

  // ---------------------------------------------------------------- steps

  function Enqueued(t: Table, notice: Notice, channels: seq<nat>): Table {
    if channels == [] then t
    else
      var before := Enqueued(t, notice, Front(channels));
      Table(N.Step(before.queue, N.Enqueue(notice.alert, Last(channels))),
            before.entries + [Entry(notice.alert, Last(channels), notice.kind, notice.severity)])
  }

  /** The queue once the first n rows were looked at, and those of a deleted channel are gone. */
  function Dropped(q: N.Queue, channel: nat, n: nat): (r: N.Queue)
    requires n <= |q.rows|
    ensures |r.rows| == |q.rows| && r == q.(rows := r.rows)
    ensures forall id :: 0 <= id < |q.rows| ==>
      r.rows[id] == if id < n && q.rows[id].channel == channel then q.rows[id].(status := N.Removed) else q.rows[id]
  {
    if n == 0 then q
    else if q.rows[n - 1].channel == channel then N.Step(Dropped(q, channel, n - 1), N.Remove(n - 1))
    else Dropped(q, channel, n - 1)
  }

  datatype TableAction = Queueing(action: QueueAction) | Sending(step: N.Action)

  /** Rows are only queued and removed by queueing. */
  predicate Enabled(t: Table, action: TableAction) {
    action.Sending? ==> (action.step.Wait? || action.step.ReadBatch? || action.step.Deliver?) && N.Enabled(t.queue, action.step)
  }

  function Step(t: Table, action: TableAction): Table
    requires Matched(t) && Enabled(t, action)
  {
    match action
    case Sending(step) => t.(queue := N.Step(t.queue, step))
    case Queueing(DeleteChannel(channel)) => t.(queue := Dropped(t.queue, channel, |t.queue.rows|))
    case Queueing(Tell(notice, choice, channels, fails)) =>
      if fails then t
      else
        var told := if notice.kind.Resolved? then NotifiedChannels(LiveIn(t), notice.alert) else {};
        Enqueued(t, notice, PickedChannels(choice, channels, notice.kind, notice.severity, told))
  }

  ghost predicate Reaches(t: Table, actions: seq<TableAction>, t': Table)
    decreases |actions|
  {
    if actions == [] then t == t'
    else Matched(t) && Enabled(t, actions[0]) && Reaches(Step(t, actions[0]), actions[1..], t')
  }

  /** What was queued and deleted, without the deliveries. */
  function QueueingIn(actions: seq<TableAction>): seq<QueueAction> {
    if actions == [] then []
    else (if actions[0].Queueing? then [actions[0].action] else []) + QueueingIn(actions[1..])
  }

  // ---------------------------------------------------------------- the two views agree

  lemma {:induction false} LiveSame(rows: seq<N.Row>, rows': seq<N.Row>, entries: seq<Entry>, entries': seq<Entry>, n: nat)
    requires n <= |rows| && n <= |rows'| && n <= |entries| && n <= |entries'|
    requires forall id :: 0 <= id < n ==> rows'[id].status.Removed? == rows[id].status.Removed? && entries'[id] == entries[id]
    ensures Live(rows', entries', n) == Live(rows, entries, n)
  {
    if n > 0 {
      LiveSame(rows, rows', entries, entries', n - 1);
    }
  }

  lemma {:induction false} LiveWithout(rows: seq<N.Row>, rows': seq<N.Row>, entries: seq<Entry>, channel: nat, n: nat)
    requires n <= |rows| && n <= |rows'| && n <= |entries|
    requires forall id :: 0 <= id < n ==> Matches(rows[id], entries[id])
    requires forall id :: 0 <= id < n ==>
      rows'[id].status.Removed? == (rows[id].status.Removed? || rows[id].channel == channel)
    ensures Live(rows', entries, n) == Without(Live(rows, entries, n), channel)
  {
    if n > 0 {
      LiveWithout(rows, rows', entries, channel, n - 1);
      var before := Live(rows, entries, n - 1);
      if !rows[n - 1].status.Removed? {
        assert Front(before + [entries[n - 1]]) == before && Last(before + [entries[n - 1]]) == entries[n - 1];
        assert Matches(rows[n - 1], entries[n - 1]);
      }
    }
  }

  lemma {:induction false} EnqueuedAgrees(t: Table, notice: Notice, channels: seq<nat>)
    requires Matched(t) && N.Sound(t.queue)
    ensures var t' := Enqueued(t, notice, channels);
            Matched(t') && N.Sound(t'.queue) && LiveIn(t') == QueueNotifications(LiveIn(t), notice, channels)
  {
    if channels != [] {
      EnqueuedAgrees(t, notice, Front(channels));
      var before, t' := Enqueued(t, notice, Front(channels)), Enqueued(t, notice, channels);
      Delivery.EnqueueKeeps(before.queue, notice.alert, Last(channels));
      LiveSame(before.queue.rows, t'.queue.rows, before.entries, t'.entries, |before.entries|);
    }
  }

  /** What single removals keep, dropping a channel's rows keeps. */
  lemma {:induction false} DroppedKeeps(kept: N.Queue -> bool, q: N.Queue, channel: nat, n: nat)
    requires kept(q) && n <= |q.rows|
    requires forall r: N.Queue, id: nat :: kept(r) && id < |r.rows| ==> kept(N.Step(r, N.Remove(id)))
    ensures kept(Dropped(q, channel, n))
  {
    if n > 0 {
      DroppedKeeps(kept, q, channel, n - 1);
    }
  }

  lemma DroppedIsSound(q: N.Queue, channel: nat)
    requires N.Sound(q)
    ensures N.Sound(Dropped(q, channel, |q.rows|))
  {
    forall r: N.Queue, id: nat | N.Sound(r) && id < |r.rows| ensures N.Sound(N.Step(r, N.Remove(id))) {
      Delivery.RemoveKeeps(r, id);
    }
    DroppedKeeps(N.Sound, q, channel, |q.rows|);
  }

  lemma DroppedAgrees(t: Table, channel: nat)
    requires Matched(t) && N.Sound(t.queue)
    ensures var t' := Step(t, Queueing(DeleteChannel(channel)));
            Matched(t') && N.Sound(t'.queue) && LiveIn(t') == Without(LiveIn(t), channel)
  {
    DroppedIsSound(t.queue, channel);
    var t' := Step(t, Queueing(DeleteChannel(channel)));
    LiveWithout(t.queue.rows, t'.queue.rows, t.entries, channel, |t.entries|);
  }

  /** Sending moves rows on and removes none. */
  lemma SendingAgrees(t: Table, step: N.Action)
    requires Matched(t) && N.Sound(t.queue) && Enabled(t, Sending(step))
    ensures var t' := Step(t, Sending(step));
            Matched(t') && N.Sound(t'.queue) && LiveIn(t') == LiveIn(t)
  {
    Delivery.StepKeeps(t.queue, step);
    var t' := Step(t, Sending(step));
    LiveSame(t.queue.rows, t'.queue.rows, t.entries, t.entries, |t.entries|);
  }

  lemma StepAgrees(t: Table, action: TableAction)
    requires Matched(t) && N.Sound(t.queue) && Enabled(t, action)
    ensures var t' := Step(t, action);
            && Matched(t') && N.Sound(t'.queue)
            && LiveIn(t') == if action.Queueing? then QueueStep(LiveIn(t), action.action) else LiveIn(t)
  {
    match action
    case Sending(step) => SendingAgrees(t, step);
    case Queueing(DeleteChannel(channel)) => DroppedAgrees(t, channel);
    case Queueing(Tell(notice, choice, channels, fails)) =>
      var told := if notice.kind.Resolved? then NotifiedChannels(LiveIn(t), notice.alert) else {};
      EnqueuedAgrees(t, notice, PickedChannels(choice, channels, notice.kind, notice.severity, told));
  }

  ghost predicate Agrees(t: Table, actions: seq<QueueAction>) {
    Matched(t) && N.Sound(t.queue) && LiveIn(t) == Queued(actions)
  }

  lemma QueuedOneMore(actions: seq<QueueAction>, action: QueueAction)
    ensures Queued(actions + [action]) == QueueStep(Queued(actions), action)
  {
    assert Front(actions + [action]) == actions;
  }

  /** Over every run, what the live rows say is what the queueing alone would have left. */
  lemma {:induction false} TableAgrees(t: Table, before: seq<QueueAction>, actions: seq<TableAction>, t': Table)
    requires Agrees(t, before) && Reaches(t, actions, t')
    ensures Agrees(t', before + QueueingIn(actions))
    decreases |actions|
  {
    if actions == [] {
      assert before + [] == before;
    } else {
      StepAgrees(t, actions[0]);
      if actions[0].Queueing? {
        QueuedOneMore(before, actions[0].action);
        TableAgrees(Step(t, actions[0]), before + [actions[0].action], actions[1..], t');
        assert before + [actions[0].action] + QueueingIn(actions[1..]) == before + QueueingIn(actions);
      } else {
        TableAgrees(Step(t, actions[0]), before, actions[1..], t');
        assert QueueingIn(actions) == QueueingIn(actions[1..]);
      }
    }
  }

  // ---------------------------------------------------------------- what one channel gets of one alert

  /** A row that is there and is for an alert and channel. */
  predicate LiveFor(row: N.Row, alert: nat, channel: nat) {
    !row.status.Removed? && row.alert == alert && row.channel == channel
  }

  lemma {:induction false} HeardGrows(rows: seq<N.Row>, entries: seq<Entry>, n: nat, m: nat, alert: nat, channel: nat)
    requires n <= m <= |rows| && m <= |entries|
    ensures EntriesFor(Live(rows, entries, n), alert, channel) <= EntriesFor(Live(rows, entries, m), alert, channel)
  {
    if n < m {
      HeardGrows(rows, entries, n, m - 1, alert, channel);
      HeardOneMore(rows, entries, m - 1, alert, channel);
    }
  }

  lemma HeardOneMore(rows: seq<N.Row>, entries: seq<Entry>, n: nat, alert: nat, channel: nat)
    requires n < |rows| && n < |entries|
    ensures EntriesFor(Live(rows, entries, n + 1), alert, channel)
         == EntriesFor(Live(rows, entries, n), alert, channel)
            + if !rows[n].status.Removed? && entries[n].alert == alert && entries[n].channel == channel then [entries[n]] else []
  {
    var before := Live(rows, entries, n);
    assert Front(before + [entries[n]]) == before && Last(before + [entries[n]]) == entries[n];
  }

  /** What was heard last came from a row. */
  lemma {:induction false} HeardFrom(rows: seq<N.Row>, entries: seq<Entry>, n: nat, alert: nat, channel: nat) returns (j: nat)
    requires n <= |rows| && n <= |entries| && forall id :: 0 <= id < n ==> Matches(rows[id], entries[id])
    requires EntriesFor(Live(rows, entries, n), alert, channel) != []
    ensures j < n && LiveFor(rows[j], alert, channel) && entries[j] == Last(EntriesFor(Live(rows, entries, n), alert, channel))
  {
    HeardOneMore(rows, entries, n - 1, alert, channel);
    assert Matches(rows[n - 1], entries[n - 1]);
    if LiveFor(rows[n - 1], alert, channel) {
      j := n - 1;
    } else {
      j := HeardFrom(rows, entries, n - 1, alert, channel);
    }
  }

  /** A live row that says an alert resolved comes after one that says something else of it. */
  lemma ResolutionHasEarlier(t: Table, id: nat) returns (j: nat)
    requires Matched(t) && id < |t.entries| && !t.queue.rows[id].status.Removed? && t.entries[id].kind.Resolved?
    requires Coherent(EntriesFor(LiveIn(t), t.entries[id].alert, t.entries[id].channel))
    ensures j < id && N.SamePair(t.queue.rows[j], t.queue.rows[id]) && !t.queue.rows[j].status.Removed? && !t.entries[j].kind.Resolved?
  {
    var rows, entries := t.queue.rows, t.entries;
    var alert, channel := entries[id].alert, entries[id].channel;
    var before, all := EntriesFor(Live(rows, entries, id), alert, channel), EntriesFor(LiveIn(t), alert, channel);
    HeardOneMore(rows, entries, id, alert, channel);
    HeardGrows(rows, entries, id + 1, |entries|, alert, channel);
    assert all[|before|] == entries[id];
    j := HeardFrom(rows, entries, id, alert, channel);
    assert all[|before| - 1] == Last(before);
    assert Matches(rows[id], entries[id]);
  }

  /** End to end, from evaluator to delivery: whenever a try of a row is about to be made, no earlier
      message for its alert and channel is waiting. And when the row is there and says that the alert
      resolved, an earlier one that said something else of the alert was sent to the channel or given
      up on. */
  lemma ResolutionComesLast(run: seq<Action>, actions: seq<TableAction>, t: Table, id: nat) returns (j: nat)
    requires ProperTables(QueueingIn(actions)) && ToldIn(QueueingIn(actions)) == Run(run).notices
    requires Reaches(NOTHING, actions, t) && t.queue.batch != [] && id == t.queue.batch[0].id
    ensures Matched(t) && id < |t.entries|
    ensures forall k :: 0 <= k < id && N.SamePair(t.queue.rows[k], t.queue.rows[id]) ==> !t.queue.rows[k].status.Pending?
    ensures t.entries[id].kind.Resolved? && !t.queue.rows[id].status.Removed? ==>
              && j < id && N.SamePair(t.queue.rows[j], t.queue.rows[id]) && !t.entries[j].kind.Resolved?
              && (t.queue.rows[j].status.Sent? || t.queue.rows[j].status.Failed?)
  {
    TableIsQueued(actions, t);
    NextIsFirst(t.queue);
    j := 0;
    if t.entries[id].kind.Resolved? && !t.queue.rows[id].status.Removed? {
      NoStrayResolution(run, QueueingIn(actions), t.entries[id].alert, t.entries[id].channel);
      j := ResolutionHasEarlier(t, id);
    }
  }

  lemma TableIsQueued(actions: seq<TableAction>, t: Table)
    requires Reaches(NOTHING, actions, t)
    ensures Matched(t) && N.Sound(t.queue) && LiveIn(t) == Queued(QueueingIn(actions))
  {
    assert N.Sound(N.EMPTY) && Agrees(NOTHING, []);
    TableAgrees(NOTHING, [], actions, t);
    assert [] + QueueingIn(actions) == QueueingIn(actions);
  }

  /** Nothing for the alert and channel of the row that is next waits before it. */
  lemma NextIsFirst(q: N.Queue)
    requires N.Sound(q) && q.batch != []
    ensures q.batch[0].id < |q.rows|
    ensures forall k :: 0 <= k < q.batch[0].id && N.SamePair(q.rows[k], q.rows[q.batch[0].id]) ==> !q.rows[k].status.Pending?
  {
    assert N.ItemSound(q, q.batch[0]);
  }
}
