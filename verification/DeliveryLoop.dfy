/** The delivery loop and the statements it makes, over the notification table itself. Each batch
    is a run of the steps of `Notifications`, so what holds of every run holds of the loop. */
module DeliveryLoop {
  import opened Basics
  import opened Notifications
  import Delivery

  /** What becomes of one entry of a batch: how the try goes, how long it takes, and whether its
      outcome can be recorded. */
  datatype Outcome = Outcome(result: Result, took: nat, recorded: bool)

  function Deliveries(outcomes: seq<Outcome>): seq<Action> {
    if outcomes == [] then []
    else Deliveries(Front(outcomes)) + [Deliver(Last(outcomes).result, Last(outcomes).took, Last(outcomes).recorded)]
  }

  lemma {:induction false} ReachesOneMore(q: Queue, actions: seq<Action>, mid: Queue, action: Action)
    requires Reaches(q, actions, mid) && Enabled(mid, action)
    ensures Reaches(q, actions + [action], Step(mid, action))
    decreases |actions|
  {
    var all := actions + [action];
    if actions == [] {
      assert all[1..] == [];
      assert Reaches(Step(q, action), all[1..], Step(mid, action));
    } else {
      ReachesOneMore(Step(q, actions[0]), actions[1..], mid, action);
      assert all[1..] == actions[1..] + [action];
    }
  }

  ghost predicate NotListed(due: seq<Item>, n: nat, id: nat)
    requires n <= |due|
  {
    forall k :: 0 <= k < n ==> due[k].id != id
  }

  /** What the first n entries of a batch leave in the table, when some tries were made before it:
      each was tried once, in the batch's order, its row says what became of it when that could be recorded, and no other row changed. */
  ghost predicate BatchRecorded(rows: seq<Row>, due: seq<Item>, n: nat, outcomes: seq<Outcome>, made: nat,
                                tries: seq<Try>, rows': seq<Row>) {
    && |tries| == made + n && n <= |due| <= |outcomes| && |rows'| == |rows|
    && (forall id: nat :: id < |rows| && NotListed(due, n, id) ==> rows'[id] == rows[id])
    && (forall k :: 0 <= k < n ==>
          due[k].id < |rows| && EntryRecorded(rows[due[k].id], due[k], outcomes[k], tries[made + k], rows'[due[k].id]))
  }

  ghost predicate EntryRecorded(row: Row, item: Item, outcome: Outcome, t: Try, row': Row) {
    && t.item == item && t.result == outcome.result && t.recorded == outcome.recorded && t.done == t.at + outcome.took
    && (!t.recorded ==> row' == row)
    && (t.recorded ==> row'.attempts == row.attempts + 1 && SamePair(row, row'))
    && (t.recorded && t.result.Delivered? ==> row'.status.Sent?)
    && (t.recorded && !t.result.Delivered? ==>
          if t.result.Unsent? && item.attempts + 1 < MAX_TRIES
          then row'.status == row.status && row'.nextAt == t.done + RETRY_WAITS[item.attempts]
          else row'.status.Failed?)
  }

  lemma EntryIsRecorded(row: Row, item: Item, outcome: Outcome, at: int, row': Row)
    requires item.attempts == row.attempts < MAX_TRIES
    requires row' == if outcome.recorded then Marked(row, item, outcome.result, at + outcome.took) else row
    ensures EntryRecorded(row, item, outcome, Try(item, at, outcome.result, at + outcome.took, outcome.recorded), row')
  {
  }

  /** The table after a try. A row that is gone is not updated. */
  function Recorded(rows: seq<Row>, item: Item, outcome: Outcome, now: int): seq<Row>
    requires item.id < |rows|
  {
    if outcome.recorded && !rows[item.id].status.Removed?
    then rows[item.id := Marked(rows[item.id], item, outcome.result, now)]
    else rows
  }

  /** The rows of the entries to come are as they were when the batch was read. */
  lemma RowUntouched(rows: seq<Row>, due: seq<Item>, k: nat, outcomes: seq<Outcome>, made: nat, tries: seq<Try>, mid: seq<Row>)
    requires k < |due| && Ascending(due) && due[k].id < |rows| && BatchRecorded(rows, due, k, outcomes, made, tries, mid)
    ensures mid[due[k].id] == rows[due[k].id]
  {
    assert NotListed(due, k, due[k].id);
  }

  /** The queue once the first k entries of the batch it has read were tried. */
  function BatchAfter(q: Queue, outcomes: seq<Outcome>, k: nat): (r: Queue)
    requires k <= |q.batch| && k <= |outcomes| && forall m :: 0 <= m < |q.batch| ==> q.batch[m].id < |q.rows|
    ensures |r.rows| == |q.rows| && r.batch == q.batch[k..]
  {
    if k == 0 then q
    else DeliverStep(BatchAfter(q, outcomes, k - 1), outcomes[k - 1].result, outcomes[k - 1].took, outcomes[k - 1].recorded)
  }

  lemma {:induction false} BatchReaches(q: Queue, outcomes: seq<Outcome>, k: nat)
    requires k <= |q.batch| && k <= |outcomes| && forall m :: 0 <= m < |q.batch| ==> q.batch[m].id < |q.rows|
    ensures Reaches(q, Deliveries(outcomes[..k]), BatchAfter(q, outcomes, k))
  {
    if k > 0 {
      BatchReaches(q, outcomes, k - 1);
      var o := outcomes[k - 1];
      assert Front(outcomes[..k]) == outcomes[..k - 1] && Last(outcomes[..k]) == o;
      ReachesOneMore(q, Deliveries(outcomes[..k - 1]), BatchAfter(q, outcomes, k - 1), Deliver(o.result, o.took, o.recorded));
    }
  }

  /** One more entry of a batch. */
  lemma BatchRecordedOneMore(rows: seq<Row>, due: seq<Item>, k: nat, outcomes: seq<Outcome>, made: nat,
                             tries: seq<Try>, mid: seq<Row>, t: Try, row: Row)
    requires k < |due| && Ascending(due) && BatchRecorded(rows, due, k, outcomes, made, tries, mid)
    requires due[k].id < |rows| && EntryRecorded(rows[due[k].id], due[k], outcomes[k], t, row)
    ensures BatchRecorded(rows, due, k + 1, outcomes, made, tries + [t], mid[due[k].id := row])
  {
    forall id: nat | id < |rows| && NotListed(due, k + 1, id) ensures mid[due[k].id := row][id] == rows[id] {
      assert NotListed(due, k, id);
    }
  }

  /** The row of an entry once its try is recorded, and the batch with it. */
  lemma EntryDone(rows: seq<Row>, due: seq<Item>, outcomes: seq<Outcome>, made: nat, k: nat, mid: seq<Row>, at: int,
                  tries: seq<Try>, rows': seq<Row>)
    requires k < |due| <= |outcomes| && Ascending(due) && due[k].id < |rows| && rows[due[k].id].status.Pending?
    requires due[k].attempts == rows[due[k].id].attempts < MAX_TRIES
    requires BatchRecorded(rows, due, k, outcomes, made, tries, mid)
    requires rows' == Recorded(mid, due[k], outcomes[k], at + outcomes[k].took)
    ensures var t := Try(due[k], at, outcomes[k].result, at + outcomes[k].took, outcomes[k].recorded);
            BatchRecorded(rows, due, k + 1, outcomes, made, tries + [t], rows')
  {
    var t := Try(due[k], at, outcomes[k].result, at + outcomes[k].took, outcomes[k].recorded);
    RowUntouched(rows, due, k, outcomes, made, tries, mid);
    EntryIsRecorded(rows[due[k].id], due[k], outcomes[k], at, rows'[due[k].id]);
    BatchRecordedOneMore(rows, due, k, outcomes, made, tries, mid, t, rows'[due[k].id]);
    assert rows' == mid[due[k].id := rows'[due[k].id]];
  }

  lemma OneMoreTried(q: Queue, outcomes: seq<Outcome>, k: nat)
    requires 0 < k <= |q.batch| <= |outcomes| && forall m :: 0 <= m < |q.batch| ==> q.batch[m].id < |q.rows|
    ensures var before, after := BatchAfter(q, outcomes, k - 1), BatchAfter(q, outcomes, k);
            var item, outcome, end := q.batch[k - 1], outcomes[k - 1], before.now + outcomes[k - 1].took;
            && after.rows == Recorded(before.rows, item, outcome, end)
            && after.tries == before.tries + [Try(item, before.now, outcome.result, end, outcome.recorded)]
  {
    assert BatchAfter(q, outcomes, k - 1).batch[0] == q.batch[k - 1];
  }

  lemma {:induction false} BatchIsRecorded(q: Queue, outcomes: seq<Outcome>, k: nat)
    requires k <= |q.batch| <= |outcomes| && Ascending(q.batch)
    requires forall m :: 0 <= m < |q.batch| ==> q.batch[m].id < |q.rows| && Ready(q.rows, q.batch[m])
    ensures BatchRecorded(q.rows, q.batch, k, outcomes, |q.tries|, BatchAfter(q, outcomes, k).tries, BatchAfter(q, outcomes, k).rows)
  {
    if k > 0 {
      BatchIsRecorded(q, outcomes, k - 1);
      var before := BatchAfter(q, outcomes, k - 1);
      assert Ready(q.rows, q.batch[k - 1]);
      OneMoreTried(q, outcomes, k);
      EntryDone(q.rows, q.batch, outcomes, |q.tries|, k - 1, before.rows, before.now, before.tries, BatchAfter(q, outcomes, k).rows);
    }
  }

  ghost predicate Ready(rows: seq<Row>, item: Item) {
    item.id < |rows| && rows[item.id].status.Pending? && item.attempts == rows[item.id].attempts < MAX_TRIES
  }

  /** What sending a batch comes to: the batch is the oldest due rows, the table says of each what
      became of it, and all of it is a run of the queue, which stays sound. */
  ghost predicate BatchSent(q: Queue, outcomes: seq<Outcome>, q': Queue) {
    var due := DueNotifications(q.rows, q.now, BATCH);
    && |due| <= |outcomes| && Picks(q.rows, q.now, BATCH, due)
    && BatchRecorded(q.rows, due, |due|, outcomes, |q.tries|, q'.tries, q'.rows)
    && Reaches(q, [ReadBatch] + Deliveries(outcomes[..|due|]), q') && Sound(q')
  }

  lemma BatchIsSent(q: Queue, outcomes: seq<Outcome>)
    requires |outcomes| >= BATCH && Sound(q) && q.batch == []
    ensures var read := Step(q, ReadBatch);
            && |read.batch| <= BATCH && (forall m :: 0 <= m < |read.batch| ==> read.batch[m].id < |read.rows|)
            && BatchSent(q, outcomes, BatchAfter(read, outcomes, |read.batch|))
  {
    var read := Step(q, ReadBatch);
    DuePicks(q.rows, q.now, BATCH);
    forall m | 0 <= m < |read.batch| ensures Ready(read.rows, read.batch[m]) {
      assert IsDue(q.rows, read.batch[m].id, q.now);
    }
    BatchIsRecorded(read, outcomes, |read.batch|);
    BatchReaches(read, outcomes, |read.batch|);
    var deliveries := Deliveries(outcomes[..|read.batch|]);
    var actions := [ReadBatch] + deliveries;
    assert actions[1..] == deliveries;
    Delivery.RunKeeps(q, actions, BatchAfter(read, outcomes, |read.batch|));
  }

  class NotificationStore {
    var rows: seq<Row>

    constructor ()
      ensures rows == []
    {
      rows := [];
    }

    /** One pending row per channel, due at once. */
    method QueueNotifications(alert: nat, channels: seq<nat>, now: int)
      modifies this
      ensures |rows| == |old(rows)| + |channels| && rows[..|old(rows)|] == old(rows)
      ensures forall k :: 0 <= k < |channels| ==> rows[|old(rows)| + k] == Row(alert, channels[k], Pending, 0, now)
    {
      for k := 0 to |channels|
        invariant |rows| == |old(rows)| + k && rows[..|old(rows)|] == old(rows)
        invariant forall m :: 0 <= m < k ==> rows[|old(rows)| + m] == Row(alert, channels[m], Pending, 0, now)
      {
        rows := rows + [Row(alert, channels[k], Pending, 0, now)];
      }
    }

    method MarkSent(id: nat)
      requires id < |rows|
      modifies this
      ensures rows == if old(rows)[id].status.Removed? then old(rows) else old(rows)[id := Notifications.MarkSent(old(rows)[id])]
    {
      if !rows[id].status.Removed? {
        rows := rows[id := rows[id].(status := Sent, attempts := rows[id].attempts + 1)];
      }
    }

    method MarkRetry(id: nat, next: int)
      requires id < |rows|
      modifies this
      ensures rows == if old(rows)[id].status.Removed? then old(rows) else old(rows)[id := Notifications.MarkRetry(old(rows)[id], next)]
    {
      if !rows[id].status.Removed? {
        rows := rows[id := rows[id].(attempts := rows[id].attempts + 1, nextAt := next)];
      }
    }

    method MarkFailed(id: nat)
      requires id < |rows|
      modifies this
      ensures rows == if old(rows)[id].status.Removed? then old(rows) else old(rows)[id := Notifications.MarkFailed(old(rows)[id])]
    {
      if !rows[id].status.Removed? {
        rows := rows[id := rows[id].(status := Failed, attempts := rows[id].attempts + 1)];
      }
    }
  }

  class Deliverer {
    const table: NotificationStore

    constructor (table: NotificationStore)
      ensures this.table == table
    {
      this.table := table;
    }

    /** Records how the try of an entry went. */
    method Record(item: Item, outcome: Outcome, now: int)
      requires item.id < |table.rows|
      modifies table
      ensures table.rows == Recorded(old(table.rows), item, outcome, now)
    {
      if outcome.recorded {
        var wait := RetryAfter(item.attempts + 1);
        if outcome.result.Delivered? {
          table.MarkSent(item.id);
        } else if outcome.result.Unsent? && wait.Some? {
          table.MarkRetry(item.id, now + wait.value);
        } else {
          table.MarkFailed(item.id);
        }
      }
    }

    /** Tries the entries of the batch that was read, one after the other. `made` are the tries of
        earlier batches. */
    method DeliverBatch(now: int, due: seq<Item>, outcomes: seq<Outcome>, ghost made: seq<Try>)
      returns (end: int, ghost tries: seq<Try>)
      requires |due| <= |outcomes| && forall k :: 0 <= k < |due| ==> due[k].id < |table.rows|
      modifies table
      ensures Queue(table.rows, end, [], tries) == BatchAfter(Queue(old(table.rows), now, due, made), outcomes, |due|)
    {
      end, tries := now, made;
      ghost var read := Queue(table.rows, now, due, made);
      for k := 0 to |due|
        invariant |table.rows| == |read.rows| && Queue(table.rows, end, due[k..], tries) == BatchAfter(read, outcomes, k)
      {
        ghost var at := end;
        end := end + outcomes[k].took;
        Record(due[k], outcomes[k], end);
        tries := tries + [Try(due[k], at, outcomes[k].result, end, outcomes[k].recorded)];
      }
    }

    /** Sends one batch. `readable` says whether it could be read, and `outcomes` what becomes of its
        entries. */
    method DeliverDue(now: int, readable: bool, outcomes: seq<Outcome>, ghost made: seq<Try>)
      returns (end: int, ghost tries: seq<Try>)
      requires |outcomes| >= BATCH && Sound(Queue(table.rows, now, [], made))
      modifies table
      ensures !readable ==> table.rows == old(table.rows) && tries == made && end == now
      ensures readable ==> BatchSent(Queue(old(table.rows), now, [], made), outcomes, Queue(table.rows, end, [], tries))
    {
      end, tries := now, made;
      if readable {
        var due := DueNotifications(table.rows, now, BATCH);
        BatchIsSent(Queue(table.rows, now, [], made), outcomes);
        end, tries := DeliverBatch(now, due, outcomes, made);
      }
    }
  }
}
