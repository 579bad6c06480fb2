/** The notification queue and its delivery loop. Rows are queued per alert and channel, read in
    batches of the oldest due ones, and retried with growing waits. Steps are single store
    statements and single deliveries, so queueing, deletes and the clock interleave with a batch. */
module Notifications {
  import opened Basics

  const BATCH: nat := 20
  const MAX_TRIES: nat := 6

  /** The waits after each failed try. */
  const RETRY_WAITS: seq<int> := [30 * SECOND, 2 * MINUTE, 10 * MINUTE, 30 * MINUTE, HOUR]

  /** How long to wait after the nth failed try, and nothing after the last try. */
  function RetryAfter(failures: int): (wait: Option<int>)
    ensures wait.Some? <==> 1 <= failures < MAX_TRIES
  {
    if failures < 1 || failures > |RETRY_WAITS| then None else Some(RETRY_WAITS[failures - 1])
  }

  /** A removed row went with its channel or its alert. */
  datatype RowStatus = Pending | Sent | Failed | Removed

  /** A notification. Its id is its position in the table. */
  datatype Row = Row(alert: nat, channel: nat, status: RowStatus, attempts: nat, nextAt: int)

  predicate SamePair(a: Row, b: Row) {
    a.alert == b.alert && a.channel == b.channel
  }

  /** Whether the channel has an older message of the alert still to come. */
  predicate Held(rows: seq<Row>, id: nat)
    requires id < |rows|
  {
    exists j :: 0 <= j < id && SamePair(rows[j], rows[id]) && rows[j].status.Pending?
  }

  predicate IsDue(rows: seq<Row>, id: nat, now: int)
    requires id < |rows|
  {
    rows[id].status.Pending? && rows[id].nextAt <= now && !Held(rows, id)
  }

  /** What the delivery loop keeps of a due row: its id and its tries so far. */
  datatype Item = Item(id: nat, attempts: nat)

  function DueFrom(rows: seq<Row>, now: int, from: nat): seq<Item>
    requires from <= |rows|
    decreases |rows| - from
  {
    if from == |rows| then []
    else (if IsDue(rows, from, now) then [Item(from, rows[from].attempts)] else []) + DueFrom(rows, now, from + 1)
  }

  /** The oldest due rows, at most `limit` of them. */
  function DueNotifications(rows: seq<Row>, now: int, limit: nat): seq<Item> {
    var due := DueFrom(rows, now, 0);
    if |due| <= limit then due else due[..limit]
  }

  ghost predicate Ascending(items: seq<Item>) {
    forall i, j :: 0 <= i < j < |items| ==> items[i].id < items[j].id
  }

  ghost predicate AreDue(rows: seq<Row>, now: int, from: nat, items: seq<Item>) {
    forall k :: 0 <= k < |items| ==>
      from <= items[k].id < |rows| && IsDue(rows, items[k].id, now) && items[k].attempts == rows[items[k].id].attempts
  }

  /** The list holds due rows only, in order, and a due row left out waits behind a full batch of
      older ones. */
  ghost predicate Picks(rows: seq<Row>, now: int, limit: nat, items: seq<Item>) {
    && |items| <= limit && Ascending(items) && AreDue(rows, now, 0, items)
    && (forall id :: 0 <= id < |rows| && IsDue(rows, id, now) ==>
          Item(id, rows[id].attempts) in items || (|items| == limit && forall k :: 0 <= k < |items| ==> items[k].id < id))
  }

  lemma {:induction false} DueFromOrdered(rows: seq<Row>, now: int, from: nat)
    requires from <= |rows|
    ensures AreDue(rows, now, from, DueFrom(rows, now, from)) && Ascending(DueFrom(rows, now, from))
    decreases |rows| - from
  {
    if from < |rows| {
      DueFromOrdered(rows, now, from + 1);
    }
  }

  lemma {:induction false} DueFromComplete(rows: seq<Row>, now: int, from: nat, id: nat)
    requires from <= id < |rows| && IsDue(rows, id, now)
    ensures Item(id, rows[id].attempts) in DueFrom(rows, now, from)
    decreases |rows| - from
  {
    if from < id {
      DueFromComplete(rows, now, from + 1, id);
    }
  }

  lemma PrefixPicks(rows: seq<Row>, now: int, limit: nat, all: seq<Item>, items: seq<Item>)
    requires Ascending(all) && AreDue(rows, now, 0, all)
    requires forall id :: 0 <= id < |rows| && IsDue(rows, id, now) ==> Item(id, rows[id].attempts) in all
    requires items == if |all| <= limit then all else all[..limit]
    ensures Picks(rows, now, limit, items)
  {
    forall id | 0 <= id < |rows| && IsDue(rows, id, now)
      ensures Item(id, rows[id].attempts) in items || (|items| == limit && forall k :: 0 <= k < |items| ==> items[k].id < id)
    {
      var k :| 0 <= k < |all| && all[k] == Item(id, rows[id].attempts);
      if k < |items| {
        assert items[k] == all[k];
      }
    }
  }

  /** The query meets its description. */
  lemma DuePicks(rows: seq<Row>, now: int, limit: nat)
    ensures Picks(rows, now, limit, DueNotifications(rows, now, limit))
  {
    DueFromOrdered(rows, now, 0);
    forall id | 0 <= id < |rows| && IsDue(rows, id, now)
      ensures Item(id, rows[id].attempts) in DueFrom(rows, now, 0)
    {
      DueFromComplete(rows, now, 0, id);
    }
    PrefixPicks(rows, now, limit, DueFrom(rows, now, 0), DueNotifications(rows, now, limit));
  }

  // ---------------------------------------------------------------- steps

  function MarkSent(row: Row): Row {
    row.(status := Sent, attempts := row.attempts + 1)
  }

  function MarkRetry(row: Row, next: int): Row {
    row.(attempts := row.attempts + 1, nextAt := next)
  }

  function MarkFailed(row: Row): Row {
    row.(status := Failed, attempts := row.attempts + 1)
  }

  /** How a try went. A refused one would fail again, like for a channel switched off. */
  datatype Result = Delivered | Unsent | Refused

  /** A try that was made, and whether its outcome could be recorded. */
  datatype Try = Try(item: Item, at: int, result: Result, done: int, recorded: bool)

  /** The table, the clock, what is left of the batch being sent and every try made so far. */
  datatype Queue = Queue(rows: seq<Row>, now: int, batch: seq<Item>, tries: seq<Try>)

  /** The row after a try. `now` is when the try is recorded. */
  function Marked(row: Row, item: Item, result: Result, now: int): Row {
    if result.Delivered? then MarkSent(row)
    else
      match RetryAfter(item.attempts + 1)
      case Some(wait) => if result.Unsent? then MarkRetry(row, now + wait) else MarkFailed(row)
      case None => MarkFailed(row)
  }

  function DeliverStep(q: Queue, result: Result, took: nat, recorded: bool): Queue
    requires q.batch != [] && q.batch[0].id < |q.rows|
  {
    var item, now := q.batch[0], q.now + took;
    var rows :=
      if recorded && !q.rows[item.id].status.Removed?
      then q.rows[item.id := Marked(q.rows[item.id], item, result, now)]
      else q.rows;
    Queue(rows, now, q.batch[1..], q.tries + [Try(item, q.now, result, now, recorded)])
  }

  datatype Action =
    | Enqueue(alert: nat, channel: nat)
    | Remove(id: nat)
    | Wait(time: nat)
    | ReadBatch
    | Deliver(result: Result, took: nat, recorded: bool)

  /** A batch is read once the one before is done, and a delivery takes the next row of the batch. */
  predicate Enabled(q: Queue, action: Action) {
    match action
    case Remove(id) => id < |q.rows|
    case ReadBatch => q.batch == []
    case Deliver(_, _, _) => q.batch != [] && q.batch[0].id < |q.rows|
    case _ => true
  }

  function Step(q: Queue, action: Action): Queue
    requires Enabled(q, action)
  {
    match action
    case Enqueue(alert, channel) => q.(rows := q.rows + [Row(alert, channel, Pending, 0, q.now)])
    case Remove(id) => q.(rows := q.rows[id := q.rows[id].(status := Removed)])
    case Wait(time) => q.(now := q.now + time)
    case ReadBatch => q.(batch := DueNotifications(q.rows, q.now, BATCH))
    case Deliver(result, took, recorded) => DeliverStep(q, result, took, recorded)
  }

  const EMPTY := Queue([], 0, [], [])

  ghost predicate Reaches(q: Queue, actions: seq<Action>, q': Queue)
    decreases |actions|
  {
    if actions == [] then q == q'
    else Enabled(q, actions[0]) && Reaches(Step(q, actions[0]), actions[1..], q')
  }

  // ---------------------------------------------------------------- when a message is tried

  /** The waits after the first five failed tries, which grow. */
  lemma WaitsGrow(failures: int, later: int)
    requires 1 <= failures < later <= 5
    ensures RetryAfter(failures).Some? && RetryAfter(later).Some? && RetryAfter(failures).value < RetryAfter(later).value
    ensures RetryAfter(1) == Some(30 * SECOND) && RetryAfter(2) == Some(120 * SECOND) && RetryAfter(3) == Some(600 * SECOND)
    ensures RetryAfter(4) == Some(1800 * SECOND) && RetryAfter(5) == Some(3600 * SECOND)
  {
  }

  /** A message is due from its time on, unless an older one for the same alert and channel still waits. */
  lemma DueIff(rows: seq<Row>, id: nat, now: int)
    requires id < |rows|
    ensures IsDue(rows, id, now) <==>
              && rows[id].status.Pending? && now >= rows[id].nextAt
              && forall j :: 0 <= j < id && rows[j].alert == rows[id].alert && rows[j].channel == rows[id].channel ==>
                   !rows[j].status.Pending?
  {
    if !Held(rows, id) {
      forall j | 0 <= j < id && rows[j].alert == rows[id].alert && rows[j].channel == rows[id].channel
        ensures !rows[j].status.Pending?
      {
        assert SamePair(rows[j], rows[id]);
      }
    }
  }

  /** A batch has at most twenty messages, and one with fewer has everything that is due. */
  lemma BatchHoldsDue(q: Queue, id: nat)
    requires q.batch == [] && id < |q.rows| && IsDue(q.rows, id, q.now)
    ensures var batch := Step(q, ReadBatch).batch;
            |batch| <= 20 && (|batch| < 20 ==> Item(id, q.rows[id].attempts) in batch)
  {
    DuePicks(q.rows, q.now, BATCH);
  }

  /** A message is due at once when nothing of its alert waits for its channel: the next batch has it, or
      is full. */
  lemma QueuedIsTaken(q: Queue, alert: nat, channel: nat)
    requires q.batch == []
    requires forall j :: 0 <= j < |q.rows| && q.rows[j].alert == alert && q.rows[j].channel == channel ==> !q.rows[j].status.Pending?
    ensures var batch := Step(Step(q, Enqueue(alert, channel)), ReadBatch).batch;
            |batch| == 20 || Item(|q.rows|, 0) in batch
  {
    var queued := Step(q, Enqueue(alert, channel));
    assert forall j :: 0 <= j < |q.rows| ==> queued.rows[j] == q.rows[j];
    DueIff(queued.rows, |q.rows|, queued.now);
    BatchHoldsDue(queued, |q.rows|);
  }

  // ---------------------------------------------------------------- invariants

  ghost predicate InRange(q: Queue) {
    && (forall i :: 0 <= i < |q.tries| ==> q.tries[i].item.id < |q.rows|)
    && (forall k :: 0 <= k < |q.batch| ==> q.batch[k].id < |q.rows|)
  }

  ghost predicate TriesBounded(q: Queue) {
    forall id :: 0 <= id < |q.rows| ==>
      q.rows[id].attempts <= MAX_TRIES && (q.rows[id].status.Pending? ==> q.rows[id].attempts < MAX_TRIES)
  }

  /** An entry of the batch: a row that was due when the batch was read. Only a delete has touched
      it since. */
  ghost predicate ItemSound(q: Queue, item: Item)
    requires item.id < |q.rows|
  {
    && !Held(q.rows, item.id)
    && (q.rows[item.id].status.Pending? || q.rows[item.id].status.Removed?)
    && q.rows[item.id].attempts == item.attempts && q.rows[item.id].nextAt <= q.now
  }

  /** What is left of a batch is in order and has at most one entry per alert and channel. */
  ghost predicate BatchSound(q: Queue)
    requires InRange(q)
  {
    && Ascending(q.batch)
    && (forall k :: 0 <= k < |q.batch| ==> ItemSound(q, q.batch[k]))
    && (forall k, m :: 0 <= k < m < |q.batch| ==> !SamePair(q.rows[q.batch[k].id], q.rows[q.batch[m].id]))
  }

  /** No try so far went to a later message for the alert and channel of a row. */
  ghost predicate NotPassed(rows: seq<Row>, tries: seq<Try>, id: nat)
    requires id < |rows| && forall i :: 0 <= i < |tries| ==> tries[i].item.id < |rows|
  {
    forall i :: 0 <= i < |tries| && SamePair(rows[tries[i].item.id], rows[id]) ==> tries[i].item.id <= id
  }

  /** After a try, nothing earlier for its alert and channel can be tried any more. */
  ghost predicate TriesSound(q: Queue)
    requires InRange(q)
  {
    && (forall i :: 0 <= i < |q.tries| ==> !Held(q.rows, q.tries[i].item.id))
    && (forall k :: 0 <= k < |q.batch| ==> NotPassed(q.rows, q.tries, q.batch[k].id))
  }

  ghost predicate InOrder(q: Queue)
    requires InRange(q)
  {
    forall j :: 0 <= j < |q.tries| ==> NotPassed(q.rows, q.tries[..j], q.tries[j].item.id)
  }

  /** A try whose failure was recorded for another try later. */
  predicate Postponed(t: Try) {
    t.recorded && t.result.Unsent? && RetryAfter(t.item.attempts + 1).Some?
  }

  function EarliestRetry(t: Try): int
    requires Postponed(t)
  {
    t.done + RetryAfter(t.item.attempts + 1).value
  }

  /** By a time, every wait that tries of a row asked for is over. */
  ghost predicate WaitsOver(tries: seq<Try>, id: nat, time: int) {
    forall i :: 0 <= i < |tries| && tries[i].item.id == id && Postponed(tries[i]) ==> EarliestRetry(tries[i]) <= time
  }

  ghost predicate WaitsKept(q: Queue)
    requires InRange(q)
  {
    && (forall id :: 0 <= id < |q.rows| && q.rows[id].status.Pending? ==> WaitsOver(q.tries, id, q.rows[id].nextAt))
    && (forall k :: 0 <= k < |q.batch| ==> WaitsOver(q.tries, q.batch[k].id, q.now))
    && (forall j :: 0 <= j < |q.tries| ==> WaitsOver(q.tries[..j], q.tries[j].item.id, q.tries[j].at))
  }

  function RecordedTries(tries: seq<Try>, id: nat): nat {
    if tries == [] then 0
    else RecordedTries(Front(tries), id) + if Last(tries).item.id == id && Last(tries).recorded then 1 else 0
  }

  /** A row that is still there counts exactly the tries recorded for it. */
  ghost predicate TriesCounted(q: Queue) {
    && (forall id :: |q.rows| <= id ==> RecordedTries(q.tries, id) == 0)
    && (forall id :: 0 <= id < |q.rows| && !q.rows[id].status.Removed? ==> RecordedTries(q.tries, id) == q.rows[id].attempts)
  }

  ghost predicate Sound(q: Queue) {
    InRange(q) && TriesBounded(q) && BatchSound(q) && TriesSound(q) && InOrder(q) && WaitsKept(q) && TriesCounted(q)
  }
}
