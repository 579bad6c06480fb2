/** No notification waits forever. A due one that is left out of a batch waits behind a full batch
    of older ones, each of which uses up one of its few tries. */
module BoundedWaiting {
  import opened Notifications
  import opened Delivery

  function TriesLeft(row: Row): nat {
    if row.status.Pending? && row.attempts < MAX_TRIES then MAX_TRIES - row.attempts else 0
  }

  /** The tries that rows older than `id` have left. */
  function TriesBelow(rows: seq<Row>, id: nat): nat
    requires id <= |rows|
  {
    if id == 0 then 0 else TriesBelow(rows, id - 1) + TriesLeft(rows[id - 1])
  }

  function PendingBelow(rows: seq<Row>, id: nat): nat
    requires id <= |rows|
  {
    if id == 0 then 0 else PendingBelow(rows, id - 1) + if rows[id - 1].status.Pending? then 1 else 0
  }

  predicate Counts(rows: seq<Row>, item: Item, id: nat) {
    item.id < id && item.id < |rows| && rows[item.id].status.Pending?
  }

  /** The entries of a batch that are older than `id` and will use up a try. */
  function LiveBelow(batch: seq<Item>, rows: seq<Row>, id: nat): nat {
    if batch == [] then 0 else LiveBelow(batch[1..], rows, id) + if Counts(rows, batch[0], id) then 1 else 0
  }

  function Reads(actions: seq<Action>): nat {
    if actions == [] then 0 else Reads(actions[1..]) + if actions[0].ReadBatch? then 1 else 0
  }

  /** `id` is next in line: in the batch being sent, or already tried since `base`. */
  ghost predicate Picked(q: Queue, id: nat, base: nat) {
    || (exists k :: 0 <= k < |q.batch| && q.batch[k].id == id)
    || (exists i :: base <= i < |q.tries| && q.tries[i].item.id == id)
  }

  /** Every outcome is recorded and the notification itself stays. */
  predicate Orderly(action: Action, id: nat) {
    (action.Deliver? ==> action.recorded) && action != Remove(id)
  }

  // ---------------------------------------------------------------- sums

  lemma {:induction false} TriesBelowBound(rows: seq<Row>, id: nat)
    requires id <= |rows|
    ensures TriesBelow(rows, id) <= MAX_TRIES * PendingBelow(rows, id)
  {
    if id > 0 {
      TriesBelowBound(rows, id - 1);
    }
  }

  lemma {:induction false} TriesBelowUpdate(rows: seq<Row>, at: nat, row: Row, id: nat)
    requires id <= |rows| && at < |rows|
    ensures TriesBelow(rows[at := row], id) == TriesBelow(rows, id) + if at < id then TriesLeft(row) - TriesLeft(rows[at]) else 0
  {
    if id > 0 {
      TriesBelowUpdate(rows, at, row, id - 1);
    }
  }

  lemma {:induction false} TriesBelowAppend(rows: seq<Row>, row: Row, id: nat)
    requires id <= |rows|
    ensures TriesBelow(rows + [row], id) == TriesBelow(rows, id)
  {
    if id > 0 {
      TriesBelowAppend(rows, row, id - 1);
    }
  }

  lemma {:induction false} LiveBelowSame(batch: seq<Item>, rows: seq<Row>, rows': seq<Row>, id: nat)
    requires forall k :: 0 <= k < |batch| ==> Counts(rows', batch[k], id) == Counts(rows, batch[k], id)
    ensures LiveBelow(batch, rows', id) == LiveBelow(batch, rows, id)
  {
    if batch != [] {
      assert forall k :: 0 <= k < |batch[1..]| ==> batch[1..][k] == batch[k + 1];
      LiveBelowSame(batch[1..], rows, rows', id);
    }
  }

  /** Removing one row takes at most one entry off. */
  lemma {:induction false} LiveBelowRemove(batch: seq<Item>, rows: seq<Row>, at: nat, id: nat)
    requires Ascending(batch) && at < |rows|
    ensures var rows' := rows[at := rows[at].(status := Removed)];
            LiveBelow(batch, rows, id) - (if at < id && rows[at].status.Pending? then 1 else 0) <= LiveBelow(batch, rows', id)
  {
    if batch != [] {
      var rows' := rows[at := rows[at].(status := Removed)];
      if batch[0].id == at {
        assert forall k :: 0 <= k < |batch[1..]| ==> batch[1..][k] == batch[k + 1] && batch[1..][k].id != at;
        LiveBelowSame(batch[1..], rows, rows', id);
      } else {
        LiveBelowRemove(batch[1..], rows, at, id);
      }
    }
  }

  lemma {:induction false} LiveBelowFull(batch: seq<Item>, rows: seq<Row>, id: nat)
    requires forall k :: 0 <= k < |batch| ==> Counts(rows, batch[k], id)
    ensures LiveBelow(batch, rows, id) == |batch|
  {
    if batch != [] {
      LiveBelowFull(batch[1..], rows, id);
    }
  }

  lemma {:induction false} LiveAtMostTries(batch: seq<Item>, rows: seq<Row>, id: nat)
    requires id <= |rows| && Ascending(batch) && forall i :: 0 <= i < |rows| && rows[i].status.Pending? ==> rows[i].attempts < MAX_TRIES
    ensures LiveBelow(batch, rows, id) <= TriesBelow(rows, id)
    decreases |batch|
  {
    if batch != [] {
      var at := batch[0].id;
      if at < id {
        var rows' := rows[at := rows[at].(status := Removed)];
        assert forall k :: 0 <= k < |batch[1..]| ==> batch[1..][k] == batch[k + 1] && batch[1..][k].id != at;
        LiveBelowSame(batch[1..], rows, rows', id);
        LiveAtMostTries(batch[1..], rows', id);
        TriesBelowUpdate(rows, at, rows'[at], id);
      } else {
        LiveAtMostTries(batch[1..], rows, id);
      }
    }
  }

  // ---------------------------------------------------------------- one step

  /** Older tries left, less what the current batch is about to use up. */
  function Debt(q: Queue, id: nat): int
    requires id <= |q.rows|
  {
    TriesBelow(q.rows, id) - LiveBelow(q.batch, q.rows, id)
  }

  lemma StaysDue(q: Queue, q': Queue, id: nat)
    requires RowsProgress(q.rows, q'.rows) && id < |q.rows| && q'.rows[id] == q.rows[id] && q.now <= q'.now
    requires IsDue(q.rows, id, q.now)
    ensures IsDue(q'.rows, id, q'.now)
  {
    NotHeldStays(q.rows, q'.rows, id);
  }

  lemma DeliverPays(q: Queue, result: Result, took: nat, id: nat)
    requires Sound(q) && id < |q.rows| && IsDue(q.rows, id, q.now) && q.batch != [] && q.batch[0].id != id
    ensures var q' := DeliverStep(q, result, took, true);
            IsDue(q'.rows, id, q'.now) && Debt(q', id) <= Debt(q, id)
  {
    var item, q' := q.batch[0], DeliverStep(q, result, took, true);
    assert ItemSound(q, item);
    DeliverProgress(q, result, took, true);
    StaysDue(q, q', id);
    assert forall k :: 0 <= k < |q'.batch| ==> q'.batch[k] == q.batch[k + 1] && q'.batch[k].id != item.id;
    LiveBelowSame(q'.batch, q.rows, q'.rows, id);
    TriesBelowUpdate(q.rows, item.id, q'.rows[item.id], id);
    assert q.rows[item.id := q'.rows[item.id]] == q'.rows;
    assert Counts(q.rows, item, id) ==> TriesLeft(q'.rows[item.id]) < TriesLeft(q.rows[item.id]);
  }

  lemma ReadPays(q: Queue, id: nat)
    requires Sound(q) && id < |q.rows| && IsDue(q.rows, id, q.now) && q.batch == []
    ensures var q' := Step(q, ReadBatch);
            Picked(q', id, |q.tries|) || Debt(q', id) + BATCH <= Debt(q, id)
  {
    DuePicks(q.rows, q.now, BATCH);
    var q' := Step(q, ReadBatch);
    if Item(id, q.rows[id].attempts) in q'.batch {
      var k :| 0 <= k < |q'.batch| && q'.batch[k] == Item(id, q.rows[id].attempts);
    } else {
      LiveBelowFull(q'.batch, q.rows, id);
    }
  }

  /** A step that does not pick the notification leaves it due, and each batch read costs the older
      ones a batch of tries. */
  lemma StepPays(q: Queue, action: Action, id: nat)
    requires Sound(q) && id < |q.rows| && IsDue(q.rows, id, q.now) && !Picked(q, id, |q.tries|)
    requires Enabled(q, action) && Orderly(action, id)
    ensures var q' := Step(q, action);
            || Picked(q', id, |q.tries|)
            || (IsDue(q'.rows, id, q'.now) && Debt(q', id) + (if action.ReadBatch? then BATCH else 0) <= Debt(q, id))
  {
    var q' := Step(q, action);
    match action
    case Enqueue(alert, channel) =>
      StaysDue(q, q', id);
      TriesBelowAppend(q.rows, q'.rows[|q.rows|], id);
      LiveBelowSame(q.batch, q.rows, q'.rows, id);
    case Remove(at) =>
      StaysDue(q, q', id);
      TriesBelowUpdate(q.rows, at, q'.rows[at], id);
      LiveBelowRemove(q.batch, q.rows, at, id);
    case Wait(_) =>
    case ReadBatch => ReadPays(q, id);
    case Deliver(result, took, recorded) =>
      assert q.batch[0].id != id;
      DeliverPays(q, result, took, id);
  }

  // ---------------------------------------------------------------- runs

  lemma {:induction false} PickedStays(q: Queue, actions: seq<Action>, q': Queue, id: nat, base: nat)
    requires Reaches(q, actions, q') && Picked(q, id, base) && base <= |q.tries|
    ensures Picked(q', id, base)
    decreases |actions|
  {
    if actions != [] {
      var next := Step(q, actions[0]);
      if k :| 0 <= k < |q.batch| && q.batch[k].id == id {
        if actions[0].Deliver? {
          if k == 0 {
            assert next.tries[|q.tries|].item.id == id;
          } else {
            assert next.batch[k - 1].id == id;
          }
        } else {
          assert next.batch[k].id == id;
        }
      } else {
        var i :| base <= i < |q.tries| && q.tries[i].item.id == id;
        assert next.tries[i].item.id == id;
      }
      PickedStays(next, actions[1..], q', id, base);
    }
  }

  lemma {:induction false} RunPays(q: Queue, actions: seq<Action>, q': Queue, id: nat, base: nat)
    requires Sound(q) && id < |q.rows| && IsDue(q.rows, id, q.now) && base <= |q.tries|
    requires Reaches(q, actions, q') && forall i :: 0 <= i < |actions| ==> Orderly(actions[i], id)
    ensures Picked(q', id, base) || BATCH * Reads(actions) <= Debt(q, id)
    decreases |actions|
  {
    if Picked(q, id, base) {
      PickedStays(q, actions, q', id, base);
    } else if actions == [] {
      LiveAtMostTries(q.batch, q.rows, id);
    } else {
      var next := Step(q, actions[0]);
      StepKeeps(q, actions[0]);
      StepPays(q, actions[0], id);
      assert forall i :: 0 <= i < |actions[1..]| ==> actions[1..][i] == actions[i + 1];
      if Picked(next, id, |q.tries|) {
        assert Picked(next, id, base);
        PickedStays(next, actions[1..], q', id, base);
      } else {
        RunPays(next, actions[1..], q', id, base);
      }
    }
  }

  /** When outcomes are recorded, a due notification with `older` pending ones before it is in a
      batch by the time (6 * older) / 20 + 1 batches have been read, and tried once that batch is
      done, whatever is queued, deleted or fails meanwhile. */
  lemma NoneWaitsForever(q: Queue, actions: seq<Action>, q': Queue, id: nat, older: nat)
    requires Sound(q) && id < |q.rows| && IsDue(q.rows, id, q.now) && older == PendingBelow(q.rows, id)
    requires Reaches(q, actions, q') && forall i :: 0 <= i < |actions| ==> Orderly(actions[i], id)
    requires Reads(actions) >= MAX_TRIES * older / BATCH + 1
    ensures Picked(q', id, |q.tries|)
    ensures q'.batch == [] ==> exists i :: |q.tries| <= i < |q'.tries| && q'.tries[i].item.id == id
  {
    RunPays(q, actions, q', id, |q.tries|);
    TriesBelowBound(q.rows, id);
  }
}
