/** What holds of every run of the notification queue: messages about an alert reach a channel in
    order, retries keep their waits, every notification comes to an end, and none waits forever. */
module Delivery {
  import opened Basics
  import opened Notifications

  // ---------------------------------------------------------------- each step keeps the invariant

  /** Rows keep their alert and channel, and none starts to wait again. */
  ghost predicate RowsProgress(rows: seq<Row>, rows': seq<Row>) {
    && |rows| <= |rows'|
    && (forall id :: 0 <= id < |rows| ==> SamePair(rows'[id], rows[id]) && (rows'[id].status.Pending? ==> rows[id].status.Pending?))
  }

  lemma NotHeldStays(rows: seq<Row>, rows': seq<Row>, id: nat)
    requires RowsProgress(rows, rows') && id < |rows| && !Held(rows, id)
    ensures !Held(rows', id)
  {
  }

  lemma NotPassedStays(rows: seq<Row>, rows': seq<Row>, tries: seq<Try>, id: nat)
    requires RowsProgress(rows, rows') && id < |rows| && forall i :: 0 <= i < |tries| ==> tries[i].item.id < |rows|
    requires NotPassed(rows, tries, id)
    ensures NotPassed(rows', tries, id)
  {
    forall i | 0 <= i < |tries| && SamePair(rows'[tries[i].item.id], rows'[id])
      ensures tries[i].item.id <= id
    {
      assert SamePair(rows[tries[i].item.id], rows[id]);
    }
  }

  /** The order of the tries made so far survives any progress of the rows. */
  lemma OrderStays(q: Queue, q': Queue)
    requires InRange(q) && InRange(q') && q'.tries == q.tries && RowsProgress(q.rows, q'.rows)
    requires InOrder(q) && forall i :: 0 <= i < |q.tries| ==> !Held(q.rows, q.tries[i].item.id)
    ensures InOrder(q') && forall i :: 0 <= i < |q'.tries| ==> !Held(q'.rows, q'.tries[i].item.id)
  {
    forall j | 0 <= j < |q.tries|
      ensures NotPassed(q'.rows, q'.tries[..j], q'.tries[j].item.id) && !Held(q'.rows, q'.tries[j].item.id)
    {
      NotPassedStays(q.rows, q'.rows, q.tries[..j], q.tries[j].item.id);
      NotHeldStays(q.rows, q'.rows, q.tries[j].item.id);
    }
  }

  /** So does what is left of the batch, when its rows are at most removed. */
  lemma BatchStays(q: Queue, q': Queue)
    requires InRange(q) && InRange(q') && q'.batch == q.batch && q'.tries == q.tries && RowsProgress(q.rows, q'.rows) && q.now <= q'.now
    requires BatchSound(q) && forall k :: 0 <= k < |q.batch| ==> NotPassed(q.rows, q.tries, q.batch[k].id)
    requires forall k :: 0 <= k < |q.batch| ==>
      q'.rows[q.batch[k].id] == q.rows[q.batch[k].id] || q'.rows[q.batch[k].id] == q.rows[q.batch[k].id].(status := Removed)
    ensures BatchSound(q') && forall k :: 0 <= k < |q'.batch| ==> NotPassed(q'.rows, q'.tries, q'.batch[k].id)
  {
    forall k | 0 <= k < |q.batch| ensures ItemSound(q', q'.batch[k]) && NotPassed(q'.rows, q'.tries, q'.batch[k].id) {
      assert ItemSound(q, q.batch[k]);
      NotHeldStays(q.rows, q'.rows, q.batch[k].id);
      NotPassedStays(q.rows, q'.rows, q.tries, q.batch[k].id);
    }
    forall k, m | 0 <= k < m < |q.batch| ensures !SamePair(q'.rows[q'.batch[k].id], q'.rows[q'.batch[m].id]) {
      assert !SamePair(q.rows[q.batch[k].id], q.rows[q.batch[m].id]);
    }
  }

  lemma EnqueueKeeps(q: Queue, alert: nat, channel: nat)
    requires Sound(q)
    ensures Sound(Step(q, Enqueue(alert, channel)))
  {
    var q' := Step(q, Enqueue(alert, channel));
    OrderStays(q, q');
    BatchStays(q, q');
  }

  lemma RemoveKeeps(q: Queue, id: nat)
    requires Sound(q) && id < |q.rows|
    ensures Sound(Step(q, Remove(id)))
  {
    var q' := Step(q, Remove(id));
    OrderStays(q, q');
    BatchStays(q, q');
  }

  lemma WaitKeeps(q: Queue, time: nat)
    requires Sound(q)
    ensures Sound(Step(q, Wait(time)))
  {
    var q' := Step(q, Wait(time));
    OrderStays(q, q');
    BatchStays(q, q');
  }

  lemma ReadBatchKeeps(q: Queue)
    requires Sound(q) && q.batch == []
    ensures Sound(Step(q, ReadBatch))
  {
    DuePicks(q.rows, q.now, BATCH);
    var q' := Step(q, ReadBatch);
    assert InRange(q');
    forall k, m | 0 <= k < m < |q'.batch|
      ensures !SamePair(q'.rows[q'.batch[k].id], q'.rows[q'.batch[m].id])
    {
      assert !Held(q.rows, q'.batch[m].id);
    }
    forall k | 0 <= k < |q'.batch| ensures NotPassed(q'.rows, q'.tries, q'.batch[k].id) {
      forall i | 0 <= i < |q.tries| && SamePair(q.rows[q.tries[i].item.id], q.rows[q'.batch[k].id])
        ensures q.tries[i].item.id <= q'.batch[k].id
      {
        assert !Held(q.rows, q.tries[i].item.id);
      }
    }
    OrderStays(q, q');
  }

  // ---------------------------------------------------------------- a delivery

  lemma DeliverProgress(q: Queue, result: Result, took: nat, recorded: bool)
    requires InRange(q) && BatchSound(q) && q.batch != []
    ensures var item, q' := q.batch[0], DeliverStep(q, result, took, recorded);
            && RowsProgress(q.rows, q'.rows) && |q'.rows| == |q.rows|
            && (forall id :: 0 <= id < |q.rows| && id != item.id ==> q'.rows[id] == q.rows[id])
  {
    assert ItemSound(q, q.batch[0]);
  }

  /** The queue with its first entry taken off and its row marked, before the try is noted. */
  lemma DeliverKeepsRest(q: Queue, q': Queue)
    requires Sound(q) && q.batch != [] && q'.batch == q.batch[1..] && q'.tries == q.tries && q.now <= q'.now
    requires RowsProgress(q.rows, q'.rows) && forall id :: 0 <= id < |q.rows| && id != q.batch[0].id ==> q'.rows[id] == q.rows[id]
    ensures InRange(q') && BatchSound(q') && TriesSound(q') && InOrder(q')
    ensures !Held(q'.rows, q.batch[0].id) && NotPassed(q'.rows, q.tries, q.batch[0].id)
    ensures forall k :: 0 <= k < |q'.batch| ==> !SamePair(q'.rows[q.batch[0].id], q'.rows[q'.batch[k].id])
  {
    var rest := q.(batch := q.batch[1..]);
    assert forall k :: 0 <= k < |rest.batch| ==> rest.batch[k] == q.batch[k + 1];
    forall k | 0 <= k < |rest.batch| ensures ItemSound(rest, rest.batch[k]) && NotPassed(rest.rows, rest.tries, rest.batch[k].id) {
      assert ItemSound(q, q.batch[k + 1]) && NotPassed(q.rows, q.tries, q.batch[k + 1].id);
    }
    OrderStays(rest, q');
    BatchStays(rest, q');
    assert ItemSound(q, q.batch[0]) && NotPassed(q.rows, q.tries, q.batch[0].id);
    NotHeldStays(q.rows, q'.rows, q.batch[0].id);
    NotPassedStays(q.rows, q'.rows, q.tries, q.batch[0].id);
    forall k | 0 <= k < |q'.batch| ensures !SamePair(q'.rows[q.batch[0].id], q'.rows[q'.batch[k].id]) {
      assert !SamePair(q.rows[q.batch[0].id], q.rows[q.batch[k + 1].id]);
    }
  }

  /** Noting a try of a row that nothing earlier holds back keeps the order. */
  lemma NoteTry(q: Queue, q': Queue)
    requires InRange(q) && BatchSound(q) && TriesSound(q) && InOrder(q)
    requires |q'.tries| > 0 && q == q'.(tries := Front(q'.tries)) && Last(q'.tries).item.id < |q.rows|
    requires !Held(q.rows, Last(q'.tries).item.id) && NotPassed(q.rows, q.tries, Last(q'.tries).item.id)
    requires forall k :: 0 <= k < |q.batch| ==> !SamePair(q.rows[Last(q'.tries).item.id], q.rows[q.batch[k].id])
    ensures InRange(q') && BatchSound(q') && TriesSound(q') && InOrder(q')
  {
    assert Last(q'.tries) == q'.tries[|q.tries|] && forall i :: 0 <= i < |q.tries| ==> q'.tries[i] == q.tries[i];
    OrderGoesOn(q, q');
    BatchIsNotPassed(q, q');
  }

  lemma OrderGoesOn(q: Queue, q': Queue)
    requires InRange(q) && InRange(q') && InOrder(q) && q'.rows == q.rows
    requires |q'.tries| > 0 && q.tries == Front(q'.tries) && NotPassed(q.rows, q.tries, Last(q'.tries).item.id)
    ensures InOrder(q')
  {
    forall j | 0 <= j < |q'.tries| ensures NotPassed(q'.rows, q'.tries[..j], q'.tries[j].item.id) {
      assert q'.tries[..j] == q.tries[..j] && (j == |q.tries| ==> q.tries[..j] == q.tries);
    }
  }

  /** A try for an alert and channel that are not in the batch passes nothing in it. */
  lemma BatchIsNotPassed(q: Queue, q': Queue)
    requires InRange(q) && BatchSound(q) && TriesSound(q) && InRange(q') && |q'.tries| > 0 && q == q'.(tries := Front(q'.tries))
    requires forall k :: 0 <= k < |q.batch| ==> !SamePair(q.rows[Last(q'.tries).item.id], q.rows[q.batch[k].id])
    ensures BatchSound(q') && forall k :: 0 <= k < |q'.batch| ==> NotPassed(q'.rows, q'.tries, q'.batch[k].id)
  {
    forall k | 0 <= k < |q'.batch| ensures ItemSound(q', q'.batch[k]) && NotPassed(q'.rows, q'.tries, q'.batch[k].id) {
      assert ItemSound(q, q.batch[k]) && NotPassed(q.rows, q.tries, q.batch[k].id);
      assert forall i :: 0 <= i < |q.tries| ==> q'.tries[i] == q.tries[i];
    }
  }

  lemma DeliverKeepsOrder(q: Queue, result: Result, took: nat, recorded: bool)
    requires Sound(q) && q.batch != []
    ensures var q' := DeliverStep(q, result, took, recorded);
            InRange(q') && BatchSound(q') && TriesSound(q') && InOrder(q')
  {
    var q' := DeliverStep(q, result, took, recorded);
    DeliverProgress(q, result, took, recorded);
    assert Front(q'.tries) == q.tries;
    DeliverKeepsRest(q, q'.(tries := q.tries));
    NoteTry(q'.(tries := q.tries), q');
  }

  lemma DeliverKeepsBounds(q: Queue, result: Result, took: nat, recorded: bool)
    requires Sound(q) && q.batch != []
    ensures TriesBounded(DeliverStep(q, result, took, recorded))
  {
    assert ItemSound(q, q.batch[0]);
  }

  lemma WaitsOverAfter(q: Queue, result: Result, took: nat, recorded: bool, id: nat)
    requires Sound(q) && q.batch != [] && id < |q.rows| && DeliverStep(q, result, took, recorded).rows[id].status.Pending?
    ensures var q' := DeliverStep(q, result, took, recorded);
            WaitsOver(q'.tries, id, q'.rows[id].nextAt)
  {
    DeliverProgress(q, result, took, recorded);
    assert ItemSound(q, q.batch[0]) && WaitsOver(q.tries, q.batch[0].id, q.now) && WaitsOver(q.tries, id, q.rows[id].nextAt);
  }

  lemma DeliverKeepsWaits(q: Queue, result: Result, took: nat, recorded: bool)
    requires Sound(q) && q.batch != [] && InRange(DeliverStep(q, result, took, recorded))
    ensures WaitsKept(DeliverStep(q, result, took, recorded))
  {
    var item, q' := q.batch[0], DeliverStep(q, result, took, recorded);
    forall id | 0 <= id < |q'.rows| && q'.rows[id].status.Pending? ensures WaitsOver(q'.tries, id, q'.rows[id].nextAt) {
      WaitsOverAfter(q, result, took, recorded, id);
    }
    assert q'.tries == q.tries + [Try(item, q.now, result, q.now + took, recorded)];
    PastTriesWaited(q, q'.tries[|q.tries|], q'.tries);
    forall k | 0 <= k < |q'.batch| ensures WaitsOver(q'.tries, q'.batch[k].id, q'.now) {
      assert q'.batch[k] == q.batch[k + 1] && q.batch[0].id < q.batch[k + 1].id;
      assert WaitsOver(q.tries, q.batch[k + 1].id, q.now);
    }
  }

  /** Every try so far waited, and so has the one being made. */
  lemma PastTriesWaited(q: Queue, t: Try, tries: seq<Try>)
    requires InRange(q) && WaitsKept(q) && q.batch != [] && t.item == q.batch[0] && t.at == q.now && tries == q.tries + [t]
    ensures forall j :: 0 <= j < |tries| ==> WaitsOver(tries[..j], tries[j].item.id, tries[j].at)
  {
    forall j | 0 <= j < |tries| ensures WaitsOver(tries[..j], tries[j].item.id, tries[j].at) {
      assert tries[..j] == q.tries[..j] && (j == |q.tries| ==> q.tries[..j] == q.tries);
      assert WaitsOver(q.tries, q.batch[0].id, q.now);
    }
  }

  lemma DeliverKeepsCounts(q: Queue, result: Result, took: nat, recorded: bool)
    requires Sound(q) && q.batch != []
    ensures TriesCounted(DeliverStep(q, result, took, recorded))
  {
    var q' := DeliverStep(q, result, took, recorded);
    assert ItemSound(q, q.batch[0]) && Front(q'.tries) == q.tries;
    forall id: nat
      ensures RecordedTries(q'.tries, id) == RecordedTries(q.tries, id) + if id == q.batch[0].id && recorded then 1 else 0
    {
    }
  }

  // ---------------------------------------------------------------- every run

  lemma StepKeeps(q: Queue, action: Action)
    requires Sound(q) && Enabled(q, action)
    ensures Sound(Step(q, action))
  {
    match action
    case Enqueue(alert, channel) => EnqueueKeeps(q, alert, channel);
    case Remove(id) => RemoveKeeps(q, id);
    case Wait(time) => WaitKeeps(q, time);
    case ReadBatch => ReadBatchKeeps(q);
    case Deliver(result, took, recorded) =>
      DeliverKeepsOrder(q, result, took, recorded);
      DeliverKeepsBounds(q, result, took, recorded);
      DeliverKeepsWaits(q, result, took, recorded);
      DeliverKeepsCounts(q, result, took, recorded);
  }

  lemma {:induction false} RunKeeps(q: Queue, actions: seq<Action>, q': Queue)
    requires Sound(q) && Reaches(q, actions, q')
    ensures Sound(q')
    decreases |actions|
  {
    if actions != [] {
      StepKeeps(q, actions[0]);
      RunKeeps(Step(q, actions[0]), actions[1..], q');
    }
  }

  lemma EveryRunIsSound(actions: seq<Action>, q: Queue)
    requires Reaches(EMPTY, actions, q)
    ensures Sound(q)
  {
    assert Sound(EMPTY);
    RunKeeps(EMPTY, actions, q);
  }

  /** In every run, the tries of an alert's messages for a channel never go back to an earlier
      message, even when the outcome of a try could not be recorded. */
  lemma DeliveryIsInOrder(actions: seq<Action>, q: Queue, i: nat, j: nat)
    requires Reaches(EMPTY, actions, q) && i < j < |q.tries|
    ensures q.tries[i].item.id < |q.rows| && q.tries[j].item.id < |q.rows|
    ensures SamePair(q.rows[q.tries[i].item.id], q.rows[q.tries[j].item.id]) ==> q.tries[i].item.id <= q.tries[j].item.id
  {
    EveryRunIsSound(actions, q);
    assert NotPassed(q.rows, q.tries[..j], q.tries[j].item.id);
    assert q.tries[..j][i] == q.tries[i];
  }

  /** A batch holds at most one message per alert and channel. */
  lemma BatchHoldsOnePerPair(actions: seq<Action>, q: Queue, k: nat, m: nat)
    requires Reaches(EMPTY, actions, q) && k < m < |q.batch|
    ensures q.batch[k].id < |q.rows| && q.batch[m].id < |q.rows|
    ensures !SamePair(q.rows[q.batch[k].id], q.rows[q.batch[m].id])
  {
    EveryRunIsSound(actions, q);
  }

  /** A notification counts its recorded tries, has at most six of them, and at the sixth it is
      sent or given up on. */
  lemma DeliveryIsFinite(actions: seq<Action>, q: Queue, id: nat)
    requires Reaches(EMPTY, actions, q) && id < |q.rows| && !q.rows[id].status.Removed?
    ensures RecordedTries(q.tries, id) == q.rows[id].attempts <= MAX_TRIES
    ensures RecordedTries(q.tries, id) == MAX_TRIES ==> q.rows[id].status.Sent? || q.rows[id].status.Failed?
  {
    EveryRunIsSound(actions, q);
  }

  /** After the kth recorded failure the next try of a notification is at least the kth wait later. */
  lemma RetriesKeepTheirWaits(actions: seq<Action>, q: Queue, i: nat, j: nat)
    requires Reaches(EMPTY, actions, q) && i < j < |q.tries| && q.tries[i].item.id == q.tries[j].item.id
    requires q.tries[i].recorded && q.tries[i].result.Unsent? && q.tries[i].item.attempts < |RETRY_WAITS|
    ensures q.tries[i].done + RETRY_WAITS[q.tries[i].item.attempts] <= q.tries[j].at
  {
    EveryRunIsSound(actions, q);
    assert WaitsOver(q.tries[..j], q.tries[j].item.id, q.tries[j].at);
    assert q.tries[..j][i] == q.tries[i] && Postponed(q.tries[i]);
  }
}
