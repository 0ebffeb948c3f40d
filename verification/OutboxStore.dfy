/** The outbox repository over its table, and the dispatcher that drives it. */
module OutboxStore {
  import opened Core
  import opened Ordering
  import opened Listing
  import O = Outbox
  import R = OutboxRuns

  class Repository {
    var rows: map<O.EventId, O.Row>
    var next: int

    function Contents(): O.Table
      reads this
    {
      O.Table(rows, next)
    }

    constructor ()
      ensures Contents() == R.START.table && O.SoundTable(Contents())
    {
      rows, next := map[], 1;
    }

    method Enqueue(id: O.EventId, body: O.Tag, now: real)
      requires O.SoundTable(Contents())
      modifies this
      ensures O.SoundTable(Contents()) && Contents() == O.Enqueue(old(Contents()), id, body, now)
    {
      if id !in rows {
        rows := rows[id := O.Row(next, body, None, 0, now, O.NO_ERROR)];
        next := next + 1;
      }
    }

    method PendingBatch(limit: nat, now: real) returns (batch: seq<O.EventId>, mostAttempts: nat)
      requires O.SoundTable(Contents())
      ensures batch == O.Batch(Contents(), limit, now)
      ensures forall i | 0 <= i < |batch| :: batch[i] in rows
      ensures mostAttempts == O.MostAttempts(Contents(), batch)
    {
      O.DueSortable(Contents(), now);
      var all := Query(O.Due(Contents(), now), O.BY_SEQUENCE);
      batch := all[..MinNat(limit, |all|)];
      O.BatchIsPending(Contents(), limit, now);
      mostAttempts := MostAttempts(batch);
    }

    /** max(attempt_count) over the batch, 0 for an empty one. */
    method MostAttempts(batch: seq<O.EventId>) returns (most: nat)
      requires forall i | 0 <= i < |batch| :: batch[i] in rows
      ensures most == O.MostAttempts(Contents(), batch)
    {
      most := 0;
      var i := |batch|;
      while i > 0
        invariant 0 <= i <= |batch| && most == O.MostAttempts(Contents(), batch[i..])
      {
        i := i - 1;
        assert batch[i..][1..] == batch[i + 1..];
        if rows[batch[i]].attempts > most {
          most := rows[batch[i]].attempts;
        }
      }
      assert batch[0..] == batch;
    }

    /** UPDATE ... WHERE event_id IN ids AND published_at IS NULL. */
    method MarkPublished(ids: set<O.EventId>, at: real)
      modifies this`rows
      ensures Contents() == O.MarkPublished(old(Contents()), ids, at)
    {
      ghost var all := rows;
      var keys := set id | id in ids && id in rows;
      while keys != {}
        invariant rows.Keys == all.Keys && keys <= ids * all.Keys
        invariant forall id | id in keys :: rows[id] == all[id]
        invariant forall id | id in all && id !in keys :: rows[id] == if id in ids then O.PublishedRow(all[id], at) else all[id]
        decreases |keys|
      {
        var id := AnyOf(keys);
        keys := keys - {id};
        if rows[id].published.None? {
          rows := rows[id := rows[id].(published := Some(at), error := O.NO_ERROR)];
        }
      }
      assert forall id | id in all :: rows[id] == (if id in ids then O.PublishedRow(all[id], at) else all[id]);
      MappedIs(all, O.Publishing(ids, at), rows);
    }

    method MarkFailed(ids: set<O.EventId>, error: O.Tag, at: real)
      modifies this`rows
      ensures Contents() == O.MarkFailed(old(Contents()), ids, error, at)
    {
      ghost var all := rows;
      var keys := set id | id in ids && id in rows;
      while keys != {}
        invariant rows.Keys == all.Keys && keys <= ids * all.Keys
        invariant forall id | id in keys :: rows[id] == all[id]
        invariant forall id | id in all && id !in keys :: rows[id] == if id in ids then O.FailedRow(all[id], error, at) else all[id]
        decreases |keys|
      {
        var id := AnyOf(keys);
        keys := keys - {id};
        if rows[id].published.None? {
          rows := rows[id := rows[id].(attempts := rows[id].attempts + 1, error := error, nextAttempt := at)];
        }
      }
      assert forall id | id in all :: rows[id] == (if id in ids then O.FailedRow(all[id], error, at) else all[id]);
      MappedIs(all, O.Failing(ids, error, at), rows);
    }

    method PurgePublished(before: real)
      requires O.SoundTable(Contents())
      modifies this`rows
      ensures O.SoundTable(Contents()) && Contents() == O.Purge(old(Contents()), before)
    {
      rows := rows - (set id | id in rows && rows[id].published.Some? && rows[id].published.value < before);
    }

    /** The second half of dispatch_once: the answer for a batch that was fetched. */
    method Settle(ids: set<O.EventId>, delay: real, answer: Option<set<O.EventId>>, error: O.Tag, publishAt: real, failAt: real)
      returns (count: nat)
      requires O.SoundTable(Contents())
      modifies this`rows
      ensures (Contents(), count) == R.Settled(old(Contents()), ids, delay, answer, error, publishAt, failAt)
      ensures O.SoundTable(Contents())
    {
      R.SettlingKeepsSound(Contents(), ids, delay, answer, error, publishAt, failAt, R.Settled(Contents(), ids, delay, answer, error, publishAt, failAt).0);
      if answer.None? {
        MarkFailed(ids, error, failAt + delay);
        return 0;
      }
      var acknowledged := answer.value * ids;
      MarkPublished(acknowledged, publishAt);
      var missing := ids - acknowledged;
      if missing != {} {
        MarkFailed(missing, error, failAt + delay);
      }
      count := |acknowledged|;
    }

    /** dispatch_once; answer is what the transport acknowledges, None when it raises. */
    method DispatchOnce(
      settings: O.Settings, answer: Option<set<O.EventId>>, error: O.Tag, fetchAt: real, publishAt: real, failAt: real) returns (count: nat)
      requires O.SoundTable(Contents())
      modifies this`rows
      ensures (Contents(), count) == R.Dispatch(old(Contents()), settings, answer, error, fetchAt, publishAt, failAt)
      ensures O.SoundTable(Contents())
    {
      var batch, mostAttempts := PendingBatch(settings.batch, fetchAt);
      if batch == [] { return 0; }
      var retryAfter := O.RetryDelay(mostAttempts, settings.base, settings.maximum);
      count := Settle((set id | id in batch), retryAfter, answer, error, publishAt, failAt);
    }
  }
}
