/** Delivery at least once under any interleaving, and draining in as many rounds as the batches need. */
module OutboxRuns {
  import opened Core
  import opened Ordering
  import opened Listing
  import opened Outbox

  const START := World(Table(map[], 1), map[], {})

  /** A row is published, or gone, or gone and written anew under its event id, only if the transport acknowledged that
      event; until then it stays as a row to deliver. */
  lemma DeliveredOnlyIfAcknowledged(settings: Settings, first: seq<Step>, second: seq<Step>, id: EventId)
    requires id in Run(START, settings, first).table.rows
    ensures var (w, u) := (Run(START, settings, first), Run(Run(START, settings, first), settings, second));
            id in u.acknowledged
            || (id in u.table.rows && u.table.rows[id].published.None?
                && u.table.rows[id].sequence == w.table.rows[id].sequence && u.table.rows[id].body == w.table.rows[id].body)
  {
    RunFollows(START, settings, first);
    RunFollows(Run(START, settings, first), settings, second);
  }

  /** A published row is never rescheduled, altered or unpublished: it stays exactly as it is until it is purged. */
  lemma PublishedRowsAreFinal(w: World, settings: Settings, steps: seq<Step>, id: EventId)
    requires SoundTable(w.table) && Honest(w) && id in w.table.rows && w.table.rows[id].published.Some?
    ensures var u := Run(w, settings, steps);
            id in u.table.rows && u.table.rows[id].sequence == w.table.rows[id].sequence ==> u.table.rows[id] == w.table.rows[id]
  {
    RunFollows(w, settings, steps);
  }

  // ----- One dispatch ---------------------------------------------------------------

  ghost function Events(t: Table, limit: nat, now: real): set<EventId>
    requires DistinctSequences(t.rows)
  {
    set id | id in Batch(t, limit, now)
  }

  /** What dispatch_once makes of the transport's answer for the events it fetched. */
  ghost function Settled(
    t: Table, ids: set<EventId>, delay: real, answer: Option<set<EventId>>, error: Tag, publishAt: real, failAt: real): (Table, nat)
  {
    if answer.None? then (MarkFailed(t, ids, error, failAt + delay), 0)
    else
      var acknowledged := answer.value * ids;
      var marked := MarkPublished(t, acknowledged, publishAt);
      (if ids - acknowledged == {} then marked else MarkFailed(marked, ids - acknowledged, error, failAt + delay), |acknowledged|)
  }

  /** dispatch_once with nothing in between: the table it leaves and the count it returns. */
  ghost function Dispatch(
    t: Table, settings: Settings, answer: Option<set<EventId>>, error: Tag, fetchAt: real, publishAt: real, failAt: real): (Table, nat)
    requires SoundTable(t)
  {
    BatchIsPending(t, settings.batch, fetchAt);
    var batch := Batch(t, settings.batch, fetchAt);
    var delay := RetryDelay(MostAttempts(t, batch), settings.base, settings.maximum);
    if batch == [] then (t, 0) else Settled(t, (set id | id in batch), delay, answer, error, publishAt, failAt)
  }

  /** Each fetched event ends published if acknowledged, and otherwise one attempt and one delay further on; rows already
      published, and rows not fetched, are untouched. */
  lemma SettlingMeans(
    t: Table, ids: set<EventId>, delay: real, answer: Option<set<EventId>>, error: Tag, publishAt: real, failAt: real, id: EventId)
    requires id in t.rows
    ensures var u := Settled(t, ids, delay, answer, error, publishAt, failAt).0;
            u.rows.Keys == t.rows.Keys && u.next == t.next
            && (if id !in ids || t.rows[id].published.Some? then u.rows[id] == t.rows[id]
                else if answer.Some? && id in answer.value then u.rows[id] == t.rows[id].(published := Some(publishAt), error := NO_ERROR)
                else u.rows[id] == t.rows[id].(attempts := t.rows[id].attempts + 1, error := error, nextAttempt := failAt + delay))
  {
    if answer.Some? {
      var acknowledged := answer.value * ids;
      var marked := MarkPublished(t, acknowledged, publishAt);
      assert id in acknowledged <==> id in ids && id in answer.value;
      if id in ids - acknowledged {
        assert marked.rows[id] == t.rows[id];
        assert MarkFailed(marked, ids - acknowledged, error, failAt + delay).rows[id] == FailedRow(t.rows[id], error, failAt + delay);
      }
    } else if id in ids {
      assert MarkFailed(t, ids, error, failAt + delay).rows[id] == FailedRow(t.rows[id], error, failAt + delay);
    }
  }

  lemma RaisedSteps(
    w: World, d: DispatcherId, settings: Settings, ids: set<EventId>, delay: real, error: Tag, publishAt: real, failAt: real)
    requires SoundTable(w.table) && PhaseOf(w, d) == Fetched(ids, delay)
    ensures var w1 := Advance(w, settings, StepPublish(d, None));
            && w1 == w.(dispatchers := w.dispatchers[d := Unsent(ids, delay)])
            && Advance(w1, settings, StepMarkPublished(d, publishAt)) == w1
            && Advance(w1, settings, StepMarkFailed(d, error, failAt)).table == MarkFailed(w.table, ids, error, failAt + delay)
            && PhaseOf(Advance(w1, settings, StepMarkFailed(d, error, failAt)), d) == Idle
  {
  }

  lemma AnsweredSteps(
    w: World, d: DispatcherId, settings: Settings, ids: set<EventId>, delay: real, answer: set<EventId>, publishAt: real)
    requires SoundTable(w.table) && PhaseOf(w, d) == Fetched(ids, delay)
    ensures var (taken, w1) := (answer * ids, Advance(w, settings, StepPublish(d, Some(answer))));
            && w1.table == w.table && PhaseOf(w1, d) == Answered(taken, ids - taken, delay)
            && var w2 := Advance(w1, settings, StepMarkPublished(d, publishAt));
               w2.table == MarkPublished(w.table, taken, publishAt)
               && PhaseOf(w2, d) == if ids - taken == {} then Idle else Unsent(ids - taken, delay)
  {
  }

  lemma LastStep(w: World, d: DispatcherId, settings: Settings, error: Tag, failAt: real)
    requires SoundTable(w.table) && (PhaseOf(w, d) == Idle || PhaseOf(w, d).Unsent?)
    ensures var u := Advance(w, settings, StepMarkFailed(d, error, failAt));
            PhaseOf(u, d) == Idle
            && u.table == if PhaseOf(w, d) == Idle then w.table else MarkFailed(w.table, PhaseOf(w, d).events, error, failAt + PhaseOf(w, d).delay)
  {
  }

  /** The three steps after a fetch are the settling; then the dispatcher is idle again. */
  lemma SettledIsItsSteps(
    w: World, d: DispatcherId, settings: Settings, ids: set<EventId>, delay: real, answer: Option<set<EventId>>, error: Tag,
    publishAt: real, failAt: real, w1: World, w2: World)
    requires SoundTable(w.table) && PhaseOf(w, d) == Fetched(ids, delay)
    requires w1 == Advance(w, settings, StepPublish(d, answer))
    requires SoundTable(w1.table) && w2 == Advance(w1, settings, StepMarkPublished(d, publishAt))
    ensures SoundTable(w2.table)
    ensures var w3 := Advance(w2, settings, StepMarkFailed(d, error, failAt));
            w3.table == Settled(w.table, ids, delay, answer, error, publishAt, failAt).0 && PhaseOf(w3, d) == Idle
  {
    NextKeepsSound(w1, settings, StepMarkPublished(d, publishAt));
    if answer.None? {
      RaisedSteps(w, d, settings, ids, delay, error, publishAt, failAt);
    } else {
      AnsweredSteps(w, d, settings, ids, delay, answer.value, publishAt);
      LastStep(w2, d, settings, error, failAt);
    }
  }

  /** And the fetch is the first: with it dispatch_once is four steps of one dispatcher, between which anything else may
      run. */
  lemma DispatchIsItsSteps(
    w: World, d: DispatcherId, settings: Settings, answer: Option<set<EventId>>, error: Tag, fetchAt: real, publishAt: real, failAt: real)
    requires SoundTable(w.table) && PhaseOf(w, d) == Idle
    ensures var w1 := Advance(w, settings, StepFetch(d, fetchAt));
            if PhaseOf(w1, d) == Idle then Dispatch(w.table, settings, answer, error, fetchAt, publishAt, failAt) == (w.table, 0)
            else PhaseOf(w1, d).Fetched? && w1.table == w.table
                 && Dispatch(w.table, settings, answer, error, fetchAt, publishAt, failAt)
                    == Settled(w.table, PhaseOf(w1, d).events, PhaseOf(w1, d).delay, answer, error, publishAt, failAt)
  {
  }

  // ----- Draining -------------------------------------------------------------------

  ghost function DueIds(t: Table, now: real): set<EventId> {
    set id | id in t.rows && IsDue(t.rows[id], now)
  }

  lemma DistinctSize<T>(s: seq<T>)
    requires NoDuplicates(s)
    ensures |set x | x in s| == |s|
  {
    NoDuplicatesMultiset(s);
    assert |multiset(s)| == |s|;
  }

  /** A batch holds as many due events as there are, up to the limit. */
  lemma BatchSize(t: Table, limit: nat, now: real)
    requires DistinctSequences(t.rows)
    ensures |Events(t, limit, now)| == MinNat(limit, |DueIds(t, now)|) && Events(t, limit, now) <= DueIds(t, now)
  {
    DueSortable(t, now);
    var due, all, batch := Due(t, now), Keys(Due(t, now), BY_SEQUENCE), Batch(t, limit, now);
    KeysList(due, BY_SEQUENCE);
    ListsNoDuplicates(Ranks(due, BY_SEQUENCE), all);
    DistinctSize(all);
    assert (set x | x in all) == DueIds(t, now);
    assert NoDuplicates(batch);
    DistinctSize(batch);
  }

  /** The events waiting to be delivered that were written before this one. */
  ghost function Older(t: Table, id: EventId, now: real): set<EventId>
    requires id in t.rows
  {
    set k | k in t.rows && t.rows[k].published.None? && t.rows[k].nextAttempt <= now && t.rows[k].sequence < t.rows[id].sequence
  }

  predicate IsWaiting(row: Row, now: real) {
    row.published.None? && row.nextAttempt <= now
  }

  lemma DueInOrder(t: Table, now: real, all: seq<EventId>)
    requires DistinctSequences(t.rows) && Sortable(Due(t, now), BY_SEQUENCE) && all == Keys(Due(t, now), BY_SEQUENCE)
    ensures forall id :: id in all <==> id in t.rows && IsWaiting(t.rows[id], now)
    ensures forall i | 0 <= i < |all| :: all[i] in t.rows
    ensures forall i, j | 0 <= i < j < |all| :: t.rows[all[i]].sequence < t.rows[all[j]].sequence
  {
    var due := Due(t, now);
    KeysList(due, BY_SEQUENCE);
    assert forall i | 0 <= i < |all| :: all[i] in all;
    forall i, j | 0 <= i < j < |all| ensures t.rows[all[i]].sequence < t.rows[all[j]].sequence {
      assert Before(Ranks(due, BY_SEQUENCE)[all[i]], Ranks(due, BY_SEQUENCE)[all[j]]);
    }
  }

  lemma FirstOfThem(t: Table, now: real, all: seq<EventId>, batch: seq<EventId>, limit: nat)
    requires forall id :: id in all <==> id in t.rows && IsWaiting(t.rows[id], now)
    requires forall i | 0 <= i < |all| :: all[i] in t.rows
    requires forall i, j | 0 <= i < j < |all| :: t.rows[all[i]].sequence < t.rows[all[j]].sequence
    requires batch == all[..MinNat(limit, |all|)]
    ensures forall i | 0 <= i < |batch| :: batch[i] in t.rows && IsWaiting(t.rows[batch[i]], now)
    ensures forall i, j | 0 <= i < j < |batch| :: t.rows[batch[i]].sequence < t.rows[batch[j]].sequence
    ensures forall id | id in t.rows && IsWaiting(t.rows[id], now) && id !in batch ::
              |batch| == limit && forall i | 0 <= i < |batch| :: t.rows[batch[i]].sequence < t.rows[id].sequence
  {
    forall i | 0 <= i < |batch| ensures batch[i] in t.rows && IsWaiting(t.rows[batch[i]], now) {
      assert batch[i] == all[i] && all[i] in all;
    }
    forall id | id in t.rows && IsWaiting(t.rows[id], now) && id !in batch
      ensures |batch| == limit && forall i | 0 <= i < |batch| :: t.rows[batch[i]].sequence < t.rows[id].sequence
    {
      var k :| 0 <= k < |all| && all[k] == id;
      assert forall i | 0 <= i < |batch| :: all[i] == batch[i] != id;
      assert |batch| <= k;
    }
  }

  /** A batch is in the order of writing, of due events only, and full when it leaves one out, which is younger than all of it. */
  lemma BatchIsTheOldest(t: Table, limit: nat, now: real, batch: seq<EventId>)
    requires DistinctSequences(t.rows) && batch == Batch(t, limit, now)
    ensures forall i | 0 <= i < |batch| :: batch[i] in t.rows && t.rows[batch[i]].published.None? && t.rows[batch[i]].nextAttempt <= now
    ensures forall i, j | 0 <= i < j < |batch| :: t.rows[batch[i]].sequence < t.rows[batch[j]].sequence
    ensures forall id | id in t.rows && t.rows[id].published.None? && t.rows[id].nextAttempt <= now && id !in batch ::
              |batch| == limit && forall i | 0 <= i < |batch| :: t.rows[batch[i]].sequence < t.rows[id].sequence
  {
    DueSortable(t, now);
    var all := Keys(Due(t, now), BY_SEQUENCE);
    DueInOrder(t, now, all);
    FirstOfThem(t, now, all, batch, limit);
  }

  lemma RisingSize(t: Table, batch: seq<EventId>, i: nat)
    requires i <= |batch| && forall k | 0 <= k < |batch| :: batch[k] in t.rows
    requires forall j, k | 0 <= j < k < |batch| :: t.rows[batch[j]].sequence < t.rows[batch[k]].sequence
    ensures |set k | k in batch[..i]| == i
  {
    assert NoDuplicates(batch[..i]);
    DistinctSize(batch[..i]);
  }

  lemma TakenHasFewOlder(t: Table, limit: nat, now: real, id: EventId, batch: seq<EventId>, i: nat)
    requires DistinctSequences(t.rows) && batch == Batch(t, limit, now) && id in t.rows && i < |batch| && batch[i] == id
    ensures |Older(t, id, now)| <= i < limit
  {
    BatchIsTheOldest(t, limit, now, batch);
    forall k | k in Older(t, id, now) ensures k in batch[..i] {
      var j :| 0 <= j < |batch| && batch[j] == k;
      assert batch[..i][j] == k;
    }
    RisingSize(t, batch, i);
    SubsetSize(Older(t, id, now), (set k | k in batch[..i]));
  }

  lemma LeftOutHasManyOlder(t: Table, limit: nat, now: real, id: EventId, batch: seq<EventId>)
    requires DistinctSequences(t.rows) && batch == Batch(t, limit, now)
    requires id in t.rows && t.rows[id].published.None? && t.rows[id].nextAttempt <= now && id !in batch
    ensures |Older(t, id, now)| >= limit
  {
    BatchIsTheOldest(t, limit, now, batch);
    RisingSize(t, batch, limit);
    assert batch[..limit] == batch;
    SubsetSize((set k | k in batch), Older(t, id, now));
  }

  /** Which events a batch takes, exactly: those due that have fewer older ones waiting than the limit. */
  lemma InTheBatchExactlyWhen(t: Table, limit: nat, now: real, id: EventId)
    requires DistinctSequences(t.rows) && id in t.rows
    ensures id in Events(t, limit, now) <==>
              t.rows[id].published.None? && t.rows[id].nextAttempt <= now && |Older(t, id, now)| < limit
  {
    var batch := Batch(t, limit, now);
    if id in batch {
      var i :| 0 <= i < |batch| && batch[i] == id;
      BatchIsTheOldest(t, limit, now, batch);
      TakenHasFewOlder(t, limit, now, id, batch, i);
    } else if t.rows[id].published.None? && t.rows[id].nextAttempt <= now {
      LeftOutHasManyOlder(t, limit, now, id, batch);
    }
  }

  /** No event overtakes: when a dispatch publishes one, every older one that was due was fetched with it, and is published
      as well or put off by one failed attempt. */
  lemma NoneOvertakes(
    t: Table, settings: Settings, answer: Option<set<EventId>>, error: Tag, fetchAt: real, publishAt: real, failAt: real,
    id: EventId, older: EventId, u: Table)
    requires SoundTable(t) && u == Dispatch(t, settings, answer, error, fetchAt, publishAt, failAt).0
    requires id in t.rows && t.rows[id].published.None? && id in u.rows && u.rows[id].published.Some?
    requires older in t.rows && t.rows[older].published.None? && t.rows[older].nextAttempt <= fetchAt
    requires t.rows[older].sequence < t.rows[id].sequence
    ensures older in Events(t, settings.batch, fetchAt) && older in u.rows
    ensures u.rows[older].published.Some? || u.rows[older].attempts == t.rows[older].attempts + 1
  {
    var batch := Batch(t, settings.batch, fetchAt);
    BatchIsPending(t, settings.batch, fetchAt);
    BatchIsTheOldest(t, settings.batch, fetchAt, batch);
    var delay := RetryDelay(MostAttempts(t, batch), settings.base, settings.maximum);
    assert batch != [];
    SettlingMeans(t, Events(t, settings.batch, fetchAt), delay, answer, error, publishAt, failAt, id);
    SettlingMeans(t, Events(t, settings.batch, fetchAt), delay, answer, error, publishAt, failAt, older);
    var i :| 0 <= i < |batch| && batch[i] == id;
  }

  /** A new event is written behind all others and is due at once, after those due already; a known id changes nothing. */
  lemma EnqueuedIsLast(t: Table, id: EventId, body: Tag, now: real, u: Table)
    requires SoundTable(t) && u == Enqueue(t, id, body, now)
    ensures id in t.rows ==> u == t
    ensures id !in t.rows ==>
              && id in u.rows && u.rows[id].body == body && u.rows[id].attempts == 0 && IsWaiting(u.rows[id], now)
              && !IsWaiting(u.rows[id], now - 1.0) && SoundTable(u)
              && (forall k | k in t.rows :: k in u.rows && u.rows[k] == t.rows[k] && u.rows[k].sequence < u.rows[id].sequence)
              && (forall k | k in u.rows :: k == id || k in t.rows)
              && Older(u, id, now) == DueIds(t, now)
  {
    if id !in t.rows {
      forall k ensures k in Older(u, id, now) <==> k in DueIds(t, now) {}
    }
  }

  /** A purge removes exactly what was published before the time. */
  lemma PurgeRemovesExactly(t: Table, before: real, id: EventId)
    ensures var u := Purge(t, before);
            && (id in u.rows <==> id in t.rows && (t.rows[id].published.Some? ==> before <= t.rows[id].published.value))
            && (id in u.rows ==> u.rows[id] == t.rows[id]) && u.next == t.next
  {
  }

  lemma MarkingTakes(t: Table, taken: set<EventId>, at: real, now: real)
    ensures DueIds(MarkPublished(t, taken, at), now) == DueIds(t, now) - taken
  {
    forall id ensures id in DueIds(MarkPublished(t, taken, at), now) <==> id in DueIds(t, now) - taken {}
  }

  lemma MarkingKeepsSound(t: Table, taken: set<EventId>, at: real)
    requires SoundTable(t)
    ensures SoundTable(MarkPublished(t, taken, at))
  {
  }

  lemma SameSequencesSound(t: Table, u: Table)
    requires SoundTable(t) && u.rows.Keys == t.rows.Keys && u.next == t.next
    requires forall id | id in t.rows :: u.rows[id].sequence == t.rows[id].sequence
    ensures SoundTable(u)
  {
  }

  lemma SettlingKeepsKeys(
    t: Table, ids: set<EventId>, delay: real, answer: Option<set<EventId>>, error: Tag, publishAt: real, failAt: real)
    ensures var u := Settled(t, ids, delay, answer, error, publishAt, failAt).0;
            u.rows.Keys == t.rows.Keys && u.next == t.next
  {
  }

  lemma SettlingKeepsSound(
    t: Table, ids: set<EventId>, delay: real, answer: Option<set<EventId>>, error: Tag, publishAt: real, failAt: real, u: Table)
    requires SoundTable(t) && u == Settled(t, ids, delay, answer, error, publishAt, failAt).0
    ensures SoundTable(u)
  {
    SettlingKeepsKeys(t, ids, delay, answer, error, publishAt, failAt);
    forall id | id in t.rows ensures u.rows[id].sequence == t.rows[id].sequence {
      SettlingMeans(t, ids, delay, answer, error, publishAt, failAt, id);
    }
    SameSequencesSound(t, u);
  }

  /** One dispatch in which the transport acknowledges at least what was fetched, and its three clock readings. */
  datatype Round = Round(answer: set<EventId>, error: Tag, fetchAt: real, publishAt: real, failAt: real)

  ghost function Dispatched(t: Table, settings: Settings, r: Round): Table
    requires SoundTable(t)
  {
    Dispatch(t, settings, Some(r.answer), r.error, r.fetchAt, r.publishAt, r.failAt).0
  }

  /** t became u by these dispatches, each acknowledged in full. */
  ghost predicate Drains(t: Table, settings: Settings, rounds: seq<Round>, u: Table)
    decreases |rounds|
  {
    if rounds == [] then u == t
    else
      && SoundTable(t) && Events(t, settings.batch, rounds[0].fetchAt) <= rounds[0].answer
      && Drains(Dispatched(t, settings, rounds[0]), settings, rounds[1..], u)
  }

  lemma PublishingNothing(t: Table, at: real)
    ensures MarkPublished(t, {}, at) == t
  {
    assert MarkPublished(t, {}, at).rows == t.rows;
  }

  /** A fully acknowledged dispatch publishes exactly its batch and fails nothing. */
  lemma AcknowledgedDispatch(t: Table, settings: Settings, r: Round, taken: set<EventId>)
    requires SoundTable(t) && taken == Events(t, settings.batch, r.fetchAt) && taken <= r.answer
    ensures Dispatched(t, settings, r) == MarkPublished(t, taken, r.publishAt)
  {
    if Batch(t, settings.batch, r.fetchAt) == [] {
      assert taken == {};
      PublishingNothing(t, r.publishAt);
    } else {
      assert r.answer * taken == taken && taken - taken == {};
    }
  }

  /** What is left of n after k batches. */
  function Left(n: nat, limit: nat, k: nat): nat {
    if k == 0 then n else Left(n - MinNat(limit, n), limit, k - 1)
  }

  /** The same events are due whenever one of these rounds fetches: nothing else falls due between them. */
  ghost predicate Steady(t: Table, rounds: seq<Round>, end: real) {
    forall i | 0 <= i < |rounds| :: DueIds(t, rounds[i].fetchAt) == DueIds(t, end)
  }

  lemma SteadyAfter(t: Table, taken: set<EventId>, at: real, rounds: seq<Round>, end: real)
    requires rounds != [] && Steady(t, rounds, end)
    ensures Steady(MarkPublished(t, taken, at), rounds[1..], end)
  {
    var u := MarkPublished(t, taken, at);
    forall i | 0 <= i < |rounds[1..]| ensures DueIds(u, rounds[1..][i].fetchAt) == DueIds(u, end) {
      assert rounds[1..][i] == rounds[i + 1];
      MarkingTakes(t, taken, at, rounds[i + 1].fetchAt);
      MarkingTakes(t, taken, at, end);
    }
  }

  lemma OneRound(t: Table, settings: Settings, r: Round, end: real, taken: set<EventId>)
    requires SoundTable(t) && DueIds(t, r.fetchAt) == DueIds(t, end)
    requires taken == Events(t, settings.batch, r.fetchAt) && taken <= r.answer
    ensures Dispatched(t, settings, r) == MarkPublished(t, taken, r.publishAt) && SoundTable(Dispatched(t, settings, r))
    ensures |DueIds(Dispatched(t, settings, r), end)| == |DueIds(t, end)| - MinNat(settings.batch, |DueIds(t, end)|)
  {
    AcknowledgedDispatch(t, settings, r, taken);
    BatchSize(t, settings.batch, r.fetchAt);
    MarkingTakes(t, taken, r.publishAt, end);
    MarkingKeepsSound(t, taken, r.publishAt);
    assert |DueIds(t, end) - taken| == |DueIds(t, end)| - |taken|;
  }

  lemma FirstRound(t: Table, settings: Settings, rounds: seq<Round>, end: real, u: Table, taken: set<EventId>)
    requires rounds != [] && SoundTable(t) && Steady(t, rounds, end) && Drains(t, settings, rounds, u)
    requires taken == Events(t, settings.batch, rounds[0].fetchAt)
    ensures var m := Dispatched(t, settings, rounds[0]);
            && SoundTable(m) && Steady(m, rounds[1..], end) && Drains(m, settings, rounds[1..], u)
            && |DueIds(m, end)| == |DueIds(t, end)| - MinNat(settings.batch, |DueIds(t, end)|)
  {
    OneRound(t, settings, rounds[0], end, taken);
    SteadyAfter(t, taken, rounds[0].publishAt, rounds, end);
  }

  /** Each fully acknowledged round takes one batch off the due events. */
  lemma {:induction false} DrainTakesABatchARound(t: Table, settings: Settings, rounds: seq<Round>, end: real, u: Table)
    requires SoundTable(t) && Steady(t, rounds, end) && Drains(t, settings, rounds, u)
    ensures |DueIds(u, end)| == Left(|DueIds(t, end)|, settings.batch, |rounds|)
    decreases |rounds|
  {
    if rounds != [] {
      FirstRound(t, settings, rounds, end, u, Events(t, settings.batch, rounds[0].fetchAt));
      DrainTakesABatchARound(Dispatched(t, settings, rounds[0]), settings, rounds[1..], end, u);
    }
  }

  lemma {:induction false} LeftIsNothing(n: nat, limit: nat, k: nat)
    ensures Left(n, limit, k) == 0 <==> n <= k * limit
    decreases k
  {
    if k > 0 {
      LeftIsNothing(n - MinNat(limit, n), limit, k - 1);
      assert k * limit == limit + (k - 1) * limit;
      if n <= limit {
        assert (k - 1) * limit >= 0;
      }
    }
  }

  /** ceil(n / limit). */
  function Rounds(n: nat, limit: nat): nat
    requires limit > 0
  {
    (n + limit - 1) / limit
  }

  lemma LeftAfterRounds(n: nat, limit: nat, k: nat, left: nat)
    requires limit > 0 && left == Left(n, limit, k)
    ensures left == 0 <==> k >= Rounds(n, limit)
  {
    LeftIsNothing(n, limit, k);
    Ceiling(n, limit, k);
  }

  /** So n due events drain in ceil(n / batch) rounds, and in no fewer. */
  lemma DrainsInCeilingRounds(t: Table, settings: Settings, rounds: seq<Round>, end: real, u: Table, needed: nat)
    requires SoundTable(t) && settings.batch > 0 && Steady(t, rounds, end) && Drains(t, settings, rounds, u)
    requires needed == Rounds(|DueIds(t, end)|, settings.batch)
    ensures DueIds(u, end) == {} <==> |rounds| >= needed
  {
    DrainTakesABatchARound(t, settings, rounds, end, u);
    LeftAfterRounds(|DueIds(t, end)|, settings.batch, |rounds|, |DueIds(u, end)|);
    assert DueIds(u, end) == {} <==> |DueIds(u, end)| == 0;
  }

  lemma Ceiling(n: nat, batch: nat, k: nat)
    requires batch > 0
    ensures n <= k * batch <==> k >= (n + batch - 1) / batch
  {
    var c := (n + batch - 1) / batch;
    assert c * batch + (n + batch - 1) % batch == n + batch - 1;
    if k >= c {
      Scales(c, k, batch);
    } else {
      Scales(k + 1, c, batch);
    }
  }

  lemma Scales(i: nat, j: nat, batch: nat)
    requires i <= j
    ensures i * batch <= j * batch && (i + 1) * batch == i * batch + batch
  {
  }
}
