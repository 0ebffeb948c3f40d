/** The audit outbox and its dispatchers: each dispatch as the steps between which anything else may run. */
module Outbox {
  import opened Core
  import opened Ordering
  import opened Listing

  type EventId = int
  type Tag = int
  type DispatcherId = int

  datatype Row = Row(sequence: int, body: Tag, published: Option<real>, attempts: nat, nextAttempt: real, error: Tag)

  /** The rows by event id; next is the key the database gives the next one. */
  datatype Table = Table(rows: map<EventId, Row>, next: int)

  const NO_ERROR: Tag := 0

  // ----- The repository's statements --------------------------------------------

  function Enqueue(t: Table, id: EventId, body: Tag, now: real): Table {
    if id in t.rows then t else Table(t.rows[id := Row(t.next, body, None, 0, now, NO_ERROR)], t.next + 1)
  }

  predicate IsDue(row: Row, now: real) {
    row.published.None? && row.nextAttempt <= now
  }

  function Due(t: Table, now: real): map<EventId, Row> {
    t.rows - (set id | id in t.rows && !IsDue(t.rows[id], now))
  }

  const BY_SEQUENCE: Reader<EventId, Row, EventId> := Reader((id, row: Row) => Rank(row.sequence, 0), (id, row: Row) => id)

  ghost predicate DistinctSequences(rows: map<EventId, Row>) {
    forall a, b | a in rows && b in rows && a != b :: rows[a].sequence != rows[b].sequence
  }

  lemma DueSortable(t: Table, now: real)
    requires DistinctSequences(t.rows)
    ensures Sortable(Due(t, now), BY_SEQUENCE)
  {
  }

  /** pending_batch: the first of the due rows, in the order they were written. */
  ghost function Batch(t: Table, limit: nat, now: real): seq<EventId>
    requires DistinctSequences(t.rows)
  {
    DueSortable(t, now);
    var due := Keys(Due(t, now), BY_SEQUENCE);
    due[..MinNat(limit, |due|)]
  }

  function PublishedRow(row: Row, at: real): Row {
    if row.published.None? then row.(published := Some(at), error := NO_ERROR) else row
  }

  ghost function MarkPublished(t: Table, ids: set<EventId>, at: real): Table {
    t.(rows := Mapped(t.rows, Publishing(ids, at)))
  }

  ghost function Publishing(ids: set<EventId>, at: real): (EventId, Row) -> Row {
    (id, row) => if id in ids then PublishedRow(row, at) else row
  }

  function FailedRow(row: Row, error: Tag, next: real): Row {
    if row.published.None? then row.(attempts := row.attempts + 1, error := error, nextAttempt := next) else row
  }

  ghost function MarkFailed(t: Table, ids: set<EventId>, error: Tag, next: real): Table {
    t.(rows := Mapped(t.rows, Failing(ids, error, next)))
  }

  ghost function Failing(ids: set<EventId>, error: Tag, next: real): (EventId, Row) -> Row {
    (id, row) => if id in ids then FailedRow(row, error, next) else row
  }

  function Purge(t: Table, before: real): Table {
    t.(rows := t.rows - (set id | id in t.rows && t.rows[id].published.Some? && t.rows[id].published.value < before))
  }

  // ----- The retry delay ----------------------------------------------------------

  /** base * 2 ** n. */
  function Doubled(base: real, n: nat): real {
    if n == 0 then base else 2.0 * Doubled(base, n - 1)
  }

  function Exponent(attempts: int): (e: nat)
    ensures e <= 16
  {
    if attempts < 0 then 0 else MinNat(attempts, 16)
  }

  function RetryDelay(attempts: int, base: real, maximum: real): real {
    var delay := Doubled(base, Exponent(attempts));
    if delay <= maximum then delay else maximum
  }

  lemma {:induction false} DoublingGrows(base: real, a: nat, b: nat)
    requires a <= b
    ensures base >= 0.0 ==> 0.0 <= Doubled(base, a) <= Doubled(base, b)
    ensures base < 0.0 ==> 0.0 > Doubled(base, a) >= Doubled(base, b)
    ensures base < 0.0 && a < b ==> Doubled(base, a) > Doubled(base, b)
    decreases b
  {
    if a < b {
      DoublingGrows(base, a, b - 1);
    } else if a > 0 {
      DoublingGrows(base, a - 1, b - 1);
    }
  }

  lemma DelayGrows(base: real, maximum: real, m: int, n: int, top: nat)
    requires m <= n && top == 16 && (base >= 0.0 || maximum <= Doubled(base, top))
    ensures RetryDelay(m, base, maximum) <= RetryDelay(n, base, maximum)
  {
    DoublingGrows(base, Exponent(m), Exponent(n));
    DoublingGrows(base, Exponent(n), top);
  }

  /** The delay never exceeds the maximum; it never shrinks with the attempt count exactly when the base is not negative
      (or so negative against the maximum that it is constant). */
  lemma DelayIsMonotone(base: real, maximum: real)
    ensures forall n :: RetryDelay(n, base, maximum) <= maximum
    ensures (forall m, n | m <= n :: RetryDelay(m, base, maximum) <= RetryDelay(n, base, maximum))
            <==> base >= 0.0 || maximum <= Doubled(base, 16)
  {
    if base >= 0.0 || maximum <= Doubled(base, 16) {
      forall m, n | m <= n ensures RetryDelay(m, base, maximum) <= RetryDelay(n, base, maximum) {
        DelayGrows(base, maximum, m, n, 16);
      }
    } else {
      DoublingGrows(base, 0, 16);
      assert RetryDelay(0, base, maximum) > RetryDelay(16, base, maximum);
    }
  }

  /** The delay starts at the base, doubles with each of sixteen failed attempts, and stays; the maximum caps it. */
  lemma DelayDoubles(base: real, maximum: real, n: int)
    requires maximum >= 0.0
    ensures n <= 0 ==> RetryDelay(n, base, maximum) == if base <= maximum then base else maximum
    ensures 0 <= n < 16 ==>
              var doubled := 2.0 * RetryDelay(n, base, maximum);
              RetryDelay(n + 1, base, maximum) == if doubled <= maximum then doubled else maximum
    ensures n >= 16 ==> RetryDelay(n + 1, base, maximum) == RetryDelay(n, base, maximum)
  {
    if 0 <= n < 16 { DoublingGrows(base, 0, n); }
  }

  // ----- Interleaved steps --------------------------------------------------------

  /** What a dispatcher holds between two of its steps. */
  datatype Phase =
    | Idle
    | Fetched(events: set<EventId>, delay: real)
    | Answered(acknowledged: set<EventId>, missing: set<EventId>, delay: real)
    | Unsent(events: set<EventId>, delay: real)

  /** acknowledged: every event the transport ever said it took. */
  datatype World = World(table: Table, dispatchers: map<DispatcherId, Phase>, acknowledged: set<EventId>)

  datatype Settings = Settings(batch: nat, base: real, maximum: real)

  datatype Step =
    | StepEnqueue(id: EventId, body: Tag, now: real)
    | StepPurge(before: real)
    | StepFetch(d: DispatcherId, now: real)
    /** The transport answers with what it acknowledged, or raises. */
    | StepPublish(d: DispatcherId, answer: Option<set<EventId>>)
    | StepMarkPublished(d: DispatcherId, now: real)
    | StepMarkFailed(d: DispatcherId, error: Tag, now: real)
    | StepStop(d: DispatcherId)

  function PhaseOf(w: World, d: DispatcherId): Phase {
    if d in w.dispatchers then w.dispatchers[d] else Idle
  }

  ghost predicate SoundTable(t: Table) {
    && DistinctSequences(t.rows)
    && (forall id | id in t.rows :: t.rows[id].sequence < t.next)
  }

  function MostAttempts(t: Table, events: seq<EventId>): (most: nat)
    requires forall i | 0 <= i < |events| :: events[i] in t.rows
  {
    if events == [] then 0
    else
      var rest := MostAttempts(t, events[1..]);
      if t.rows[events[0]].attempts > rest then t.rows[events[0]].attempts else rest
  }

  lemma BatchIsPending(t: Table, limit: nat, now: real)
    requires DistinctSequences(t.rows)
    ensures var batch := Batch(t, limit, now);
            forall i | 0 <= i < |batch| :: batch[i] in t.rows && IsDue(t.rows[batch[i]], now)
  {
    DueSortable(t, now);
    var due, batch := Keys(Due(t, now), BY_SEQUENCE), Batch(t, limit, now);
    forall i | 0 <= i < |batch| ensures batch[i] in t.rows && IsDue(t.rows[batch[i]], now) {
      assert due[i] in due;
    }
  }

  ghost function Advance(w: World, settings: Settings, step: Step): World
    requires SoundTable(w.table)
  {
    match step
    case StepEnqueue(id, body, now) => w.(table := Enqueue(w.table, id, body, now))
    case StepPurge(before) => w.(table := Purge(w.table, before))
    case StepFetch(d, now) =>
      BatchIsPending(w.table, settings.batch, now);
      var events := Batch(w.table, settings.batch, now);
      if PhaseOf(w, d) != Idle || events == [] then w
      else
        var delay := RetryDelay(MostAttempts(w.table, events), settings.base, settings.maximum);
        w.(dispatchers := w.dispatchers[d := Fetched((set id | id in events), delay)])
    case StepPublish(d, answer) =>
      if !PhaseOf(w, d).Fetched? then w
      else
        var held := PhaseOf(w, d);
        if answer.None? then w.(dispatchers := w.dispatchers[d := Unsent(held.events, held.delay)])
        else
          var taken := answer.value * held.events;
          w.(dispatchers := w.dispatchers[d := Answered(taken, held.events - taken, held.delay)], acknowledged := w.acknowledged + taken)
    case StepMarkPublished(d, now) =>
      if !PhaseOf(w, d).Answered? then w
      else
        var held := PhaseOf(w, d);
        w.(table := MarkPublished(w.table, held.acknowledged, now),
           dispatchers := w.dispatchers[d := if held.missing == {} then Idle else Unsent(held.missing, held.delay)])
    case StepMarkFailed(d, error, now) =>
      if !PhaseOf(w, d).Unsent? then w
      else
        var held := PhaseOf(w, d);
        w.(table := MarkFailed(w.table, held.events, error, now + held.delay), dispatchers := w.dispatchers[d := Idle])
    case StepStop(d) => w.(dispatchers := w.dispatchers[d := Idle])
  }

  lemma NextKeepsSound(w: World, settings: Settings, step: Step)
    requires SoundTable(w.table)
    ensures SoundTable(Advance(w, settings, step).table)
  {
  }

  ghost function Run(w: World, settings: Settings, steps: seq<Step>): (u: World)
    requires SoundTable(w.table)
    ensures SoundTable(u.table)
    decreases |steps|
  {
    if steps == [] then w
    else
      NextKeepsSound(w, settings, steps[0]);
      Run(Advance(w, settings, steps[0]), settings, steps[1..])
  }

  // ----- At least once ------------------------------------------------------------

  /** Whatever is marked or about to be marked published was acknowledged. */
  ghost predicate Honest(w: World) {
    && (forall id | id in w.table.rows && w.table.rows[id].published.Some? :: id in w.acknowledged)
    && (forall d | d in w.dispatchers && w.dispatchers[d].Answered? :: w.dispatchers[d].acknowledged <= w.acknowledged)
  }

  /** u follows w: acknowledgements accumulate, a row goes only if its event was acknowledged, and a published row is
      never changed, rescheduled or unpublished. */
  ghost predicate Follows(w: World, u: World) {
    && w.acknowledged <= u.acknowledged && w.table.next <= u.table.next
    && (forall id | id in w.table.rows && id !in u.table.rows :: id in u.acknowledged)
    && (forall id | id in u.table.rows && id !in w.table.rows :: u.table.rows[id].sequence >= w.table.next)
    && (forall id | id in w.table.rows && id in u.table.rows ::
          u.table.rows[id].sequence == w.table.rows[id].sequence || (id in u.acknowledged && u.table.rows[id].sequence >= w.table.next))
    && (forall id | id in w.table.rows && id in u.table.rows && u.table.rows[id].sequence == w.table.rows[id].sequence ::
          && u.table.rows[id].body == w.table.rows[id].body
          && (w.table.rows[id].published.Some? ==> u.table.rows[id] == w.table.rows[id]))
  }

  lemma MarkingFollows(w: World, settings: Settings, step: Step)
    requires SoundTable(w.table) && Honest(w) && (step.StepMarkPublished? || step.StepMarkFailed?)
    ensures Honest(Advance(w, settings, step)) && Follows(w, Advance(w, settings, step))
  {
  }

  lemma NextFollows(w: World, settings: Settings, step: Step)
    requires SoundTable(w.table) && Honest(w)
    ensures Honest(Advance(w, settings, step)) && Follows(w, Advance(w, settings, step))
  {
    if step.StepMarkPublished? || step.StepMarkFailed? {
      MarkingFollows(w, settings, step);
    }
  }

  lemma FollowsTransitive(w: World, m: World, u: World)
    requires SoundTable(w.table) && SoundTable(m.table) && Follows(w, m) && Follows(m, u)
    ensures Follows(w, u)
  {
    forall id | id in w.table.rows && id in u.table.rows
      ensures u.table.rows[id].sequence == w.table.rows[id].sequence || (id in u.acknowledged && u.table.rows[id].sequence >= w.table.next)
    {
      assert id in m.table.rows || id in m.acknowledged;
    }
  }

  lemma {:induction false} RunFollows(w: World, settings: Settings, steps: seq<Step>)
    requires SoundTable(w.table) && Honest(w)
    ensures Honest(Run(w, settings, steps)) && Follows(w, Run(w, settings, steps))
    decreases |steps|
  {
    if steps != [] {
      var m := Advance(w, settings, steps[0]);
      NextKeepsSound(w, settings, steps[0]);
      NextFollows(w, settings, steps[0]);
      RunFollows(m, settings, steps[1..]);
      FollowsTransitive(w, m, Run(w, settings, steps));
    }
  }
}
