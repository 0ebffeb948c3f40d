/**
 * Keyset pages: the rows after a cursor in key order, one more than the limit fetched to learn whether there are more.
 * A companion's key is the pair of its creation time and id, a team's its id; starts and outbox rows run backwards, so
 * theirs is the negated id.
 */
module Paging {
  import opened Core
  import opened Ordering

  function DescendingKey(sequence: int): Rank {
    Rank(-sequence, 0)
  }

  predicate Beyond(after: Option<Rank>, key: Rank) {
    after.None? || Before(after.value, key)
  }

  /** The page of a table (the keys of the rows its filter admits) after a cursor. */
  ghost predicate IsPage(table: set<Rank>, after: Option<Rank>, limit: nat, page: seq<Rank>, next: Option<Rank>) {
    && (forall i, j | 0 <= i < j < |page| :: Before(page[i], page[j]))
    && (forall key | key in page :: key in table && Beyond(after, key))
    && (forall key, seen | key in table && Beyond(after, key) && key !in page && seen in page :: Before(seen, key))
    && |page| <= limit && (|page| < limit ==> forall key | key in table && Beyond(after, key) :: key in page)
    && (next == if (forall key | key in table && Beyond(after, key) :: key in page) || page == [] then None else Some(page[|page| - 1]))
  }

  // ----- Answering a page -----------------------------------------------------

  method Least(keys: set<Rank>) returns (least: Rank)
    requires keys != {}
    ensures least in keys && forall key | key in keys && key != least :: Before(least, key)
  {
    least := AnyOf(keys);
    var rest := keys - {least};
    while rest != {}
      invariant rest <= keys && least in keys && least !in rest
      invariant forall key | key in keys && key != least && key !in rest :: Before(least, key)
      decreases |rest|
    {
      var key := AnyOf(rest);
      if Before(key, least) {
        least := key;
      }
      rest := rest - {key};
    }
  }

  /** SELECT ... WHERE key > after ORDER BY key LIMIT count. */
  method Select(table: set<Rank>, after: Option<Rank>, count: nat) returns (rows: seq<Rank>)
    ensures forall i, j | 0 <= i < j < |rows| :: Before(rows[i], rows[j])
    ensures forall key | key in rows :: key in table && Beyond(after, key)
    ensures forall key, seen | key in table && Beyond(after, key) && key !in rows && seen in rows :: Before(seen, key)
    ensures |rows| <= count && (|rows| < count ==> forall key | key in table && Beyond(after, key) :: key in rows)
  {
    rows := [];
    var rest := set key | key in table && Beyond(after, key);
    while rest != {} && |rows| < count
      invariant rest <= table && |rows| <= count
      invariant forall key :: key in table && Beyond(after, key) <==> key in rest || key in rows
      invariant forall key, seen | key in rest && seen in rows :: Before(seen, key)
      invariant forall i, j | 0 <= i < j < |rows| :: Before(rows[i], rows[j])
      decreases |rest|
    {
      var key := Least(rest);
      ghost var before := rows;
      rows := rows + [key];
      rest := rest - {key};
      forall k ensures k in table && Beyond(after, k) <==> k in rest || k in rows {
        assert k in rows <==> k in before || k == key;
      }
    }
  }

  /** One extra row answers whether there is another page. */
  method Page(table: set<Rank>, after: Option<Rank>, limit: nat) returns (page: seq<Rank>, next: Option<Rank>)
    ensures IsPage(table, after, limit, page, next)
  {
    var rows := Select(table, after, limit + 1);
    page := rows[..MinNat(limit, |rows|)];
    var more := |rows| > limit;
    next := if more && page != [] then Some(page[|page| - 1]) else None;
    forall key, seen | key in table && Beyond(after, key) && key !in page && seen in page ensures Before(seen, key) {
      if key in rows {
        var j :| 0 <= j < |rows| && rows[j] == key;
        var i :| 0 <= i < |page| && page[i] == seen;
        assert rows[i] == seen && j >= |page|;
      }
    }
    if more {
      assert rows[limit] in rows;
      assert rows[limit] !in page;
    } else {
      assert page == rows;
    }
  }

  // ----- Walking --------------------------------------------------------------

  datatype Fetched = Fetched(table: set<Rank>, page: seq<Rank>, next: Option<Rank>)

  /** Pages fetched one after the other, each from the cursor of the one before; the table may be another one at every
      fetch. The last page may still point on. */
  ghost predicate IsTrail(trail: seq<Fetched>, after: Option<Rank>, limit: nat) {
    trail == [] ||
      (IsPage(trail[0].table, after, limit, trail[0].page, trail[0].next)
       && (|trail| > 1 ==> trail[0].next.Some?)
       && IsTrail(trail[1..], trail[0].next, limit))
  }

  predicate PointsOn(trail: seq<Fetched>) {
    trail != [] && trail[|trail| - 1].next.Some?
  }

  /** A walk that reached its last page. */
  ghost predicate IsWalk(walk: seq<Fetched>, after: Option<Rank>, limit: nat) {
    walk != [] && IsTrail(walk, after, limit) && !PointsOn(walk)
  }

  function Rows(trail: seq<Fetched>): seq<Rank> {
    if trail == [] then [] else trail[0].page + Rows(trail[1..])
  }

  lemma LastIsBeyondAll(page: seq<Rank>, key: Rank)
    requires page != [] && Before(page[|page| - 1], key)
    requires forall i, j | 0 <= i < j < |page| :: Before(page[i], page[j])
    ensures forall seen | seen in page :: Before(seen, key)
  {
    forall seen | seen in page ensures Before(seen, key) {
      var i :| 0 <= i < |page| && page[i] == seen;
      assert i == |page| - 1 || Before(page[i], page[|page| - 1]);
    }
  }

  /** Cursors lead to strictly increasing keys, so to no row twice, whatever is inserted or deleted meanwhile. */
  lemma {:induction false} TrailIsOrdered(trail: seq<Fetched>, after: Option<Rank>, limit: nat)
    requires IsTrail(trail, after, limit)
    ensures forall i, j | 0 <= i < j < |Rows(trail)| :: Before(Rows(trail)[i], Rows(trail)[j])
    ensures forall key | key in Rows(trail) :: Beyond(after, key)
    decreases |trail|
  {
    if |trail| > 1 {
      var (page, rest) := (trail[0].page, Rows(trail[1..]));
      TrailIsOrdered(trail[1..], trail[0].next, limit);
      var last := page[|page| - 1];
      assert last in page;
      forall key | key in rest ensures forall seen | seen in page :: Before(seen, key) {
        LastIsBeyondAll(page, key);
      }
      forall i, j | 0 <= i < j < |page + rest| ensures Before((page + rest)[i], (page + rest)[j]) {
        if i < |page| <= j {
          assert rest[j - |page|] in rest && page[i] in page;
        }
      }
    } else if |trail| == 1 {
      assert Rows(trail) == trail[0].page;
    }
  }

  lemma OrderedHasNoDuplicates(s: seq<Rank>)
    requires forall i, j | 0 <= i < j < |s| :: Before(s[i], s[j])
    ensures NoDuplicates(s)
  {
  }

  /** A walk answers every row that was there at every fetch. */
  lemma {:induction false} WalkIsComplete(walk: seq<Fetched>, after: Option<Rank>, limit: nat, key: Rank)
    requires limit >= 1 && IsWalk(walk, after, limit) && Beyond(after, key) && forall f | f in walk :: key in f.table
    ensures key in Rows(walk)
    decreases |walk|
  {
    assert walk[0] in walk;
    if walk[0].next.Some? && key !in walk[0].page {
      var page := walk[0].page;
      assert page[|page| - 1] in page;
      forall f | f in walk[1..] ensures key in f.table { assert f in walk; }
      WalkIsComplete(walk[1..], walk[0].next, limit, key);
    }
  }

  /** No page answers a row that was never there. */
  lemma {:induction false} TrailAnswersRowsOfItsTables(trail: seq<Fetched>, after: Option<Rank>, limit: nat, ever: set<Rank>)
    requires IsTrail(trail, after, limit) && forall f | f in trail :: f.table <= ever
    ensures forall key | key in Rows(trail) :: key in ever
    decreases |trail|
  {
    if trail != [] {
      assert trail[0] in trail;
      forall f | f in trail[1..] ensures f.table <= ever { assert f in trail; }
      TrailAnswersRowsOfItsTables(trail[1..], trail[0].next, limit, ever);
    }
  }

  /** From the start: every row present throughout exactly once, in order. */
  lemma WalksAreExact(walk: seq<Fetched>, limit: nat, key: Rank)
    requires limit >= 1 && IsWalk(walk, None, limit) && forall f | f in walk :: key in f.table
    ensures multiset(Rows(walk))[key] == 1
    ensures forall i, j | 0 <= i < j < |Rows(walk)| :: Before(Rows(walk)[i], Rows(walk)[j])
  {
    WalkIsComplete(walk, None, limit, key);
    TrailIsOrdered(walk, None, limit);
    OrderedHasNoDuplicates(Rows(walk));
    NoDuplicatesMultiset(Rows(walk));
  }

  /** Every page that points on is full. */
  lemma {:induction false} TrailIsFull(trail: seq<Fetched>, after: Option<Rank>, limit: nat)
    requires IsTrail(trail, after, limit) && (trail == [] || PointsOn(trail))
    ensures |Rows(trail)| == |trail| * limit
    decreases |trail|
  {
    if trail != [] {
      TrailIsFull(trail[1..], trail[0].next, limit);
      assert |trail| * limit == limit + |trail[1..]| * limit;
    }
  }

  /** Following cursors ends: as long as the pages still point on, they hold limit rows each of those ever present, none
      twice, so over n rows at most n / limit pages point on. */
  lemma CursorsRunOut(trail: seq<Fetched>, limit: nat, ever: set<Rank>)
    requires IsTrail(trail, None, limit) && PointsOn(trail) && forall f | f in trail :: f.table <= ever
    ensures |trail| * limit <= |ever|
  {
    TrailIsFull(trail, None, limit);
    TrailAnswersRowsOfItsTables(trail, None, limit, ever);
    TrailIsOrdered(trail, None, limit);
    OrderedHasNoDuplicates(Rows(trail));
    NoDuplicatesMultiset(Rows(trail));
    var seen := set key | key in Rows(trail);
    assert |multiset(Rows(trail))| == |Rows(trail)| && |multiset(seen)| == |seen|;
    SubsetSize(seen, ever);
  }

  lemma {:induction false} TrailGrows(trail: seq<Fetched>, after: Option<Rank>, limit: nat, f: Fetched)
    requires IsTrail(trail, after, limit)
    requires if trail == [] then IsPage(f.table, after, limit, f.page, f.next)
             else PointsOn(trail) && IsPage(f.table, trail[|trail| - 1].next, limit, f.page, f.next)
    ensures IsTrail(trail + [f], after, limit)
    decreases |trail|
  {
    if trail != [] {
      TrailGrows(trail[1..], trail[0].next, limit, f);
      assert (trail + [f])[1..] == trail[1..] + [f];
    }
  }

  lemma PointingOnIsShort(trail: seq<Fetched>, limit: nat, ever: set<Rank>)
    requires IsTrail(trail, None, limit) && PointsOn(trail) && forall f | f in trail :: f.table <= ever
    ensures |trail| * limit <= |ever| && (limit >= 1 ==> |trail| <= |ever|)
  {
    CursorsRunOut(trail, limit, ever);
    if limit >= 1 { assert |trail| <= |trail| * limit; }
  }

  /** A client following cursors while others write: it stops, and what it has is a walk. tables is what each fetch finds,
      ever all rows ever present. */
  method Follow(tables: nat -> set<Rank>, limit: nat, ghost ever: set<Rank>) returns (walk: seq<Fetched>)
    requires limit >= 1 && forall i: nat :: tables(i) <= ever
    ensures IsWalk(walk, None, limit) && forall i | 0 <= i < |walk| :: walk[i].table == tables(i)
    ensures (|walk| - 1) * limit <= |ever|
  {
    var page, next := Page(tables(0), None, limit);
    walk := [Fetched(tables(0), page, next)];
    ghost var full := 0;
    while next.Some?
      invariant |walk| == full + 1 && IsTrail(walk, None, limit) && next == walk[full].next
      invariant forall i | 0 <= i < |walk| :: walk[i].table == tables(i)
      invariant full * limit <= |ever|
      decreases |ever| - |walk|
    {
      PointingOnIsShort(walk, limit, ever);
      full := |walk|;
      page, next := Page(tables(|walk|), next, limit);
      TrailGrows(walk, None, limit, Fetched(tables(|walk|), page, next));
      walk := walk + [Fetched(tables(|walk|), page, next)];
    }
  }

  /** Starts and outbox rows come newest first: their pages, one after the other, hold strictly falling ids. */
  lemma DescendingWalksFall(trail: seq<Fetched>, limit: nat, ids: seq<int>)
    requires IsTrail(trail, None, limit) && |ids| == |Rows(trail)|
    requires forall i | 0 <= i < |ids| :: Rows(trail)[i] == DescendingKey(ids[i])
    ensures forall i, j | 0 <= i < j < |ids| :: ids[i] > ids[j]
  {
    TrailIsOrdered(trail, None, limit);
    forall i, j | 0 <= i < j < |ids| ensures ids[i] > ids[j] {
      assert Before(Rows(trail)[i], Rows(trail)[j]);
    }
  }
}
