/** ORDER BY over a table: rows listed once each, by a two-column rank. */
module Ordering {
  import opened Core

  datatype Rank = Rank(major: int, minor: int)

  predicate Before(a: Rank, b: Rank) {
    a.major < b.major || (a.major == b.major && a.minor < b.minor)
  }

  ghost predicate DistinctRanks<K(!new)>(rank: map<K, Rank>) {
    forall a, b | a in rank && b in rank && a != b :: rank[a] != rank[b]
  }

  /** s lists every key exactly once in increasing rank. */
  ghost predicate Lists<K(!new)>(rank: map<K, Rank>, s: seq<K>) {
    && (forall k :: k in s <==> k in rank)
    && (forall i, j | 0 <= i < j < |s| :: Before(rank[s[i]], rank[s[j]]))
  }

  ghost predicate IsLeast<K(!new)>(rank: map<K, Rank>, k: K) {
    k in rank && forall other | other in rank && other != k :: Before(rank[k], rank[other])
  }

  lemma {:induction false} LeastExists<K(!new)>(rank: map<K, Rank>)
    requires DistinctRanks(rank) && rank.Keys != {}
    ensures exists k :: IsLeast(rank, k)
    decreases |rank|
  {
    var k :| k in rank;
    var rest := rank - {k};
    assert rank.Keys == rest.Keys + {k};
    if rest.Keys == {} {
      assert IsLeast(rank, k);
    } else {
      assert |rest| < |rank|;
      LeastExists(rest);
      var m :| IsLeast(rest, m);
      var least := if Before(rank[k], rank[m]) then k else m;
      forall other | other in rank && other != least
        ensures Before(rank[least], rank[other])
      {
        if other != k {
          assert other in rest;
          assert other == m || Before(rest[m], rest[other]);
        }
      }
      assert IsLeast(rank, least);
    }
  }

  lemma {:induction false} ListingExists<K(!new)>(rank: map<K, Rank>)
    requires DistinctRanks(rank)
    ensures exists s :: Lists(rank, s)
    decreases |rank|
  {
    if rank.Keys == {} {
      assert Lists(rank, []);
    } else {
      LeastExists(rank);
      var m :| IsLeast(rank, m);
      var rest := rank - {m};
      assert |rest| < |rank|;
      ListingExists(rest);
      var t :| Lists(rest, t);
      ListingFromLeast(rank, m, t);
    }
  }

  lemma ListingFromLeast<K(!new)>(rank: map<K, Rank>, m: K, t: seq<K>)
    requires IsLeast(rank, m) && Lists(rank - {m}, t)
    ensures Lists(rank, [m] + t)
  {
    var s := [m] + t;
    forall k ensures k in s <==> k in rank {
      assert k in t <==> k in rank - {m};
    }
    forall i, j | 0 <= i < j < |s| ensures Before(rank[s[i]], rank[s[j]]) {
      assert s[j] == t[j - 1] && t[j - 1] in t;
      if i > 0 {
        assert s[i] == t[i - 1] && t[i - 1] in t;
        assert Before((rank - {m})[t[i - 1]], (rank - {m})[t[j - 1]]);
      }
    }
  }

  /** Distinct ranks leave ORDER BY no freedom. */
  lemma {:induction false} ListingUnique<K(!new)>(rank: map<K, Rank>, s: seq<K>, t: seq<K>)
    requires Lists(rank, s) && Lists(rank, t)
    ensures s == t
    decreases |s|
  {
    if t != [] {
      assert t[0] in t;
      assert t[0] in s;
    }
    if s != [] {
      assert s[0] in s;
      assert s[0] in t;
      FirstIsLeast(rank, s);
      FirstIsLeast(rank, t);
      assert s[0] == t[0];
      TailLists(rank, s);
      TailLists(rank, t);
      ListingUnique(rank - {s[0]}, s[1..], t[1..]);
      assert s == [s[0]] + s[1..] && t == [t[0]] + t[1..];
    }
  }

  lemma FirstIsLeast<K(!new)>(rank: map<K, Rank>, s: seq<K>)
    requires Lists(rank, s) && s != []
    ensures IsLeast(rank, s[0])
  {
    assert s[0] in s;
    forall other | other in rank && other != s[0]
      ensures Before(rank[s[0]], rank[other])
    {
      assert other in s;
      var j :| 0 <= j < |s| && s[j] == other;
      assert 0 < j;
    }
  }

  lemma TailLists<K(!new)>(rank: map<K, Rank>, s: seq<K>)
    requires Lists(rank, s) && s != []
    ensures Lists(rank - {s[0]}, s[1..])
  {
    var rest, t := rank - {s[0]}, s[1..];
    forall k ensures k in t <==> k in rest {
      if k in t {
        var j :| 0 <= j < |t| && t[j] == k;
        assert s[j + 1] == k && Before(rank[s[0]], rank[s[j + 1]]);
        assert k in s;
      }
      if k in rest {
        assert k in s;
        var j :| 0 <= j < |s| && s[j] == k;
        assert t[j - 1] == k;
      }
    }
    forall i, j | 0 <= i < j < |t| ensures Before(rest[t[i]], rest[t[j]]) {
      assert t[i] in t && t[j] in t;
      assert s[i + 1] == t[i] && s[j + 1] == t[j];
    }
  }

  /** The rows in rank order. */
  ghost function Order<K(!new)>(rank: map<K, Rank>): (s: seq<K>)
    requires DistinctRanks(rank)
    ensures Lists(rank, s)
  {
    ListingExists(rank);
    var s :| Lists(rank, s);
    s
  }

  lemma ListsNoDuplicates<K(!new)>(rank: map<K, Rank>, s: seq<K>)
    requires Lists(rank, s)
    ensures NoDuplicates(s)
  {
    forall i, j | 0 <= i < j < |s| ensures s[i] != s[j] {
      assert Before(rank[s[i]], rank[s[j]]);
    }
  }

  /** A row ranked after every other one is listed last. */
  lemma OrderAppend<K(!new)>(rank: map<K, Rank>, k: K, r: Rank)
    requires DistinctRanks(rank) && k !in rank
    requires forall other | other in rank :: Before(rank[other], r)
    ensures DistinctRanks(rank[k := r])
    ensures Order(rank[k := r]) == Order(rank) + [k]
  {
    var grown, s := rank[k := r], Order(rank) + [k];
    forall i, j | 0 <= i < j < |s| ensures Before(grown[s[i]], grown[s[j]]) {
      assert Order(rank)[i] in Order(rank);
      if j < |Order(rank)| {
        assert Order(rank)[j] in Order(rank);
      }
    }
    forall x ensures x in s <==> x in grown {
      assert x in Order(rank) <==> x in rank;
    }
    ListingUnique(grown, s, Order(grown));
  }

  function Without<K(==, !new)>(s: seq<K>, k: K): (t: seq<K>)
    ensures forall x :: x in t <==> x in s && x != k
    ensures |t| <= |s|
  {
    if s == [] then [] else (if s[0] == k then [] else [s[0]]) + Without(s[1..], k)
  }

  ghost predicate Ascending<K(!new)>(rank: map<K, Rank>, s: seq<K>) {
    && (forall x | x in s :: x in rank)
    && (forall i, j | 0 <= i < j < |s| :: Before(rank[s[i]], rank[s[j]]))
  }

  /** Dropping an element keeps every other pair in its order. */
  lemma {:induction false} WithoutKeepsOrder<K(!new)>(rank: map<K, Rank>, s: seq<K>, k: K)
    requires Ascending(rank, s)
    ensures Ascending(rank, Without(s, k))
  {
    if s != [] {
      var tail := s[1..];
      WithoutKeepsOrder(rank, tail, k);
      var rest := Without(tail, k);
      forall x | x in rest ensures Before(rank[s[0]], rank[x]) {
        var m :| 0 <= m < |tail| && tail[m] == x;
        assert s[m + 1] == x;
      }
      if s[0] != k {
        AscendingFrom(rank, s[0], rest);
      }
    }
  }

  lemma AscendingFrom<K(!new)>(rank: map<K, Rank>, first: K, rest: seq<K>)
    requires Ascending(rank, rest) && first in rank
    requires forall x | x in rest :: Before(rank[first], rank[x])
    ensures Ascending(rank, [first] + rest)
  {
    var t := [first] + rest;
    forall i, j | 0 <= i < j < |t| ensures Before(rank[t[i]], rank[t[j]]) {
      assert t[j] == rest[j - 1] && rest[j - 1] in rest;
    }
  }

  /** Deleting a row leaves the others listed in the same order. */
  lemma OrderRemove<K(!new)>(rank: map<K, Rank>, k: K)
    requires DistinctRanks(rank)
    ensures DistinctRanks(rank - {k})
    ensures Order(rank - {k}) == Without(Order(rank), k)
  {
    var s, rest := Without(Order(rank), k), rank - {k};
    WithoutKeepsOrder(rank, Order(rank), k);
    forall i, j | 0 <= i < j < |s| ensures s[i] in rest && s[j] in rest && Before(rest[s[i]], rest[s[j]]) {
      assert s[i] in s && s[j] in s;
    }
    assert Lists(rest, s);
    ListingUnique(rest, s, Order(rest));
  }

  /** The database's ORDER BY, computed: repeatedly take the least remaining row. */
  method OrderBy<K(==, !new)>(rank: map<K, Rank>) returns (s: seq<K>)
    requires DistinctRanks(rank)
    ensures s == Order(rank)
  {
    s := [];
    var rest := rank;
    while rest.Keys != {}
      invariant rest.Keys <= rank.Keys && forall k | k in rest :: rest[k] == rank[k]
      invariant DistinctRanks(rest)
      invariant forall k :: k in rank <==> (k in rest || k in s)
      invariant forall i, j | 0 <= i < j < |s| :: Before(rank[s[i]], rank[s[j]])
      invariant forall i, k | 0 <= i < |s| && k in rest :: Before(rank[s[i]], rank[k])
      decreases |rest|
    {
      var least := TakeLeast(rest);
      ghost var before := s;
      s := s + [least];
      assert |rest - {least}| < |rest|;
      rest := rest - {least};
      forall k ensures k in rank <==> (k in rest || k in s) {
        assert k in s <==> k in before || k == least;
      }
    }
    assert Lists(rank, s);
    ListingUnique(rank, s, Order(rank));
  }

  method TakeLeast<K(==, !new)>(rank: map<K, Rank>) returns (least: K)
    requires DistinctRanks(rank) && rank.Keys != {}
    ensures IsLeast(rank, least)
  {
    var keys := rank.Keys;
    least :| least in keys;
    keys := keys - {least};
    while keys != {}
      invariant keys <= rank.Keys && least in rank && least !in keys
      invariant forall k | k in rank && k != least && k !in keys :: Before(rank[least], rank[k])
      decreases |keys|
    {
      var k :| k in keys;
      if Before(rank[k], rank[least]) {
        least := k;
      }
      keys := keys - {k};
    }
  }
}
