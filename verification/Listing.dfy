/** A table read in ORDER BY order and turned into values, and what one row's write does to that reading. */
module Listing {
  import opened Core
  import opened Ordering

  /** How a table's rows are ranked and what value each becomes. */
  datatype Reader<!K(!new), !V, !T> = Reader(rank: (K, V) -> Rank, view: (K, V) -> T)

  ghost function Ranks<K(!new), V, T>(table: map<K, V>, r: Reader<K, V, T>): map<K, Rank> {
    Mapped(table, r.rank)
  }

  ghost predicate Sortable<K(!new), V, T>(table: map<K, V>, r: Reader<K, V, T>) {
    DistinctRanks(Ranks(table, r))
  }

  function Views<K(!new), V, T>(table: map<K, V>, r: Reader<K, V, T>, keys: seq<K>): (s: seq<T>)
    requires forall k | k in keys :: k in table
    ensures |s| == |keys| && forall i | 0 <= i < |s| :: s[i] == r.view(keys[i], table[keys[i]])
  {
    seq(|keys|, i requires 0 <= i < |keys| => r.view(keys[i], table[keys[i]]))
  }

  ghost function Keys<K(!new), V, T>(table: map<K, V>, r: Reader<K, V, T>): (keys: seq<K>)
    requires Sortable(table, r)
    ensures forall k | k in keys :: k in table
  {
    Order(Ranks(table, r))
  }

  lemma KeysList<K(!new), V, T>(table: map<K, V>, r: Reader<K, V, T>)
    requires Sortable(table, r)
    ensures Lists(Ranks(table, r), Keys(table, r))
    ensures forall k :: k in Keys(table, r) <==> k in table
  {
    assert forall k :: k in Ranks(table, r) <==> k in table;
  }

  ghost function ReadAll<K(!new), V, T>(table: map<K, V>, r: Reader<K, V, T>): (s: seq<T>)
    requires Sortable(table, r)
  {
    Views(table, r, Keys(table, r))
  }

  /** SELECT ... ORDER BY: the table's keys in the order the reader ranks their rows. */
  method Query<K(==, !new), V, T>(table: map<K, V>, r: Reader<K, V, T>) returns (keys: seq<K>)
    requires Sortable(table, r)
    ensures keys == Keys(table, r)
  {
    var rank: map<K, Rank> := map[];
    var rest := table.Keys;
    while rest != {}
      invariant rest <= table.Keys && rank.Keys == table.Keys - rest
      invariant forall k | k in rank :: rank[k] == r.rank(k, table[k])
      decreases |rest|
    {
      var k := AnyOf(rest);
      rest := rest - {k};
      rank := rank[k := r.rank(k, table[k])];
    }
    assert rank == Ranks(table, r);
    keys := OrderBy(rank);
  }

  // ----- One row's write ----------------------------------------------------

  /** r' reads every row of the table but k's like r does. */
  ghost predicate AgreeExcept<K(!new), V, T>(table: map<K, V>, r: Reader<K, V, T>, r': Reader<K, V, T>, k: K) {
    forall j | j in table && j != k :: r'.rank(j, table[j]) == r.rank(j, table[j]) && r'.view(j, table[j]) == r.view(j, table[j])
  }

  lemma RanksUpdate<K(!new), V, T>(table: map<K, V>, r: Reader<K, V, T>, r': Reader<K, V, T>, k: K, v: V)
    requires AgreeExcept(table, r, r', k)
    ensures Ranks(table[k := v], r') == Ranks(table, r)[k := r'.rank(k, v)]
  {
  }

  lemma RanksRemove<K(!new), V, T>(table: map<K, V>, r: Reader<K, V, T>, r': Reader<K, V, T>, k: K)
    requires AgreeExcept(table, r, r', k)
    ensures Ranks(table - {k}, r') == Ranks(table, r) - {k}
  {
  }

  lemma ReadAppend<K(!new), V, T>(table: map<K, V>, r: Reader<K, V, T>, r': Reader<K, V, T>, k: K, v: V)
    requires Sortable(table, r) && k !in table && AgreeExcept(table, r, r', k)
    requires forall j | j in table :: Before(r.rank(j, table[j]), r'.rank(k, v))
    ensures Sortable(table[k := v], r')
    ensures ReadAll(table[k := v], r') == ReadAll(table, r) + [r'.view(k, v)]
  {
    OrderAppend(Ranks(table, r), k, r'.rank(k, v));
    RanksUpdate(table, r, r', k, v);
    var keys := Keys(table, r);
    assert Keys(table[k := v], r') == keys + [k];
    forall i | 0 <= i < |keys| ensures keys[i] in table && keys[i] != k { assert keys[i] in keys; }
  }

  /** _replace: the value in the place of the one with its key. */
  function Replace<K(==), T>(s: seq<T>, key: T -> K, item: T): (t: seq<T>)
    ensures |t| == |s| && forall i | 0 <= i < |s| :: t[i] == if key(s[i]) == key(item) then item else s[i]
  {
    seq(|s|, i requires 0 <= i < |s| => if key(s[i]) == key(item) then item else s[i])
  }

  /** _without: the values of every other key. */
  function Drop<K(==), T(!new)>(s: seq<T>, key: T -> K, k: K): (t: seq<T>)
    ensures forall x :: x in t <==> x in s && key(x) != k
  {
    if s == [] then [] else (if key(s[0]) == k then [] else [s[0]]) + Drop(s[1..], key, k)
  }

  ghost predicate KeyOf<K(!new), V, T>(table: map<K, V>, r: Reader<K, V, T>, key: T -> K) {
    forall j | j in table :: key(r.view(j, table[j])) == j
  }

  lemma ReadReplace<K(!new), V, T>(table: map<K, V>, r: Reader<K, V, T>, r': Reader<K, V, T>, key: T -> K, k: K, v: V)
    requires Sortable(table, r) && k in table && AgreeExcept(table, r, r', k) && KeyOf(table, r, key)
    requires r'.rank(k, v) == r.rank(k, table[k]) && key(r'.view(k, v)) == k
    ensures Sortable(table[k := v], r')
    ensures ReadAll(table[k := v], r') == Replace(ReadAll(table, r), key, r'.view(k, v))
  {
    RanksUpdate(table, r, r', k, v);
    assert Ranks(table, r)[k := r'.rank(k, v)] == Ranks(table, r);
    var keys, s, t := Keys(table, r), ReadAll(table[k := v], r'), Replace(ReadAll(table, r), key, r'.view(k, v));
    forall i | 0 <= i < |keys| ensures s[i] == t[i] {
      assert keys[i] in keys;
    }
  }

  lemma {:induction false} DropViews<K(!new), V, T(!new)>(
    table: map<K, V>, r: Reader<K, V, T>, r': Reader<K, V, T>, key: T -> K, k: K, keys: seq<K>)
    requires AgreeExcept(table, r, r', k) && KeyOf(table, r, key)
    requires forall j | j in keys :: j in table
    ensures Drop(Views(table, r, keys), key, k) == Views(table - {k}, r', Without(keys, k))
  {
    if keys != [] {
      var rest := keys[1..];
      DropViews(table, r, r', key, k, rest);
      assert Views(table, r, keys)[1..] == Views(table, r, rest);
      assert keys[0] in keys;
    }
  }

  lemma ReadRemove<K(!new), V, T(!new)>(table: map<K, V>, r: Reader<K, V, T>, r': Reader<K, V, T>, key: T -> K, k: K)
    requires Sortable(table, r) && AgreeExcept(table, r, r', k) && KeyOf(table, r, key)
    ensures Sortable(table - {k}, r')
    ensures ReadAll(table - {k}, r') == Drop(ReadAll(table, r), key, k)
  {
    OrderRemove(Ranks(table, r), k);
    RanksRemove(table, r, r', k);
    DropViews(table, r, r', key, k, Keys(table, r));
  }

  // ----- Order apart --------------------------------------------------------

  /** s holds each row's value exactly once, in whatever order. */
  ghost predicate Represents<K(!new), V, T(!new)>(table: map<K, V>, r: Reader<K, V, T>, key: T -> K, s: seq<T>) {
    && NoDuplicates(s)
    && (forall x | x in s :: key(x) in table && x == r.view(key(x), table[key(x)]))
    && (forall k | k in table :: r.view(k, table[k]) in s)
  }

  lemma ReadRepresents<K(!new), V, T(!new)>(table: map<K, V>, r: Reader<K, V, T>, key: T -> K)
    requires Sortable(table, r) && KeyOf(table, r, key)
    ensures Represents(table, r, key, ReadAll(table, r))
  {
    var keys, s := Keys(table, r), ReadAll(table, r);
    ListsNoDuplicates(Ranks(table, r), keys);
    forall i, j | 0 <= i < j < |s| ensures s[i] != s[j] {
      assert keys[i] in keys && keys[j] in keys;
      assert key(s[i]) == keys[i] && key(s[j]) == keys[j];
    }
    forall x | x in s ensures key(x) in table && x == r.view(key(x), table[key(x)]) {
      var i :| 0 <= i < |s| && s[i] == x;
      assert keys[i] in keys;
    }
    forall k | k in table ensures r.view(k, table[k]) in s {
      assert k in keys;
      var i :| 0 <= i < |keys| && keys[i] == k;
      assert s[i] == r.view(k, table[k]);
    }
  }

  /** Any other listing of the same values is the reading up to order. */
  lemma ReadsUpToOrder<K(!new), V, T(!new)>(table: map<K, V>, r: Reader<K, V, T>, key: T -> K, s: seq<T>)
    requires Sortable(table, r) && KeyOf(table, r, key) && Represents(table, r, key, s)
    ensures multiset(ReadAll(table, r)) == multiset(s)
  {
    ReadRepresents(table, r, key);
    SameElementsSameMultiset(ReadAll(table, r), s);
  }

  lemma AppendRepresents<K(!new), V, T(!new)>(table: map<K, V>, r: Reader<K, V, T>, key: T -> K, s: seq<T>, k: K, v: V)
    requires Represents(table, r, key, s) && k !in table && key(r.view(k, v)) == k
    ensures Represents(table[k := v], r, key, s + [r.view(k, v)])
  {
    var item, t, table' := r.view(k, v), s + [r.view(k, v)], table[k := v];
    forall i, j | 0 <= i < j < |t| ensures t[i] != t[j] {
      assert t[i] in s;
    }
    forall x | x in t ensures key(x) in table' && x == r.view(key(x), table'[key(x)]) {
      assert x in s || x == item;
    }
    forall j | j in table' ensures r.view(j, table'[j]) in t {
      if j != k { assert r.view(j, table[j]) in s; } else { assert t[|s|] == item; }
    }
  }

  lemma ReplaceRepresents<K(!new), V, T(!new)>(table: map<K, V>, r: Reader<K, V, T>, key: T -> K, s: seq<T>, k: K, v: V)
    requires Represents(table, r, key, s) && KeyOf(table, r, key) && k in table && key(r.view(k, v)) == k
    ensures Represents(table[k := v], r, key, Replace(s, key, r.view(k, v)))
  {
    var item, t, table' := r.view(k, v), Replace(s, key, r.view(k, v)), table[k := v];
    forall i, j | 0 <= i < j < |t| ensures t[i] != t[j] {
      assert s[i] in s && s[j] in s;
      assert key(s[i]) != key(s[j]);
    }
    forall x | x in t ensures key(x) in table' && x == r.view(key(x), table'[key(x)]) {
      var i :| 0 <= i < |t| && t[i] == x;
      assert s[i] in s;
    }
    forall j | j in table' ensures r.view(j, table'[j]) in t {
      assert r.view(j, table[j]) in s;
      var i :| 0 <= i < |s| && s[i] == r.view(j, table[j]);
      assert t[i] == r.view(j, table'[j]);
    }
  }

  lemma {:induction false} DropNoDuplicates<K, T(!new)>(s: seq<T>, key: T -> K, k: K)
    requires NoDuplicates(s)
    ensures NoDuplicates(Drop(s, key, k))
  {
    if s != [] {
      var rest := s[1..];
      assert NoDuplicates(rest);
      DropNoDuplicates(rest, key, k);
      assert s[0] !in rest;
      var t := Drop(rest, key, k);
      assert s[0] !in t;
      if key(s[0]) != k {
        assert Drop(s, key, k) == [s[0]] + t;
      } else {
        assert Drop(s, key, k) == t;
      }
    }
  }

  lemma DropRepresents<K(!new), V, T(!new)>(table: map<K, V>, r: Reader<K, V, T>, key: T -> K, s: seq<T>, k: K)
    requires Represents(table, r, key, s) && KeyOf(table, r, key)
    ensures Represents(table - {k}, r, key, Drop(s, key, k))
  {
    DropNoDuplicates(s, key, k);
  }

  /** An inserted row, wherever it is ranked. */
  lemma InsertedUpToOrder<K(!new), V, T(!new)>(table: map<K, V>, r: Reader<K, V, T>, key: T -> K, s: seq<T>, k: K, v: V)
    requires Represents(table, r, key, s) && KeyOf(table, r, key) && k !in table && key(r.view(k, v)) == k
    requires Sortable(table[k := v], r)
    ensures multiset(ReadAll(table[k := v], r)) == multiset(s + [r.view(k, v)])
  {
    AppendRepresents(table, r, key, s, k, v);
    ReadsUpToOrder(table[k := v], r, key, s + [r.view(k, v)]);
  }

  /** A row written in place, wherever that moves it. */
  lemma ReplacedUpToOrder<K(!new), V, T(!new)>(table: map<K, V>, r: Reader<K, V, T>, key: T -> K, s: seq<T>, k: K, v: V)
    requires Represents(table, r, key, s) && KeyOf(table, r, key) && k in table && key(r.view(k, v)) == k
    requires Sortable(table[k := v], r)
    ensures multiset(ReadAll(table[k := v], r)) == multiset(Replace(s, key, r.view(k, v)))
  {
    ReplaceRepresents(table, r, key, s, k, v);
    ReadsUpToOrder(table[k := v], r, key, Replace(s, key, r.view(k, v)));
  }

  lemma RemovedUpToOrder<K(!new), V, T(!new)>(table: map<K, V>, r: Reader<K, V, T>, key: T -> K, s: seq<T>, k: K)
    requires Represents(table, r, key, s) && KeyOf(table, r, key) && Sortable(table - {k}, r)
    ensures multiset(ReadAll(table - {k}, r)) == multiset(Drop(s, key, k))
  {
    DropRepresents(table, r, key, s, k);
    ReadsUpToOrder(table - {k}, r, key, Drop(s, key, k));
  }

  // ----- Positions ----------------------------------------------------------

  /** next_position: one past the highest position in use, 0 when there is none. */
  ghost predicate IsNext<K(!new)>(positions: map<K, int>, n: int) {
    && (forall k | k in positions :: positions[k] < n)
    && (if positions.Keys == {} then n == 0 else exists k :: k in positions && positions[k] == n - 1)
  }

  /** max(position) by a scan of the table. */
  method NextPosition<K(==, !new), V>(table: map<K, V>, position: (K, V) -> int) returns (n: int)
    ensures IsNext(Mapped(table, position), n)
  {
    if table.Keys == {} { return 0; }
    var keys := table.Keys;
    var first := AnyOf(keys);
    keys := keys - {first};
    n := position(first, table[first]) + 1;
    ghost var highest := first;
    while keys != {}
      invariant keys <= table.Keys && highest in table && position(highest, table[highest]) == n - 1
      invariant forall k | k in table && k !in keys :: position(k, table[k]) < n
      decreases |keys|
    {
      var k := AnyOf(keys);
      keys := keys - {k};
      if position(k, table[k]) >= n {
        n := position(k, table[k]) + 1;
        highest := k;
      }
    }
    assert Mapped(table, position)[highest] == n - 1;
  }

  lemma {:induction false} NextExists<K(!new)>(positions: map<K, int>)
    ensures exists n :: IsNext(positions, n)
    decreases |positions|
  {
    if positions.Keys == {} {
      assert IsNext(positions, 0);
    } else {
      var k :| k in positions;
      var rest := positions - {k};
      assert |rest| < |positions|;
      NextExists(rest);
      var n :| IsNext(rest, n);
      var most := if rest.Keys != {} && n > positions[k] then n else positions[k] + 1;
      forall j | j in positions ensures positions[j] < most {
        if j != k { assert j in rest && rest[j] < n; }
      }
      if most == n && rest.Keys != {} && n > positions[k] {
        var j :| j in rest && rest[j] == n - 1;
        assert j in positions && positions[j] == n - 1;
      }
      assert IsNext(positions, most);
    }
  }

  ghost function Next<K(!new)>(positions: map<K, int>): (n: int)
    ensures IsNext(positions, n)
  {
    NextExists(positions);
    var n :| IsNext(positions, n);
    n
  }

  lemma NextIs<K(!new)>(positions: map<K, int>, n: int)
    requires IsNext(positions, n)
    ensures n == Next(positions)
  {
  }
}
