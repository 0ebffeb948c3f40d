/** Vocabulary shared by every component: optional values, the wall clock, and finite-set counting. */
module Core {

  datatype Option<+T> = None | Some(value: T)

  /** What a command answers: a value, or the refusal the source raises. */
  datatype Result<+T, +E> = Ok(value: T) | Err(error: E)

  /** The k-th reading of the wall clock inside one command. */
  type Clock = nat -> real

  ghost predicate Nondecreasing(clock: Clock) {
    forall i: nat, j: nat :: i <= j ==> clock(i) <= clock(j)
  }

  /** No reading of the clock is later than end. */
  ghost predicate ReadsUpTo(clock: Clock, end: real) {
    forall i: nat :: clock(i) <= end
  }

  function Max(a: real, b: real): real {
    if a < b then b else a
  }

  function MinNat(a: nat, b: nat): nat {
    if a < b then a else b
  }

  ghost predicate NoDuplicates<T>(s: seq<T>) {
    forall i, j | 0 <= i < j < |s| :: s[i] != s[j]
  }

  /** The same keys, each value replaced by f of its key and value. */
  ghost function Mapped<K(!new), V, W>(m: map<K, V>, f: (K, V) --> W): (u: map<K, W>)
    requires forall k | k in m :: f.requires(k, m[k])
    ensures u.Keys == m.Keys
    ensures forall k | k in m :: u[k] == f(k, m[k])
    decreases |m|
  {
    if m.Keys == {} then map[]
    else
      var k :| k in m;
      assert |m - {k}| < |m|;
      Mapped(m - {k}, f)[k := f(k, m[k])]
  }

  lemma MappedIs<K(!new), V, W>(m: map<K, V>, f: (K, V) -> W, u: map<K, W>)
    requires u.Keys == m.Keys && forall k | k in m :: u[k] == f(k, m[k])
    ensures u == Mapped(m, f)
  {
  }

  lemma MappedUpdate<K(!new), V, W>(m: map<K, V>, f: (K, V) -> W, k: K, v: V)
    ensures Mapped(m[k := v], f) == Mapped(m, f)[k := f(k, v)]
  {
  }

  lemma MappedRemove<K(!new), V, W>(m: map<K, V>, f: (K, V) -> W, k: K)
    ensures Mapped(m - {k}, f) == Mapped(m, f) - {k}
  {
  }

  lemma HeadIsIn<T>(s: seq<T>)
    ensures s == [] || s[0] in s
  {
  }

  /** The next row of an unordered scan. */
  method AnyOf<T>(s: set<T>) returns (x: T)
    requires s != {}
    ensures x in s
  {
    x :| x in s;
  }

  lemma SubsetSize<T>(a: set<T>, b: set<T>)
    requires a <= b
    ensures |a| <= |b|
  {
    if a != {} {
      var x :| x in a;
      SubsetSize(a - {x}, b - {x});
    }
  }

  /** A set that gains at most one element grows by at most one. */
  lemma SubsetSizePlusOne<T>(a: set<T>, b: set<T>, x: T)
    requires a <= b + {x}
    ensures |a| <= |b| + 1
  {
    SubsetSize(a, b + {x});
  }

  /** A sequence without repetition has the multiset of its elements' set. */
  lemma {:induction false} NoDuplicatesMultiset<T>(s: seq<T>)
    requires NoDuplicates(s)
    ensures multiset(s) == multiset(set x | x in s)
  {
    if s != [] {
      var init, last := s[..|s| - 1], s[|s| - 1];
      NoDuplicatesMultiset(init);
      assert s == init + [last];
      assert last !in init;
      assert (set x | x in s) == (set x | x in init) + {last};
    }
  }

  lemma SameElementsSameMultiset<T>(s: seq<T>, t: seq<T>)
    requires NoDuplicates(s) && NoDuplicates(t)
    requires forall x :: x in s <==> x in t
    ensures multiset(s) == multiset(t)
  {
    NoDuplicatesMultiset(s);
    NoDuplicatesMultiset(t);
    assert (set x | x in s) == (set x | x in t);
  }
}
