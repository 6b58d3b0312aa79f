/** `Stream.sorted(comparator)` and `Stream.limit(n)`: a stable insertion sort
    driven by a "not after" relation, and the prefix a limit keeps. */
module Sorting {
  import opened Common

  /** `le` is total and transitive: what a `Comparator` that is consistent
      with itself induces as "may come first". */
  ghost predicate TotalPreorder<T(!new)>(le: (T, T) -> bool) {
    (forall a, b :: le(a, b) || le(b, a))
    && (forall a, b, c :: le(a, b) && le(b, c) ==> le(a, c))
  }

  predicate SortedBy<T>(le: (T, T) -> bool, s: seq<T>) {
    forall i, j :: 0 <= i < j < |s| ==> le(s[i], s[j])
  }

  /** Inserts `x` after every leading element that may come before it. */
  function Insert<T>(le: (T, T) -> bool, x: T, s: seq<T>): (r: seq<T>)
    ensures |r| == |s| + 1
    ensures multiset(r) == multiset(s) + multiset{x}
  {
    if s == [] then [x]
    else if le(s[0], x) then
      assert s == [s[0]] + s[1..];
      [s[0]] + Insert(le, x, s[1..])
    else [x] + s
  }

  function Sort<T>(le: (T, T) -> bool, s: seq<T>): (r: seq<T>)
    ensures |r| == |s|
    ensures multiset(r) == multiset(s)
  {
    if s == [] then []
    else
      assert s == s[..|s| - 1] + [s[|s| - 1]];
      Insert(le, s[|s| - 1], Sort(le, s[..|s| - 1]))
  }

  lemma {:induction false} InsertSorted<T(!new)>(le: (T, T) -> bool, x: T, s: seq<T>)
    requires TotalPreorder(le) && SortedBy(le, s)
    ensures SortedBy(le, Insert(le, x, s))
  {
    if s != [] {
      if le(s[0], x) {
        var rest := s[1..];
        InsertSorted(le, x, rest);
        var t := Insert(le, x, rest);
        forall j | 0 <= j < |t| ensures le(s[0], t[j]) {
          assert t[j] in multiset(t);
          if t[j] != x {
            assert t[j] in multiset(rest);
            var k :| 0 <= k < |rest| && rest[k] == t[j];
            assert s[k + 1] == t[j];
          }
        }
        assert Insert(le, x, s) == [s[0]] + t;
      } else {
        assert le(x, s[0]);
      }
    }
  }

  /** The sort yields a permutation of its input in which every element may
      come before every later one. */
  lemma {:induction false} SortSorted<T(!new)>(le: (T, T) -> bool, s: seq<T>)
    requires TotalPreorder(le)
    ensures SortedBy(le, Sort(le, s))
  {
    if s != [] {
      SortSorted(le, s[..|s| - 1]);
      InsertSorted(le, s[|s| - 1], Sort(le, s[..|s| - 1]));
    }
  }

  /** `Stream.limit(n)` for n >= 0. */
  function Limit<T>(s: seq<T>, n: nat): (r: seq<T>)
    ensures |r| == Min(n, |s|) && r == s[..|r|]
  {
    if n < |s| then s[..n] else s
  }

  /** In a sorted sequence, everything the limit cut off may come after
      everything it kept. */
  lemma TopKept<T>(le: (T, T) -> bool, s: seq<T>, n: nat, x: T)
    requires SortedBy(le, s)
    requires x in s && x !in Limit(s, n)
    ensures forall i :: 0 <= i < |Limit(s, n)| ==> le(Limit(s, n)[i], x)
  {
    var j :| 0 <= j < |s| && s[j] == x;
  }

  predicate Distinct<T(==)>(s: seq<T>) {
    forall i, j :: 0 <= i < j < |s| ==> s[i] != s[j]
  }

  /** A list repeats nothing exactly when its multiset counts nothing twice. */
  lemma {:induction false} DistinctMultiset<T>(s: seq<T>)
    ensures Distinct(s) <==> forall x :: multiset(s)[x] <= 1
  {
    if s != [] {
      var rest := s[1..];
      assert s == [s[0]] + rest;
      DistinctMultiset(rest);
      if Distinct(s) {
        assert Distinct(rest) by {
          forall i, j | 0 <= i < j < |rest| ensures rest[i] != rest[j] {
            assert s[i + 1] != s[j + 1];
          }
        }
        assert s[0] !in rest by {
          forall k | 0 <= k < |rest| ensures rest[k] != s[0] {
            assert s[k + 1] != s[0];
          }
        }
      } else {
        var i, j :| 0 <= i < j < |s| && s[i] == s[j];
        if i == 0 {
          assert s[j] in rest;
          assert multiset(s)[s[0]] >= 2;
        } else {
          assert !Distinct(rest) by {
            assert rest[i - 1] == rest[j - 1];
          }
          var x :| multiset(rest)[x] > 1;
          assert multiset(s) == multiset{s[0]} + multiset(rest);
          assert multiset(s)[x] > 1;
        }
      }
    }
  }

  /** A list without repeats that holds exactly the elements of a set is as
      long as the set. */
  lemma {:induction false} DistinctListsSet<T>(s: seq<T>, t: set<T>)
    requires Distinct(s) && forall x :: x in s <==> x in t
    ensures |s| == |t|
  {
    if s == [] {
      assert t == {};
    } else {
      var rest := s[1..];
      DistinctTail(s);
      assert s[0] !in rest;
      assert forall x :: x in rest <==> x in t - {s[0]} by {
        assert s == [s[0]] + rest;
      }
      DistinctListsSet(rest, t - {s[0]});
    }
  }

  /** Dropping the head of a list without repeats leaves one without repeats. */
  lemma DistinctTail<T>(s: seq<T>)
    requires s != [] && Distinct(s)
    ensures Distinct(s[1..])
  {
    var rest := s[1..];
    forall i, j | 0 <= i < j < |rest| ensures rest[i] != rest[j] {
      assert s[i + 1] != s[j + 1];
    }
  }

  /** A permutation of a list without repeats has none either. */
  lemma PermutationDistinct<T>(s: seq<T>, t: seq<T>)
    requires multiset(s) == multiset(t) && Distinct(s)
    ensures Distinct(t)
  {
    DistinctMultiset(s);
    DistinctMultiset(t);
  }

  /** Sorting a list without repeats gives a sorted list without repeats
      holding the same elements. */
  lemma SortKeepsElements<T(!new)>(le: (T, T) -> bool, s: seq<T>)
    requires TotalPreorder(le) && Distinct(s)
    ensures SortedBy(le, Sort(le, s)) && Distinct(Sort(le, s))
    ensures forall x :: x in Sort(le, s) <==> x in s
  {
    var sorted := Sort(le, s);
    SortSorted(le, s);
    PermutationDistinct(s, sorted);
    assert forall x :: x in sorted <==> x in multiset(sorted);
    assert forall x :: x in s <==> x in multiset(s);
  }

  /** `sorted(...).limit(n)`: the first `n` of the sorted list. */
  function TopN<T(==)>(le: (T, T) -> bool, s: seq<T>, n: nat): (r: seq<T>)
    ensures |r| == Min(n, |s|)
    ensures forall x :: x in r ==> x in s
  {
    var sorted := Sort(le, s);
    var r := Limit(sorted, n);
    assert forall x :: x in r ==> x in multiset(sorted);
    r
  }

  /** The first `n` are sorted, repeat nothing the input did not repeat, and
      every element left out may come after every element kept. */
  lemma TopNIsTop<T(!new)>(le: (T, T) -> bool, s: seq<T>, n: nat)
    requires TotalPreorder(le)
    ensures SortedBy(le, TopN(le, s, n))
    ensures Distinct(s) ==> Distinct(TopN(le, s, n))
    ensures forall x :: x in s && x !in TopN(le, s, n) ==>
      forall i :: 0 <= i < |TopN(le, s, n)| ==> le(TopN(le, s, n)[i], x)
  {
    var sorted := Sort(le, s);
    SortSorted(le, s);
    if Distinct(s) {
      PermutationDistinct(s, sorted);
    }
    forall x | x in s && x !in TopN(le, s, n)
      ensures forall i :: 0 <= i < |TopN(le, s, n)| ==> le(TopN(le, s, n)[i], x)
    {
      assert x in multiset(s);
      TopKept(le, sorted, n, x);
    }
  }

  /** Ordering by an integer key, largest first. */
  function ByKeyDescending<T>(key: T -> int): (le: (T, T) -> bool) {
    (a: T, b: T) => key(a) >= key(b)
  }

  lemma ByKeyDescendingIsTotalPreorder<T(!new)>(key: T -> int)
    ensures TotalPreorder(ByKeyDescending(key))
  {
  }

  /** Ordering by an integer key, smallest first. */
  function ByKeyAscending<T>(key: T -> int): (le: (T, T) -> bool) {
    (a: T, b: T) => key(a) <= key(b)
  }

  lemma ByKeyAscendingIsTotalPreorder<T(!new)>(key: T -> int)
    ensures TotalPreorder(ByKeyAscending(key))
  {
  }
}

/** Turning the unordered collections of the stores into lists. */
module Collections {

  /** Lists the elements of `s` once each, in an unspecified order: iteration
      over a `HashSet` or a `HashMap`'s key set. */
  method SetToSeq<T(==)>(s: set<T>) returns (r: seq<T>)
    ensures |r| == |s|
    ensures forall x :: x in r <==> x in s
    ensures forall i, j :: 0 <= i < j < |r| ==> r[i] != r[j]
  {
    r := [];
    var rest := s;
    while rest != {}
      invariant rest <= s
      invariant forall x :: x in r <==> x in s && x !in rest
      invariant forall i, j :: 0 <= i < j < |r| ==> r[i] != r[j]
      invariant |r| + |rest| == |s|
      decreases |rest|
    {
      var x :| x in rest;
      r := r + [x];
      rest := rest - {x};
    }
  }

  /** `LongStream.max()` over a non-empty list of keys. */
  function MaxOf(s: seq<int>): (m: int)
    requires s != []
    ensures m in s && forall i :: 0 <= i < |s| ==> s[i] <= m
  {
    if |s| == 1 then s[0]
    else
      var rest := MaxOf(s[1..]);
      if s[0] <= rest then rest else s[0]
  }

  /** `getNextUserId` / `getNextFilmId`: one more than the largest key, or 1
      when there is none; it lies above every key, so it is fresh. */
  method NextId<V>(m: map<int, V>) returns (next: int)
    ensures m == map[] ==> next == 1
    ensures m != map[] ==> next - 1 in m
    ensures forall k :: k in m ==> k < next
  {
    var keys := SetToSeq(m.Keys);
    if keys == [] {
      next := 1;
    } else {
      assert forall k :: k in m ==> k in keys;
      next := MaxOf(keys) + 1;
    }
  }

  /** Some element of a non-empty set. */
  lemma Element<T>(s: set<T>) returns (x: T)
    requires s != {}
    ensures x in s
  {
    x :| x in s;
  }

  /** A key under which a map stores a value it holds. */
  lemma KeyOf<K, V>(m: map<K, V>, v: V) returns (k: K)
    requires v in m.Values
    ensures k in m && m[k] == v
  {
    k :| k in m && m[k] == v;
  }

  /** A map that never stores one value under two keys holds as many
      distinct values as keys. */
  lemma {:induction false} ValuesCount<K, V>(m: map<K, V>)
    requires forall k1, k2 :: k1 in m && k2 in m && m[k1] == m[k2] ==> k1 == k2
    ensures |m.Values| == |m.Keys|
    decreases |m.Keys|
  {
    if m.Keys != {} {
      var k :| k in m.Keys;
      var m' := m - {k};
      ValuesCount(m');
      assert m'.Keys == m.Keys - {k};
      forall v | v in m.Values ensures v == m[k] || v in m'.Values {
        var k2 :| k2 in m && m[k2] == v;
        if k2 != k {
          assert k2 in m';
        }
      }
      assert m.Values == m'.Values + {m[k]};
      assert m[k] !in m'.Values;
    } else {
      assert m.Values == {};
    }
  }
}
