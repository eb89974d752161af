/** Generic sequence operations used by the queries: filtering, sorting, slicing and flattening. */
module Sequences {

  /** The elements of `s` that satisfy `p`, in their original order (JavaScript's `Array.prototype.filter`). */
  function Filter<T(!new)>(s: seq<T>, p: T -> bool): (r: seq<T>)
    ensures |r| <= |s|
    ensures forall x :: x in r <==> x in s && p(x)
    ensures forall i :: 0 <= i < |r| ==> p(r[i])
    decreases |s|
  {
    if s == [] then [] else (if p(s[0]) then [s[0]] else []) + Filter(s[1..], p)
  }

  /** One step of `Filter`: the head is kept exactly when it satisfies `p`. */
  lemma FilterStep<T(!new)>(s: seq<T>, p: T -> bool, tail: seq<T>)
    requires s != [] && tail == s[1..]
    ensures Filter(s, p) == (if p(s[0]) then [s[0]] else []) + Filter(tail, p)
  {
  }

  lemma {:induction false} FilterAppend<T(!new)>(s: seq<T>, t: seq<T>, p: T -> bool)
    ensures Filter(s + t, p) == Filter(s, p) + Filter(t, p)
    decreases |s|
  {
    if s == [] {
      assert s + t == t;
    } else {
      assert (s + t)[1..] == s[1..] + t;
      FilterAppend(s[1..], t, p);
    }
  }

  lemma {:induction false} FilterMultiset<T(!new)>(s: seq<T>, p: T -> bool, x: T)
    ensures multiset(Filter(s, p))[x] == if p(x) then multiset(s)[x] else 0
    decreases |s|
  {
    if s != [] {
      FilterMultiset(s[1..], p, x);
      ConsMultiset(s);
      FilterStep(s, p, s[1..]);
    }
  }

  /** Filtering keeps each accepted element as often as it occurs and drops every other one. */
  lemma FilterCounts<T(!new)>(s: seq<T>, p: T -> bool)
    ensures forall x :: multiset(Filter(s, p))[x] == if p(x) then multiset(s)[x] else 0
  {
    forall x ensures multiset(Filter(s, p))[x] == if p(x) then multiset(s)[x] else 0 {
      FilterMultiset(s, p, x);
    }
  }

  /** Filtering keeps every element that `p` accepts: when all of `s` passes, nothing is dropped. */
  lemma {:induction false} FilterAll<T(!new)>(s: seq<T>, p: T -> bool)
    requires forall i :: 0 <= i < |s| ==> p(s[i])
    ensures Filter(s, p) == s
    decreases |s|
  {
    if s != [] {
      FilterAll(s[1..], p);
    }
  }

  /** No element occurs twice. */
  predicate NoDuplicates<T(==)>(s: seq<T>) {
    forall i, j :: 0 <= i < j < |s| ==> s[i] != s[j]
  }

  lemma {:induction false} NoDuplicatesMultiset<T>(s: seq<T>, x: T)
    requires NoDuplicates(s)
    ensures multiset(s)[x] <= 1
    decreases |s|
  {
    if s != [] {
      assert s == [s[0]] + s[1..];
      assert NoDuplicates(s[1..]) by {
        forall i, j | 0 <= i < j < |s[1..]| ensures s[1..][i] != s[1..][j] {
          assert s[1..][i] == s[i + 1] && s[1..][j] == s[j + 1];
        }
      }
      NoDuplicatesMultiset(s[1..], x);
      if s[0] == x {
        assert x !in s[1..] by {
          forall k | 0 <= k < |s[1..]| ensures s[1..][k] != x {
            assert s[1..][k] == s[k + 1];
          }
        }
      }
    }
  }

  /** A permutation of a sequence without duplicates has no duplicates either. */
  lemma PermutationNoDuplicates<T>(a: seq<T>, b: seq<T>)
    requires multiset(a) == multiset(b) && NoDuplicates(a)
    ensures NoDuplicates(b)
  {
    forall i, j | 0 <= i < j < |b| ensures b[i] != b[j] {
      NoDuplicatesMultiset(a, b[i]);
      assert b == b[..j] + b[j..];
      assert b[i] in b[..j];
      assert b[j] in b[j..];
      assert multiset(b)[b[i]] == multiset(b[..j])[b[i]] + multiset(b[j..])[b[i]];
    }
  }

  /** The distinct elements of `s`, each at the place of its first occurrence (as MongoDB's `distinct`). */
  function Distinct<T(==,!new)>(s: seq<T>): (r: seq<T>)
    ensures NoDuplicates(r)
    ensures forall x :: x in r <==> x in s
    decreases |s|
  {
    if s == [] then []
    else
      var rest := Distinct(s[..|s| - 1]);
      if s[|s| - 1] in rest then rest else rest + [s[|s| - 1]]
  }

  /** The concatenation of all sequences in `ss` (MongoDB's `$unwind` over an array field). */
  function Flatten<T(!new)>(ss: seq<seq<T>>): (r: seq<T>)
    ensures forall x :: x in r <==> exists i :: 0 <= i < |ss| && x in ss[i]
    decreases |ss|
  {
    if ss == [] then []
    else
      var r := Flatten(ss[..|ss| - 1]) + ss[|ss| - 1];
      assert forall x :: x in r <==> exists i :: 0 <= i < |ss| && x in ss[i] by {
        forall x ensures x in r <==> exists i :: 0 <= i < |ss| && x in ss[i] {
          if x in ss[|ss| - 1] {
          } else if x in r {
            var i :| 0 <= i < |ss| - 1 && x in ss[..|ss| - 1][i];
            assert x in ss[i];
          } else {
            forall i | 0 <= i < |ss| ensures x !in ss[i] {
              if i < |ss| - 1 {
                assert ss[..|ss| - 1][i] == ss[i];
              }
            }
          }
        }
      }
      r
  }

  /** A sequence is its part before `i`, the slice `m` from `i`, and the rest. */
  lemma ThreeParts<T>(s: seq<T>, i: nat, m: seq<T>)
    requires i + |m| <= |s| && m == s[i..i + |m|]
    ensures s == s[..i] + (m + s[i + |m|..])
  {
    assert s[i..] == m + s[i + |m|..];
  }

  /** A second update at the same place overrides the first. */
  lemma UpdateTwice<T>(s: seq<T>, i: nat, a: T, b: T)
    requires i < |s|
    ensures s[i := a][i := b] == s[i := b]
  {
  }

  /** The first `n` elements, or all of them when there are fewer. */
  function Take<T>(s: seq<T>, n: nat): (r: seq<T>)
    ensures |r| == if n < |s| then n else |s|
    ensures forall i :: 0 <= i < |r| ==> r[i] == s[i]
  {
    if n < |s| then s[..n] else s
  }

  /** A prefix holds no element more often than the whole sequence. */
  lemma TakeMultiset<T>(s: seq<T>, n: nat)
    ensures multiset(Take(s, n)) <= multiset(s)
  {
    if n < |s| {
      assert s == s[..n] + s[n..];
    }
  }

  /** Everything after the first `n` elements; empty when there are no more than `n`. */
  function Drop<T>(s: seq<T>, n: nat): (r: seq<T>)
    ensures |r| == if n < |s| then |s| - n else 0
    ensures forall i :: 0 <= i < |r| ==> r[i] == s[n + i]
  {
    if n < |s| then s[n..] else []
  }

  /** A two-level sort key compared lexicographically; larger keys come first. */
  datatype Rank = Rank(major: int, minor: int)

  predicate AtLeast(a: Rank, b: Rank) {
    a.major > b.major || (a.major == b.major && a.minor >= b.minor)
  }

  /** `s` is in descending order of `rank`. */
  predicate SortedDesc<T>(s: seq<T>, rank: T -> Rank) {
    forall i, j :: 0 <= i < j < |s| ==> AtLeast(rank(s[i]), rank(s[j]))
  }

  /** Inserts `x` into the descending sequence `s`, ahead of the first element it is not below. */
  function InsertDesc<T>(x: T, s: seq<T>, rank: T -> Rank): (r: seq<T>)
    ensures multiset(r) == multiset(s) + multiset{x}
    ensures SortedDesc(s, rank) ==> SortedDesc(r, rank)
    decreases |s|
  {
    if s == [] then [x]
    else if AtLeast(rank(x), rank(s[0])) then
      HeadAtLeast(x, s, rank);
      [x] + s
    else
      var rest := InsertDesc(x, s[1..], rank);
      ConsMultiset(s);
      if SortedDesc(s, rank) then
        InsertBelowHead(x, s, rest, rank);
        [s[0]] + rest
      else
        [s[0]] + rest
  }

  lemma ConsMultiset<T>(s: seq<T>)
    requires s != []
    ensures multiset(s) == multiset{s[0]} + multiset(s[1..])
  {
    assert s == [s[0]] + s[1..];
  }

  /** An element ranked at least as high as the head of a descending sequence can go in front. */
  lemma HeadAtLeast<T>(x: T, s: seq<T>, rank: T -> Rank)
    requires s != [] && AtLeast(rank(x), rank(s[0]))
    ensures SortedDesc(s, rank) ==> SortedDesc([x] + s, rank)
  {
  }

  /** The head of a descending sequence stays in front of the rest with `x` inserted below it. */
  lemma InsertBelowHead<T>(x: T, s: seq<T>, rest: seq<T>, rank: T -> Rank)
    requires s != [] && SortedDesc(s, rank) && !AtLeast(rank(x), rank(s[0]))
    requires SortedDesc(rest, rank) && multiset(rest) == multiset(s[1..]) + multiset{x}
    ensures SortedDesc([s[0]] + rest, rank)
  {
    forall k | 0 <= k < |rest| ensures AtLeast(rank(s[0]), rank(rest[k])) {
      assert rest[k] in multiset(rest);
      assert rest[k] == x || rest[k] in s[1..];
    }
  }

  /** A stable insertion sort into descending order of `rank` (the model of a MongoDB `.sort` on the key). */
  function SortDesc<T>(s: seq<T>, rank: T -> Rank): (r: seq<T>)
    ensures SortedDesc(r, rank)
    ensures multiset(r) == multiset(s)
    ensures |r| == |s|
    decreases |s|
  {
    if s == [] then []
    else
      var r := InsertDesc(s[0], SortDesc(s[1..], rank), rank);
      ConsMultiset(s);
      assert |r| == |multiset(r)|;
      r
  }

  /** Sorting keeps exactly the elements there were. */
  lemma SortDescMembers<T>(s: seq<T>, rank: T -> Rank)
    ensures forall x :: x in SortDesc(s, rank) <==> x in s
  {
    var r := SortDesc(s, rank);
    forall x ensures x in r <==> x in s {
      assert x in r <==> x in multiset(r);
      assert x in s <==> x in multiset(s);
    }
  }

  /** No element of `pool` left out of `top` ranks above an element of `top`. */
  predicate TopRanked<T(==)>(top: seq<T>, pool: seq<T>, rank: T -> Rank) {
    forall x :: x in pool && x !in top ==> forall i :: 0 <= i < |top| ==> AtLeast(rank(top[i]), rank(x))
  }

  /** A prefix of a sorted sequence is sorted and holds its best-ranked elements. */
  lemma TakeSorted<T>(s: seq<T>, rank: T -> Rank, k: nat)
    requires SortedDesc(s, rank)
    ensures SortedDesc(Take(s, k), rank)
    ensures TopRanked(Take(s, k), s, rank)
  {
    var t := Take(s, k);
    forall x | x in s && x !in t ensures forall i :: 0 <= i < |t| ==> AtLeast(rank(t[i]), rank(x)) {
      var j :| 0 <= j < |s| && s[j] == x;
      assert forall m :: 0 <= m < |t| ==> s[m] in t;
    }
  }

  /** The first `k` of `s` in descending order: sorted, the best of `s`, and drawn from `s`. */
  lemma SortedTop<T>(s: seq<T>, rank: T -> Rank, k: nat)
    ensures var t := Take(SortDesc(s, rank), k);
      && SortedDesc(t, rank)
      && TopRanked(t, s, rank)
      && multiset(t) <= multiset(s)
      && (forall x :: x in t ==> x in s)
  {
    var sorted := SortDesc(s, rank);
    var t := Take(sorted, k);
    SortDescMembers(s, rank);
    TakeSorted(sorted, rank, k);
    TakeMultiset(sorted, k);
    assert forall x :: x in t ==> x in sorted;
  }

  /** A suffix of a sorted sequence is sorted. */
  lemma DropSorted<T>(s: seq<T>, rank: T -> Rank, k: nat)
    requires SortedDesc(s, rank)
    ensures SortedDesc(Drop(s, k), rank)
  {
    var d := Drop(s, k);
    forall i, j | 0 <= i < j < |d| ensures AtLeast(rank(d[i]), rank(d[j])) {
      assert d[i] == s[k + i] && d[j] == s[k + j];
    }
  }

  /** A sequence without repetitions has as many elements as the set of its elements. */
  lemma {:induction false} NoDuplicatesCardinality<T>(s: seq<T>)
    requires NoDuplicates(s)
    ensures |set x | x in s| == |s|
  {
    if s != [] {
      var rest := s[1..];
      assert NoDuplicates(rest) by {
        forall i, j | 0 <= i < j < |rest| ensures rest[i] != rest[j] {
          assert rest[i] == s[i + 1] && rest[j] == s[j + 1];
        }
      }
      NoDuplicatesCardinality(rest);
      assert s[0] !in rest by {
        forall k | 0 <= k < |rest| ensures rest[k] != s[0] {
          assert rest[k] == s[k + 1];
        }
      }
      assert (set x | x in s) == (set x | x in rest) + {s[0]} by {
        assert s == [s[0]] + rest;
      }
    }
  }
}
