/** Facts about sequences used across the model: duplicates, order-preserving
    sub-lists, list comprehensions with a filter, and flattening a list of
    per-element results. */
module Seqs {

  /** Concatenation regroups freely. */
  lemma AppendAssoc<T>(a: seq<T>, b: seq<T>, c: seq<T>)
    ensures a + (b + c) == (a + b) + c
  {
  }

  /** No element occurs twice. */
  predicate NoDups<T(==)>(s: seq<T>) {
    forall i, j :: 0 <= i < j < |s| ==> s[i] != s[j]
  }

  lemma {:induction false} NoDupsConcat<T>(a: seq<T>, b: seq<T>)
    ensures NoDups(a + b) <==> NoDups(a) && NoDups(b) && (forall x :: x in a ==> x !in b)
  {
    var ab := a + b;
    if NoDups(ab) {
      forall i, j | 0 <= i < j < |a| ensures a[i] != a[j] { assert a[i] == ab[i] && a[j] == ab[j]; }
      forall i, j | 0 <= i < j < |b| ensures b[i] != b[j] { assert b[i] == ab[|a| + i] && b[j] == ab[|a| + j]; }
      forall x | x in a ensures x !in b {
        var i :| 0 <= i < |a| && a[i] == x;
        forall j | 0 <= j < |b| ensures b[j] != x {
          assert ab[i] == a[i] && ab[|a| + j] == b[j];
        }
      }
    }
    if NoDups(a) && NoDups(b) && (forall x :: x in a ==> x !in b) {
      forall i, j | 0 <= i < j < |ab| ensures ab[i] != ab[j] {
        if j < |a| {
          assert ab[i] == a[i] && ab[j] == a[j];
        } else if i >= |a| {
          assert ab[i] == b[i - |a|] && ab[j] == b[j - |a|];
        } else {
          assert ab[i] == a[i] && a[i] in a;
          assert ab[j] == b[j - |a|] && b[j - |a|] in b;
        }
      }
    }
  }

  /** No duplicates means every element is counted at most once. */
  lemma {:induction false} NoDupsCounts<T>(s: seq<T>)
    ensures NoDups(s) <==> forall x :: multiset(s)[x] <= 1
  {
    if s != [] {
      var rest := s[1..];
      assert s == [s[0]] + rest;
      NoDupsCounts(rest);
      NoDupsConcat([s[0]], rest);
      if NoDups(s) {
        forall x ensures multiset(s)[x] <= 1 {
          assert s[0] !in rest;
        }
      }
      if forall x :: multiset(s)[x] <= 1 {
        assert multiset(s)[s[0]] <= 1;
        forall x ensures multiset(rest)[x] <= 1 {
          assert multiset(s)[x] <= 1;
        }
      }
    }
  }

  /** Rearranging a list without duplicates leaves none. */
  lemma NoDupsPermutation<T>(a: seq<T>, b: seq<T>)
    requires multiset(a) == multiset(b) && NoDups(a)
    ensures NoDups(b)
  {
    NoDupsCounts(a);
    NoDupsCounts(b);
  }

  /** `sub` is obtained from `s` by deleting elements, keeping the order. */
  predicate IsSubsequence<T(==)>(sub: seq<T>, s: seq<T>)
    decreases |s|
  {
    if sub == [] then true
    else if s == [] then false
    else if sub[0] == s[0] then IsSubsequence(sub[1..], s[1..])
    else IsSubsequence(sub, s[1..])
  }

  /** `[x for x in s if keep(x)]`. */
  function Filter<T(==)>(keep: T -> bool, s: seq<T>): (r: seq<T>)
    ensures |r| <= |s|
    ensures forall i :: 0 <= i < |r| ==> r[i] in s && keep(r[i])
    ensures forall i :: 0 <= i < |s| && keep(s[i]) ==> s[i] in r
  {
    if s == [] then []
    else if keep(s[0]) then [s[0]] + Filter(keep, s[1..])
    else Filter(keep, s[1..])
  }

  /** The comprehension keeps the order of what it keeps. */
  lemma {:induction false} FilterIsSubsequence<T>(keep: T -> bool, s: seq<T>)
    ensures IsSubsequence(Filter(keep, s), s)
  {
    if s != [] {
      FilterIsSubsequence(keep, s[1..]);
      if keep(s[0]) {
        assert Filter(keep, s)[1..] == Filter(keep, s[1..]);
      } else {
        var r := Filter(keep, s);
        if r != [] {
          assert keep(r[0]);
        }
      }
    }
  }

  /** `f(s[0]) + f(s[1]) + ...`: each element's results, in order. */
  function FlatMap<T, U>(f: T -> seq<U>, s: seq<T>): seq<U> {
    if s == [] then [] else f(s[0]) + FlatMap(f, s[1..])
  }

  lemma {:induction false} FlatMapAppend<T, U>(f: T -> seq<U>, a: seq<T>, b: seq<T>)
    ensures FlatMap(f, a + b) == FlatMap(f, a) + FlatMap(f, b)
  {
    if a == [] {
      assert a + b == b;
    } else {
      assert (a + b)[0] == a[0] && (a + b)[1..] == a[1..] + b;
      FlatMapAppend(f, a[1..], b);
    }
  }

  /** An element of the result comes from the results of some element. */
  lemma {:induction false} FlatMapMembers<T, U>(f: T -> seq<U>, s: seq<T>, y: U)
    ensures y in FlatMap(f, s) <==> exists i :: 0 <= i < |s| && y in f(s[i])
  {
    if s != [] {
      FlatMapMembers(f, s[1..], y);
      if exists i :: 0 <= i < |s| - 1 && y in f(s[1..][i]) {
        var i :| 0 <= i < |s| - 1 && y in f(s[1..][i]);
        assert s[i + 1] == s[1..][i];
      }
      if exists i :: 0 <= i < |s| && y in f(s[i]) {
        var i :| 0 <= i < |s| && y in f(s[i]);
        if i > 0 {
          assert s[1..][i - 1] == s[i];
        }
      }
    }
  }

  /** When each element yields at most one result, there are at most as many
      results as elements. */
  lemma {:induction false} FlatMapLength<T, U>(f: T -> seq<U>, s: seq<T>)
    requires forall x :: x in s ==> |f(x)| <= 1
    ensures |FlatMap(f, s)| <= |s|
  {
    if s != [] {
      assert s[0] in s;
      FlatMapLength(f, s[1..]);
    }
  }

  /** A comprehension whose condition holds of no element keeps nothing. */
  lemma {:induction false} FilterNone<T>(keep: T -> bool, s: seq<T>)
    requires forall x :: x in s ==> !keep(x)
    ensures Filter(keep, s) == []
  {
    if s != [] {
      FilterNone(keep, s[1..]);
    }
  }

  /** A comprehension whose condition holds of every element changes nothing. */
  lemma {:induction false} FilterAll<T>(keep: T -> bool, s: seq<T>)
    requires forall x :: x in s ==> keep(x)
    ensures Filter(keep, s) == s
  {
    if s != [] {
      FilterAll(keep, s[1..]);
    }
  }
}
