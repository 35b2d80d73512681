/** Shared vocabulary: an optional value, the two ways the ORM reads a table
    (filter it, or take the first row that matches) and the descending
    ordering that the models' `Meta.ordering` clauses ask for. */
module Common {

  datatype Option<+T> = None | Some(value: T)

  /** The elements of `s` that satisfy `keep`, in their original order. */
  function Filter<T(!new)>(s: seq<T>, keep: T -> bool): (r: seq<T>)
    ensures |r| <= |s|
    ensures forall i :: 0 <= i < |r| ==> keep(r[i])
    ensures forall x :: x in r <==> x in s && keep(x)
    ensures forall x :: multiset(r)[x] == if keep(x) then multiset(s)[x] else 0
    decreases |s|
  {
    if s == [] then []
    else
      assert s == [s[0]] + s[1..];
      if keep(s[0]) then [s[0]] + Filter(s[1..], keep)
    else Filter(s[1..], keep)
  }

  /** The first element of `s` that satisfies `p`, if there is one. */
  function Find<T(!new)>(s: seq<T>, p: T -> bool): (r: Option<T>)
    ensures r.Some? ==> r.value in s && p(r.value)
    ensures r.None? <==> forall x :: x in s ==> !p(x)
    decreases |s|
  {
    if s == [] then None
    else if p(s[0]) then Some(s[0])
    else Find(s[1..], p)
  }

  /** `s` is listed by non-increasing `key`: what `ordering = ("-field",)` promises. */
  ghost predicate NonIncreasing<T>(s: seq<T>, key: T -> int)
  {
    forall i, j :: 0 <= i < j < |s| ==> key(s[i]) >= key(s[j])
  }

  /** No element occurs twice in `s`. */
  ghost predicate Distinct<T>(s: seq<T>)
  {
    forall i, j :: 0 <= i < j < |s| ==> s[i] != s[j]
  }

  /** Inserts `x` into a sequence already ordered by non-increasing `key`. */
  function InsertDesc<T(!new)>(x: T, s: seq<T>, key: T -> int): (r: seq<T>)
    requires NonIncreasing(s, key)
    ensures NonIncreasing(r, key)
    ensures multiset(r) == multiset(s) + multiset{x}
    ensures forall i :: 0 <= i < |r| ==> r[i] == x || r[i] in s
    decreases |s|
  {
    if s == [] then [x]
    else if key(x) >= key(s[0]) then [x] + s
    else
      var rest := InsertDesc(x, s[1..], key);
      assert s == [s[0]] + s[1..];
      assert forall i :: 0 <= i < |rest| ==> key(rest[i]) <= key(s[0]);
      [s[0]] + rest
  }

  /** The rows of `s` ordered by non-increasing `key` (an insertion sort). */
  function OrderByDesc<T(!new)>(s: seq<T>, key: T -> int): (r: seq<T>)
    ensures NonIncreasing(r, key)
    ensures multiset(r) == multiset(s)
    decreases |s|
  {
    if s == [] then []
    else
      assert s == [s[0]] + s[1..];
      InsertDesc(s[0], OrderByDesc(s[1..], key), key)
  }

  /** Filtering keeps the relative order, so it keeps a descending listing descending. */
  lemma {:induction false} FilterKeepsOrder<T(!new)>(s: seq<T>, keep: T -> bool, key: T -> int)
    requires NonIncreasing(s, key)
    ensures NonIncreasing(Filter(s, keep), key)
    decreases |s|
  {
    if s != [] {
      FilterKeepsOrder(s[1..], keep, key);
    }
  }

  /** Filtering never introduces a duplicate. */
  lemma {:induction false} FilterKeepsDistinct<T(!new)>(s: seq<T>, keep: T -> bool)
    requires Distinct(s)
    ensures Distinct(Filter(s, keep))
    decreases |s|
  {
    if s != [] {
      FilterKeepsDistinct(s[1..], keep);
      assert s[0] !in s[1..];
    }
  }

  /** In a sequence without duplicates every element occurs once. */
  lemma {:induction false} DistinctOccursOnce<T(!new)>(s: seq<T>, x: T)
    requires Distinct(s)
    ensures multiset(s)[x] == if x in s then 1 else 0
    decreases |s|
  {
    if s != [] {
      assert s == [s[0]] + s[1..];
      assert Distinct(s[1..]) by {
        forall i, j | 0 <= i < j < |s[1..]| ensures s[1..][i] != s[1..][j] {
          assert s[1..][i] == s[i + 1] && s[1..][j] == s[j + 1];
        }
      }
      assert s[0] !in s[1..];
      DistinctOccursOnce(s[1..], x);
    }
  }

  /** Filtering a sequence extended by one element. */
  lemma {:induction false} FilterAppend<T(!new)>(s: seq<T>, x: T, keep: T -> bool)
    ensures Filter(s + [x], keep) == Filter(s, keep) + (if keep(x) then [x] else [])
    decreases |s|
  {
    if s == [] {
      assert [] + [x] == [x];
    } else {
      assert (s + [x])[1..] == s[1..] + [x];
      FilterAppend(s[1..], x, keep);
    }
  }

  /** A filter that rejects nothing returns its input unchanged. */
  lemma {:induction false} FilterKeepsAll<T(!new)>(s: seq<T>, keep: T -> bool)
    requires forall x :: x in s ==> keep(x)
    ensures Filter(s, keep) == s
    decreases |s|
  {
    if s != [] {
      FilterKeepsAll(s[1..], keep);
    }
  }
}
