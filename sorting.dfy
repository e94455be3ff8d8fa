/** Python's `sorted` on a list of numbers, and the facts the analyser needs about it. */
module Sorting {

  predicate SortedAscending(s: seq<real>) {
    forall i, j :: 0 <= i < j < |s| ==> s[i] <= s[j]
  }

  /** No value occurs twice. */
  ghost predicate Distinct<T(!new)>(s: seq<T>) {
    forall x :: multiset(s)[x] <= 1
  }

  /** x placed into an ascending sequence before the first element above it. */
  function Insert(x: real, s: seq<real>): (r: seq<real>)
    requires SortedAscending(s)
    ensures SortedAscending(r)
    ensures multiset(r) == multiset(s) + multiset{x}
    decreases |s|
  {
    if |s| == 0 || x <= s[0] then
      ConsSorted(x, s);
      [x] + s
    else
      var rest := Insert(x, s[1..]);
      assert s == [s[0]] + s[1..];
      BoundedByMembers(s[0], rest);
      ConsSorted(s[0], rest);
      [s[0]] + rest
  }

  /** A head no larger than any element of a sorted tail keeps the sequence sorted. */
  lemma ConsSorted(h: real, t: seq<real>)
    requires SortedAscending(t)
    requires forall k :: 0 <= k < |t| ==> h <= t[k]
    ensures SortedAscending([h] + t)
  {
    var r := [h] + t;
    forall i, j | 0 <= i < j < |r| ensures r[i] <= r[j] {
      if i > 0 {
        assert r[i] == t[i - 1] && r[j] == t[j - 1];
      }
    }
  }

  /** A lower bound of the multiset of a sequence bounds every element. */
  lemma BoundedByMembers(lo: real, t: seq<real>)
    requires forall y :: y in multiset(t) ==> lo <= y
    ensures forall k :: 0 <= k < |t| ==> lo <= t[k]
  {
    forall k | 0 <= k < |t| ensures lo <= t[k] {
      assert t[k] in multiset(t);
    }
  }

  /** `sorted(s)`: the ascending rearrangement of s. */
  function SortAscending(s: seq<real>): (r: seq<real>)
    ensures SortedAscending(r)
    ensures multiset(r) == multiset(s)
    decreases |s|
  {
    if |s| == 0 then []
    else
      assert s == [s[0]] + s[1..];
      Insert(s[0], SortAscending(s[1..]))
  }

  /** Sorting neither adds nor drops values. */
  lemma SortKeepsMembers(s: seq<real>, x: real)
    ensures x in SortAscending(s) <==> x in s
  {
    var r := SortAscending(s);
    assert x in r <==> x in multiset(r);
    assert x in s <==> x in multiset(s);
  }

  /** Sorting a sequence without repeats gives a sequence without repeats. */
  lemma SortKeepsDistinct(s: seq<real>)
    requires Distinct(s)
    ensures Distinct(SortAscending(s))
  {
  }
}
