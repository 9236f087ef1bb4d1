/**
 * The `Array.prototype` methods the components rely on: `filter`, `map`,
 * `find` and `slice`, over immutable sequences (none of them mutates its
 * receiver in JavaScript either).
 */
module JsArray {

  import opened Wrappers

  /** `r` can be obtained from `s` by deleting elements, keeping the order of the rest. */
  ghost predicate IsSubsequence<T>(r: seq<T>, s: seq<T>)
    decreases |s|
  {
    if r == [] then true
    else if s == [] then false
    else (r[0] == s[0] && IsSubsequence(r[1..], s[1..])) || IsSubsequence(r, s[1..])
  }

  /** The elements of `s` that satisfy `p`, counted with multiplicity. */
  ghost predicate HoldsExactly<T(!new)>(r: seq<T>, s: seq<T>, p: T -> bool) {
    forall x :: multiset(r)[x] == if p(x) then multiset(s)[x] else 0
  }

  /**
   * `Array.prototype.filter`: the result keeps every element of `s` that
   * satisfies `p`, drops every other one, and keeps the order of `s`.
   */
  function Filter<T(!new)>(s: seq<T>, p: T -> bool): (r: seq<T>)
    ensures HoldsExactly(r, s, p)
    ensures IsSubsequence(r, s)
    ensures |r| <= |s|
  {
    if s == [] then []
    else
      var rest := Filter(s[1..], p);
      assert s == [s[0]] + s[1..];
      if p(s[0]) then
        assert ([s[0]] + rest)[1..] == rest;
        [s[0]] + rest
      else
        rest
  }

  /** `Array.prototype.map`. */
  function Map<T, U>(s: seq<T>, f: T -> U): (r: seq<U>)
    ensures |r| == |s|
    ensures forall i :: 0 <= i < |s| ==> r[i] == f(s[i])
  {
    seq(|s|, i requires 0 <= i < |s| => f(s[i]))
  }

  /**
   * `Array.prototype.find`: the first element of `s` that satisfies `p`,
   * or `None` (JavaScript's `undefined`) when there is none.
   */
  function Find<T>(s: seq<T>, p: T -> bool): (r: Option<T>)
    ensures r.None? <==> forall i :: 0 <= i < |s| ==> !p(s[i])
    ensures r.Some? ==> p(r.value) && exists i :: 0 <= i < |s| && s[i] == r.value && forall j :: 0 <= j < i ==> !p(s[j])
  {
    if s == [] then None
    else if p(s[0]) then Some(s[0])
    else
      var r := Find(s[1..], p);
      assert forall i :: 1 <= i < |s| ==> s[i] == s[1..][i - 1];
      assert r.Some? ==> exists i :: 0 <= i < |s| && s[i] == r.value && forall j :: 0 <= j < i ==> !p(s[j]) by {
        if r.Some? {
          var i :| 0 <= i < |s[1..]| && s[1..][i] == r.value && forall j :: 0 <= j < i ==> !p(s[1..][j]);
          assert s[i + 1] == r.value;
        }
      }
      r
  }

  /** How `slice` reads one of its arguments: negative counts from the end, and either way it is clamped to `[0, len]`. */
  function RelativeIndex(k: int, len: nat): (r: nat)
    ensures r <= len
    ensures 0 <= k ==> r == if k < len then k else len
  {
    if k < 0 then (if len + k < 0 then 0 else len + k)
    else if k < len then k
    else len
  }

  /** `Array.prototype.slice(start, end)`. */
  function Slice<T>(s: seq<T>, start: int, end: int): (r: seq<T>)
    ensures |r| <= |s|
    ensures 0 <= start <= end ==> r == s[RelativeIndex(start, |s|)..RelativeIndex(end, |s|)]
    ensures 0 <= start && |s| <= start ==> r == []
    ensures 0 <= end <= start ==> r == []
  {
    var from, to := RelativeIndex(start, |s|), RelativeIndex(end, |s|);
    if from < to then s[from..to] else []
  }

  /** A subsequence holds no element more often than the sequence it comes from. */
  lemma {:induction false} SubsequenceMultiset<T>(r: seq<T>, s: seq<T>)
    requires IsSubsequence(r, s)
    ensures multiset(r) <= multiset(s)
    decreases |s|
  {
    if r != [] {
      assert s == [s[0]] + s[1..];
      if r[0] == s[0] && IsSubsequence(r[1..], s[1..]) {
        SubsequenceMultiset(r[1..], s[1..]);
        assert r == [r[0]] + r[1..];
      } else {
        SubsequenceMultiset(r, s[1..]);
      }
    }
  }

  lemma {:induction false} SubsequenceReflexive<T>(s: seq<T>)
    ensures IsSubsequence(s, s)
    decreases |s|
  {
    if s != [] {
      SubsequenceReflexive(s[1..]);
    }
  }

  /** Every element of a subsequence is an element of the sequence. */
  lemma SubsequenceMembers<T>(r: seq<T>, s: seq<T>)
    requires IsSubsequence(r, s)
    ensures forall x :: x in r ==> x in s
  {
    SubsequenceMultiset(r, s);
    forall x | x in r ensures x in s {
      assert x in multiset(r);
    }
  }

  /**
   * The converse of `Filter`'s contract: a subsequence of `s` that holds
   * exactly the elements of `s` satisfying `p` IS `Filter(s, p)`.
   */
  lemma {:induction false} FilterUnique<T(!new)>(s: seq<T>, p: T -> bool, r: seq<T>)
    requires IsSubsequence(r, s)
    requires HoldsExactly(r, s, p)
    ensures r == Filter(s, p)
    decreases |s|
  {
    if s == [] {
      assert multiset(r) == multiset{};
    } else {
      var h, t := s[0], s[1..];
      assert s == [h] + t;
      assert multiset(s) == multiset{h} + multiset(t);
      if r != [] && r[0] == h && IsSubsequence(r[1..], t) {
        assert r == [h] + r[1..];
        assert multiset(r) == multiset{h} + multiset(r[1..]);
        assert p(h) by { assert multiset(r)[h] > 0; }
        FilterUnique(t, p, r[1..]);
      } else if r == [] {
        assert HoldsExactly(r, t, p);
        assert !p(h) by { assert multiset(s)[h] > 0; }
        FilterUnique(t, p, r);
      } else {
        assert IsSubsequence(r, t);
        SubsequenceMultiset(r, t);
        assert multiset(r)[h] <= multiset(t)[h] < multiset(s)[h];
        assert HoldsExactly(r, t, p);
        FilterUnique(t, p, r);
      }
    }
  }

  /** Filtering by a predicate that every element satisfies returns the input. */
  lemma FilterKeepsAll<T(!new)>(s: seq<T>, p: T -> bool)
    requires forall i :: 0 <= i < |s| ==> p(s[i])
    ensures Filter(s, p) == s
  {
    SubsequenceReflexive(s);
    assert HoldsExactly(s, s, p) by {
      forall x ensures multiset(s)[x] == if p(x) then multiset(s)[x] else 0 {
        if x in s {
          var i :| 0 <= i < |s| && s[i] == x;
          assert p(x);
        }
      }
    }
    FilterUnique(s, p, s);
  }

  /** Filtering twice by the same predicate is filtering once. */
  lemma FilterIdempotent<T(!new)>(s: seq<T>, p: T -> bool)
    ensures Filter(Filter(s, p), p) == Filter(s, p)
  {
    var r := Filter(s, p);
    forall i | 0 <= i < |r| ensures p(r[i]) {
      assert multiset(r)[r[i]] > 0;
    }
    FilterKeepsAll(r, p);
  }

  /** Two predicates that agree on every element of `s` filter it alike. */
  lemma {:induction false} FilterCongruent<T(!new)>(s: seq<T>, p: T -> bool, q: T -> bool)
    requires forall i :: 0 <= i < |s| ==> p(s[i]) == q(s[i])
    ensures Filter(s, p) == Filter(s, q)
    decreases |s|
  {
    if s != [] {
      FilterCongruent(s[1..], p, q);
    }
  }

  /** Filtering by `p` and by its negation splits `s` into two parts that together hold every element exactly once. */
  lemma FilterPartition<T(!new)>(s: seq<T>, p: T -> bool, q: T -> bool)
    requires forall x :: q(x) == !p(x)
    ensures multiset(Filter(s, p)) + multiset(Filter(s, q)) == multiset(s)
    ensures |Filter(s, p)| + |Filter(s, q)| == |s|
    ensures forall x :: x in Filter(s, p) ==> x !in Filter(s, q)
  {
    var a, b := Filter(s, p), Filter(s, q);
    assert multiset(a) + multiset(b) == multiset(s) by {
      forall x ensures (multiset(a) + multiset(b))[x] == multiset(s)[x] {
        assert multiset(a)[x] == if p(x) then multiset(s)[x] else 0;
        assert multiset(b)[x] == if q(x) then multiset(s)[x] else 0;
      }
    }
    assert |multiset(a) + multiset(b)| == |multiset(s)|;
    forall x | x in a ensures x !in b {
      assert multiset(a)[x] > 0;
    }
  }

}
