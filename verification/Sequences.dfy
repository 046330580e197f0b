/** Filtering and distinctness of sequences, shared by the list modules. */
module Sequences {
  function Filter<T>(s: seq<T>, p: T -> bool): (r: seq<T>)
    ensures forall x | x in s :: p(x) ==> x in r
    ensures forall x | x in r :: x in s && p(x)
    ensures |r| <= |s|
  {
    if s == [] then [] else (if p(s[0]) then [s[0]] else []) + Filter(s[1..], p)
  }

  function Map<T, U>(s: seq<T>, f: T -> U): (r: seq<U>)
    ensures |r| == |s| && forall i | 0 <= i < |s| :: r[i] == f(s[i])
  {
    seq(|s|, i requires 0 <= i < |s| => f(s[i]))
  }

  ghost predicate Distinct<T>(s: seq<T>) {
    forall i, j | 0 <= i < j < |s| :: s[i] != s[j]
  }

  /** `at` lists, in order, where each kept element came from: a filter is a subsequence. */
  ghost predicate Subsequence<T>(sub: seq<T>, s: seq<T>, at: seq<nat>) {
    && |at| == |sub|
    && (forall i | 0 <= i < |at| :: at[i] < |s| && sub[i] == s[at[i]])
    && (forall i, j | 0 <= i < j < |at| :: at[i] < at[j])
  }

  lemma {:induction false} FilterIndices<T>(s: seq<T>, p: T -> bool) returns (at: seq<nat>)
    ensures Subsequence(Filter(s, p), s, at)
  {
    if s == [] {
      return [];
    }
    var tail := FilterIndices(s[1..], p);
    at := ShiftedIndices(Filter(s[1..], p), s, tail);
    if p(s[0]) {
      at := [0] + at;
      var sub := Filter(s[1..], p);
      assert Filter(s, p) == [s[0]] + sub;
      assert forall i | 1 <= i < |at| :: at[i] > 0 && s[at[i]] == sub[i - 1];
    } else {
      assert Filter(s, p) == Filter(s[1..], p);
    }
  }

  lemma {:induction false} ShiftedIndices<T>(sub: seq<T>, s: seq<T>, at: seq<nat>) returns (shifted: seq<nat>)
    requires s != [] && Subsequence(sub, s[1..], at)
    ensures Subsequence(sub, s, shifted) && forall i | 0 <= i < |shifted| :: shifted[i] > 0
  {
    shifted := seq(|at|, i requires 0 <= i < |at| => at[i] + 1);
  }

  lemma {:induction false} FilterConcat<T>(a: seq<T>, b: seq<T>, p: T -> bool)
    ensures Filter(a + b, p) == Filter(a, p) + Filter(b, p)
  {
    if a == [] {
      assert a + b == b;
    } else {
      assert (a + b)[1..] == a[1..] + b;
      FilterConcat(a[1..], b, p);
    }
  }

  lemma {:induction false} FilterCongruent<T>(s: seq<T>, p: T -> bool, q: T -> bool)
    requires forall x | x in s :: p(x) == q(x)
    ensures Filter(s, p) == Filter(s, q)
  {
    if s != [] {
      assert forall x | x in s[1..] :: x in s;
      FilterCongruent(s[1..], p, q);
    }
  }

  /** Filtering twice is filtering once, when the second test is the stronger. */
  lemma {:induction false} FilterTwice<T>(s: seq<T>, p: T -> bool, q: T -> bool)
    requires forall x | x in s :: q(x) ==> p(x)
    ensures Filter(Filter(s, p), q) == Filter(s, q)
  {
    if s != [] {
      assert forall x | x in s[1..] :: x in s;
      FilterTwice(s[1..], p, q);
      var head := if p(s[0]) then [s[0]] else [];
      FilterConcat(head, Filter(s[1..], p), q);
      assert s[0] in s;
    }
  }

  lemma {:induction false} FilterAll<T>(s: seq<T>, p: T -> bool)
    requires forall x | x in s :: p(x)
    ensures Filter(s, p) == s
  {
    if s != [] {
      assert forall x | x in s[1..] :: x in s;
      FilterAll(s[1..], p);
    }
  }

  lemma {:induction false} FilterNone<T>(s: seq<T>, p: T -> bool)
    requires forall x | x in s :: !p(x)
    ensures Filter(s, p) == []
  {
    if Filter(s, p) != [] {
      assert Filter(s, p)[0] in Filter(s, p);
    }
  }

  lemma {:induction false} FilterKeepsDistinct<T>(s: seq<T>, p: T -> bool)
    requires Distinct(s)
    ensures Distinct(Filter(s, p))
  {
    var at := FilterIndices(s, p);
  }

  /** Filtering a mapped sequence maps the filtered one. */
  lemma {:induction false} FilterOfMap<T, U>(s: seq<T>, f: T -> U, p: U -> bool, q: T -> bool)
    requires forall x | x in s :: p(f(x)) == q(x)
    ensures Filter(Map(s, f), p) == Map(Filter(s, q), f)
  {
    if s != [] {
      var head, tail := s[0], s[1..];
      assert head in s && forall x | x in tail :: x in s;
      FilterOfMap(tail, f, p, q);
      assert Map(s, f)[0] == f(head) && Map(s, f)[1..] == Map(tail, f);
      if q(head) {
        assert Filter(Map(s, f), p) == [f(head)] + Map(Filter(tail, q), f);
        MapCons(head, Filter(tail, q), f);
      }
    }
  }

  lemma {:induction false} MapCons<T, U>(head: T, tail: seq<T>, f: T -> U)
    ensures Map([head] + tail, f) == [f(head)] + Map(tail, f)
  {
  }
}
