/** Sequence vocabulary shared by the list and chart models: filtering, counting,
    subsequences, sums and distinctness, with the facts the models rely on. */
module Seqs {

  /** The elements of `s` that satisfy `p`, in their original order (Array.prototype.filter). */
  function Filter<T>(p: T -> bool, s: seq<T>): seq<T>
  {
    if s == [] then [] else (if p(s[0]) then [s[0]] else []) + Filter(p, s[1..])
  }

  /** `xs` is obtained from `ys` by deleting elements, keeping the order of the rest. */
  predicate IsSubsequence<T(==)>(xs: seq<T>, ys: seq<T>)
    decreases |ys|
  {
    if ys == [] then xs == []
    else (xs != [] && xs[0] == ys[0] && IsSubsequence(xs[1..], ys[1..])) || IsSubsequence(xs, ys[1..])
  }

  /** The number of elements of `s` that satisfy `p`. */
  function Count<T>(p: T -> bool, s: seq<T>): nat
  {
    if s == [] then 0 else Count(p, s[..|s| - 1]) + (if p(s[|s| - 1]) then 1 else 0)
  }

  /** The sum of `f` over the elements of `s`. */
  function SumOf<T>(f: T -> nat, s: seq<T>): nat
  {
    if s == [] then 0 else SumOf(f, s[..|s| - 1]) + f(s[|s| - 1])
  }

  /** No element occurs twice. */
  predicate Distinct<T(==)>(s: seq<T>)
  {
    forall i, j :: 0 <= i < j < |s| ==> s[i] != s[j]
  }

  /** Filtering keeps exactly the elements that satisfy the predicate, in order. */
  lemma {:induction false} FilterSpec<T>(p: T -> bool, s: seq<T>)
    ensures forall x :: x in Filter(p, s) <==> x in s && p(x)
    ensures forall i :: 0 <= i < |Filter(p, s)| ==> p(Filter(p, s)[i])
    ensures IsSubsequence(Filter(p, s), s)
    ensures |Filter(p, s)| == Count(p, s)
  {
    if s != [] {
      FilterSpec(p, s[1..]);
      CountFront(p, s);
      var rest := Filter(p, s[1..]);
      if p(s[0]) {
        assert Filter(p, s) == [s[0]] + rest;
        assert ([s[0]] + rest)[1..] == rest;
        assert forall x :: x in [s[0]] + rest <==> x == s[0] || x in rest;
      } else {
        assert Filter(p, s) == rest;
      }
      assert forall x :: x in s <==> x == s[0] || x in s[1..];
    }
  }

  /** Filtering keeps every occurrence of an element that satisfies the predicate and none
      of one that does not. */
  lemma {:induction false} FilterMultiset<T>(p: T -> bool, s: seq<T>)
    ensures forall x :: multiset(Filter(p, s))[x] == if p(x) then multiset(s)[x] else 0
  {
    if s != [] {
      FilterMultiset(p, s[1..]);
      assert s == [s[0]] + s[1..];
      assert Filter(p, s) == (if p(s[0]) then [s[0]] else []) + Filter(p, s[1..]);
    }
  }

  /** Filtering with a predicate every element satisfies changes nothing. */
  lemma {:induction false} FilterAll<T>(p: T -> bool, s: seq<T>)
    requires forall i :: 0 <= i < |s| ==> p(s[i])
    ensures Filter(p, s) == s
  {
    if s != [] {
      FilterAll(p, s[1..]);
      assert [s[0]] + s[1..] == s;
    }
  }

  /** Filtering a concatenation filters each part. */
  lemma {:induction false} FilterAppend<T>(p: T -> bool, u: seq<T>, v: seq<T>)
    ensures Filter(p, u + v) == Filter(p, u) + Filter(p, v)
  {
    if u == [] {
      assert u + v == v;
    } else {
      FilterAppend(p, u[1..], v);
      assert (u + v)[1..] == u[1..] + v;
    }
  }

  /** Filters with predicates that agree on every element give the same result. */
  lemma {:induction false} FilterCongruent<T>(p: T -> bool, q: T -> bool, s: seq<T>)
    requires forall i :: 0 <= i < |s| ==> p(s[i]) == q(s[i])
    ensures Filter(p, s) == Filter(q, s)
  {
    if s != [] {
      FilterCongruent(p, q, s[1..]);
    }
  }

  /** Counting can also peel the first element. */
  lemma {:induction false} CountFront<T>(p: T -> bool, s: seq<T>)
    requires s != []
    ensures Count(p, s) == (if p(s[0]) then 1 else 0) + Count(p, s[1..])
    decreases |s|
  {
    if |s| > 1 {
      CountFront(p, s[..|s| - 1]);
      assert s[..|s| - 1][1..] == s[1..][..|s[1..]| - 1];
      assert s[..|s| - 1][0] == s[0];
    } else {
      assert s[..|s| - 1] == [] && s[1..] == [];
    }
  }

  /** The count of a concatenation is the sum of the counts. */
  lemma {:induction false} CountAppend<T>(p: T -> bool, u: seq<T>, v: seq<T>)
    ensures Count(p, u + v) == Count(p, u) + Count(p, v)
    decreases |v|
  {
    if v != [] {
      CountAppend(p, u, v[..|v| - 1]);
      assert (u + v)[..|u + v| - 1] == u + v[..|v| - 1];
    } else {
      assert u + v == u;
    }
  }

  /** The sum over a concatenation is the sum of the sums. */
  lemma {:induction false} SumAppend<T>(f: T -> nat, u: seq<T>, v: seq<T>)
    ensures SumOf(f, u + v) == SumOf(f, u) + SumOf(f, v)
    decreases |v|
  {
    if v != [] {
      SumAppend(f, u, v[..|v| - 1]);
      assert (u + v)[..|u + v| - 1] == u + v[..|v| - 1];
    } else {
      assert u + v == u;
    }
  }

  /** Reordering the elements does not change the sum. */
  lemma {:induction false} SumPermutation<T>(f: T -> nat, a: seq<T>, b: seq<T>)
    requires multiset(a) == multiset(b)
    ensures SumOf(f, a) == SumOf(f, b)
    decreases |a|
  {
    if a == [] {
      assert |b| == |multiset(b)| == 0;
    } else {
      var x := a[|a| - 1];
      var a' := a[..|a| - 1];
      assert a == a' + [x];
      assert x in multiset(b);
      var k :| 0 <= k < |b| && b[k] == x;
      var b' := b[..k] + b[k + 1..];
      assert b == b[..k] + [x] + b[k + 1..];
      assert multiset(b') == multiset(b) - multiset{x};
      assert multiset(a') == multiset(a) - multiset{x};
      SumPermutation(f, a', b');
      SumAppend(f, b[..k] + [x], b[k + 1..]);
      SumAppend(f, b[..k], [x]);
      SumAppend(f, b[..k], b[k + 1..]);
      assert SumOf(f, [x]) == f(x) by {
        assert [x][..0] == [];
      }
    }
  }

  /** An element occurs at most once in a sequence whose elements are distinct. */
  lemma {:induction false} DistinctMultiplicity<T>(s: seq<T>, x: T)
    requires Distinct(s)
    ensures multiset(s)[x] <= 1
    decreases |s|
  {
    if s != [] {
      var s' := s[..|s| - 1];
      assert s == s' + [s[|s| - 1]];
      assert Distinct(s');
      DistinctMultiplicity(s', x);
      if x == s[|s| - 1] {
        assert x !in s';
      }
    }
  }

  /** A permutation of a sequence without repetitions has none either. */
  lemma DistinctPermutation<T>(a: seq<T>, b: seq<T>)
    requires multiset(a) == multiset(b)
    requires Distinct(a)
    ensures Distinct(b)
  {
    forall i, j | 0 <= i < j < |b|
      ensures b[i] != b[j]
    {
      if b[i] == b[j] {
        var x := b[i];
        assert b == b[..i] + [x] + b[i + 1..j] + [x] + b[j + 1..];
        assert multiset(b)[x] >= 2;
        DistinctMultiplicity(a, x);
        assert false;
      }
    }
  }
}
