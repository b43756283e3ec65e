/** In-place sorting with a comparator in the style of Array.prototype.sort:
    `cmp(a, b) <= 0` means `a` may stay before `b`. */
module Sorting {

  /** The comparator orders every pair and is transitive, as Array.prototype.sort
      expects of a consistent comparator. */
  ghost predicate TotalPreorder<T(!new)>(cmp: (T, T) -> int)
  {
    && (forall a, b :: cmp(a, b) <= 0 || cmp(b, a) <= 0)
    && (forall a, b, c {:trigger cmp(a, b), cmp(b, c), cmp(a, c)} :: cmp(a, b) <= 0 && cmp(b, c) <= 0 ==> cmp(a, c) <= 0)
  }

  /** Every element may stay before every later one. */
  ghost predicate SortedBy<T>(s: seq<T>, cmp: (T, T) -> int)
  {
    forall i, j :: 0 <= i < j < |s| ==> cmp(s[i], s[j]) <= 0
  }

  /** Insertion of `s[i]` into the sorted prefix is under way and has reached index `j`:
      the prefix up to `i` is ordered except around `j`, and `s[j]` may precede all after it. */
  ghost predicate Inserting<T>(s: seq<T>, j: nat, i: nat, cmp: (T, T) -> int)
  {
    && j <= i < |s|
    && (forall k, l :: 0 <= k < l <= i && k != j && l != j ==> cmp(s[k], s[l]) <= 0)
    && (forall l :: j < l <= i ==> cmp(s[j], s[l]) <= 0)
  }

  lemma InsertStart<T>(s: seq<T>, i: nat, cmp: (T, T) -> int)
    requires i < |s| && SortedBy(s[..i], cmp)
    ensures Inserting(s, i, i, cmp)
  {
    forall k, l | 0 <= k < l <= i && k != i && l != i ensures cmp(s[k], s[l]) <= 0 {
      assert s[k] == s[..i][k] && s[l] == s[..i][l];
    }
  }

  lemma InsertStep<T(!new)>(s: seq<T>, j: nat, i: nat, cmp: (T, T) -> int)
    requires TotalPreorder(cmp)
    requires Inserting(s, j, i, cmp) && 0 < j && cmp(s[j - 1], s[j]) > 0
    ensures Inserting(s[j - 1 := s[j]][j := s[j - 1]], j - 1, i, cmp)
  {
  }

  lemma InsertDone<T(!new)>(s: seq<T>, j: nat, i: nat, cmp: (T, T) -> int)
    requires TotalPreorder(cmp)
    requires Inserting(s, j, i, cmp) && (j == 0 || cmp(s[j - 1], s[j]) <= 0)
    ensures SortedBy(s[..i + 1], cmp)
  {
    forall k, l | 0 <= k < l <= i ensures cmp(s[k], s[l]) <= 0 {
      if l == j && k < j - 1 {
        assert cmp(s[k], s[j - 1]) <= 0;
      }
    }
  }

  /** Swapping two neighbours keeps the elements. */
  lemma SwapKeepsElements<T>(s: seq<T>, j: nat)
    requires 0 < j < |s|
    ensures multiset(s[j - 1 := s[j]][j := s[j - 1]]) == multiset(s)
  {
    var t := s[j - 1 := s[j]][j := s[j - 1]];
    assert s == s[..j - 1] + [s[j - 1], s[j]] + s[j + 1..];
    assert t == s[..j - 1] + [s[j], s[j - 1]] + s[j + 1..];
  }

  /** Sorts `a` in place by insertion: afterwards `a` is ordered by `cmp` and holds the
      same elements as before. */
  method SortInPlace<T(!new)>(a: array<T>, cmp: (T, T) -> int)
    requires TotalPreorder(cmp)
    modifies a
    ensures SortedBy(a[..], cmp)
    ensures multiset(a[..]) == old(multiset(a[..]))
  {
    var i := 0;
    while i < a.Length
      invariant 0 <= i <= a.Length
      invariant SortedBy(a[..i], cmp)
      invariant multiset(a[..]) == old(multiset(a[..]))
    {
      Insert(a, i, cmp);
      i := i + 1;
    }
    assert a[..a.Length] == a[..];
  }

  /** `[...s].sort(cmp)`: a fresh array holding a copy of `s`, sorted in place. The result
      is as long as `s`, ordered by `cmp`, and holds the same elements as `s`. */
  method SortedCopy<T(!new)>(s: seq<T>, cmp: (T, T) -> int) returns (r: seq<T>)
    requires TotalPreorder(cmp)
    ensures |r| == |s|
    ensures SortedBy(r, cmp)
    ensures multiset(r) == multiset(s)
  {
    var a := new T[|s|](i requires 0 <= i < |s| => s[i]);
    assert a[..] == s;
    SortInPlace(a, cmp);
    r := a[..];
  }

  /** Moves `a[i]` down into the sorted prefix `a[..i]` by adjacent swaps. */
  method Insert<T(!new)>(a: array<T>, i: nat, cmp: (T, T) -> int)
    requires TotalPreorder(cmp)
    requires i < a.Length
    requires SortedBy(a[..i], cmp)
    modifies a
    ensures SortedBy(a[..i + 1], cmp)
    ensures multiset(a[..]) == old(multiset(a[..]))
  {
    var j: nat := i;
    InsertStart(a[..], i, cmp);
    while j > 0 && cmp(a[j - 1], a[j]) > 0
      invariant Inserting(a[..], j, i, cmp)
      invariant multiset(a[..]) == old(multiset(a[..]))
    {
      ghost var s := a[..];
      InsertStep(s, j, i, cmp);
      SwapKeepsElements(s, j);
      a[j - 1], a[j] := a[j], a[j - 1];
      assert a[..] == s[j - 1 := s[j]][j := s[j - 1]];
      j := j - 1;
    }
    InsertDone(a[..], j, i, cmp);
  }
}
