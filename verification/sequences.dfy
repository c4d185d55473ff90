/** Order-preserving selection from a sequence, shared by the list comprehensions and append loops of the system. */
module Sequences {

  /** `a` can be obtained from `b` by deleting elements (matched greedily from the back). */
  predicate IsSubsequence<T(==)>(a: seq<T>, b: seq<T>)
    decreases |b|
  {
    if a == [] then true
    else if b == [] then false
    else if a[|a| - 1] == b[|b| - 1] then IsSubsequence(a[..|a| - 1], b[..|b| - 1])
    else IsSubsequence(a, b[..|b| - 1])
  }

  /** The elements of `s` that satisfy `keep`, in their original order. */
  function Filter<T>(s: seq<T>, keep: T -> bool): (r: seq<T>)
    ensures |r| <= |s|
    ensures forall i :: 0 <= i < |r| ==> keep(r[i])
  {
    if s == [] then []
    else Filter(s[..|s| - 1], keep) + (if keep(s[|s| - 1]) then [s[|s| - 1]] else [])
  }

  /** Filtering keeps every occurrence of a kept value and drops every occurrence of the others. */
  lemma {:induction false} FilterCounts<T(!new)>(s: seq<T>, keep: T -> bool)
    ensures forall x :: multiset(Filter(s, keep))[x] == if keep(x) then multiset(s)[x] else 0
  {
    if s != [] {
      var init, last := s[..|s| - 1], s[|s| - 1];
      assert s == init + [last];
      FilterCounts(init, keep);
    }
  }

  /** Filtering keeps the original order. */
  lemma {:induction false} FilterIsSubsequence<T>(s: seq<T>, keep: T -> bool)
    ensures IsSubsequence(Filter(s, keep), s)
  {
    if s != [] {
      var init, last := s[..|s| - 1], s[|s| - 1];
      var r := Filter(s, keep);
      FilterIsSubsequence(init, keep);
      if keep(last) {
        assert r[..|r| - 1] == Filter(init, keep);
      } else {
        assert r == Filter(init, keep);
        if r != [] {
          assert keep(r[|r| - 1]) && r[|r| - 1] != last;
        }
      }
    }
  }

  /** Filtering a sequence extended by one element extends the filtered sequence by that element when it is kept. */
  lemma FilterAppend<T>(s: seq<T>, x: T, keep: T -> bool)
    ensures Filter(s + [x], keep) == Filter(s, keep) + (if keep(x) then [x] else [])
  {
    assert (s + [x])[..|s|] == s;
  }

  /** Filtering one element longer a prefix keeps that element exactly when `keep` holds for it. */
  lemma FilterPrefix<T>(s: seq<T>, k: nat, keep: T -> bool)
    requires k < |s|
    ensures Filter(s[..k + 1], keep) == Filter(s[..k], keep) + (if keep(s[k]) then [s[k]] else [])
  {
    assert s[..k + 1] == s[..k] + [s[k]];
    FilterAppend(s[..k], s[k], keep);
  }

  /** A value survives filtering exactly when it occurs in the input and is kept. */
  lemma FilterMembership<T(!new)>(s: seq<T>, keep: T -> bool)
    ensures forall x :: x in Filter(s, keep) <==> x in s && keep(x)
  {
    FilterCounts(s, keep);
    forall x
      ensures x in Filter(s, keep) <==> x in s && keep(x)
    {
      assert x in Filter(s, keep) <==> x in multiset(Filter(s, keep));
      assert x in s <==> x in multiset(s);
    }
  }

  /** `s` is strictly increasing in `key`. */
  predicate Increasing<T>(s: seq<T>, key: T -> int) {
    forall i, j :: 0 <= i < j < |s| ==> key(s[i]) < key(s[j])
  }

  /** Filtering keeps a sequence that is strictly increasing in some key strictly increasing. */
  lemma {:induction false} FilterKeepsIncreasing<T(!new)>(s: seq<T>, keep: T -> bool, key: T -> int)
    requires Increasing(s, key)
    ensures Increasing(Filter(s, keep), key)
  {
    if s != [] {
      var init, last := s[..|s| - 1], s[|s| - 1];
      assert Increasing(init, key);
      FilterKeepsIncreasing(init, keep, key);
      FilterMembership(init, keep);
      var r, r0 := Filter(s, keep), Filter(init, keep);
      forall i | 0 <= i < |r0|
        ensures key(r0[i]) < key(last)
      {
        assert r0[i] in init;
      }
    }
  }
}
