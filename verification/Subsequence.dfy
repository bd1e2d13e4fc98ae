/** Order-preserving, duplicate-free selection from a sequence. */
module Subsequence {

  // `a` is obtained from `p` by deleting elements, keeping the order.
  predicate Subseq<T(==)>(a: seq<T>, p: seq<T>)
    decreases |p|
  {
    || a == []
    || (p != [] && (
            || (a[|a| - 1] == p[|p| - 1] && Subseq(a[..|a| - 1], p[..|p| - 1]))
            || Subseq(a, p[..|p| - 1])))
  }

  ghost predicate Increasing(idx: seq<nat>) {
    forall i, j :: 0 <= i < j < |idx| ==> idx[i] < idx[j]
  }

  // `idx` lists the positions in `p` of the elements of `a`.
  ghost predicate Embeds<T>(idx: seq<nat>, a: seq<T>, p: seq<T>) {
    && |idx| == |a|
    && Increasing(idx)
    && forall k :: 0 <= k < |idx| ==> idx[k] < |p| && a[k] == p[idx[k]]
  }

  lemma AppendBoth<T>(a: seq<T>, p: seq<T>, x: T)
    requires Subseq(a, p)
    ensures Subseq(a + [x], p + [x])
  {
    assert (a + [x])[..|a|] == a && (p + [x])[..|p|] == p;
  }

  lemma Skip<T>(a: seq<T>, p: seq<T>, x: T)
    requires Subseq(a, p)
    ensures Subseq(a, p + [x])
  {
    assert (p + [x])[..|p|] == p;
  }

  lemma {:induction false} Reflexive<T>(a: seq<T>)
    ensures Subseq(a, a)
    decreases |a|
  {
    if a != [] {
      Reflexive(a[..|a| - 1]);
    }
  }

  lemma {:induction false} SameLength<T>(a: seq<T>, p: seq<T>)
    requires Subseq(a, p)
    ensures |a| <= |p|
    ensures |a| == |p| ==> a == p
    decreases |p|
  {
    if a != [] {
      var a', p' := a[..|a| - 1], p[..|p| - 1];
      if a[|a| - 1] == p[|p| - 1] && Subseq(a', p') {
        SameLength(a', p');
        assert a == a' + [a[|a| - 1]] && p == p' + [p[|p| - 1]];
      } else {
        SameLength(a, p');
      }
    }
  }

  lemma {:induction false} DropTail<T>(a: seq<T>, b: seq<T>, p: seq<T>)
    requires Subseq(a + b, p)
    ensures Subseq(a, p)
    decreases |p|
  {
    if a != [] && b != [] {
      var ab, p' := a + b, p[..|p| - 1];
      if ab[|ab| - 1] == p[|p| - 1] && Subseq(ab[..|ab| - 1], p') {
        assert ab[..|ab| - 1] == a + b[..|b| - 1];
        DropTail(a, b[..|b| - 1], p');
      } else {
        DropTail(a, b, p');
      }
    } else {
      assert b == [] ==> a + b == a;
    }
  }

  lemma {:induction false} HasIndices<T>(a: seq<T>, p: seq<T>) returns (idx: seq<nat>)
    requires Subseq(a, p)
    ensures Embeds(idx, a, p)
    decreases |p|
  {
    if a == [] {
      idx := [];
    } else {
      var a', p' := a[..|a| - 1], p[..|p| - 1];
      if a[|a| - 1] == p[|p| - 1] && Subseq(a', p') {
        var shorter := HasIndices(a', p');
        idx := shorter + [|p| - 1];
      } else {
        idx := HasIndices(a, p');
      }
    }
  }
}
