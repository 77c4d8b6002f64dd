/** Order-preserving selections from a sequence, shared by the database
    queries and the `Array.prototype.filter` calls of the scoring code. */
module Sequences {

  /** `idx` picks `a` out of `b`: strictly increasing positions of `b`
      holding the elements of `a` in turn. */
  ghost predicate PicksOut<T>(idx: seq<int>, a: seq<T>, b: seq<T>) {
    && |idx| == |a|
    && (forall i :: 0 <= i < |idx| ==> 0 <= idx[i] < |b| && b[idx[i]] == a[i])
    && (forall i, j :: 0 <= i < j < |idx| ==> idx[i] < idx[j])
  }

  /** `a` is `b` with some elements left out, the rest in the same order. */
  ghost predicate IsSubsequence<T>(a: seq<T>, b: seq<T>) {
    exists idx :: PicksOut(idx, a, b)
  }

  /** An element appended to `b` may be left out. */
  lemma SubsequenceSnocRight<T>(a: seq<T>, b: seq<T>, x: T)
    requires IsSubsequence(a, b)
    ensures IsSubsequence(a, b + [x])
  {
    var idx :| PicksOut(idx, a, b);
    assert PicksOut(idx, a, b + [x]);
  }

  /** An element appended to both sides may be kept. */
  lemma SubsequenceSnocBoth<T>(a: seq<T>, b: seq<T>, x: T)
    requires IsSubsequence(a, b)
    ensures IsSubsequence(a + [x], b + [x])
  {
    var idx :| PicksOut(idx, a, b);
    assert PicksOut(idx + [|b|], a + [x], b + [x]);
  }

  /** An element put in front of `b` may be left out. */
  lemma SubsequenceConsRight<T>(a: seq<T>, b: seq<T>, x: T)
    requires IsSubsequence(a, b)
    ensures IsSubsequence(a, [x] + b)
  {
    var idx :| PicksOut(idx, a, b);
    var shifted := seq(|idx|, i requires 0 <= i < |idx| => idx[i] + 1);
    assert PicksOut(shifted, a, [x] + b);
  }

  /** An element put in front of both sides may be kept. */
  lemma SubsequenceConsBoth<T>(a: seq<T>, b: seq<T>, x: T)
    requires IsSubsequence(a, b)
    ensures IsSubsequence([x] + a, [x] + b)
  {
    var idx :| PicksOut(idx, a, b);
    var shifted := [0] + seq(|idx|, i requires 0 <= i < |idx| => idx[i] + 1);
    assert PicksOut(shifted, [x] + a, [x] + b);
  }

  /** Every element of a subsequence of `b` is an element of `b`. */
  lemma SubsequenceMembers<T>(a: seq<T>, b: seq<T>)
    requires IsSubsequence(a, b)
    ensures forall k :: 0 <= k < |a| ==> a[k] in b
  {
    var idx :| PicksOut(idx, a, b);
    forall k | 0 <= k < |a| ensures a[k] in b {
      assert b[idx[k]] == a[k];
    }
  }

  lemma EmptySubsequence<T>(b: seq<T>)
    ensures IsSubsequence([], b)
  {
    assert PicksOut([], [], b);
  }

  /** How many elements of `s` are kept. */
  function CountKept<T>(s: seq<T>, keep: T -> bool): nat {
    if s == [] then 0 else CountKept(s[..|s| - 1], keep) + (if keep(s[|s| - 1]) then 1 else 0)
  }

  /** `r` is what `s.filter(keep)` returns: an in-order selection of `s`
      holding as many elements as `s` has kept ones, every one of them
      kept. */
  ghost predicate FilteredBy<T>(r: seq<T>, s: seq<T>, keep: T -> bool) {
    && IsSubsequence(r, s)
    && |r| == CountKept(s, keep)
    && (forall k :: 0 <= k < |r| ==> keep(r[k]))
  }

  lemma EmptyFiltered<T>(keep: T -> bool)
    ensures FilteredBy([], [], keep)
  {
    EmptySubsequence<T>([]);
  }

  /** One more element of `s`: the filter appends it exactly when it is kept. */
  lemma FilteredBySnoc<T>(r: seq<T>, s: seq<T>, keep: T -> bool, x: T)
    requires FilteredBy(r, s, keep)
    ensures FilteredBy(if keep(x) then r + [x] else r, s + [x], keep)
  {
    assert (s + [x])[..|s|] == s;
    if keep(x) {
      SubsequenceSnocBoth(r, s, x);
    } else {
      SubsequenceSnocRight(r, s, x);
    }
  }
  /** Counting from the front: the first element adds one when it is kept. */
  lemma {:induction false} CountKeptCons<T>(x: T, s: seq<T>, keep: T -> bool)
    ensures CountKept([x] + s, keep) == (if keep(x) then 1 else 0) + CountKept(s, keep)
  {
    if s == [] {
      assert [x] + s == [x] && [x][..0] == [];
    } else {
      var init := s[..|s| - 1];
      assert ([x] + s)[..|[x] + s| - 1] == [x] + init;
      CountKeptCons(x, init, keep);
    }
  }

  /** One more element in front of `s`: the filter puts it in front exactly
      when it is kept. */
  lemma FilteredByCons<T>(r: seq<T>, s: seq<T>, keep: T -> bool, x: T)
    requires FilteredBy(r, s, keep)
    ensures FilteredBy(if keep(x) then [x] + r else r, [x] + s, keep)
  {
    CountKeptCons(x, s, keep);
    if keep(x) {
      SubsequenceConsBoth(r, s, x);
      forall k | 0 <= k < |[x] + r| ensures keep(([x] + r)[k]) {
        if k > 0 { assert ([x] + r)[k] == r[k - 1]; }
      }
    } else {
      SubsequenceConsRight(r, s, x);
    }
  }

  /** The step of a filter written as recursion on the last element: every
      clause its contract states carries over from `s` to `s + [x]`. */
  lemma FilterStep<T>(r: seq<T>, s: seq<T>, keep: T -> bool, x: T)
    requires |r| <= |s|
    requires forall k :: 0 <= k < |s| && keep(s[k]) ==> s[k] in r
    requires FilteredBy(r, s, keep)
    ensures var r' := if keep(x) then r + [x] else r;
      && |r'| <= |s + [x]|
      && (forall k :: 0 <= k < |r'| ==> keep(r'[k]))
      && (forall k :: 0 <= k < |s + [x]| && keep((s + [x])[k]) ==> (s + [x])[k] in r')
      && FilteredBy(r', s + [x], keep)
  {
    FilteredBySnoc(r, s, keep, x);
    var r' := if keep(x) then r + [x] else r;
    forall k | 0 <= k < |s + [x]| && keep((s + [x])[k]) ensures (s + [x])[k] in r' {
      if k < |s| {
        assert (s + [x])[k] == s[k];
      }
    }
  }
}
