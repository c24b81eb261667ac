/** Sequence helpers: order-preserving filters and Python's `list.remove`. */
module Seqs {

  /** `a` is `b` with some elements left out and the rest kept in their order. */
  predicate IsSubsequence<T(==)>(a: seq<T>, b: seq<T>)
    decreases |b|
  {
    a == [] || (b != [] && ((a[0] == b[0] && IsSubsequence(a[1..], b[1..])) || IsSubsequence(a, b[1..])))
  }

  /** The elements of `s` that satisfy `keep`, in order (a list comprehension with a condition). */
  function Filter<T(==)>(s: seq<T>, keep: T -> bool): (r: seq<T>)
    ensures |r| <= |s|
    ensures forall i :: 0 <= i < |r| ==> r[i] in s && keep(r[i])
    ensures forall i :: 0 <= i < |s| && keep(s[i]) ==> s[i] in r
    ensures IsSubsequence(r, s)
    decreases |s|
  {
    if s == [] then []
    else if keep(s[0]) then [s[0]] + Filter(s[1..], keep)
    else Filter(s[1..], keep)
  }

  /** The filter keeps every duplicate: a kept value appears as often as in `s`, any other not at all. */
  lemma {:induction false} FilterCounts<T>(s: seq<T>, keep: T -> bool)
    ensures forall i :: 0 <= i < |s| ==>
      multiset(Filter(s, keep))[s[i]] == if keep(s[i]) then multiset(s)[s[i]] else 0
    decreases |s|
  {
    if s != [] {
      var t := s[1..];
      var rest := Filter(t, keep);
      FilterCounts(t, keep);
      assert s == [s[0]] + t;
      forall i | 0 <= i < |s|
        ensures multiset(rest)[s[i]] == if keep(s[i]) then multiset(t)[s[i]] else 0
      {
        if i > 0 {
          assert s[i] == t[i - 1];
        } else if s[0] in t {
          var j :| 0 <= j < |t| && t[j] == s[0];
        } else {
          assert s[0] !in rest;
        }
      }
    }
  }

  /** When every element satisfies exactly one of three conditions, the three filters share out `s`. */
  lemma {:induction false} FilterPartition<T>(s: seq<T>, f: T -> bool, g: T -> bool, h: T -> bool)
    requires forall i :: 0 <= i < |s| ==>
      (if f(s[i]) then 1 else 0) + (if g(s[i]) then 1 else 0) + (if h(s[i]) then 1 else 0) == 1
    ensures |Filter(s, f)| + |Filter(s, g)| + |Filter(s, h)| == |s|
    decreases |s|
  {
    if s != [] {
      assert forall i :: 0 <= i < |s[1..]| ==> s[1..][i] == s[i + 1];
      FilterPartition(s[1..], f, g, h);
    }
  }

  /** Python's `list.remove(x)`: drops the first element equal to `x` (it raises when there is none). */
  function RemoveFirst<T(==)>(s: seq<T>, x: T): (r: seq<T>)
    requires x in s
    ensures |r| == |s| - 1
    decreases |s|
  {
    if s[0] == x then
      assert s == [s[0]] + s[1..];
      s[1..]
    else
      assert s == [s[0]] + s[1..];
      [s[0]] + RemoveFirst(s[1..], x)
  }

  /** If the first `x` in `s` sits at index `k`, removing `x` cuts exactly index `k`. */
  lemma {:induction false} RemoveFirstAt<T>(s: seq<T>, k: nat, x: T)
    requires k < |s| && s[k] == x
    requires forall j :: 0 <= j < k ==> s[j] != x
    ensures RemoveFirst(s, x) == s[..k] + s[k + 1..]
    decreases k
  {
    if k == 0 {
      assert s[..0] + s[1..] == s[1..];
    } else {
      var t := s[1..];
      assert t[k - 1] == x;
      assert forall j :: 0 <= j < k - 1 ==> t[j] != x by {
        forall j | 0 <= j < k - 1 ensures t[j] != x { assert t[j] == s[j + 1]; }
      }
      RemoveFirstAt(t, k - 1, x);
      assert RemoveFirst(s, x) == [s[0]] + RemoveFirst(t, x);
      assert t[..k - 1] == s[1..k] && t[k..] == s[k + 1..];
      assert s[..k] == [s[0]] + s[1..k];
    }
  }

  /** Cutting out index `k` loses exactly that one element. */
  lemma CutKeepsRest<T>(s: seq<T>, k: nat)
    requires k < |s|
    ensures multiset(s[..k] + s[k + 1..]) + multiset{s[k]} == multiset(s)
  {
    assert s == s[..k] + [s[k]] + s[k + 1..];
  }
}
