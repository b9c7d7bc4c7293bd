/** `Array.prototype.filter` on sequences, and what "order-preserving subsequence" means. */
module Seqs {

  /** `r` is obtained from `s` by deleting elements, keeping the order of the rest. */
  ghost predicate IsSubsequence<T>(r: seq<T>, s: seq<T>)
    decreases |s|
  {
    if r == [] then true
    else if s == [] then false
    else (r[0] == s[0] && IsSubsequence(r[1..], s[1..])) || IsSubsequence(r, s[1..])
  }

  /** Every element of a subsequence is an element of the sequence. */
  lemma {:induction false} SubsequenceMembers<T>(r: seq<T>, s: seq<T>)
    requires IsSubsequence(r, s)
    ensures forall x :: x in r ==> x in s
    decreases |s|
  {
    if r != [] && s != [] {
      if r[0] == s[0] && IsSubsequence(r[1..], s[1..]) {
        SubsequenceMembers(r[1..], s[1..]);
        assert r == [r[0]] + r[1..];
      } else {
        SubsequenceMembers(r, s[1..]);
      }
    }
  }

  /**
   * `s.filter(p)`: exactly the elements of `s` that satisfy `p`, each as often
   * as it occurs in `s`, in their original order.
   */
  function Filter<T(==,!new)>(s: seq<T>, p: T -> bool): (r: seq<T>)
    ensures |r| <= |s|
    ensures forall x :: x in r ==> p(x)
    ensures forall x :: multiset(r)[x] == (if p(x) then multiset(s)[x] else 0)
    ensures IsSubsequence(r, s)
  {
    if s == [] then []
    else
      assert s == [s[0]] + s[1..];
      var rest := Filter(s[1..], p);
      if p(s[0]) then
        assert ([s[0]] + rest)[1..] == rest;
        [s[0]] + rest
      else
        rest
  }

  /** Filtering with a predicate every element satisfies gives back the sequence unchanged. */
  lemma {:induction false} FilterAll<T(!new)>(s: seq<T>, p: T -> bool)
    requires forall x :: x in s ==> p(x)
    ensures Filter(s, p) == s
  {
    if s != [] {
      FilterAll(s[1..], p);
      assert s == [s[0]] + s[1..];
    }
  }

  /**
   * Two sequences of the same length whose elements are kept by `p` and `q`
   * at the same positions, and agree wherever they are kept, filter alike.
   */
  lemma {:induction false} FilterPointwise<T(!new)>(s: seq<T>, t: seq<T>, p: T -> bool, q: T -> bool)
    requires |s| == |t|
    requires forall i :: 0 <= i < |s| ==> p(s[i]) == q(t[i])
    requires forall i :: 0 <= i < |s| && p(s[i]) ==> s[i] == t[i]
    ensures Filter(s, p) == Filter(t, q)
  {
    if s != [] {
      FilterPointwise(s[1..], t[1..], p, q);
    }
  }
}
