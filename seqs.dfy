/**
 * Sequences as the source's dictionaries order their keys: each key once,
 * in insertion order, and `del d[k]` closing the gap where k was.
 */
module Seqs {
  /** Each element occurs once. */
  predicate NoDup<T(==)>(s: seq<T>) {
    forall i, j :: 0 <= i < j < |s| ==> s[i] != s[j]
  }

  /** The sequence with every occurrence of `k` taken out, the others in their order. */
  function Without<T(==,!new)>(s: seq<T>, k: T): (r: seq<T>)
    ensures forall x :: x in r <==> x in s && x != k
    ensures NoDup(s) ==> NoDup(r)
    ensures k !in s ==> r == s
  {
    if s == [] then []
    else
      var tail := Without(s[1..], k);
      if s[0] == k then tail
      else
        assert NoDup(s) ==> s[0] !in s[1..];
        [s[0]] + tail
  }

  /**
   * Taking out a key that occurs only at position p leaves the elements
   * before p and after p, in their order: the gap closes and nothing moves.
   */
  lemma {:induction false} WithoutAt<T(!new)>(s: seq<T>, k: T, p: int)
    requires 0 <= p < |s| && s[p] == k && k !in s[..p] && k !in s[p + 1..]
    ensures Without(s, k) == s[..p] + s[p + 1..]
  {
    if p == 0 {
      assert s[1..] == s[p + 1..];
    } else {
      assert s[0] == s[..p][0];
      var tail := s[1..];
      assert tail[..p - 1] == s[1..p] && tail[p..] == s[p + 1..];
      assert forall x :: x in s[1..p] ==> x in s[..p];
      WithoutAt(tail, k, p - 1);
      assert s[..p] == [s[0]] + s[1..p];
    }
  }

  /** In a sequence without duplicates, taking out the element at p closes the gap at p. */
  lemma WithoutNoDup<T(!new)>(s: seq<T>, p: int)
    requires NoDup(s) && 0 <= p < |s|
    ensures Without(s, s[p]) == s[..p] + s[p + 1..]
  {
    WithoutAt(s, s[p], p);
  }
}
