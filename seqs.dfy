/** Generic facts about sequences used by the list operations of the app
    (`Array.prototype.filter` keeps a subsequence). */
module Seqs {

  /** r is s with some elements left out, the rest in their original order. */
  predicate IsSubsequence<T(==)>(r: seq<T>, s: seq<T>)
    decreases |s|
  {
    if r == [] then true
    else if s == [] then false
    else if r[0] == s[0] then IsSubsequence(r[1..], s[1..])
    else IsSubsequence(r, s[1..])
  }

  /** No element occurs twice. */
  predicate NoDup<T(==)>(s: seq<T>) {
    forall i, j :: 0 <= i < j < |s| ==> s[i] != s[j]
  }

  /** Every element of a subsequence is an element of the sequence. */
  lemma {:induction false} SubsequenceMembers<T>(r: seq<T>, s: seq<T>)
    requires IsSubsequence(r, s)
    ensures forall x :: x in r ==> x in s
    decreases |s|
  {
    if r != [] && s != [] {
      if r[0] == s[0] {
        SubsequenceMembers(r[1..], s[1..]);
        forall x | x in r ensures x in s {
          if x != r[0] {
            assert x in r[1..];
          }
        }
      } else {
        SubsequenceMembers(r, s[1..]);
      }
    }
  }

  /** A subsequence keeps the relative order of the elements it keeps:
      two positions of r come from increasing positions of s. */
  lemma {:induction false} SubsequenceOrder<T>(r: seq<T>, s: seq<T>, i: int, j: int)
    requires IsSubsequence(r, s)
    requires 0 <= i < j < |r|
    ensures exists p, q :: 0 <= p < q < |s| && s[p] == r[i] && s[q] == r[j]
    decreases |s|
  {
    assert s != [];
    if r[0] == s[0] {
      if i == 0 {
        SubsequenceMembers(r[1..], s[1..]);
        assert r[j] in r[1..];
        var q :| 0 <= q < |s[1..]| && s[1..][q] == r[j];
        assert s[0] == r[0] && s[q + 1] == r[j];
      } else {
        SubsequenceOrder(r[1..], s[1..], i - 1, j - 1);
        var p, q :| 0 <= p < q < |s[1..]| && s[1..][p] == r[1..][i - 1] && s[1..][q] == r[1..][j - 1];
        assert s[p + 1] == r[i] && s[q + 1] == r[j];
      }
    } else {
      SubsequenceOrder(r, s[1..], i, j);
      var p, q :| 0 <= p < q < |s[1..]| && s[1..][p] == r[i] && s[1..][q] == r[j];
      assert s[p + 1] == r[i] && s[q + 1] == r[j];
    }
  }

  lemma SubsequenceRefl<T>(s: seq<T>)
    ensures IsSubsequence(s, s)
  {
  }

  /** A non-empty sequence is its front followed by its last element. */
  lemma InitLast<T>(s: seq<T>)
    requires s != []
    ensures s == s[..|s| - 1] + [s[|s| - 1]]
  {
  }

  /** Dropping the first element of a sequence built by prepending one. */
  lemma DropPrepended<T>(c: T, d: seq<T>)
    ensures ([c] + d)[1..] == d
  {
  }

  /** Splicing x into the front of a sequence at k, then appending the last
      element, is splicing x into the whole sequence at k. */
  lemma SpliceBeforeLast<T>(init: seq<T>, last: T, x: T, k: int)
    requires 0 <= k <= |init|
    ensures (init[..k] + [x] + init[k..]) + [last]
         == (init + [last])[..k] + [x] + (init + [last])[k..]
  {
    var s := init + [last];
    assert s[..k] == init[..k];
    assert s[k..] == init[k..] + [last];
  }

  /** Appending is splicing in at the end. */
  lemma AppendAsSplice<T>(s: seq<T>, x: T)
    ensures s + [x] == s[..|s|] + [x] + s[|s|..]
  {
  }
}
