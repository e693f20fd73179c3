/**
 The effect shuffles the options with `options.sort(() => Math.random() - 0.5)`.
 A sort with a random comparator leaves some permutation of the array behind;
 here that permutation is an explicit argument `perm`, and the shuffled
 sequence holds at position `i` what was at position `perm[i]`.
 */
module Shuffle {

  /** `perm` lists each position of a sequence of length `n` exactly once. */
  predicate IsPermutation(perm: seq<nat>, n: nat)
  {
    && |perm| == n
    && (forall i :: 0 <= i < n ==> perm[i] < n)
    && (forall i, j :: 0 <= i < j < n ==> perm[i] != perm[j])
  }

  /** The sequence that has `s[perm[i]]` at position `i`. */
  function Permute<T>(s: seq<T>, perm: seq<nat>): seq<T>
    requires forall i :: 0 <= i < |perm| ==> perm[i] < |s|
  {
    seq(|perm|, i requires 0 <= i < |perm| => s[perm[i]])
  }

  /** `s` without its element at position `k`. */
  function RemoveAt<T>(s: seq<T>, k: nat): seq<T>
    requires k < |s|
  {
    s[..k] + s[k + 1..]
  }

  /** Removing one element takes exactly that element out of the multiset. */
  lemma RemoveAtMultiset<T>(s: seq<T>, k: nat)
    requires k < |s|
    ensures multiset(RemoveAt(s, k)) + multiset{s[k]} == multiset(s)
  {
    assert s == s[..k] + [s[k]] + s[k + 1..];
  }

  /** The first `n - 1` entries of a permutation of length `n`, renumbered to
      positions of the sequence without position `perm[n - 1]`. */
  function Renumber(perm: seq<nat>, n: nat): (perm': seq<nat>)
    requires IsPermutation(perm, n) && n > 0
    ensures IsPermutation(perm', n - 1)
  {
    var k := perm[n - 1];
    var perm': seq<nat> := seq(n - 1, i requires 0 <= i < n - 1 => if perm[i] < k then perm[i] else perm[i] - 1);
    assert forall i | 0 <= i < n - 1 :: perm[i] != perm[n - 1];
    assert forall i, j | 0 <= i < j < n - 1 :: perm[i] != perm[j];
    perm'
  }

  /** The shuffle of `s` is the shuffle of `s` without its last-drawn
      element, followed by that element. */
  lemma PermuteLast<T>(s: seq<T>, perm: seq<nat>)
    requires IsPermutation(perm, |s|) && |s| > 0
    ensures Permute(s, perm)
         == Permute(RemoveAt(s, perm[|s| - 1]), Renumber(perm, |s|)) + [s[perm[|s| - 1]]]
  {
    var n, k := |s|, perm[|s| - 1];
    var s', perm' := RemoveAt(s, k), Renumber(perm, n);
    forall i | 0 <= i < n - 1
      ensures Permute(s, perm)[i] == Permute(s', perm')[i]
    {
      assert perm[i] != perm[n - 1];
      if perm[i] < k {
        assert s'[perm'[i]] == s[perm[i]];
      } else {
        assert s'[perm'[i]] == s[perm'[i] + 1];
      }
    }
  }

  /** Shuffling rearranges and never adds, drops or duplicates an element. */
  lemma {:induction false} PermutePreservesMultiset<T>(s: seq<T>, perm: seq<nat>)
    requires IsPermutation(perm, |s|)
    ensures multiset(Permute(s, perm)) == multiset(s)
  {
    if |s| > 0 {
      var k := perm[|s| - 1];
      PermuteLast(s, perm);
      PermutePreservesMultiset(RemoveAt(s, k), Renumber(perm, |s|));
      RemoveAtMultiset(s, k);
    }
  }

  /** Consequently every element of the shuffled sequence was in the
      original, and every element of the original is still there. */
  lemma PermuteSameElements<T>(s: seq<T>, perm: seq<nat>)
    requires IsPermutation(perm, |s|)
    ensures |Permute(s, perm)| == |s|
    ensures forall x :: x in Permute(s, perm) <==> x in s
  {
    PermutePreservesMultiset(s, perm);
    forall x
      ensures x in Permute(s, perm) <==> x in s
    {
      assert x in Permute(s, perm) <==> x in multiset(Permute(s, perm));
      assert x in s <==> x in multiset(s);
    }
  }
}
