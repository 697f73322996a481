/**
 * Facts about sequences in general, stated once so that proofs about
 * particular sequences can cite them instead of re-deriving them.
 */
module Seqs {
  lemma PrefixPush<T>(s: seq<T>, i: nat)
    requires i < |s|
    ensures s[..i + 1] == s[..i] + [s[i]]
  {
  }

  lemma AppendAssociative<T>(a: seq<T>, b: seq<T>, c: seq<T>)
    ensures a + (b + c) == (a + b) + c
  {
  }

  /** Cutting a sequence at two points and gluing the three parts gives it back. */
  lemma ThreeSlices<T>(s: seq<T>, p: int, q: int)
    requires 0 <= p <= q <= |s|
    ensures s[..p] + s[p..q] + s[q..] == s
  {
  }

  lemma InitLast<T>(s: seq<T>)
    requires s != []
    ensures s == s[..|s| - 1] + [s[|s| - 1]]
  {
  }
}
