/** Facts about sequences that several modules use. */
module Seqs {

  /** A non-empty sequence is its front followed by its last element. */
  lemma SplitLast<T>(s: seq<T>)
    requires |s| > 0
    ensures s == s[..|s| - 1] + [s[|s| - 1]]
  {
  }

  /** The prefix of length i + 1 is the prefix of length i followed by element i. */
  lemma TakeSnoc<T>(s: seq<T>, i: nat)
    requires i < |s|
    ensures s[..i + 1] == s[..i] + [s[i]]
  {
  }

  /** An element that is not among the first n lies at position n or later. */
  lemma PastPrefix<T>(s: seq<T>, n: nat, j: nat)
    requires n <= |s| && j < |s| && s[j] !in s[..n]
    ensures n <= j
  {
  }

  /** The suffix from position i starts with element i and continues with the suffix from i + 1. */
  lemma DropFirst<T>(s: seq<T>, i: nat)
    requires i < |s|
    ensures s[i..][0] == s[i] && s[i..][1..] == s[i + 1..]
  {
  }
}
