/** Slicing facts, stated once so that proofs need not look inside the sequences. */
module Sequences {
  lemma SplitAt<T>(s: seq<T>, k: nat)
    requires k <= |s|
    ensures s[..k] + s[k..] == s
  {
  }

  lemma TakeTake<T>(s: seq<T>, i: nat, k: nat)
    requires i <= k <= |s|
    ensures s[..k][..i] == s[..i]
  {
  }

  lemma TakeAll<T>(s: seq<T>)
    ensures s[..|s|] == s
  {
  }
}
