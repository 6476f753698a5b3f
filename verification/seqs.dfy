/** Small facts about sequence slicing and concatenation, stated once so that the
    proofs that use them stay cheap. */
module Seqs {
  lemma SplitLast<T>(s: seq<T>)
    requires s != []
    ensures s == s[..|s| - 1] + [s[|s| - 1]]
  {
  }

  lemma PrefixStep<T>(s: seq<T>, i: nat)
    requires i < |s|
    ensures s[..i + 1] == s[..i] + [s[i]]
  {
  }

  lemma PrefixWhole<T>(s: seq<T>)
    ensures s[..|s|] == s
  {
  }

  lemma PrefixOfSnoc<T>(s: seq<T>, x: T, k: nat)
    requires k <= |s|
    ensures (s + [x])[..k] == s[..k]
  {
  }

  lemma PrefixOfPrefix<T>(s: seq<T>, k: nat, j: nat)
    requires j <= k <= |s|
    ensures s[..k][..j] == s[..j]
  {
  }

  lemma AppendEmpty<T>(s: seq<T>)
    ensures s + [] == s
  {
  }

  lemma ConcatAssoc<T>(a: seq<T>, b: seq<T>, c: seq<T>)
    ensures a + (b + c) == (a + b) + c
  {
  }
}
