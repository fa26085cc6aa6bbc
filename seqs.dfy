/** Small facts about sequences, stated once for any element type. */
module Seqs {

  lemma MiddleToEnd<T>(a: seq<T>, m: seq<T>, b: seq<T>)
    requires m == [] || b == []
    ensures a + m + b == (a + b) + m
  {
  }

  lemma WholePrefix<T>(s: seq<T>)
    ensures s[..|s|] == s
  {
  }

  lemma SplitAt<T>(s: seq<T>, k: nat)
    requires k <= |s|
    ensures s == s[..k] + s[k..]
  {
  }

  lemma MultisetOfInit<T>(s: seq<T>)
    requires s != []
    ensures multiset(s) == multiset(s[..|s| - 1]) + multiset{s[|s| - 1]}
  {
    assert s == s[..|s| - 1] + [s[|s| - 1]];
  }
}
