/** Facts about sequences that the other modules share. */
module Seqs {
  /** Concatenation regroups freely. */
  lemma ConcatAssoc<T>(x: seq<T>, y: seq<T>, z: seq<T>)
    ensures x + (y + z) == x + y + z
  {
  }

  /** A non-empty sequence is its first element followed by the rest. */
  lemma HeadTail<T>(s: seq<T>)
    requires s != []
    ensures s == [s[0]] + s[1..]
  {
  }

  /** A sequence holding `t` from position `n` on is its part before, `t`, and its part after. */
  lemma AroundSlice<T>(s: seq<T>, n: nat, t: seq<T>)
    requires n + |t| <= |s| && t == s[n..n + |t|]
    ensures s == s[..n] + t + s[n + |t|..]
  {
    SplitThree(s, n, n + |t|);
  }

  /** A sequence is its three slices at two cut points, one after another. */
  lemma SplitThree<T>(s: seq<T>, i: nat, j: nat)
    requires i <= j <= |s|
    ensures s == s[..i] + s[i..j] + s[j..]
  {
    assert s[..j] == s[..i] + s[i..j];
    assert s == s[..j] + s[j..];
  }
}
