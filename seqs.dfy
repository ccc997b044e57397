/**
 * Facts about sequence concatenation, stated once so that the proofs that
 * need them do not have to rediscover them next to larger definitions.
 */
module Seqs {
  lemma SnocSplit<T>(s: seq<T>, t: seq<T>)
    requires |t| > 0
    ensures t == t[..|t| - 1] + [t[|t| - 1]]
    ensures s + t == (s + t[..|t| - 1]) + [t[|t| - 1]]
  {
  }

  lemma Associative<T>(a: seq<T>, b: seq<T>, c: seq<T>)
    ensures (a + b) + c == a + (b + c)
  {
  }

  lemma EmptyRight<T>(s: seq<T>, t: seq<T>)
    requires |t| == 0
    ensures s + t == s
  {
  }

  /** An element of a prefix is the element of the whole at the same index. */
  lemma PrefixElement<T>(s: seq<T>, t: seq<T>, i: int)
    requires s <= t && 0 <= i < |s|
    ensures s[i] == t[i] && s[i] in t
  {
  }
}
