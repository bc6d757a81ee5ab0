/** Generic facts about sequences that the proofs about logs and page
    lists rely on. */
module Seqs {

  /** Concatenation is associative. */
  lemma AppendAssoc<T>(a: seq<T>, b: seq<T>, c: seq<T>)
    ensures (a + b) + c == a + (b + c)
  {
  }

  /** A sequence that is a head followed by `later + last` is the head
      joined with `later`, followed by `last`. */
  lemma Regroup<T>(log: seq<T>, tail: seq<T>, rounds: seq<T>, here: seq<T>, later: seq<T>, last: seq<T>)
    requires log == here + tail && tail == later + last && rounds == here + later
    ensures log == rounds + last
  {
    AppendAssoc(here, later, last);
  }

  /** The first element and the tail of a non-empty prefix `s[..j + 1]`. */
  lemma PrefixCons<T>(s: seq<T>, j: nat)
    requires j + 1 <= |s|
    ensures s[..j + 1][0] == s[0] && s[..j + 1][1..] == s[1..][..j]
  {
  }

  /** A non-empty prefix is its first element followed by a prefix of the rest. */
  lemma PrefixStep<T>(s: seq<T>, k: nat)
    requires 1 <= k <= |s|
    ensures s[..k] == [s[0]] + s[1..][..k - 1]
    ensures s[..k][0] == s[0] && s[..k][1..] == s[1..][..k - 1]
  {
  }
}
