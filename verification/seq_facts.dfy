/**
 * Small facts about sequences, each proved on its own so that the proofs
 * using them do not have to rediscover them among many other terms.
 */
module SeqFacts {

  lemma DropLastSnoc<T>(s: seq<T>)
    requires |s| > 0
    ensures s[..|s| - 1] + [s[|s| - 1]] == s
  {
  }

  lemma TakeAll<T>(s: seq<T>, n: nat)
    requires n == |s|
    ensures s[..n] == s
  {
  }

  lemma PrefixSnoc<T>(a: seq<T>, b: seq<T>, x: T)
    requires a <= b
    ensures a <= b + [x]
  {
  }
}
