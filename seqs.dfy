/** Two facts about sequence concatenation that proofs over whole byte streams cite by
    name, so the solver need not rediscover them on long concrete concatenations. */
module Seqs {
  lemma ConcatAssoc<T>(a: seq<T>, b: seq<T>, c: seq<T>)
    ensures a + (b + c) == (a + b) + c
  {
  }

  lemma ConcatEmpty<T>(a: seq<T>)
    ensures a + [] == a
  {
  }
}
