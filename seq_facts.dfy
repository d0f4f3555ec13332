/** Generic facts about sequences used by the loop proofs. */
module SeqFacts {

  /** Concatenation is associative (stated once so that loop proofs need not rediscover it). */
  lemma AppendAssoc<T>(a: seq<T>, b: seq<T>, c: seq<T>)
    ensures (a + b) + c == a + (b + c)
  {
  }
}
