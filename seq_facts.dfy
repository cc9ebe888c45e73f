/** Generic facts about sequences that the proofs share. */
module SeqFacts {
  /** Concatenation is associative; stated once so that a proof can name the regrouping it needs. */
  lemma AppendAssoc<T>(a: seq<T>, b: seq<T>, c: seq<T>)
    ensures (a + b) + c == a + (b + c)
  {
  }
}
