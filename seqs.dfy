/** Facts about sequences that several components share. */
module Seqs {

  /** Sequence concatenation is associative; stated once so that loops which
      append to an accumulator can regroup `acc + part + rest`. */
  lemma AppendAssoc<T>(a: seq<T>, b: seq<T>, c: seq<T>)
    ensures (a + b) + c == a + (b + c)
  {
  }
}
