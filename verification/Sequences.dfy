/** Laws of concatenation that proofs ask for by name. */
module Sequences {
  lemma {:induction false} SumIsAssociative<T>(a: seq<T>, b: seq<T>, c: seq<T>)
    ensures (a + b) + c == a + (b + c)
    ensures a + [] == a == [] + a
  {
  }
}
