/** Embedding vectors and the guard both cosine-similarity implementations
    share. The arithmetic itself (dot product over the product of norms) is a
    function parameter; only the cases that short-circuit to 0 are modelled. */
module Vectors {

  type Vector = seq<real>

  /** A vector whose Euclidean norm is 0: every component is 0. */
  predicate IsZero(v: Vector)
  {
    forall i :: 0 <= i < |v| ==> v[i] == 0.0
  }

  /** The inputs for which the arithmetic actually runs: both vectors non-empty,
      of equal length, and of non-zero norm. */
  predicate Comparable(a: Vector, b: Vector)
  {
    |a| > 0 && |b| > 0 && |a| == |b| && !IsZero(a) && !IsZero(b)
  }

  /** Cosine similarity with its guards: 0 for an empty vector, for vectors of
      different length (the explicit length test in the store, the exception
      from the array library in the embedding service) and for a zero-norm
      vector; otherwise whatever `cosine` computes. */
  function Cosine(a: Vector, b: Vector, cosine: (Vector, Vector) -> real): (r: real)
    ensures !Comparable(a, b) ==> r == 0.0
    ensures r != 0.0 ==> Comparable(a, b) && r == cosine(a, b)
  {
    if |a| == 0 || |b| == 0 || |a| != |b| then 0.0
    else if IsZero(a) || IsZero(b) then 0.0
    else cosine(a, b)
  }

  /** The guard is symmetric, so the similarity is symmetric whenever the arithmetic is. */
  lemma CosineSymmetric(a: Vector, b: Vector, cosine: (Vector, Vector) -> real)
    requires cosine(a, b) == cosine(b, a)
    ensures Cosine(a, b, cosine) == Cosine(b, a, cosine)
  {
  }
}
