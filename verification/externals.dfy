/**
 * The library functions the system calls but whose code is not part of this
 * model, gathered as function values so that every caller states which one
 * it uses. Their promised ranges are written into their types.
 */
module Externals {
  import opened Wrappers

  /** A similarity score, in [0, 1]. */
  type Score = r: real | 0.0 <= r <= 1.0 witness 0.0

  /** A cosine of two vectors, in [-1, 1]. */
  type Cosine = r: real | -1.0 <= r <= 1.0 witness 0.0

  datatype Oracles = Oracles(
    /** `jellyfish.jaro_winkler_similarity`. */
    jaroWinkler: (string, string) -> Score,
    /** Cosine of the count vectors of two bags of n-grams (counts are non-negative, so it lies in [0, 1]). */
    gramCosine: (seq<string>, seq<string>) -> Score,
    /** Cosine of the embedding vectors fetched for two strings; 0 when either fetch failed (zero vector). */
    embeddingCosine: (string, string) -> Cosine,
    /** `hashlib.md5(s.encode()).hexdigest()`. */
    md5: string -> string,
    /** `difflib.get_close_matches(value, terms, n=1, cutoff)`, as an optional first element. */
    closeMatch: (string, seq<string>, real) -> Option<string>,
    /** Python's `str(x)` of a float. */
    floatRepr: real -> string,
    /** Python's `f"{x:.4f}"`. */
    fixed4: real -> string)
  {
    /** `get_close_matches` only ever returns elements of the list it is given. */
    ghost predicate Sound()
    {
      forall v, terms, cutoff :: closeMatch(v, terms, cutoff).Some? ==> closeMatch(v, terms, cutoff).value in terms
    }
  }
}
