/** Error tags of core/errors.py and the Option/Result wrappers the model uses for
    Python's `None` and for raised exceptions. */
module Errors {

  datatype Option<+T> = None | Some(value: T)

  /** The two `RAGError` subclasses the retrieval core raises. */
  datatype Error = RetrievalError | GenerationError

  /** A call that either returns a value or raises one of the tagged errors. */
  datatype Result<+T> = Ok(value: T) | Err(error: Error)

  function Min(a: int, b: int): int
  {
    if a <= b then a else b
  }

  /** Python's `s[:k]` for `k >= 0`. */
  function Take<T>(s: seq<T>, k: nat): (r: seq<T>)
    ensures |r| == Min(k, |s|)
    ensures r == s[..|r|]
  {
    if k <= |s| then s[..k] else s
  }
}
