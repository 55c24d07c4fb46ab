/** Small value types shared by the Python and the JavaScript parts of the model. */
module Base {

  /** Python's `None`-or-value and JavaScript's `null`-or-value. */
  datatype Option<T> = None | Some(value: T)

  /** The outcome of an operation that either returns a value or raises an error. */
  datatype Result<T, E> = Success(value: T) | Failure(error: E)

  /** An embedding vector as the Gemini embedding model returns it. */
  type Embedding = seq<real>

  /** `2 ** k` (Python) and `Math.pow(2, k)` (JavaScript) on natural numbers. */
  function Pow2(k: nat): (r: nat)
    ensures r >= 1
  {
    if k == 0 then 1 else 2 * Pow2(k - 1)
  }

  /** The smaller of two naturals. */
  function Min(a: nat, b: nat): (r: nat)
    ensures r <= a && r <= b && (r == a || r == b)
  {
    if a <= b then a else b
  }
}
