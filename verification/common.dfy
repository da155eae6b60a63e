/** Small value types shared by the three pages of the flashcard client. */
module Common {

  datatype Option<+T> = None | Some(value: T) {
    /** The value, or `fallback` when it is missing. */
    function GetOr(fallback: T): T {
      match this
      case Some(v) => v
      case None => fallback
    }
  }

  datatype Result<+T, +E> = Ok(value: T) | Err(error: E)

  /** What a `fetch` round trip yields to its caller: Failed when the request
      or the decoding of its body threw, or when the page checks `res.ok` and it
      is false; otherwise the decoded JSON body. */
  datatype Response<+T> = Failed | Body(value: T)

  /** The keys the pages react to (`KeyboardEvent.key`); every other key is OtherKey. */
  datatype Key = ArrowRight | ArrowLeft | Enter | Escape | Space | OtherKey

  function Min(a: int, b: int): int {
    if a <= b then a else b
  }

  /** JavaScript's `xs.slice(0, n)` for a non-negative `n`: the first `n`
      elements, or all of them when there are fewer. */
  function Take<T>(xs: seq<T>, n: nat): (r: seq<T>)
    ensures |r| == Min(|xs|, n)
    ensures r <= xs
  {
    if |xs| <= n then xs else xs[..n]
  }
}
