/** Option and Result values standing in for Python's `None` and for raised
    exceptions, plus Python's sequence indexing. */
module Wrappers {

  /** A value that may be missing, as Python's `None`. */
  datatype Option<+T> = None | Some(value: T)

  /** Either a computed value or the exception the Python code would raise. */
  datatype Result<+T, +E> = Success(value: T) | Failure(error: E) {

    predicate IsFailure() {
      Failure?
    }

    function PropagateFailure<U>(): Result<U, E>
      requires Failure?
    {
      Failure(error)
    }

    function Extract(): T
      requires Success?
    {
      value
    }
  }

  /** The Python exceptions the modelled code can raise. */
  datatype Exception =
    | KeyError(key: string)                         // a dict lookup of a missing key
    | IndexError                                    // a list or tuple index out of range
    | ValueError                                    // a failed unpack of `split` or a failed `int()`
    | TypeError                                     // arithmetic with a `None` data value
    | ZeroDivisionError                             // `%` by the length of an empty name list
    | MissingDataValue(block: string, key: string)  // the explicit "requires a data value mapping" error

  /** Python's `s[i]` on a list or tuple: negative indices count from the end. */
  function PyIndex<T>(s: seq<T>, i: int): (r: Option<T>)
    ensures r.Some? <==> -|s| <= i < |s|
  {
    if 0 <= i < |s| then Some(s[i])
    else if -|s| <= i < 0 then Some(s[|s| + i])
    else None
  }
}
