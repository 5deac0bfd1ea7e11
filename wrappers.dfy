/** Option and Result, and the Python runtime errors the modelled code can raise. */
module Wrappers {

  datatype Option<+T> = None | Some(value: T)

  datatype Result<+T, +E> = Ok(value: T) | Err(error: E)

  /** The exceptions of the Python code that the model surfaces as values. */
  datatype PyError =
    | IndexError   // list index out of range, pop from an empty list
    | KeyError     // missing key in a dict lookup
    | ValueError   // int() of a string that is not a number
    | TypeError    // iterating over None
    | AttributeError  // calling a string method on None

  /** Python's `xs[i]` on a list: negative indices count from the end. */
  function PyIndex<T>(xs: seq<T>, i: int): (r: Result<T, PyError>)
    ensures r.Ok? <==> -|xs| <= i < |xs|
    ensures 0 <= i < |xs| ==> r == Ok(xs[i])
    ensures -|xs| <= i < 0 ==> r == Ok(xs[|xs| + i])
  {
    if 0 <= i < |xs| then Ok(xs[i])
    else if -|xs| <= i < 0 then Ok(xs[|xs| + i])
    else Err(IndexError)
  }
}
