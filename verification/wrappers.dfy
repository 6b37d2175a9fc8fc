/** Option and Result, the two failure-carrying shapes the model needs:
    an absent form value is `None` (JavaScript `undefined`), and a
    validation either yields the accepted data or the list of issues. */
module Wrappers {

  datatype Option<+T> = None | Some(value: T)

  datatype Result<+R, +E> = Success(value: R) | Failure(error: E)
}
