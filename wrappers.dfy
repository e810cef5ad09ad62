/** Failure-carrying datatypes shared by the model, and the Python exceptions
    the modelled code can raise. */
module Wrappers {

  datatype Option<+T> = None | Some(value: T)

  datatype Result<+T> = Success(value: T) | Failure(error: Error)

  /** The outcome of an operation that returns nothing but may raise. */
  datatype Outcome = Pass | Fail(error: Error)

  /** The exceptions the core raises or lets escape. */
  datatype Error =
    | KeyError(key: string)          // a dict lookup or pop on a missing key
    | TypeError                      // float(None) inside isfloat
    | StopIteration                  // next() on a generator with no dict item
    | FileNotFoundError(path: string) // open(path, 'r') on a missing file
    | ValueError(key: string)        // update_setting with an unknown key
}
