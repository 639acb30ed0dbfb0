/** The success-or-failure value returned by a schema's safe parse. */
module Wrappers {

  datatype Result<+R, +E> = Success(value: R) | Failure(error: E)

}
