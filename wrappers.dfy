/** Error-carrying results for the operations whose source terminates the
    process or reports and returns a placeholder. */
module Wrappers {

  datatype Result<+T, +E> = Success(value: T) | Failure(error: E)
}
