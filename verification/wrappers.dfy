/** A success-or-failure value, standing for a Python call that either returns or raises. */
module Wrappers {
  datatype Result<+T, +E> = Success(value: T) | Failure(error: E)
}
