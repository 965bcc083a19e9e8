/** Failure-compatible result type, used for the (handler, error) pair that
    YAMLHandler returns and for the outcome of parsing a YAML document. */
module Wrappers {

  /** Either a value or an error; never both, never neither. */
  datatype Result<+T, +E> = Success(value: T) | Failure(error: E)
}
