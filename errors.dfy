/**
 * The two exceptions the library throws, and the result of an operation that
 * may throw one of them.
 */
module Errors {
  import opened Js

  datatype Error =
      /** `asNumber` refused its (defaulted) input: `Failed to interpret "<input>" as a number!` */
    | InvalidNumber(input: Value)
      /** `converter` met a code it does not know: `Unknown time unit <unit>` */
    | UnknownTimeUnit(unit: Value)

  datatype Result<T> = Ok(value: T) | Err(error: Error)
}
