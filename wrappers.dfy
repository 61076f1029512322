/** Optional values and error-or-value results, standing in for JavaScript's
    `undefined`/`null` and for thrown exceptions. */
module Wrappers {

  /** A value that may be absent (`undefined` or `null` in the source). */
  datatype Option<+T> = None | Some(value: T)

  /** Either a value or the message of an exception the source throws. */
  datatype Result<+T> = Ok(value: T) | Err(msg: string)
}
