/** Failure-compatible wrappers shared by the cache and credential models:
    `Option` stands for a Java reference that may be null, `Result` for a call
    that either returns a value or throws, `Outcome` for a `void` call that
    either returns normally or throws. */
module Wrappers {

  datatype Option<+T> = None | Some(value: T)

  datatype Result<+R, +E> = Ok(value: R) | Err(error: E)

  datatype Outcome<+E> = Pass | Fail(error: E)
}
