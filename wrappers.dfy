/** Failure-carrying results shared by every puzzle module: a Kotlin call that
    returns null becomes `None`, and a call that throws becomes `Err`. */
module Wrappers {

  datatype Option<+T> = None | Some(value: T)

  /** `Err` carries a short description of the exception the Kotlin code throws. */
  datatype Result<+T> = Ok(value: T) | Err(message: string)
}
