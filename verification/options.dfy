/** Failure-compatible wrappers shared by the modules of the sound service model:
    Java's `null` becomes `None`, a thrown exception becomes `Err`. */
module Options {

  datatype Option<+T> = None | Some(value: T)

  datatype Result<+T, +E> = Ok(value: T) | Err(error: E)
}
