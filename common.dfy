/** Failure-carrying values shared by the modules of the backup tool's model:
    Rust's `Option<T>` and `Result<T, E>`. */
module Common {

  datatype Option<+T> = None | Some(value: T)

  datatype Result<+T, +E> = Ok(value: T) | Err(error: E)
}
