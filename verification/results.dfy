/** Failure types shared by the models of the Python scripts and the Rust gateway. */
module Results {

  datatype Option<+T> = None | Some(value: T)

  datatype Result<+T, +E> = Ok(value: T) | Err(error: E)
}
