/** Failure-carrying values shared by the whole model. `Result` mirrors the
    `Result<T, E>` of the modelled library; `Option` mirrors `Option<T>`. */
module Results {

  datatype Option<+T> = None | Some(value: T)

  datatype Result<+T, +E> = Ok(value: T) | Err(error: E)
}
