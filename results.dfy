/** Option and Result values: how the model states "a JavaScript value may be
    null" and "this call threw". */
module Results {

  datatype Option<+T> = None | Some(value: T)

  datatype Result<+T, +E> = Ok(value: T) | Err(error: E)
}
