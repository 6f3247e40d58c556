/** Optional values and results, for the sketches' "nothing here" and thrown-error paths. */
module Options {

  datatype Option<T> = None | Some(value: T)

  datatype Result<T> = Ok(value: T) | Err(message: string)
}
