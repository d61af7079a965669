/** Optional values and results with an error, used for the "nothing to show"
    and "rejected" outcomes of the finance tracker. */
module Results {

  datatype Option<+T> = None | Some(value: T)

  datatype Result<+T, +E> = Ok(value: T) | Err(error: E)
}
