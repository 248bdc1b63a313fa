module Wrappers {
  datatype Option<+T> = None | Some(value: T)

  datatype Result<+T, +E> = Ok(value: T) | Error(error: E)

  function When<T>(condition: bool, x: T): seq<T> {
    if condition then [x] else []
  }
}
