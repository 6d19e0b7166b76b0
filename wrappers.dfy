/** Option, Result and Outcome: the small failure-carrying types the model uses
    for nullable columns, "first()" on an empty query and errors the ORM raises. */
module Wrappers {

  datatype Option<+T> = None | Some(value: T)

  datatype Result<+R, +E> = Success(value: R) | Failure(error: E)

  datatype Outcome<+E> = Pass | Fail(error: E)
}
