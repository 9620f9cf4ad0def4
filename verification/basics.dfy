/** Small failure-carrying datatypes shared by the modules of this model.
    JavaScript's `null` becomes `None`, and a thrown error becomes `Err`
    carrying a message that identifies it. */
module Basics {

  datatype Option<T> = None | Some(value: T)

  datatype Result<T> = Ok(value: T) | Err(error: string)
}
