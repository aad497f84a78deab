/** Result types of FolderFlect: the non-generic `Result` (success flag and
    message) and the generic `Result<T>` (a value or a message), plus Option
    for the few places where the C# code can see a null. */
module Wrappers {

  datatype Option<+T> = None | Some(value: T)

  /** The generic `Result<T>`: `Success(value)` or `Fail(message)`. */
  datatype Result<+T> = Success(value: T) | Fail(message: string)

  /** The non-generic `Result`: `IsSuccess` is `Ok?`; a failure carries its message. */
  datatype Status = Ok | Err(message: string)
}
