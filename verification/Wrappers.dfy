/** Optional values, fallible results and files, used by the other modules. */
module Wrappers {
  datatype Option<+T> = None | Some(value: T)

  datatype Result<+T> = Success(value: T) | Failure(error: string)

  /** A file and what it holds; `Partial` is one whose writing was cut short. */
  datatype File<+S> = Missing | Partial | Whole(content: S)

  /** How far one save (make the directory, write a temporary file, rename it) gets. */
  datatype SaveIo = NoDirectory | NotWritten | NotRenamed | Saved

  function Min(a: int, b: int): int {
    if a <= b then a else b
  }
}
