/** Values shared by the fetcher, the prompt builder and the UI handlers. */
module Types {

  /** A value that may be `null`/`undefined` in the source. */
  datatype Option<+T> = None | Some(value: T)

  /** The outcome of an awaited call: its value, or the value it threw. */
  datatype Result<+T, +E> = Success(value: T) | Failure(error: E)

  /** What a failed call throws: an `Error` instance with its message, or
      any other thrown value (the UI cannot read a message from it). */
  datatype Thrown = ErrorObject(message: string) | OtherValue

  /** One retrieved file: its repository-relative path and decoded text. */
  datatype RepoFile = RepoFile(path: string, content: string)
}
