/** Errors of the executor, as the judge tells them apart. */
module Errors {

  datatype ErrorKind = CompileKind | TimeKind | MemoryKind | RuntimeKind | UnhealthyKind

  /** An execution error with its kind and its own message, the context's deadline, or any other error;
      `text` is what the whole error says, whatever it is wrapped in. */
  datatype ExecError =
    | Execution(kind: ErrorKind, message: string, text: string)
    | Deadline(text: string)
    | Other(text: string)
}
