/** Optional values and the outcomes of the analyser: a value, or the error it ends with. */
module Outcomes {

  datatype Option<T> = None | Some(value: T)

  /** The ways an analysis run can end without a report.
      ParseFailed and InvalidSpec are the two errors the parser raises itself;
      TypeError is the runtime error JavaScript raises when the code reads a
      property of null/undefined or calls a method a value does not have. */
  datatype Error = ParseFailed | InvalidSpec | TypeError

  datatype Result<T> = Ok(value: T) | Err(error: Error)
}
