/** Small option and fetch-outcome datatypes shared by the whole model. */
module Wrappers {

  /** A value that may be absent (a missing field, an `undefined` or `null` in the source). */
  datatype Option<+T> = None | Some(value: T)

  /** The outcome of a database read done before the scoring code runs:
      either the fetched documents or a failure that the caller's
      `try`/`catch` turns into a zeroed result. */
  datatype Fetch<+T> = Fetched(value: T) | FetchFailed
}
