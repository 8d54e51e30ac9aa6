/** The exceptions a universe raises, and the wrappers that carry them. */
module Errors {
  import opened Tables

  datatype Error =
    | IdColumnError(message: string)   // the identifier column cannot be resolved on import
    | UnsupportedFormat                // a storage extension outside the whitelist
    | UniverseFilenameNotSet           // save with no target file
    | KeyError(key: Cell)              // a column label that a dataset or price frame lacks
    | IndexError                       // the first sheet of an archive that has no sheets
    | ParseError(format: string)       // bytes that do not parse in the format the file name names
    | HeadersNeeded                    // tablib refusing a new column without a header
    | ValueError(message: string)      // pandas refusing to concatenate no series at all

  datatype Result<T> = Ok(value: T) | Err(error: Error)

  datatype Outcome = Pass | Fail(error: Error)

  datatype Option<T> = None | Some(value: T)

  /** Python's truth test on an optional string: None and '' are both false. */
  predicate Truthy(o: Option<string>)
  {
    o.Some? && o.value != ""
  }
}
