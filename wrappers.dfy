/** Option and Result, the two failure-carrying types the model uses. */
module Wrappers {

  datatype Option<+T> = None | Some(value: T)

  /** The errors the pipeline raises, one constructor per kind of failure. */
  datatype Error =
    | MissingColumns(required: seq<string>)  // explicit ValueError from a column check
    | KeyNotFound(names: seq<string>)         // pandas KeyError from a column lookup
    | NoGroups                                // pd.concat of an empty list of groups
    | BadTimestamp                            // a time value that cannot be read as seconds
    | DuplicateEntries                        // pivot over a repeated (index, column) pair
    | FitFailed                               // the regression fit raised
    | LengthMismatch                          // a row assignment of the wrong length

  datatype Result<+R> = Ok(value: R) | Err(error: Error)
}
