/** Results of the crawler's operations: a value, or the exception that the
    Python code would raise instead of returning. */
module Outcome {

  datatype Option<+T> = None | Some(value: T)

  /** The kinds of exception the modelled code raises and its callers tell apart. */
  datatype Error =
    | MissingTable   // a SELECT against a DuckDB file in which save_to_duckdb never ran
    | MissingColumn  // a pandas KeyError for a column the weight table lacks
    | ValueError     // int() or float() given text that is not a number

  datatype Result<+T> = Ok(value: T) | Raises(error: Error)
}
