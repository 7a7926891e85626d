/** Option and Result, and the exceptions the translator can raise. */
module Wrappers {

  datatype Option<+T> = None | Some(value: T)

  /** The .NET exceptions the modelled code throws (or lets escape). */
  datatype Exception =
    | DuplicateKey        // Dictionary.Add on a key that is already present
    | KeyNotFound         // a dictionary indexer on an absent key
    | InvalidOperation    // InvalidOperationException
    | NotImplemented      // NotImplementedException
    | LookupFailed        // the plain Exception of the index scans
    | InvalidCast         // a failing (T)x cast
    | IndexOutOfRange     // IndexOutOfRangeException: an array index out of range
    | ArgumentOutOfRange  // ArgumentOutOfRangeException: a List<T> or Collection<T> index out of range
    | AbsentValue         // reading the value of a null Nullable<T>
    | NullHandle          // a null LLVM handle handed to LLVM

  datatype Result<+T> = Success(value: T) | Failure(error: Exception)

  datatype Outcome = Pass | Fail(error: Exception)
}
