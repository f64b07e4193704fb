/** Option and Result, the failure-compatible wrappers the rest of the model uses,
    and the one error type every parser and accessor reports. */
module Wrappers {

  datatype Option<+T> = None | Some(value: T) {
    predicate IsFailure() { None? }

    function PropagateFailure<U>(): Option<U>
      requires None?
    {
      None
    }

    function Extract(): T
      requires Some?
    {
      value
    }
  }

  datatype Result<+R, +E> = Success(value: R) | Failure(error: E) {
    predicate IsFailure() { Failure? }

    function PropagateFailure<U>(): Result<U, E>
      requires Failure?
    {
      Failure(error)
    }

    function Extract(): R
      requires Success?
    {
      value
    }
  }
}

/** The exceptions the analyzer can raise while loading or querying a run.
    Each one aborts the Python program; here each is a `Failure` value. */
module Errors {

  datatype Error =
    | NotAnInteger(token: string)  // int() of a token that is not a decimal integer (ValueError)
    | MissingToken(index: nat)     // indexing past the end of a token list (IndexError)
    | NoKeyValue(line: string)     // `key, val = line.split(' ', 1)` on a line without a space
    | UnknownName(name: string)    // `MoleculeType[name]` / `MovementType[name]` (KeyError)
    | NotATriple(group: string)    // `step, tx, rx = data.split('/')` with other than 3 parts
    | NoSuchFile(path: string)     // open() of a file that does not exist
    | EmptyData                    // np.max / np.min of an empty array
    | MissingKey(key: string)      // config[key] for a key the file never set (KeyError)
    | AbsentLog                    // attribute never set because its optional log was absent
    | DivisionByZero               // `/` by an empty list's length
    | NotDefined                   // Analyzer.getValue on a selector it does not handle
}
