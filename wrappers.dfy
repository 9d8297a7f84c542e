/** Failure-carrying results shared by every module of the model. */
module Wrappers {

  datatype Option<+T> = None | Some(value: T)

  datatype Result<+T, +E> = Ok(value: T) | Err(error: E) {
    predicate IsFailure() { Err? }

    function PropagateFailure<U>(): Result<U, E>
      requires Err?
    {
      Err(error)
    }

    function Extract(): T
      requires Ok?
    {
      value
    }
  }

  /** The exceptions the packaging code raises, one constructor per kind the callers can tell apart. */
  datatype Error =
    | ModuleNotFound(name: string)          // ModuleNotFoundError / ImportError
    | NotExportable(name: string)           // ModuleNotFoundError for a name loaded from a package
    | AssertionFailed                       // AssertionError (mangling the empty name)
    | BadGlob(component: string)            // ValueError: `**` inside a larger segment
    | MockedOut(name: string)               // NotImplementedError: "... was mocked out ..."
    | FileNotFound(resource: string)        // FileNotFoundError from resource_path
    | NotAPackage(name: string)             // TypeError: a plain module has no resource reader
    | EmptyModuleName                       // ValueError: importing the empty name
    | MissingRecord(path: seq<string>)      // reading a record the archive does not hold
}
