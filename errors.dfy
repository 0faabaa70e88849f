/**
 * Error taxonomy of the backend (typetrace/common/errors.hpp): four error
 * categories, an error value carrying a category and a message, the
 * factories that build each category, and the `std::expected` result shapes
 * the rest of the model returns.
 */
module Errors {

  /** Error categories. */
  datatype ErrorCode = System | Database | Permission | Environment

  /** An error: its category and its message. */
  datatype Error = Error(code: ErrorCode, message: string)

  /** `std::expected<T, Error>`. */
  datatype Result<+T> = Ok(value: T) | Err(error: Error) {
    predicate IsFailure() { Err? }

    function PropagateFailure<U>(): Result<U>
      requires Err?
    {
      Err(error)
    }

    function Extract(): T
      requires Ok?
    {
      value
    }
  }

  /** `std::expected<void, Error>`. */
  datatype Outcome = Pass | Fail(error: Error)

  /** The `Error(code, message)` constructor: it keeps both arguments as given. */
  function MakeError(code: ErrorCode, message: string): (e: Error)
    ensures e.code == code && e.message == message
  {
    Error(code, message)
  }

  function MakeSystemError(message: string): (e: Error)
    ensures e.code == System && e.message == message
  {
    MakeError(System, message)
  }

  function MakeDatabaseError(message: string): (e: Error)
    ensures e.code == Database && e.message == message
  {
    MakeError(Database, message)
  }

  function MakePermissionError(message: string): (e: Error)
    ensures e.code == Permission && e.message == message
  {
    MakeError(Permission, message)
  }

  function MakeEnvironmentError(message: string): (e: Error)
    ensures e.code == Environment && e.message == message
  {
    MakeError(Environment, message)
  }

  /** The factory an error came from is recoverable from its code, and its message is kept. */
  lemma FactoriesAreDistinct(m1: string, m2: string)
    ensures MakeSystemError(m1) != MakeDatabaseError(m2)
    ensures MakeSystemError(m1) != MakePermissionError(m2)
    ensures MakeSystemError(m1) != MakeEnvironmentError(m2)
    ensures MakeDatabaseError(m1) != MakePermissionError(m2)
    ensures MakeDatabaseError(m1) != MakeEnvironmentError(m2)
    ensures MakePermissionError(m1) != MakeEnvironmentError(m2)
    ensures MakeSystemError(m1) == MakeSystemError(m2) <==> m1 == m2
  {
  }
}
