/** The two exception classes the binomial module raises, and the shapes its
    operations return: a check that yields nothing on success, and a
    computation that yields a value or raises. */
module Errors {

  /** Python's `TypeError` (a value of the wrong type) and `ValueError`
      (a value of the right type outside the allowed domain). */
  datatype Error = TypeError | ValueError

  /** The result of a validator: it returns `None` or raises. */
  datatype Outcome = Pass | Fail(error: Error)

  /** The result of a computation: a value, or the exception it raises. */
  datatype Result<+T> = Ok(value: T) | Err(error: Error)
}
