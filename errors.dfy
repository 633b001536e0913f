/** The two error kinds the interval structures raise, and the vector's
    arithmetic and construction errors, as values instead of exceptions. */
module Errors {

  datatype Error =
    | DomainError      // ValueError: a union or intersection of intervals with no shared integer
    | KeyNotFound      // KeyError: remove of an absent element, pop of an empty set
    | ZeroDivision     // ZeroDivisionError: `%` by a zero element
    | NotIterable      // TypeError: a single integer passed where the elements are expected
    | NotAnInteger     // an element that is itself a tuple: outside the integer model

  datatype Result<+T> = Ok(value: T) | Err(error: Error)

  datatype Outcome = Pass | Fail(error: Error)
}
