/**
 * Failure-carrying results and the values the Maux library passes around.
 *
 * The library reports failures by throwing .NET exceptions; the model returns
 * them as values so that each error path is visible in a contract.
 */
module Wrappers {

  datatype Option<+T> = None | Some(value: T)

  /** The .NET exception types the modelled code throws. */
  datatype Error =
    | ArgumentError      // ArgumentException, also what Dictionary.Add throws on a duplicate key
    | KeyNotFound        // KeyNotFoundException, thrown by a dictionary indexer or GetRoutes
    | InvalidOperation   // InvalidOperationException, thrown when no navigation is current

  datatype Result<+T> = Success(value: T) | Failure(error: Error)

  /** The outcome of an operation that returns nothing but may throw. */
  datatype Outcome = Pass | Fail(error: Error)

  /**
   * A C# `object?`: null, a string, or any other object (known only by identity).
   * Intents and navigation parameter values are of this type.
   */
  datatype Value = Null | Str(s: string) | Obj(id: nat)

  /** The reserved navigation parameter that carries an intent (`MauxIntent.ParameterName`). */
  const IntentParameterName: string := "{Intent}"
}
