/** Failure-carrying values shared by the parsers and the writers.
    The source raises Python's KeyError in two situations: a row lacks a
    column a parser reads, or a writer looks up a cross-reference that an
    earlier stage did not commit. Both are modelled as values here. */
module Errors {

  datatype Option<+T> = None | Some(value: T)

  /** Why a read or a write stopped. */
  datatype Error =
    | MissingColumn(column: string)                  // row[column] on a row without it
    | MissingReference(collection: string, key: string)  // linked_entities[collection][key] without the key

  datatype Result<+T> = Ok(value: T) | Err(error: Error) {
    predicate IsFailure() { Err? }

    function PropagateFailure<U>(): Result<U>
      requires Err?
    {
      Err(error)
    }

    function Extract(): T
      requires Ok?
    {
      value
    }
  }

  /** The outcome of an operation that returns nothing but may raise. */
  datatype Outcome = Pass | Fail(error: Error)
}
