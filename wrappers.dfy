/**
 * Outcome types shared by the whole model.
 *
 * A Python function of the service either returns a value, raises an
 * `HTTPException` (which FastAPI turns into a status code and a detail
 * string), or lets some other exception escape.  `Result` carries the first
 * case as `Ok` and the two others as `Err(Http(..))` and `Err(Raised(..))`.
 */
module Wrappers {

  datatype Option<T> = None | Some(value: T)

  /** The three outcomes of SQLAlchemy's `scalar_one_or_none()`. */
  datatype Lookup<T> = NoRow | OneRow(row: T) | ManyRows

  /** Exceptions that escape the service instead of becoming an HTTP error. */
  datatype Exception =
    | MultipleResultsFound    // scalar_one_or_none() saw more than one row
    | IntegrityError          // a unique constraint of the database was violated
    | IndexError              // a list was indexed past its end
    | ValidationError         // a response schema rejected the value it was given

  datatype Failure = Http(status: int, detail: string) | Raised(exception: Exception)

  datatype Result<T> = Ok(value: T) | Err(failure: Failure) {
    predicate IsFailure() { Err? }

    function PropagateFailure<U>(): Result<U>
      requires Err?
    {
      Err(failure)
    }

    function Extract(): T
      requires Ok?
    {
      value
    }
  }

  /** The unit value, for operations that only succeed or fail. */
  datatype Unit = Unit

  /** `scalar_one_or_none()` over the rows a query selected. */
  function ScalarOneOrNone<T>(rows: seq<T>): (r: Lookup<T>)
    ensures r.NoRow? <==> |rows| == 0
    ensures r.OneRow? <==> |rows| == 1
    ensures r.OneRow? ==> rows == [r.row]
  {
    if |rows| == 0 then NoRow
    else if |rows| == 1 then OneRow(rows[0])
    else ManyRows
  }

  /** What the caller of `scalar_one_or_none()` sees: a value, `None`, or the exception. */
  function LookupResult<T>(l: Lookup<T>): Result<Option<T>>
  {
    match l
    case NoRow => Ok(None)
    case OneRow(x) => Ok(Some(x))
    case ManyRows => Err(Raised(MultipleResultsFound))
  }
}
