/**
 * The shared `Result<T>` record: a success flag, an optional error message and an
 * optional value, built only through the `Ok`/`OkEmpty`/`Fail` factories.
 */
module Results {

  /** Stands for a value that may be `undefined`/`null`. */
  datatype Option<T> = None | Some(value: T)

  /** The three read-only fields of the source record. */
  datatype Result<T> = Result(success: bool, error: Option<string>, value: Option<T>)

  /** Every factory-built result has `success` exactly when it carries no error. */
  predicate WellFormed<T>(r: Result<T>) {
    r.success <==> r.error.None?
  }

  /** `Result.ok(v)`. */
  function Ok<T>(v: T): (r: Result<T>)
    ensures WellFormed(r) && r.success
    ensures r.value == Some(v)
  {
    Result(true, None, Some(v))
  }

  /** `Result.ok()` called without an argument: success with no value. */
  function OkEmpty<T>(): (r: Result<T>)
    ensures WellFormed(r) && r.success
    ensures r.value.None?
  {
    Result(true, None, None)
  }

  /** `Result.fail(e)`. */
  function Fail<T>(e: string): (r: Result<T>)
    ensures WellFormed(r) && !r.success
    ensures r.error == Some(e) && r.value.None?
  {
    Result(false, Some(e), None)
  }
}
