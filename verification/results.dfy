/** Failure-compatible result and option types shared by the zone compiler.
    The Go code signals every compile error by a panic that readZoneFile
    recovers into one error value; here each failure is an ordinary value. */
module Results {

  /** Why a scalar, a record or a whole document was rejected. */
  datatype Error =
    | BadValue(reason: string)
    | BadRecord(labelName: string, kind: string)
    | BadDocument(reason: string)
    | DirectoryUnreadable(reason: string)

  datatype Option<+T> = None | Some(value: T)

  datatype Result<+T> = Success(value: T) | Failure(error: Error) {

    predicate IsFailure() {
      Failure?
    }

    function PropagateFailure<U>(): Result<U>
      requires Failure?
    {
      Failure(error)
    }

    function Extract(): T
      requires Success?
    {
      value
    }

    /** Applies f to a success value and keeps a failure as it is. */
    function MapValue<U>(f: T -> U): Result<U> {
      match this
      case Success(v) => Success(f(v))
      case Failure(e) => Failure(e)
    }
  }
}
