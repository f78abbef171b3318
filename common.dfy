/** Small value types shared by every page model. */
module Common {

  /** A value that may be absent: JavaScript's `undefined`/`null` on an optional field. */
  datatype Option<+T> = None | Some(value: T) {
    function GetOr(default: T): T {
      match this
      case Some(v) => v
      case None => default
    }
  }

  /** How an awaited mutation settled: `.unwrap()` resolved, or it rejected (threw). */
  datatype Outcome = Success | Failure
}
