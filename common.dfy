/** Small shared vocabulary: an optional value, integer helpers and the account roles. */
module Common {

  /** The `Role` enum of the user table. */
  datatype Role = ADMIN | USER

  /** An absent or present value (`undefined`/`null` versus a value in the source). */
  datatype Option<+T> = None | Some(value: T) {
    function GetOr(default: T): T {
      match this
      case Some(v) => v
      case None => default
    }
  }

  function Min(a: int, b: int): int { if a <= b then a else b }

  function Max(a: int, b: int): int { if a >= b then a else b }
}
