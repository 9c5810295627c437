/** The optional value used wherever Kotlin returns a nullable result
    (`readlnOrNull()`, `toIntOrNull()`, `indexOf` returning -1). */
module Wrappers {

  datatype Option<+T> = None | Some(value: T) {

    /** Kotlin's elvis operator `x ?: default`. */
    function GetOr(default: T): T {
      match this
      case Some(v) => v
      case None => default
    }
  }
}
