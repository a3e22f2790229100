/** Small shared vocabulary: an optional value (Kotlin's nullable types,
    Swift's optionals) and the two native shells that run the splash logic. */
module Common {

  datatype Option<+T> = None | Some(value: T) {
    /** Kotlin's `?:`: the value, or `default` when there is none. */
    function GetOr(default: T): T {
      match this
      case Some(v) => v
      case None => default
    }
  }

  /** The launch gate exists twice: a Kotlin activity and a Swift view controller. */
  datatype Platform = Android | Ios
}
