/** Values shared by several components: optional values and the
    JavaScript `||` fallback on an optional string. */
module Common {

  datatype Option<+T> = None | Some(value: T) {
    function GetOr(default: T): T {
      match this
      case Some(v) => v
      case None => default
    }
  }

  /** `value || fallback` where `value` is a string that may be missing:
      a missing value and the empty string are both falsy. */
  function OrElse(value: Option<string>, fallback: string): (r: string)
    ensures value.Some? && value.value != "" ==> r == value.value
    ensures (value.None? || value.value == "") ==> r == fallback
  {
    if value.Some? && value.value != "" then value.value else fallback
  }

  /** Outcome of an awaited store call (Firestore or the REST API):
      it either resolves or throws. */
  datatype Outcome = Resolved | Threw
}
