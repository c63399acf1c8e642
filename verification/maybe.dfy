/** An optional value: stands for TypeScript's `T | undefined` / `T | null`
    and for an optional property of a record. */
module Maybe {

  datatype Option<+T> = None | Some(value: T) {

    /** The value, or `default` when absent. */
    function GetOr(default: T): T {
      match this
      case Some(v) => v
      case None => default
    }
  }

  /** JavaScript truthiness of a number that may be missing (`undefined` or
      an unparsable `NaN`): missing and 0 are falsy. */
  predicate Truthy(x: Option<real>) {
    x.Some? && x.value != 0.0
  }

  /** JavaScript's `x || y` on optional numbers. */
  function Or(x: Option<real>, y: Option<real>): (r: Option<real>)
    ensures Truthy(x) ==> r == x
    ensures !Truthy(x) ==> r == y
  {
    if Truthy(x) then x else y
  }

  /** JavaScript's `x || 0`: a missing value and 0 both give 0. */
  function OrZero(x: Option<real>): (r: real)
    ensures x.Some? ==> r == x.value
    ensures x.None? ==> r == 0.0
  {
    if Truthy(x) then x.value else 0.0
  }
}
