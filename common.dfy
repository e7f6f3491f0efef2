/** Shared value types: the usual Option/Result pair and the identifiers of stored rows. */
module Common {

  datatype Option<+T> = None | Some(value: T) {
    function GetOr(default: T): T
    {
      match this
      case Some(v) => v
      case None => default
    }
  }

  datatype Result<+R, +E> = Success(value: R) | Failure(error: E)

  /** Primary keys of the relational store (Django's auto-increment ids). */
  type UserId = nat
  type ListingId = nat
  type CartId = nat
  type ItemId = nat
}
