/** Values shared by every handler: optional request fields, handler outcomes,
    identifiers, and JavaScript truthiness of string fields. */
module Base {

  /** A request field or a document field that may be absent (`undefined`). */
  datatype Option<T> = None | Some(value: T) {
    function GetOr(default: T): T {
      match this
      case Some(v) => v
      case None => default
    }
  }

  /** The identifier a verified token carries and that documents store in `user`. */
  type UserId = string

  /** Identifier of an experience or education item (a store-generated ObjectId). */
  type ItemId = nat

  /** Identifier of a post document (a store-generated ObjectId). */
  type PostId = nat

  /** Dates are instants on an integer clock. */
  type Date = int

  /** The ways a handler can end without doing its work. */
  datatype Error =
    | NoToken          // no x-auth-token header
    | InvalidToken     // the token did not verify
    | ValidationFailed // a required request field is empty
    | NotFound         // the addressed document does not exist
    | NotAuthorized    // the principal does not own the document
    | AlreadyLiked
    | NotYetLiked
    | ServerError      // an exception inside the handler's try block

  datatype Result<T> = Ok(value: T) | Err(error: Error)

  /** JavaScript truthiness of a string-valued request field: present and non-empty.
      express-validator's `not().isEmpty()` accepts exactly the same values. */
  predicate Truthy(v: Option<string>) {
    v.Some? && v.value != ""
  }

  /** The value `if (v) fields.x = v` leaves in a field that started out absent. */
  function KeepIfTruthy(v: Option<string>): (r: Option<string>)
    ensures r.Some? <==> Truthy(v)
    ensures r.Some? ==> r == v
  {
    if Truthy(v) then v else None
  }
}
