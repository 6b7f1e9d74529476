/** Shared vocabulary of the portal: optional values, results, roles and the
    claims a session token carries. */
module Common {

  /** The conventional Some/None datatype, standing in for `null`/`undefined`. */
  datatype Option<+T> = None | Some(value: T) {

    /** The value in Some, or `default` for None (the `??` operator). */
    function GetOr(default: T): T {
      match this
      case Some(v) => v
      case None => default
    }
  }

  /** A success value or an error value (a thrown `Error` in the source). */
  datatype Result<+T, +E> = Ok(value: T) | Err(error: E)

  /** The two roles of the portal. */
  datatype Role = Admin | Volunteer

  /** The claims a session token carries: `userId`, `email` and `role`.
      The issued-at and expiry times are set by the token library and are
      not modelled. */
  datatype Claims = Claims(userId: string, email: string, role: Role)
}
