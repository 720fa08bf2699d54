/** The HTTP outcome of a route handler: a success code with a body, or an
    error code with the message the handler sends. */
module Http {

  const OK: nat := 200
  const CREATED: nat := 201
  const BAD_REQUEST: nat := 400
  const UNAUTHORIZED: nat := 401
  const FORBIDDEN: nat := 403
  const NOT_FOUND: nat := 404
  const SERVER_ERROR: nat := 500

  datatype Response<+T> =
    | Reply(code: nat, body: T)
    | Reject(code: nat, message: string)
  {
    predicate IsSuccess() {
      Reply?
    }

    /** The status code, whichever way the handler answered. */
    function Status(): nat {
      match this
      case Reply(c, _) => c
      case Reject(c, _) => c
    }
  }
}
