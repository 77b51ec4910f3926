/** Shared values of the front end: optional values, the outcome of a
    network call, record identifiers and the signed-in user. */
module Base {

  datatype Option<+T> = None | Some(value: T) {
    function GetOr(default: T): T
    {
      match this
      case Some(v) => v
      case None => default
    }
  }

  /** JavaScript truthiness of an optional string: present and not empty. */
  predicate Truthy(o: Option<string>)
  {
    o.Some? && o.value != ""
  }

  /** Record identifiers, compared with `===`. */
  type Id = int

  /** Why a request (or a callback that awaits one) failed: the HTTP status
      when a response arrived, the `error` string of the response body when it
      had one, and the error object's `message`. */
  datatype Failure = Failure(status: Option<int>, serverError: Option<string>, message: string)

  /** The abstract outcome of an awaited call. */
  datatype Reply<+T> = Ok(value: T) | Err(failure: Failure)

  /** The part of the user object the pages inspect. */
  datatype User = User(username: string)

  /** `user && user.username === "Admin"`: admin rights go by the exact,
      case-sensitive user name. */
  predicate IsAdmin(user: Option<User>)
  {
    user.Some? && user.value.username == "Admin"
  }
}
