/** Values shared by every part of the model: optional values, HTTP-level
    results and the identifiers of users and missions. */
module Common {

  datatype Option<+T> = None | Some(value: T)

  /** An error reply of the HTTP API: the status code and the `error` text of
      the JSON body. */
  datatype ApiError = ApiError(code: nat, message: string)

  /** The outcome of a request handler: the JSON body it sends, or an error reply. */
  datatype Result<+T> = Ok(value: T) | Err(error: ApiError)

  /** The requester's id, as the authentication middleware attaches it. */
  type UserId = nat

  /** A mission's primary key. The store generates it at insertion. */
  type MissionId = nat

  /** An embedding vector. Its components are opaque to the model; only the
      distance oracle looks at them. */
  type Vector = seq<int>

  function Min(a: int, b: int): int { if a <= b then a else b }

  function Max(a: int, b: int): int { if a >= b then a else b }

  function Abs(a: int): nat { if a >= 0 then a else -a }
}
