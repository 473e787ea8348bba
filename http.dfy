/** Document ids and the tagged responses the route handlers send. */
module Http {

  /** A Mongo `_id`. The model draws fresh ids from a counter, so they are numbers. */
  type ObjectId = nat

  datatype Status = BadRequest | Unauthorized | NotFound | ServerError

  function Code(s: Status): (c: int)
    ensures 400 <= c < 600
  {
    match s
    case BadRequest => 400
    case Unauthorized => 401
    case NotFound => 404
    case ServerError => 500
  }

  /** A 200 response with its JSON body, or an error status with its message. */
  datatype Response<+T> = Ok(body: T) | Fail(status: Status, message: string)
}
