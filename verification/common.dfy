/** Value types shared by every module of the bookstore model. */
module Common {

  /** A value that may be absent: JavaScript's `null` or `undefined`. */
  datatype Option<+T> = None | Some(value: T) {
    function GetOr(default: T): T {
      match this
      case Some(v) => v
      case None => default
    }
  }

  /** The outcome of a handler: a value, or the error the handler responds with. */
  datatype Result<+T, +E> = Ok(value: T) | Err(error: E)

  /** Document identifiers: the value of a MongoDB ObjectId (12 bytes). Book ids
      also reach the cart handlers as request text; `ObjectIds` relates the two. */
  type BookId = nat
  type UserId = nat
  /** Orders are numbered in creation order. */
  type OrderId = nat
}
