/** The outcome of an HTTP handler. */
module Replies {
  /**
    What a handler answers: a status code and the `success` flag, or a throw
    that the route's error wrapper turns into its own reply.
  */
  datatype Reply = Reply(code: int, success: bool) | Thrown
}
