/** What route handlers send back and how server actions end. */
module Responses {
  import opened Wrappers

  /** `NextResponse.json(body, { status })`; a body without a status is sent with 200. */
  datatype Reply<T> = Reply(status: int, body: Body<T>)

  /**
   * The JSON bodies the routes use: the data itself, `{ message, user? }`, or
   * `{ error }`. Error texts that interpolate a caught error keep only their fixed part.
   */
  datatype Body<T> = Data(value: T) | Message(text: string, payload: Option<T>) | Failure(error: string)

  /** A server action or client handler either returns normally or throws an Error with a message. */
  datatype Outcome = Completed | Thrown(message: string)
}
