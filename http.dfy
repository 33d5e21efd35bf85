/**
  The parts of an HTTP exchange the handlers and middleware touch: the request
  fields they read, the calls they make on a response writer, and the outcome a
  handler produces (a page render, a fragment render or an error response).
 */
module Http {
  import opened Models

  datatype Request = Request(verb: string, path: string)

  /** One call a handler makes on its response writer. */
  datatype Action = SetStatus(code: int) | WriteBody(text: string)

  const STATUS_OK := 200
  const STATUS_BAD_REQUEST := 400
  const STATUS_NOT_FOUND := 404
  const STATUS_INTERNAL_SERVER_ERROR := 500

  /**
    What a handler sends back. `Page` is a call of `render` (the page name and
    its data, executed inside the shared layout); `Fragment` is a call of
    `renderPartial` with the item list as its data. Template execution itself
    is not modelled.
   */
  datatype Response =
    | BadRequest(message: string)
    | NotFound
    | Page(page: string, data: map<string, string>)
    | Fragment(name: string, items: seq<Item>)

  /** The writer calls made by `http.Error(w, message, code)`: the status, then the message and a newline. */
  function ErrorActions(message: string, code: int): seq<Action>
  {
    [SetStatus(code), WriteBody(message + "\n")]
  }

  /**
    The writer calls of an error response: a bad request is `http.Error` with
    400, and `http.NotFound` is `http.Error` with "404 page not found" and 404.
   */
  function ErrorWrites(r: Response): seq<Action>
    requires r.BadRequest? || r.NotFound?
  {
    match r
    case BadRequest(message) => ErrorActions(message, STATUS_BAD_REQUEST)
    case NotFound => ErrorActions("404 page not found", STATUS_NOT_FOUND)
  }
}
