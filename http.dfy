/**
 * The HTTP boundary of the route handlers: what `fetch` produced and the
 * response a handler returns. Headers (CORS, caching) are not modelled.
 */
module Http {

  import Json

  /** A thrown value: an `Error` with its message, or something else. */
  datatype Thrown = ErrorObject(message: string) | NonError

  /** What `fetch` produced: a rejection, or a response with its status line and body text. */
  datatype Upstream =
    | Rejected(thrown: Thrown)
    | Reply(status: int, statusText: string, body: string)

  /** `response.ok`. */
  predicate IsOk(status: int) { 200 <= status <= 299 }

  /** What a handler answers: a status and a JSON body. */
  datatype Response = Response(status: int, body: Json.Value)

  /** `error instanceof Error ? error.message : 'Erreur inconnue'`. */
  function Details(t: Thrown): string
  {
    match t
    case ErrorObject(m) => m
    case NonError => "Erreur inconnue"
  }
}
