/**
 * What a route handler sends back: an HTTP status and a JSON body. Both
 * controllers answer with a document, a list of documents, an `{error}`
 * object, the rejection of a failed save, or the express-validator error map.
 */
module Responses {
  import opened Common
  import opened ShortySchema

  /** One entry of `req.validationErrors(true)`: the parameter and the message of its failed check. */
  datatype ParamError = ParamError(param: string, msg: string)

  datatype Body =
    | One(doc: Shorty)
    | Many(docs: seq<Shorty>)
    | Message(error: string)
    | Rejected(cause: SaveError)
    | Invalids(errors: seq<ParamError>)

  datatype Response = Response(status: int, body: Body)

  const NotFound: string := "Resource not found"
  const AlreadyExists: string := "Resource already exists"

  /** 200 with the document, or 404 with `{error: 'Resource not found'}`. */
  function FoundOrNotFound(r: Option<Shorty>): Response
  {
    match r
    case Some(doc) => Response(200, One(doc))
    case None => Response(404, Message(NotFound))
  }
}
