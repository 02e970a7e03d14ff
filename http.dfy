/** The parts of an HTTP exchange the verbosity handlers touch: a request's
    header list, which is updated in place, and the handler a request is
    passed on to. */
module Http {
  import opened Common

  datatype Header = Header(name: string, value: string)

  /** An outgoing request; only its headers are modelled. */
  class Request {
    var headers: seq<Header>

    constructor (headers: seq<Header>)
      ensures this.headers == headers
    {
      this.headers := headers;
    }
  }

  datatype Response = Response(statusCode: int, body: string)

  /** What the next handler in the pipeline does with a request, seen as its
      header list, or `None` for a null request: it answers with a response
      or throws. The base class's own check that throws for a null request
      is part of this function. */
  type Inner = Option<seq<Header>> -> Result<Response>

  /** The request as the next handler sees it. */
  function View(request: Request?): Option<seq<Header>>
    reads request
  {
    if request == null then None else Some(request.headers)
  }
}
