/**
 * The part of ASP.NET's `HttpContext` that the API middlewares touch: the request and
 * response header dictionaries, `Items`, `Response.HasStarted`, and the calls of the
 * next delegate in the pipeline.
 */
module Http {

  /** A header dictionary; keys are taken as already normalised (ASP.NET compares them case-insensitively). */
  type Headers = map<string, string>

  /** What the rest of the pipeline can see of a context. */
  datatype Snapshot = Snapshot(requestHeaders: Headers, responseHeaders: Headers, items: map<string, string>)

  class HttpContext {
    var requestHeaders: Headers
    var responseHeaders: Headers
    var items: map<string, string>
    var hasStarted: bool
    /** The state the context was in each time the next delegate was entered, in order. */
    var nextCalls: seq<Snapshot>

    constructor(requestHeaders: Headers, responseHeaders: Headers, hasStarted: bool)
      ensures this.requestHeaders == requestHeaders && this.responseHeaders == responseHeaders
      ensures items == map[] && this.hasStarted == hasStarted && nextCalls == []
    {
      this.requestHeaders := requestHeaders;
      this.responseHeaders := responseHeaders;
      this.hasStarted := hasStarted;
      items := map[];
      nextCalls := [];
    }

    function State(): Snapshot
      reads this
    {
      Snapshot(requestHeaders, responseHeaders, items)
    }

    /** `await next(context)`: the rest of the pipeline, recorded but not modelled. */
    method Next()
      modifies this
      ensures nextCalls == old(nextCalls) + [old(State())]
      ensures State() == old(State()) && hasStarted == old(hasStarted)
    {
      nextCalls := nextCalls + [State()];
    }
  }
}
