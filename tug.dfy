/** The Tug service: a fixed route table from (method, path) to a response.
    GET "/" and POST "/" answer with a short text body and its length; every
    other request is answered 404 with no body. */
module Tug {
  import opened Http

  /** The error type of the service's future; the service never produces one. */
  datatype Error = Error(message: string)

  /** The already-completed future the service returns for each request. */
  datatype FutureResult = Ready(response: Response) | Failed(error: Error)

  const GET_BODY: string := "test get"
  const POST_BODY: string := "test post"

  /** The path both routes answer on. */
  const ROOT: string := "/"

  /** A request the route table answers with a body: GET or POST on exactly "/". */
  predicate Routed(verb: Method, path: string)
  {
    path == ROOT && (verb == Get || verb == Post)
  }

  /** The service. It has no fields, so every value of it is the same. */
  datatype Tug = Tug
  {
    /** Answers one request. The future is always ready with a response, and
        the response's Content-Length, when set, is its body's length. */
    function Call(req: Request): (f: FutureResult)
      ensures f.Ready?
      ensures LengthConsistent(f.response)
    {
      Ready(
        if req.verb == Get && req.path == ROOT then
          var test := AsciiBytes(GET_BODY);
          NewResponse().WithContentLength(|test| as u64).WithBody(test)
        else if req.verb == Post && req.path == ROOT then
          var test := AsciiBytes(POST_BODY);
          NewResponse().WithContentLength(|test| as u64).WithBody(test)
        else
          NewResponse().WithStatus(NOT_FOUND))
    }
  }

  /** GET "/" is answered 200 with body "test get" and Content-Length 8. */
  lemma GetRoot(t: Tug, req: Request)
    requires req.verb == Get && req.path == "/"
    ensures t.Call(req).Ready?
    ensures t.Call(req).response.status == 200
    ensures t.Call(req).response.contentLength == Some(8)
    ensures Text(t.Call(req).response.body) == "test get"
  {
    AsciiRoundTrip(GET_BODY);
  }

  /** POST "/" is answered 200 with body "test post" and Content-Length 9. */
  lemma PostRoot(t: Tug, req: Request)
    requires req.verb == Post && req.path == "/"
    ensures t.Call(req).Ready?
    ensures t.Call(req).response.status == 200
    ensures t.Call(req).response.contentLength == Some(9)
    ensures Text(t.Call(req).response.body) == "test post"
  {
    AsciiRoundTrip(POST_BODY);
  }

  /** Every other method/path pair is answered 404 with an empty body and
      no Content-Length header. */
  lemma OtherRequestsNotFound(t: Tug, req: Request)
    requires !Routed(req.verb, req.path)
    ensures t.Call(req).Ready?
    ensures t.Call(req).response.status == 404
    ensures t.Call(req).response.body == []
    ensures t.Call(req).response.contentLength == None
  {
  }

  /** The status is 200 exactly when the request is routed and 404 exactly
      when it is not; a routed request always carries a Content-Length and a
      non-empty body. */
  lemma StatusIffRouted(t: Tug, req: Request)
    ensures t.Call(req).response.status == 200 <==> Routed(req.verb, req.path)
    ensures t.Call(req).response.status == 404 <==> !Routed(req.verb, req.path)
    ensures Routed(req.verb, req.path) ==>
              t.Call(req).response.contentLength.Some? && |t.Call(req).response.body| > 0
  {
  }

  /** The path is compared with "/" exactly: no prefix match and no slash
      normalisation, and only GET and POST are routed. */
  lemma ExactPathMatch(t: Tug, headers: seq<(string, string)>, body: seq<Byte>)
    ensures t.Call(Request(Get, "/x", headers, body)).response.status == 404
    ensures t.Call(Request(Get, "//", headers, body)).response.status == 404
    ensures t.Call(Request(Get, "", headers, body)).response.status == 404
    ensures t.Call(Request(Get, "/index.html", headers, body)).response.status == 404
    ensures t.Call(Request(Post, "/x", headers, body)).response.status == 404
    ensures t.Call(Request(Head, "/", headers, body)).response.status == 404
    ensures t.Call(Request(Extension("GET"), "/", headers, body)).response.status == 404
  {
  }

  /** The response depends on the method and path alone: request headers and
      body are ignored, the service holds no state, and repeating a request
      repeats its response. */
  lemma DependsOnMethodAndPath(t1: Tug, t2: Tug, r1: Request, r2: Request)
    requires r1.verb == r2.verb && r1.path == r2.path
    ensures t1 == t2
    ensures t1.Call(r1) == t2.Call(r2)
  {
  }
}
