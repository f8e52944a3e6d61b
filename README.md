# Tug: the request router of a minimal HTTP service

Tug is a very small HTTP service. Its only logic is `Tug::call`, which maps a
request's method and path to a response through a fixed route table:

- `GET /` is answered with status 200, body `test get` and `Content-Length: 8`;
- `POST /` is answered with status 200, body `test post` and `Content-Length: 9`;
- every other method/path pair is answered with status 404, an empty body and
  no `Content-Length` header.

The service (`struct Tug`) has no fields, and `call` wraps its response in an
already-completed future that never holds an error.

The model has two modules:

- `Http` (`http.dfy`): the values of the HTTP library the service is written
  against: request methods, a request (method `verb`, path, headers, body), a
  response (status, optional Content-Length, body bytes) with the builder
  calls `Response::new`, `with_status`, `with_header(ContentLength(..))` and
  `with_body`, and byte-string literals as `seq<bv8>` with their decoding back
  to text. The Content-Length value is a 64-bit unsigned integer (`u64`), as
  the source's `as u64` cast produces; the bodies involved are far below that
  bound and the model proves it at each cast.
- `Tug` (`tug.dfy`): the service `Tug.Call` and the lemmas about each branch of
  its route table.

A fresh response (`Response::new()`) is taken to be status 200, no headers and
an empty body; this is an assumption about the HTTP library, whose code is not
part of this model.

## Model

| member | source | states |
|---|---|---|
| `Tug.Tug.Call` | src/main.rs:20-39 | every request gets a ready future (never the error case), and whenever a Content-Length header is set it equals the body's length in bytes |
| `Tug.GetRoot` | src/main.rs:22-27 | a GET on exactly `/` is answered 200, Content-Length 8, and the body reads back as `test get` |
| `Tug.PostRoot` | src/main.rs:28-33 | a POST on exactly `/` is answered 200, Content-Length 9, and the body reads back as `test post` |
| `Tug.OtherRequestsNotFound` | src/main.rs:34-37 | any request that is not GET or POST on `/` is answered 404 with an empty body and no Content-Length header |
| `Tug.StatusIffRouted` | src/main.rs:21-37 | the status is 200 if and only if the request is GET or POST on exactly `/`, and 404 if and only if it is not; a routed request always carries a Content-Length and a non-empty body |
| `Tug.ExactPathMatch` | src/main.rs:21-22 | path matching is exact equality with `/`: `/x`, `//`, `` and `/index.html` are not routed, nor are HEAD `/` or an extension method spelled `GET` |
| `Tug.DependsOnMethodAndPath` | src/main.rs:12-21 | the service has a single stateless value, and two requests with the same method and path get identical responses whatever their headers and bodies |
| `Http.NewResponse` | src/main.rs:24 | a fresh response has status 200, no Content-Length and an empty body, and is length-consistent |
| `Http.Response.WithContentLength` | src/main.rs:25 | setting Content-Length records the given value and leaves status and body unchanged |
| `Http.Response.WithBody` | src/main.rs:26 | setting the body records the given bytes and leaves status and headers unchanged |
| `Http.Response.WithStatus` | src/main.rs:36 | setting the status records the given code and leaves headers and body unchanged |
| `Http.SizedBodyConsistent` | src/main.rs:24-26 | a fresh response given Content-Length equal to a body's length and then that body is length-consistent; a fresh response with only its status changed is too |
| `Http.AsciiBytes` | src/main.rs:23 | a byte-string literal has one byte per character, each byte holding that character's code |
| `Http.AsciiRoundTrip` | src/main.rs:29 | reading the bytes of a byte-string literal back as text gives the literal |

## Left out

- `main` (src/main.rs:44-51): logger initialisation, address parsing, binding the socket, the startup message and the blocking server loop are process and I/O plumbing; the model has no network.
- The HTTP library's service wiring, connection handling and concurrency, and headers it adds on its own (such as `Date`, or a zero Content-Length on the wire for the 404 response) are library behaviour whose code is not part of this model.
- How the library splits the query string from the path: the model takes the path as an already-extracted string.
- Headers other than Content-Length: the service sets no others, so a response models only that one.
