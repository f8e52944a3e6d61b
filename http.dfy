/** The values of the HTTP library that the Tug service is written against:
    request methods, a request as the service sees it, byte-string literals,
    and responses built with the library's builder calls. Only the parts the
    service touches are modelled. */
module Http {

  /** An unsigned 64-bit integer: the type of the Content-Length header's value. */
  newtype u64 = x: int | 0 <= x < 0x1_0000_0000_0000_0000

  type Byte = bv8

  datatype Option<+T> = None | Some(value: T)

  /** The request methods the library distinguishes; any other method
      token arrives as an extension method. */
  datatype Method =
    | Options | Get | Post | Put | Delete | Head | Trace | Connect | Patch
    | Extension(name: string)

  /** A request, with its path already separated from the query string.
      The service looks only at the method (`verb`) and the path. */
  datatype Request = Request(
    verb: Method,
    path: string,
    headers: seq<(string, string)>,
    body: seq<Byte>)

  const OK: nat := 200
  const NOT_FOUND: nat := 404

  /** A response: status code, the Content-Length header if one was set,
      and the body bytes. */
  datatype Response = Response(status: nat, contentLength: Option<u64>, body: seq<Byte>)
  {
    /** Sets the status code; the header and body are kept. */
    function WithStatus(code: nat): (r: Response)
      ensures r.status == code
      ensures r.contentLength == contentLength && r.body == body
    {
      this.(status := code)
    }

    /** Sets (or replaces) the Content-Length header; status and body are kept. */
    function WithContentLength(n: u64): (r: Response)
      ensures r.contentLength == Some(n)
      ensures r.status == status && r.body == body
    {
      this.(contentLength := Some(n))
    }

    /** Sets the body; status and headers are kept. */
    function WithBody(b: seq<Byte>): (r: Response)
      ensures r.body == b
      ensures r.status == status && r.contentLength == contentLength
    {
      this.(body := b)
    }
  }

  /** A fresh response: status 200, no headers and an empty body. */
  function NewResponse(): (r: Response)
    ensures r.status == OK && r.contentLength == None && r.body == []
    ensures LengthConsistent(r)
  {
    Response(OK, None, [])
  }

  /** A Content-Length header, when present, equals the length of the body in bytes. */
  predicate LengthConsistent(r: Response)
  {
    r.contentLength.Some? ==> r.contentLength.value as int == |r.body|
  }

  /** Building a response by setting Content-Length to the length of the body
      that is then set gives a consistent response, and so does a fresh
      response whose status alone is changed. */
  lemma SizedBodyConsistent(b: seq<Byte>, code: nat)
    requires |b| < 0x1_0000_0000_0000_0000
    ensures LengthConsistent(NewResponse().WithContentLength(|b| as u64).WithBody(b))
    ensures LengthConsistent(NewResponse().WithStatus(code))
  {
  }

  predicate IsAscii(s: string)
  {
    forall i | 0 <= i < |s| :: s[i] < 128 as char
  }

  /** The bytes of a byte-string literal: one byte per character, holding
      that character's code. */
  function AsciiBytes(s: string): (b: seq<Byte>)
    requires IsAscii(s)
    ensures |b| == |s|
    ensures forall i | 0 <= i < |s| :: b[i] as int == s[i] as int
  {
    if s == [] then [] else [s[0] as int as Byte] + AsciiBytes(s[1..])
  }

  /** Reads bytes back as text, one character per byte. */
  function Text(b: seq<Byte>): (s: string)
    ensures |s| == |b|
  {
    if b == [] then [] else [b[0] as int as char] + Text(b[1..])
  }

  /** Reading the bytes of a literal back as text gives the literal. */
  lemma {:induction false} AsciiRoundTrip(s: string)
    requires IsAscii(s)
    ensures Text(AsciiBytes(s)) == s
  {
    if s != [] {
      assert IsAscii(s[1..]) by {
        forall i | 0 <= i < |s[1..]| ensures s[1..][i] < 128 as char {
          assert s[1..][i] == s[i + 1];
        }
      }
      AsciiRoundTrip(s[1..]);
      assert AsciiBytes(s)[1..] == AsciiBytes(s[1..]);
    }
  }
}
