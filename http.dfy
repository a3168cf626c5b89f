/** The HTTP vocabulary the connection handler works with: request methods,
    response statuses and a response header block. */
module Http {
  import opened Text

  datatype Method = OPTIONS | GET | HEAD | POST | PUT | PATCH | DELETE | TRACE | CONNECT | UNKNOWN

  /** A response status: its code and the UTF-8 bytes of its reason phrase. */
  datatype Status = Status(code: nat, reasonPhrase: seq<byte>)

  const OK: Status := Status(200, AsciiBytes("OK"))
  const BAD_REQUEST: Status := Status(400, AsciiBytes("Bad Request"))

  /** Statuses whose responses never carry a body: every 1xx, 204 No Content,
      205 Reset Content and 304 Not Modified. */
  predicate IsContentAlwaysEmpty(code: nat) {
    (100 <= code < 200) || code == 204 || code == 205 || code == 304
  }

  /** The default body text of a status: "<code> <reason phrase>", for
      example "400 Bad Request". */
  function StatusText(s: Status): (t: seq<byte>)
    ensures |t| > |DecimalDigits(s.code)|
    ensures t[|DecimalDigits(s.code)|] == 32
  {
    AsciiBytes(DecimalDigits(s.code)) + [32] + s.reasonPhrase
  }

  /** A response header block: the status and the other header fields by
      lower-case name. */
  datatype ResponseHeaders = ResponseHeaders(status: Status, fields: map<string, string>)

  const ALLOW := "allow"
  const CONNECTION := "connection"
  const CONTENT_LENGTH := "content-length"
  const CONTENT_TYPE := "content-type"

  /** The content type of every error response body. */
  const ERROR_CONTENT_TYPE := "text/plain; charset=utf-8"

  /** A fresh header block holding only a status. */
  function HeadersOf(status: Status): (h: ResponseHeaders)
    ensures h.status == status && h.fields == map[]
  {
    ResponseHeaders(status, map[])
  }
}
