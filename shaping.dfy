/** How the connection handler shapes the responses it writes itself, without
    a service: the body it sends, the `connection` and `content-length`
    headers it sets, and the frames it hands to the response encoder. */
module ResponseShaping {
  import opened Text
  import opened Http
  import opened SessionProtocols

  /** Section 4.4 of RFC 2616 forbids a message body in a response to HEAD
      and in a response whose status always has an empty body. */
  predicate BodyPermitted(reqMethod: Method, code: nat) {
    reqMethod != HEAD && !IsContentAlwaysEmpty(code)
  }

  /** Headers and body of a response decided before any service runs. */
  datatype EarlyResponse = EarlyResponse(headers: ResponseHeaders, content: seq<byte>)

  /** A unit handed to the response encoder: `writeHeaders` or `writeData`,
      each with its end-of-stream flag. */
  datatype Frame =
    | HeadersFrame(headers: ResponseHeaders, endStream: bool)
    | DataFrame(data: seq<byte>, endStream: bool)

  /** The fixed body of the answer to a request with an invalid path:
      "400 Bad Request\nInvalid request path". */
  const INVALID_PATH_CONTENT: seq<byte> := StatusText(BAD_REQUEST) + AsciiBytes("\nInvalid request path")

  /** The headers of the answer to `OPTIONS *`: status 200 and an `Allow`
      header listing the methods the server knows. */
  function OptionsHeaders(allowedMethods: string): (h: ResponseHeaders)
    ensures h.status == OK && h.fields == map[ALLOW := allowedMethods]
  {
    HeadersOf(OK).(fields := map[ALLOW := allowedMethods])
  }

  /** Headers and body of a response given by status: below 400 there is no
      body and no content type; from 400 on the body is plain text, empty
      where RFC 2616 forbids one, the status's own text when none is given,
      and the given content otherwise. */
  function StatusResponse(reqMethod: Method, status: Status, content: seq<byte>): (r: EarlyResponse)
    ensures r.headers.status == status
    ensures status.code < 400 ==> r.headers.fields == map[] && r.content == []
    ensures status.code >= 400 ==> r.headers.fields == map[CONTENT_TYPE := ERROR_CONTENT_TYPE]
    ensures r.content != [] <==> status.code >= 400 && BodyPermitted(reqMethod, status.code)
    ensures r.content != [] && content != [] ==> r.content == content
    ensures r.content != [] && content == [] ==> r.content == StatusText(status)
  {
    if status.code < 400 then
      EarlyResponse(HeadersOf(status), [])
    else
      var body :=
        if reqMethod == HEAD || IsContentAlwaysEmpty(status.code) then []
        else if content == [] then StatusText(status)
        else content;
      EarlyResponse(HeadersOf(status).(fields := map[CONTENT_TYPE := ERROR_CONTENT_TYPE]), body)
  }

  /** Marks an HTTP/1 response as keeping the connection open. HTTP/2
      responses get no `connection` header, which section 8.1.2.2 of
      RFC 7540 forbids. */
  function AddKeepAliveHeaders(protocol: SessionProtocol, h: ResponseHeaders): (r: ResponseHeaders)
    ensures r.status == h.status
    ensures r.fields.Keys == if protocol.IsMultiplex() then h.fields.Keys else h.fields.Keys + {CONNECTION}
    ensures !protocol.IsMultiplex() ==> r.fields[CONNECTION] == "keep-alive"
    ensures protocol.IsMultiplex() ==> r == h
    ensures forall n :: n in h.fields && n != CONNECTION ==> r.fields[n] == h.fields[n]
  {
    if protocol == H1 || protocol == H1C then
      h.(fields := h.fields[CONNECTION := "keep-alive"])
    else
      h
  }

  /** Sets `content-length` to the given length unless RFC 2616 forbids a
      body for this method and status, in which case the header is left out. */
  function SetContentLength(reqMethod: Method, h: ResponseHeaders, contentLength: nat): (r: ResponseHeaders)
    ensures r.status == h.status
    ensures !BodyPermitted(reqMethod, h.status.code) ==> r == h
    ensures BodyPermitted(reqMethod, h.status.code) ==>
              r.fields.Keys == h.fields.Keys + {CONTENT_LENGTH}
              && AllDigits(r.fields[CONTENT_LENGTH])
              && ParseDecimal(r.fields[CONTENT_LENGTH]) == contentLength
              && r.fields[CONTENT_LENGTH] == DecimalDigits(contentLength)
    ensures forall n :: n in h.fields && n != CONTENT_LENGTH ==> r.fields[n] == h.fields[n]
  {
    if reqMethod == HEAD || IsContentAlwaysEmpty(h.status.code) then
      h
    else
      ParseDecimalDigits(contentLength);
      h.(fields := h.fields[CONTENT_LENGTH := DecimalDigits(contentLength)])
  }

  /** The frames an early response is written as: one headers frame, which
      ends the stream exactly when there is no content, followed by one data
      frame ending the stream when there is. */
  function ResponseFrames(reqMethod: Method, protocol: SessionProtocol, addKeepAlive: bool,
                          h: ResponseHeaders, content: seq<byte>): (frames: seq<Frame>)
    ensures |frames| == if content == [] then 1 else 2
    ensures frames[0].HeadersFrame? && frames[0].endStream == (content == [])
    ensures content != [] ==> frames[1] == DataFrame(content, true)
  {
    var hasContent := content != [];
    var withKeepAlive := if addKeepAlive then AddKeepAliveHeaders(protocol, h) else h;
    var headers := SetContentLength(reqMethod, withKeepAlive, if hasContent then |content| else 0);
    [HeadersFrame(headers, !hasContent)] + (if hasContent then [DataFrame(content, true)] else [])
  }

  /** Total number of body bytes in a sequence of frames. */
  function DataLength(frames: seq<Frame>): nat
    decreases |frames|
  {
    if frames == [] then 0
    else (if frames[0].DataFrame? then |frames[0].data| else 0) + DataLength(frames[1..])
  }

  /** A well-framed response: a headers frame, then only data frames, and the
      stream ended by the last frame and by no other. */
  predicate WellFramed(frames: seq<Frame>) {
    && |frames| > 0
    && frames[0].HeadersFrame?
    && (forall i :: 1 <= i < |frames| ==> frames[i].DataFrame?)
    && frames[|frames| - 1].endStream
    && (forall i :: 0 <= i < |frames| - 1 ==> !frames[i].endStream)
  }

  /** Whatever headers and content are given, the frames are well framed,
      carry exactly the content, announce its length exactly where RFC 2616
      permits a body, and carry `connection: keep-alive` exactly on a
      keep-alive HTTP/1 response. */
  lemma ResponseFramesRules(reqMethod: Method, protocol: SessionProtocol, addKeepAlive: bool,
                            h: ResponseHeaders, content: seq<byte>)
    requires CONNECTION !in h.fields && CONTENT_LENGTH !in h.fields
    ensures var frames := ResponseFrames(reqMethod, protocol, addKeepAlive, h, content);
            var hs := frames[0].headers;
            && WellFramed(frames)
            && DataLength(frames) == |content|
            && hs.status == h.status
            && (CONTENT_LENGTH in hs.fields <==> BodyPermitted(reqMethod, h.status.code))
            && (CONTENT_LENGTH in hs.fields ==>
                  AllDigits(hs.fields[CONTENT_LENGTH]) && ParseDecimal(hs.fields[CONTENT_LENGTH]) == DataLength(frames))
            && (CONNECTION in hs.fields <==> addKeepAlive && !protocol.IsMultiplex())
            && (CONNECTION in hs.fields ==> hs.fields[CONNECTION] == "keep-alive")
            && (forall n :: n in h.fields ==> n in hs.fields && hs.fields[n] == h.fields[n])
  {
    var frames := ResponseFrames(reqMethod, protocol, addKeepAlive, h, content);
    if content == [] {
      assert DataLength(frames) == DataLength(frames[1..]);
    } else {
      assert DataLength(frames[1..]) == |content| + DataLength(frames[2..]);
    }
  }

  /** An early response given by status, as written: a body only where
      RFC 2616 permits one and only for an error status, `content-length`
      equal to the bytes written wherever a body is permitted, and the
      `connection` header only on HTTP/1 before the last request. */
  lemma StatusResponseRules(reqMethod: Method, protocol: SessionProtocol, handledLastRequest: bool,
                            status: Status, content: seq<byte>)
    ensures var r := StatusResponse(reqMethod, status, content);
            var frames := ResponseFrames(reqMethod, protocol, !handledLastRequest, r.headers, r.content);
            var hs := frames[0].headers;
            && WellFramed(frames)
            && (DataLength(frames) > 0 <==> status.code >= 400 && BodyPermitted(reqMethod, status.code))
            && (CONTENT_LENGTH in hs.fields <==> BodyPermitted(reqMethod, status.code))
            && (CONTENT_LENGTH in hs.fields ==>
                  AllDigits(hs.fields[CONTENT_LENGTH]) && ParseDecimal(hs.fields[CONTENT_LENGTH]) == DataLength(frames))
            && (CONNECTION in hs.fields <==> !handledLastRequest && !protocol.IsMultiplex())
            && (CONTENT_TYPE in hs.fields <==> status.code >= 400)
  {
    var r := StatusResponse(reqMethod, status, content);
    ResponseFramesRules(reqMethod, protocol, !handledLastRequest, r.headers, r.content);
  }

  /** The answer to `OPTIONS *`: status 200, the `Allow` header, no body, a
      single headers frame that ends the stream, and `content-length: 0`
      unless the request method is HEAD. */
  lemma OptionsResponseRules(reqMethod: Method, protocol: SessionProtocol, handledLastRequest: bool,
                             allowedMethods: string)
    ensures var h := OptionsHeaders(allowedMethods);
            var frames := ResponseFrames(reqMethod, protocol, !handledLastRequest, h, []);
            var hs := frames[0].headers;
            && |frames| == 1 && frames[0].endStream
            && hs.status == OK
            && ALLOW in hs.fields && hs.fields[ALLOW] == allowedMethods
            && (reqMethod != HEAD ==> CONTENT_LENGTH in hs.fields && hs.fields[CONTENT_LENGTH] == "0")
            && (reqMethod == HEAD ==> CONTENT_LENGTH !in hs.fields)
  {
    var h := OptionsHeaders(allowedMethods);
    ResponseFramesRules(reqMethod, protocol, !handledLastRequest, h, []);
    var hs := ResponseFrames(reqMethod, protocol, !handledLastRequest, h, [])[0].headers;
    if reqMethod != HEAD {
      assert AllDigits(hs.fields[CONTENT_LENGTH]) && ParseDecimal(hs.fields[CONTENT_LENGTH]) == 0;
      assert hs.fields[CONTENT_LENGTH] == DecimalDigits(0);
    }
  }

  /** The answer to a request with an invalid path, for any method: status
      400 with a plain-text content type; the fixed diagnostic body in one
      data frame with a matching `content-length`, except for HEAD, which
      gets a single headers frame and no `content-length`. */
  lemma InvalidPathResponseRules(reqMethod: Method, protocol: SessionProtocol, handledLastRequest: bool)
    ensures var r := StatusResponse(reqMethod, BAD_REQUEST, INVALID_PATH_CONTENT);
            var frames := ResponseFrames(reqMethod, protocol, !handledLastRequest, r.headers, r.content);
            var hs := frames[0].headers;
            && hs.status == BAD_REQUEST
            && CONTENT_TYPE in hs.fields && hs.fields[CONTENT_TYPE] == ERROR_CONTENT_TYPE
            && (reqMethod != HEAD ==>
                  && |frames| == 2 && frames[1] == DataFrame(INVALID_PATH_CONTENT, true)
                  && !frames[0].endStream
                  && CONTENT_LENGTH in hs.fields
                  && hs.fields[CONTENT_LENGTH] == DecimalDigits(|INVALID_PATH_CONTENT|))
            && (reqMethod == HEAD ==> |frames| == 1 && frames[0].endStream && CONTENT_LENGTH !in hs.fields)
  {
    var r := StatusResponse(reqMethod, BAD_REQUEST, INVALID_PATH_CONTENT);
    ResponseFramesRules(reqMethod, protocol, !handledLastRequest, r.headers, r.content);
    var hs := ResponseFrames(reqMethod, protocol, !handledLastRequest, r.headers, r.content)[0].headers;
    if reqMethod != HEAD {
      assert AllDigits(hs.fields[CONTENT_LENGTH]);
      ParseDecimalDigits(|INVALID_PATH_CONTENT|);
      var v := hs.fields[CONTENT_LENGTH];
      assert v == DecimalDigits(|INVALID_PATH_CONTENT|);
    }
  }
}
