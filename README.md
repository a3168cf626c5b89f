# Armeria `HttpServerHandler`: per-connection bookkeeping

This project models the connection-level bookkeeping of Armeria's HTTP server
handler, `HttpServerHandler`. One instance exists per accepted connection. All
of its events run on that connection's event loop, so it behaves as a
sequential state machine. Its state is:

- the session protocol (H1, H1C, H2 or H2C);
- the response encoder (HTTP/1 or HTTP/2);
- the registry of unfinished requests;
- the flags `isReading`, `isCleaning` and `handledLastRequest`;
- the connection's share of the server-wide graceful-shutdown counter.

Its events are:

- a settings frame (the upgrade to HTTP/2);
- a decoded request, which the handler ignores, drops, answers itself
  (`OPTIONS *`, invalid path) or hands to a service;
- the completion of a dispatched response's write;
- loss of the connection, with the deferred cleanup on HTTP/1;
- the end of a read burst.

The handler is the class `ServerHandler.HttpServerHandler`, with the
handler's fields. Each event is a method. Each method is proved to take the
abstract state `State()` through a pure step function of module
`Connection`, and to keep the invariant `Valid()`:

- the counter holds exactly one count per pending write of a non-transient
  service;
- outside a cleanup, the registry is exactly the set of requests whose write
  is still pending;
- every registered request was delivered to this connection;
- an HTTP/1 protocol always has an HTTP/1 encoder (required of the
  constructor's caller, see "## Left out").

Because every event keeps `Valid()`, these facts hold after any sequence of
events. The properties of the step functions are proved as lemmas about those
functions.

What the handler does to the outside world is appended to the field
`effects`, in order. This covers channel closes, encoder writes, listeners,
flushes, aborts, service invocations and the scheduled cleanup. Closing an
encoder is the exception: it is the `closed` flag of the encoder object.
Requests are tokens identified by a `nat` id.

The response shaping of the answers the handler writes itself is pure, in
module `ResponseShaping`. This covers the `respond` overloads,
`addKeepAliveHeaders` and `setContentLength`. No body is written, and no
`content-length` set, for HEAD or for a status whose content is always empty
(1xx, 204, 205 and 304). Section 4.4 of RFC 2616 names HEAD, 1xx, 204 and
304; 205 comes from the status's own rule, assumed under "## Left out". No
`connection` header is written on HTTP/2, per section 8.1.2.2 of RFC 7540.

Modules:

- `Text`: bytes and decimal rendering.
- `Http`: methods, statuses and headers.
- `SessionProtocols`: the protocols.
- `ResponseShaping`: the shaping of the handler's own answers.
- `ChannelListeners`: `CLOSE` and `CLOSE_ON_FAILURE`.
- `Accounting`: counting the non-transient requests.
- `Connection`: the state and the step functions.
- `ServerHandler`: the class.

Three behaviours of the code worth stating:

- `isCleaning` is set by the cleanup and never cleared again.
- Every dispatched request enters the registry, whether or not its service is
  transient. Only the counter depends on the transient flag.
- The handler's own answers (`OPTIONS *` and an invalid path) carry
  `connection: keep-alive` only while `handledLastRequest` is false. The flag
  is set before the answer is shaped, so the answer to the request that sets
  it has no such header. The headers of service responses are written
  outside this file and are not modelled.

## Model

Every source cell cites the handler class itself.

| member | source | states |
|---|---|---|
| SessionProtocols.Upgraded | core/src/main/java/com/linecorp/armeria/server/HttpServerHandler.java:269-273 | H1 becomes H2 and H1C becomes H2C; H2 and H2C stay; the result is always multiplexed and keeps TLS |
| Connection.SettingsRules | core/src/main/java/com/linecorp/armeria/server/HttpServerHandler.java:269-289 | the upgrade is one-way and keeps TLS; no request bookkeeping changes; the window grows once, by a positive delta, exactly when the configured initial window exceeds 65535 |
| ServerHandler.HttpServerHandler.SwitchToHttp2Encoder | core/src/main/java/com/linecorp/armeria/server/HttpServerHandler.java:280-283 | only an HTTP/1 encoder is closed; the HTTP/2 connection handler's encoder, created on first use, becomes the active one; no bookkeeping changes |
| ServerHandler.HttpServerHandler.HandleHttp2Settings | core/src/main/java/com/linecorp/armeria/server/HttpServerHandler.java:262-290 | the state moves by the settings step, the encoder is replaced as above and the invariant is kept |
| ServerHandler.HttpServerHandler.constructor | core/src/main/java/com/linecorp/armeria/server/HttpServerHandler.java:178-193 | only H1, H1C and H2 are admitted; the connection starts with an empty registry, a zero counter, all flags false and no effects |
| Connection.Initial | core/src/main/java/com/linecorp/armeria/server/HttpServerHandler.java:178-193 | the initial state is consistent, with no unfinished request, no count held and no effect |
| ServerHandler.HttpServerHandler.ChannelRead | core/src/main/java/com/linecorp/armeria/server/HttpServerHandler.java:252-260 | `isReading` is set, then a settings frame takes the settings step and a request takes the request step; a request leaves the encoder and its `closed` flag alone; after a settings frame an encoder created on first use is fresh and open; the invariant is kept |
| Connection.LastRequestIsSticky | core/src/main/java/com/linecorp/armeria/server/HttpServerHandler.java:304-312 | once `handledLastRequest` holds, a request changes nothing at all; otherwise the flag becomes true exactly for a request without keep-alive; a request never changes the protocol |
| Connection.RequestAccounting | core/src/main/java/com/linecorp/armeria/server/HttpServerHandler.java:304-342 | a dispatched request enters the registry and the pending writes and takes a count exactly when its service is not transient; an ignored, dropped, `OPTIONS *` or invalid-path request leaves the registry, the pending writes and the counter untouched |
| Connection.EarlyExits | core/src/main/java/com/linecorp/armeria/server/HttpServerHandler.java:320-342 | an HTTP/1 encoder that already sent `connection: close` makes the request's only effect a channel close; no request that is not dispatched invokes a service |
| Connection.RespondEffectsServeNothing | core/src/main/java/com/linecorp/armeria/server/HttpServerHandler.java:511-559 | writing an answer directly never invokes a service |
| Connection.AnswerServesNothing | core/src/main/java/com/linecorp/armeria/server/HttpServerHandler.java:479-491 | answering `OPTIONS *` or an invalid path only appends effects, and none of them invokes a service |
| Connection.RequestStepConsistent | core/src/main/java/com/linecorp/armeria/server/HttpServerHandler.java:387-392 | a request with a fresh id keeps the counter equal to the number of pending non-transient writes and keeps the registry tracking the pending writes |
| ServerHandler.HttpServerHandler.HandleRequest | core/src/main/java/com/linecorp/armeria/server/HttpServerHandler.java:301-392 | the state moves by the request step: ignored after the last request, otherwise the flag is updated and the request is accepted; the invariant is kept |
| ServerHandler.HttpServerHandler.Accept | core/src/main/java/com/linecorp/armeria/server/HttpServerHandler.java:320-342 | the state moves by the accept step: the close on a sent `connection: close`, the `OPTIONS *` answer, the invalid-path rejection, or dispatch |
| ServerHandler.HttpServerHandler.Dispatch | core/src/main/java/com/linecorp/armeria/server/HttpServerHandler.java:363-392 | the service is invoked; a synchronous throw aborts the request body, as already answered for a response exception and as failed otherwise; the count is taken unless the service is transient; the request is registered and its write becomes pending |
| ServerHandler.HttpServerHandler.HandleOptions | core/src/main/java/com/linecorp/armeria/server/HttpServerHandler.java:479-484 | the answer is status 200 with the `Allow` header and no body, written as described for `Respond` |
| ServerHandler.HttpServerHandler.RejectInvalidPath | core/src/main/java/com/linecorp/armeria/server/HttpServerHandler.java:486-491 | the answer is status 400 with the fixed diagnostic body, shaped by status |
| ServerHandler.HttpServerHandler.RespondStatus | core/src/main/java/com/linecorp/armeria/server/HttpServerHandler.java:493-509 | the answer is shaped by `StatusResponse` and then written as described for `Respond` |
| ServerHandler.HttpServerHandler.Respond | core/src/main/java/com/linecorp/armeria/server/HttpServerHandler.java:511-523 | only effects change: the answer as given by `RespondEffects`, with the close-on-failure listener before the last request, the closing listener after it, and a flush outside a read burst |
| ServerHandler.ResponseWrites | core/src/main/java/com/linecorp/armeria/server/HttpServerHandler.java:511-559 | a request-body writer is closed first, then the headers frame, the data frame when there is content, the listener and the flush outside a read burst, in that order |
| ServerHandler.ShapeHeaders | core/src/main/java/com/linecorp/armeria/server/HttpServerHandler.java:540-554 | the headers written are those of the first frame of `ResponseFrames`, ending the stream exactly when there is no content |
| ResponseShaping.StatusResponse | core/src/main/java/com/linecorp/armeria/server/HttpServerHandler.java:493-509 | below 400: no header and no body; otherwise the plain-text content type, and a body exactly when RFC 2616 permits one, which is the given content, or the status text when none is given |
| ResponseShaping.StatusResponseRules | core/src/main/java/com/linecorp/armeria/server/HttpServerHandler.java:493-559 | as written, a status answer has a body exactly for an error status that permits one, a `content-length` equal to the bytes written exactly where a body is permitted, the content type exactly for an error status, and `connection` exactly on HTTP/1 before the last request |
| ResponseShaping.AddKeepAliveHeaders | core/src/main/java/com/linecorp/armeria/server/HttpServerHandler.java:579-586 | on H1 and H1C `connection` is set to `keep-alive`; on H2 and H2C the headers are unchanged; other fields are kept |
| ResponseShaping.SetContentLength | core/src/main/java/com/linecorp/armeria/server/HttpServerHandler.java:591-600 | for HEAD or a status whose content is always empty the headers are unchanged; otherwise `content-length` is the decimal rendering of the length; other fields are kept |
| ResponseShaping.ResponseFramesRules | core/src/main/java/com/linecorp/armeria/server/HttpServerHandler.java:540-559 | for any answer: a headers frame, then one data frame that ends the stream exactly when there is content; the frames carry exactly the content; `content-length` is present exactly when a body is permitted and then parses back to the bytes written; `connection: keep-alive` is present exactly on keep-alive HTTP/1 |
| ResponseShaping.OptionsHeaders | core/src/main/java/com/linecorp/armeria/server/HttpServerHandler.java:479-483 | status 200 and the single field `Allow` carrying the allowed methods |
| ResponseShaping.OptionsResponseRules | core/src/main/java/com/linecorp/armeria/server/HttpServerHandler.java:479-483 | the `OPTIONS *` answer is one headers frame that ends the stream, with status 200, the `Allow` header, and `content-length: 0` unless the method is HEAD |
| ResponseShaping.InvalidPathResponseRules | core/src/main/java/com/linecorp/armeria/server/HttpServerHandler.java:94-96 | the invalid-path answer is status 400 with plain-text content type and the fixed body in one data frame with its length, except for HEAD, which gets one headers frame and no `content-length` |
| Text.ParseDecimalDigits | core/src/main/java/com/linecorp/armeria/server/HttpServerHandler.java:599 | the `content-length` value parses back to the length it renders |
| ChannelListeners.OnWriteDone | core/src/main/java/com/linecorp/armeria/server/HttpServerHandler.java:98-123 | `CLOSE` always closes and reports every failure; `CLOSE_ON_FAILURE` closes exactly on a failure other than a reset stream and reports exactly on a failure that is neither a closed session nor a reset stream |
| ServerHandler.HttpServerHandler.OnEarlyResponseWritten | core/src/main/java/com/linecorp/armeria/server/HttpServerHandler.java:98-123 | the event is that of a listener attached to an early response; its report and close are appended as effects, and nothing else changes |
| Accounting.NonTransientAdd | core/src/main/java/com/linecorp/armeria/server/HttpServerHandler.java:387-391 | a new pending write adds one count exactly when its service is not transient |
| Accounting.NonTransientRemove | core/src/main/java/com/linecorp/armeria/server/HttpServerHandler.java:431-433 | a completed write removes one count exactly when its service is not transient |
| Connection.WriteCompleteConsistent | core/src/main/java/com/linecorp/armeria/server/HttpServerHandler.java:422-448 | after a write completes, the counter still equals the number of pending non-transient writes; it drops by one exactly for a non-transient service |
| Connection.DrainedClose | core/src/main/java/com/linecorp/armeria/server/HttpServerHandler.java:425-443 | the request body is aborted as already answered unless the write failed while the request was open; the connection is flushed and closed exactly when the registry is empty after the last request, which outside a cleanup means no write is pending any more |
| ServerHandler.HttpServerHandler.OnResponseWriteComplete | core/src/main/java/com/linecorp/armeria/server/HttpServerHandler.java:422-448 | the state moves by the write-completion step and the invariant is kept |
| ServerHandler.HttpServerHandler.CompleteWrite | core/src/main/java/com/linecorp/armeria/server/HttpServerHandler.java:425-443 | the abort, the count given back unless transient, the registry removal unless a cleanup is under way, and the drained close |
| Connection.CleanupConsistent | core/src/main/java/com/linecorp/armeria/server/HttpServerHandler.java:237-249 | a cleanup keeps the state consistent, leaves the pending writes and the counter alone, empties the registry, and sets `isCleaning` when the registry was not empty |
| Connection.AbortsAreDistinct | core/src/main/java/com/linecorp/armeria/server/HttpServerHandler.java:241-246 | a cleanup aborts no response twice |
| Connection.AbortedIdsContains | core/src/main/java/com/linecorp/armeria/server/HttpServerHandler.java:241-246 | every abort of a cleanup is counted among the responses it aborts |
| ServerHandler.AbortAll | core/src/main/java/com/linecorp/armeria/server/HttpServerHandler.java:241-246 | every registered response is aborted exactly once, with the given cancel flag, and nothing else is done |
| ServerHandler.HttpServerHandler.Cleanup | core/src/main/java/com/linecorp/armeria/server/HttpServerHandler.java:237-249 | nothing happens on an empty registry; otherwise `isCleaning` is set, every registered response is aborted once with cancel exactly on HTTP/1, and the registry is cleared |
| ServerHandler.HttpServerHandler.ChannelInactive | core/src/main/java/com/linecorp/armeria/server/HttpServerHandler.java:206-235 | the encoder is closed first; H1 and H1C schedule the cleanup, and H2 and H2C clean up at once |
| ServerHandler.HttpServerHandler.RunScheduledCleanup | core/src/main/java/com/linecorp/armeria/server/HttpServerHandler.java:228 | the cleanup scheduled when an HTTP/1 connection went inactive runs |
| ServerHandler.HttpServerHandler.ChannelReadComplete | core/src/main/java/com/linecorp/armeria/server/HttpServerHandler.java:603-606 | `isReading` is cleared and a flush is issued; nothing else changes |
| Connection.Consistent | core/src/main/java/com/linecorp/armeria/server/HttpServerHandler.java:387-439 | the invariant: the counter equals the number of pending writes of non-transient services, and outside a cleanup the registry is exactly the set of requests whose write is pending |
| Connection.SettingsStep | core/src/main/java/com/linecorp/armeria/server/HttpServerHandler.java:269-289 | a settings frame upgrades the protocol and, when the configured initial window exceeds 65535, records one window increment by the difference |
| Connection.RequestStep | core/src/main/java/com/linecorp/armeria/server/HttpServerHandler.java:301-312 | a request after the last one is ignored; otherwise `handledLastRequest` is set for a request without keep-alive and the request is accepted |
| Connection.AcceptStep | core/src/main/java/com/linecorp/armeria/server/HttpServerHandler.java:320-342 | an HTTP/1 encoder that sent `connection: close` closes the channel; `OPTIONS *` and an invalid path are answered directly; every other request is dispatched |
| Connection.DispatchStep | core/src/main/java/com/linecorp/armeria/server/HttpServerHandler.java:363-392 | a dispatched request is served, takes a count unless its service is transient, enters the registry and has its write pending |
| Connection.DispatchEffects | core/src/main/java/com/linecorp/armeria/server/HttpServerHandler.java:363-374 | the service invocation, the abort of the request body after a synchronous throw (as already answered for a response exception, as failed otherwise), and the subscription to the response |
| Connection.AnswerStep | core/src/main/java/com/linecorp/armeria/server/HttpServerHandler.java:511-523 | a direct answer only appends the effects of writing it |
| Connection.RespondEffects | core/src/main/java/com/linecorp/armeria/server/HttpServerHandler.java:511-559 | the writer close, the headers frame, the data frame when there is content, the listener chosen by `handledLastRequest`, and the flush outside a read burst |
| ResponseShaping.ResponseFrames | core/src/main/java/com/linecorp/armeria/server/HttpServerHandler.java:540-559 | one headers frame ending the stream exactly without content, then one data frame ending the stream exactly with content |
| Connection.WriteCompleteStep | core/src/main/java/com/linecorp/armeria/server/HttpServerHandler.java:422-448 | the abort of the request body, the count given back unless transient, the registry removal unless cleaning, and the flush-and-close once the registry is empty after the last request |
| Connection.CleanupDone | core/src/main/java/com/linecorp/armeria/server/HttpServerHandler.java:237-249 | an empty registry is left alone; otherwise `isCleaning` is set, every registered response is aborted once with cancel exactly on HTTP/1, and the registry is cleared |
| Connection.InactiveStep | core/src/main/java/com/linecorp/armeria/server/HttpServerHandler.java:224-234 | H1 and H1C schedule the cleanup; H2 and H2C clean up at once |
| Connection.ScheduledCleanupStep | core/src/main/java/com/linecorp/armeria/server/HttpServerHandler.java:237-249 | a scheduled cleanup runs as its own event |
| Connection.ReadCompleteStep | core/src/main/java/com/linecorp/armeria/server/HttpServerHandler.java:603-606 | `isReading` is cleared and a flush is issued |
| Connection.EarlyWriteDoneStep | core/src/main/java/com/linecorp/armeria/server/HttpServerHandler.java:98-123 | the report and the close the attached listener decides on are appended as effects |
| ServerHandler.ResponseEncoder.Close | core/src/main/java/com/linecorp/armeria/server/HttpServerHandler.java:207-211 | the encoder is closed afterwards (also used for the HTTP/1 encoder at line 281) |
| Accounting.NothingPendingNothingCounted | core/src/main/java/com/linecorp/armeria/server/HttpServerHandler.java:431-433 | with no write pending, no request is counted as non-transient |
| Connection.DrainedBalanced | core/src/main/java/com/linecorp/armeria/server/HttpServerHandler.java:387-433 | in a consistent state with no write pending, the shutdown counter is zero: every increment at 390 has been matched by a decrement at 432 |
| SessionProtocols.UpgradedUnique | core/src/main/java/com/linecorp/armeria/server/HttpServerHandler.java:269-273 | the protocol after a settings frame is the only multiplexed protocol with the same TLS setting, so the upgrade is fully determined |
| ChannelListeners.CloseIsStricter | core/src/main/java/com/linecorp/armeria/server/HttpServerHandler.java:98-123 | whenever `CLOSE_ON_FAILURE` closes or reports, `CLOSE` does the same |
| Text.DecimalDigitsInjective | core/src/main/java/com/linecorp/armeria/server/HttpServerHandler.java:599 | different lengths give different `content-length` values |

## Left out

- TLS: `userEventTriggered` only stores the SSL session, which no modelled decision reads.
- `exceptionCaught`: it only logs and closes the channel.
- Logging, metrics, the request log and the access log are outside the bookkeeping.
- Request ids, clocks, client-address resolution and the services' path cache are outside the bookkeeping. Request identities are abstract `nat` ids.
- The one-second grace delay before an HTTP/1 cleanup is not modelled as time. It is the separate event `RunScheduledCleanup`.
- Netty plumbing: pipeline lookups are dropped; `flush`, `writeAndFlush` and the guarded close are recorded as effects, without the HTTP/2 check inside the guarded close.
- The flow-control window increment is recorded as an effect carrying its delta. The call into the HTTP/2 connection and its logged exception are not modelled.
- The `Allow` value is the comma-joined names of the known HTTP methods, whose order is defined outside this file. It is a constructor parameter of the handler.
- `HttpStatus` and `RoutingStatus` are not part of this model. Three things are assumed:
  - a status's content is always empty exactly for 1xx, 204, 205 and 304;
  - its default text is the code, a space and the reason phrase;
  - a CORS preflight needs a route, like a normal match.
- Service invocation is an input: the outcome of `serve`, whether it threw, and whether the service is transient.
- The response itself is not modelled. It is not stored in the registry, because nothing in this file reads it. Its recovery through the error handler, its subscription and its aggregation are left out. Their only effect on the bookkeeping is the later write-completion event.
- ServerHandler.HttpServerHandler.Cleanup: aborting a response inside the cleanup may run that request's write-completion callback at once, while the registry is being iterated (the comment at line 435). The model delivers that callback as a separate later event. So the model differs in two ways. In the code, such a callback gives its count back during the cleanup. It also finds the registry not yet cleared at line 441, so it never flushes and closes. In the model, every callback after the cleanup finds the registry empty. When `handledLastRequest` holds, it emits `FlushEmptyAndClose`.
- Widths: `int` overflow of the configured window and of the content length is not modelled. Both are unbounded integers.
- The assertions that an encoder is present before writing are not modelled: the one in `respond` (line 543) and the one before a dispatched response is subscribed (line 454). Writes are effects, not calls on the encoder. So the model also lets an H2 connection dispatch a request before its settings frame, while it has no encoder.
- ServerHandler.HttpServerHandler.constructor: the Java constructor accepts a null encoder. The model requires an HTTP/1 encoder for H1 and H1C instead. Only the cast at line 321 relies on that. So "an HTTP/1 protocol always has an HTTP/1 encoder" is assumed at construction and then kept, not derived from the code.
- ServerHandler.HttpServerHandler.OnEarlyResponseWritten: the event requires only that the listener was attached to request `id`. It does not record that the listener has already run, so the model admits the same listener firing more than once, while a channel future completes once.
