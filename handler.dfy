/** The per-connection HTTP server handler: a class whose fields are the
    connection's bookkeeping and whose methods are the events the event loop
    delivers. Each method is proved to take the abstract state `State()`
    through the corresponding step of module Connection and to keep
    `Valid()`, so the invariants proved there hold after any sequence of
    events. */
module ServerHandler {
  import opened Text
  import opened Http
  import opened SessionProtocols
  import opened ResponseShaping
  import opened ChannelListeners
  import opened Accounting
  import opened Connection

  datatype EncoderKind = Http1Encoder | Http2Encoder

  /** A response encoder: an object of its own, so that closing one encoder
      and installing another can be told apart. */
  class ResponseEncoder {
    const kind: EncoderKind
    var closed: bool

    constructor (kind: EncoderKind)
      ensures this.kind == kind && !closed
    {
      this.kind := kind;
      closed := false;
    }

    method Close()
      modifies this
      ensures closed
    {
      closed := true;
    }
  }

  /** A connection-level message read from the channel: an HTTP/2 settings
      frame, or a decoded request together with the collaborators' answers
      for it. */
  datatype Inbound =
    | Http2Settings
    | Request(req: DecodedRequest, env: RequestEnvironment)

  /** The headers of a direct answer: the keep-alive header when more
      requests may follow, then the content length. */
  method ShapeHeaders(reqMethod: Method, protocol: SessionProtocol, addKeepAlive: bool,
                      headers: ResponseHeaders, content: seq<byte>) returns (r: ResponseHeaders)
    ensures HeadersFrame(r, content == []) == ResponseFrames(reqMethod, protocol, addKeepAlive, headers, content)[0]
  {
    r := headers;
    if addKeepAlive {
      r := AddKeepAliveHeaders(protocol, r);
    }
    r := SetContentLength(reqMethod, r, if content != [] then |content| else 0);
  }

  /** What answering `req` directly does, in order. */
  method ResponseWrites(req: DecodedRequest, protocol: SessionProtocol, handledLastRequest: bool,
                        isReading: bool, headers: ResponseHeaders, content: seq<byte>) returns (out: seq<Effect>)
    ensures out == RespondEffects(req, protocol, handledLastRequest, isReading, headers, content)
  {
    var listener := if !handledLastRequest then CloseOnFailureListener else CloseListener;
    out := [];
    if req.isWriter {
      out := [CloseRequestWriter(req.id)];
    }
    var hasContent := content != [];
    var resHeaders := ShapeHeaders(req.reqMethod, protocol, !handledLastRequest, headers, content);
    out := out + [Write(req.id, req.streamId, HeadersFrame(resHeaders, !hasContent))];
    if hasContent {
      out := out + [Write(req.id, req.streamId, DataFrame(content, true))];
    }
    out := out + [AttachListener(req.id, listener)];
    if !isReading {
      out := out + [Flush];
    }
  }

  /** Fails the response of every request in `ids`, in some order, each
      once. */
  method AbortAll(ids: set<nat>, cancel: bool) returns (out: seq<Effect>)
    ensures AbortsEachOnce(out, ids, cancel)
  {
    var remaining := ids;
    out := [];
    while remaining != {}
      invariant remaining <= ids
      invariant |out| == |ids - remaining|
      invariant forall i :: 0 <= i < |out| ==> out[i].AbortResponse? && out[i].cancel == cancel
      invariant AbortedIds(out) == ids - remaining
      decreases |remaining|
    {
      var id :| id in remaining;
      ghost var before := out;
      out := out + [AbortResponse(id, cancel)];
      assert out[..|out| - 1] == before;
      assert ids - (remaining - {id}) == (ids - remaining) + {id};
      remaining := remaining - {id};
    }
    assert ids - remaining == ids;
  }

  class HttpServerHandler {
    /** The configured initial HTTP/2 connection window. */
    const http2InitialConnectionWindowSize: int
    /** The comma-joined names of the known HTTP methods. */
    const allowedMethods: string

    var protocol: SessionProtocol
    var responseEncoder: ResponseEncoder?
    /** The encoder the HTTP/2 connection handler of the pipeline hands out,
        created the first time it is asked for. */
    var connectionHandlerEncoder: ResponseEncoder?
    var unfinishedRequests: set<nat>
    var isReading: bool
    var isCleaning: bool
    var handledLastRequest: bool

    /** The requests whose write-completion callback has not run yet, each
        with whether its service is transient (the callback's closure). */
    var pendingWrites: map<nat, bool>
    /** This connection's share of the graceful-shutdown counter. */
    var shutdownCounter: int
    /** Cleanups scheduled on the event loop that have not run yet. */
    var scheduledCleanups: nat
    /** Everything the handler has done to the outside world, in order. */
    var effects: seq<Effect>

    /** Every request the decoder has handed to this connection. */
    ghost var seenRequests: set<nat>

    function State(): ConnState
      reads this
    {
      ConnState(protocol, isReading, isCleaning, handledLastRequest, unfinishedRequests,
                pendingWrites, shutdownCounter, scheduledCleanups, effects)
    }

    ghost predicate Valid()
      reads this
    {
      && (!protocol.IsMultiplex() ==> responseEncoder != null && responseEncoder.kind == Http1Encoder)
      && (connectionHandlerEncoder != null ==> connectionHandlerEncoder.kind == Http2Encoder)
      && Consistent(State())
      && Tracked(State(), seenRequests)
    }

    /** An HTTP/1 connection starts with an HTTP/1 encoder; an HTTP/2
        connection negotiated over TLS may start without one. HTTP/2
        cleartext is only reached by an upgrade. */
    constructor (protocol: SessionProtocol, responseEncoder: ResponseEncoder?,
                 http2InitialConnectionWindowSize: int, allowedMethods: string)
      requires protocol == H1 || protocol == H1C || protocol == H2
      requires !protocol.IsMultiplex() ==> responseEncoder != null && responseEncoder.kind == Http1Encoder
      ensures Valid()
      ensures State() == Initial(protocol)
      ensures this.responseEncoder == responseEncoder && connectionHandlerEncoder == null
      ensures this.http2InitialConnectionWindowSize == http2InitialConnectionWindowSize
      ensures this.allowedMethods == allowedMethods
      ensures seenRequests == {}
    {
      this.http2InitialConnectionWindowSize := http2InitialConnectionWindowSize;
      this.allowedMethods := allowedMethods;
      this.protocol := protocol;
      this.responseEncoder := responseEncoder;
      connectionHandlerEncoder := null;
      unfinishedRequests := {};
      isReading := false;
      isCleaning := false;
      handledLastRequest := false;
      pendingWrites := map[];
      shutdownCounter := 0;
      scheduledCleanups := 0;
      effects := [];
      seenRequests := {};
      assert NonTransient(map[]) == {};
    }

    // -------------------------------------------------------------------
    // Reading

    method ChannelRead(msg: Inbound)
      requires Valid()
      requires msg.Request? ==> msg.req.id !in seenRequests
      modifies this, responseEncoder
      ensures Valid()
      ensures msg.Http2Settings? ==>
                && State() == SettingsStep(old(State()).(isReading := true), http2InitialConnectionWindowSize)
                && EncoderReplaced(old(responseEncoder), old(responseEncoder != null && responseEncoder.closed), old(connectionHandlerEncoder))
                && (old(connectionHandlerEncoder) == null ==> fresh(responseEncoder) && !responseEncoder.closed)
                && seenRequests == old(seenRequests)
      ensures msg.Request? ==>
                && State() == RequestStep(old(State()).(isReading := true), msg.req, msg.env, allowedMethods)
                && responseEncoder == old(responseEncoder) && connectionHandlerEncoder == old(connectionHandlerEncoder)
                && (responseEncoder != null ==> responseEncoder.closed == old(responseEncoder.closed))
                && seenRequests == old(seenRequests) + {msg.req.id}
    {
      isReading := true;
      if msg.Http2Settings? {
        HandleHttp2Settings();
      } else {
        HandleRequest(msg.req, msg.env);
      }
    }

    /** After a settings frame the active encoder is the HTTP/2 connection
        handler's (created now if it did not exist yet), and the previous
        encoder has been closed exactly when it was an HTTP/1 one. */
    ghost predicate EncoderReplaced(previous: ResponseEncoder?, previousClosed: bool,
                                    previousHandlerEncoder: ResponseEncoder?)
      reads this, responseEncoder, previous
    {
      && responseEncoder != null && responseEncoder.kind == Http2Encoder
      && responseEncoder == connectionHandlerEncoder
      && (previousHandlerEncoder != null ==> responseEncoder == previousHandlerEncoder)
      && (previous != null && previous.kind == Http1Encoder ==> previous.closed)
      && (previous != null && previous.kind == Http2Encoder ==> previous.closed == previousClosed)
    }

    method HandleHttp2Settings()
      requires Valid()
      modifies this, responseEncoder
      ensures Valid()
      ensures State() == SettingsStep(old(State()), http2InitialConnectionWindowSize)
      ensures EncoderReplaced(old(responseEncoder), old(responseEncoder != null && responseEncoder.closed), old(connectionHandlerEncoder))
      ensures old(connectionHandlerEncoder) == null ==> fresh(responseEncoder) && !responseEncoder.closed
      ensures seenRequests == old(seenRequests)
    {
      if protocol == H1 {
        protocol := H2;
      } else if protocol == H1C {
        protocol := H2C;
      }
      SwitchToHttp2Encoder();

      var initialWindow := http2InitialConnectionWindowSize;
      if initialWindow > DEFAULT_WINDOW_SIZE {
        effects := effects + [IncrementLocalWindowSize(initialWindow - DEFAULT_WINDOW_SIZE)];
      }
    }

    /** The HTTP/1 encoder is closed and the HTTP/2 connection handler's
        encoder takes over. */
    method SwitchToHttp2Encoder()
      requires connectionHandlerEncoder != null ==> connectionHandlerEncoder.kind == Http2Encoder
      modifies this, responseEncoder
      ensures EncoderReplaced(old(responseEncoder), old(responseEncoder != null && responseEncoder.closed), old(connectionHandlerEncoder))
      ensures old(connectionHandlerEncoder) == null ==> fresh(responseEncoder) && !responseEncoder.closed
      ensures State() == old(State()) && seenRequests == old(seenRequests)
    {
      if responseEncoder != null && responseEncoder.kind == Http1Encoder {
        responseEncoder.Close();
      }
      if connectionHandlerEncoder == null {
        connectionHandlerEncoder := new ResponseEncoder(Http2Encoder);
      }
      responseEncoder := connectionHandlerEncoder;
    }

    method HandleRequest(req: DecodedRequest, env: RequestEnvironment)
      requires Valid()
      requires req.id !in seenRequests
      modifies this
      ensures Valid()
      ensures State() == RequestStep(old(State()), req, env, allowedMethods)
      ensures responseEncoder == old(responseEncoder) && connectionHandlerEncoder == old(connectionHandlerEncoder)
      ensures seenRequests == old(seenRequests) + {req.id}
    {
      ghost var s0 := State();
      RequestStepConsistent(s0, seenRequests, req, env, allowedMethods);
      seenRequests := seenRequests + {req.id};

      // A request after the last one is ignored: the connection closes
      // once the last response is sent.
      if handledLastRequest {
        return;
      }
      if !req.keepAlive {
        handledLastRequest := true;
      }
      Accept(req, env);
      assert State() == RequestStep(s0, req, env, allowedMethods);
    }

    method Accept(req: DecodedRequest, env: RequestEnvironment)
      modifies this
      ensures State() == AcceptStep(old(State()), req, env, allowedMethods)
      ensures responseEncoder == old(responseEncoder) && connectionHandlerEncoder == old(connectionHandlerEncoder)
      ensures seenRequests == old(seenRequests)
    {
      // An HTTP/1 encoder that already sent `connection: close` (maximum
      // connection age) ends the connection.
      if !protocol.IsMultiplex() && env.sentConnectionCloseHeader {
        effects := effects + [CloseChannel];
        return;
      }

      if !req.routing.RouteMustExist() {
        if req.routing == Options {
          HandleOptions(req);
        } else {
          // The only other status without a route is an invalid path.
          RejectInvalidPath(req);
        }
        return;
      }
      Dispatch(req, env);
    }

    /** Hands a routed request to its service and registers it until its
        response has been written. */
    method Dispatch(req: DecodedRequest, env: RequestEnvironment)
      modifies this
      ensures State() == DispatchStep(old(State()), req, env)
      ensures responseEncoder == old(responseEncoder) && connectionHandlerEncoder == old(connectionHandlerEncoder)
      ensures seenRequests == old(seenRequests)
    {
      var out := [Serve(req.id)];
      match env.serve {
        case Served =>
        case ThrewResponseDecided =>
          out := out + [AbortRequest(req.id, ResponseComplete)];
        case ThrewOther =>
          out := out + [AbortRequest(req.id, ServiceFailure)];
      }

      var isTransientService := env.isTransientService;
      if !isTransientService {
        shutdownCounter := shutdownCounter + 1;
      }
      unfinishedRequests := unfinishedRequests + {req.id};
      pendingWrites := pendingWrites[req.id := isTransientService];
      effects := effects + out + [SubscribeResponse(req.id)];
    }

    // -------------------------------------------------------------------
    // Responses written by the handler itself

    method HandleOptions(req: DecodedRequest)
      modifies this
      ensures State() == AnswerStep(old(State()), req, OptionsHeaders(allowedMethods), [])
      ensures responseEncoder == old(responseEncoder) && connectionHandlerEncoder == old(connectionHandlerEncoder)
      ensures seenRequests == old(seenRequests)
    {
      Respond(req, OptionsHeaders(allowedMethods), []);
    }

    method RejectInvalidPath(req: DecodedRequest)
      modifies this
      ensures var r := StatusResponse(req.reqMethod, BAD_REQUEST, INVALID_PATH_CONTENT);
              State() == AnswerStep(old(State()), req, r.headers, r.content)
      ensures responseEncoder == old(responseEncoder) && connectionHandlerEncoder == old(connectionHandlerEncoder)
      ensures seenRequests == old(seenRequests)
    {
      RespondStatus(req, BAD_REQUEST, INVALID_PATH_CONTENT);
    }

    /** Responds with a status and a body, shaped by `StatusResponse`. */
    method RespondStatus(req: DecodedRequest, status: Status, content: seq<byte>)
      modifies this
      ensures var r := StatusResponse(req.reqMethod, status, content);
              State() == AnswerStep(old(State()), req, r.headers, r.content)
      ensures responseEncoder == old(responseEncoder) && connectionHandlerEncoder == old(connectionHandlerEncoder)
      ensures seenRequests == old(seenRequests)
    {
      var r := StatusResponse(req.reqMethod, status, content);
      Respond(req, r.headers, r.content);
    }

    /** Writes a response: with the keep-alive header and the
        close-on-failure listener before the last request, without the
        header and with the closing listener afterwards; flushed at once
        outside a read burst. */
    method Respond(req: DecodedRequest, headers: ResponseHeaders, content: seq<byte>)
      modifies this
      ensures State() == AnswerStep(old(State()), req, headers, content)
      ensures responseEncoder == old(responseEncoder) && connectionHandlerEncoder == old(connectionHandlerEncoder)
      ensures seenRequests == old(seenRequests)
    {
      var out := ResponseWrites(req, protocol, handledLastRequest, isReading, headers, content);
      effects := effects + out;
    }

    /** The listener attached to the early response of request `id` runs
        when that write finishes. */
    method OnEarlyResponseWritten(id: nat, listener: Listener, result: WriteResult)
      requires Valid()
      requires AttachListener(id, listener) in effects
      modifies this
      ensures Valid()
      ensures State() == EarlyWriteDoneStep(old(State()), listener, result)
      ensures responseEncoder == old(responseEncoder) && connectionHandlerEncoder == old(connectionHandlerEncoder)
      ensures seenRequests == old(seenRequests)
    {
      var action := OnWriteDone(listener, result);
      if action.logException {
        effects := effects + [LogException];
      }
      if action.closeChannel {
        effects := effects + [SafeCloseChannel];
      }
    }

    // -------------------------------------------------------------------
    // Completion of a dispatched response

    /** The write-completion callback of a dispatched request runs, with
        whether the write failed and whether the request is still open. */
    method OnResponseWriteComplete(id: nat, failed: bool, requestOpen: bool)
      requires Valid() && id in pendingWrites
      modifies this
      ensures Valid()
      ensures State() == WriteCompleteStep(old(State()), id, failed, requestOpen)
      ensures responseEncoder == old(responseEncoder) && connectionHandlerEncoder == old(connectionHandlerEncoder)
      ensures seenRequests == old(seenRequests)
    {
      WriteCompleteConsistent(State(), id, failed, requestOpen);
      WriteCompleteTracked(State(), seenRequests, id, failed, requestOpen);
      CompleteWrite(id, failed, requestOpen);
    }

    method CompleteWrite(id: nat, failed: bool, requestOpen: bool)
      requires id in pendingWrites
      modifies this
      ensures State() == WriteCompleteStep(old(State()), id, failed, requestOpen)
      ensures responseEncoder == old(responseEncoder) && connectionHandlerEncoder == old(connectionHandlerEncoder)
      ensures seenRequests == old(seenRequests)
    {
      var isTransientService := pendingWrites[id];
      var cause := if !failed || !requestOpen then ResponseComplete else WriteFailure;
      effects := effects + [AbortRequest(id, cause)];
      if !isTransientService {
        shutdownCounter := shutdownCounter - 1;
      }
      // While a cleanup iterates the registry it must not be changed.
      if !isCleaning {
        unfinishedRequests := unfinishedRequests - {id};
      }
      if unfinishedRequests == {} && handledLastRequest {
        effects := effects + [FlushEmptyAndClose];
      }
      pendingWrites := pendingWrites - {id};
    }

    // -------------------------------------------------------------------
    // Disconnection

    method ChannelInactive()
      requires Valid()
      modifies this, responseEncoder
      ensures Valid()
      ensures InactiveStep(old(State()), State())
      ensures responseEncoder == old(responseEncoder) && connectionHandlerEncoder == old(connectionHandlerEncoder)
      ensures responseEncoder != null ==> responseEncoder.closed
      ensures seenRequests == old(seenRequests)
    {
      // Closing the encoder first makes a late response fail with a closed session.
      if responseEncoder != null {
        responseEncoder.Close();
      }
      // HTTP/1 gives unfinished responses a grace period before aborting them.
      if protocol == H1 || protocol == H1C {
        scheduledCleanups := scheduledCleanups + 1;
        effects := effects + [ScheduleCleanup];
      } else {
        Cleanup();
      }
    }

    /** The cleanup scheduled by `ChannelInactive` runs. */
    method RunScheduledCleanup()
      requires Valid() && scheduledCleanups > 0
      modifies this
      ensures Valid()
      ensures ScheduledCleanupStep(old(State()), State())
      ensures responseEncoder == old(responseEncoder) && connectionHandlerEncoder == old(connectionHandlerEncoder)
      ensures seenRequests == old(seenRequests)
    {
      scheduledCleanups := scheduledCleanups - 1;
      Cleanup();
    }

    method Cleanup()
      requires Valid()
      modifies this
      ensures Valid()
      ensures CleanupDone(old(State()), State())
      ensures responseEncoder == old(responseEncoder) && connectionHandlerEncoder == old(connectionHandlerEncoder)
      ensures seenRequests == old(seenRequests)
    {
      if unfinishedRequests != {} {
        isCleaning := true;
        // An HTTP/2 request is already cancelled by the reset of its stream.
        var out := AbortAll(unfinishedRequests, !protocol.IsMultiplex());
        unfinishedRequests := {};
        effects := effects + out;
        assert effects[|old(effects)|..] == out;
      }
    }

    method ChannelReadComplete()
      requires Valid()
      modifies this
      ensures Valid()
      ensures State() == ReadCompleteStep(old(State()))
      ensures responseEncoder == old(responseEncoder) && connectionHandlerEncoder == old(connectionHandlerEncoder)
      ensures seenRequests == old(seenRequests)
    {
      isReading := false;
      effects := effects + [Flush];
    }
  }
}
