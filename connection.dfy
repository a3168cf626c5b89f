/** The bookkeeping of one server connection as a state machine: the state
    the handler keeps, the steps each event takes it through, and the
    invariants those steps preserve. The handler class proves its methods
    against these steps. */
module Connection {
  import opened Text
  import opened Http
  import opened SessionProtocols
  import opened ResponseShaping
  import opened ChannelListeners
  import opened Accounting

  /** The HTTP/2 default flow-control window size (65535 bytes). */
  const DEFAULT_WINDOW_SIZE: int := 65535

  /** The routing outcome the decoder attaches to a request. `Ok` and
      `CorsPreflight` need a matched service; `Options` (`OPTIONS *`) and
      `InvalidPath` are answered by the handler itself. */
  datatype RoutingStatus = Ok | CorsPreflight | Options | InvalidPath {
    predicate RouteMustExist() {
      this == Ok || this == CorsPreflight
    }
  }

  /** A decoded request. `id` is its identity: two requests with equal
      fields and different ids are different requests. `isWriter` says
      whether the request body is a stream the handler can close. */
  datatype DecodedRequest = DecodedRequest(
    id: nat, streamId: nat, reqMethod: Method, keepAlive: bool,
    routing: RoutingStatus, isWriter: bool)

  /** How the synchronous service call ended: it returned a response, it
      threw an exception that already decides the response
      (`HttpResponseException`, `HttpStatusException`), or it threw
      anything else. */
  datatype ServeOutcome = Served | ThrewResponseDecided | ThrewOther

  /** What the collaborators answer while one request is handled: whether
      the matched service is transient, whether the HTTP/1 encoder has
      already sent `connection: close`, and how the service call ended. */
  datatype RequestEnvironment = RequestEnvironment(
    isTransientService: bool, sentConnectionCloseHeader: bool, serve: ServeOutcome)

  /** With what the request body is aborted: the benign "response complete"
      signal, the service's exception, or the failure of the response write. */
  datatype AbortCause = ResponseComplete | ServiceFailure | WriteFailure

  /** What the handler does to the outside world, in order. */
  datatype Effect =
    | CloseChannel                          // channel.close()
    | SafeCloseChannel                      // the guarded close used by the listeners
    | LogException
    | IncrementLocalWindowSize(delta: int)  // connection-level HTTP/2 flow-control window
    | Serve(id: nat)                        // the service is invoked for the request
    | AbortRequest(id: nat, cause: AbortCause)
    | SubscribeResponse(id: nat)            // the response is streamed or aggregated to the encoder
    | CloseRequestWriter(id: nat)
    | Write(id: nat, streamId: nat, frame: Frame)
    | AttachListener(id: nat, listener: Listener)
    | Flush
    | ScheduleCleanup                       // cleanup scheduled on the event loop after a grace delay
    | AbortResponse(id: nat, cancel: bool)  // the unfinished response fails with a closed session
    | FlushEmptyAndClose                    // an empty buffer is flushed and the channel closed after it

  /** The handler's state. `pendingWrites` holds the requests whose
      write-completion callback has not run yet, each with whether its
      service is transient; `shutdownCounter` is this connection's share of
      the server-wide graceful-shutdown counter. */
  datatype ConnState = ConnState(
    protocol: SessionProtocol,
    isReading: bool,
    isCleaning: bool,
    handledLastRequest: bool,
    unfinishedRequests: set<nat>,
    pendingWrites: map<nat, bool>,
    shutdownCounter: int,
    scheduledCleanups: nat,
    effects: seq<Effect>)

  /** The counter holds one count per unfinished write of a non-transient
      service, and outside a cleanup the registry is exactly the set of
      requests whose write has not completed. */
  predicate Consistent(s: ConnState) {
    && (!s.isCleaning ==> s.unfinishedRequests == s.pendingWrites.Keys)
    && s.shutdownCounter == |NonTransient(s.pendingWrites)|
  }

  function Initial(protocol: SessionProtocol): (s: ConnState)
    ensures Consistent(s)
    ensures s.unfinishedRequests == {} && s.shutdownCounter == 0 && s.effects == []
  {
    assert NonTransient(map[]) == {};
    ConnState(protocol, false, false, false, {}, map[], 0, 0, [])
  }

  // ---------------------------------------------------------------------
  // Settings frame

  /** A settings frame: HTTP/1 becomes HTTP/2, and the connection window
      grows by the difference when the configured initial window exceeds
      the default. */
  function SettingsStep(s: ConnState, initialWindow: int): ConnState {
    s.(protocol := Upgraded(s.protocol),
       effects := if initialWindow > DEFAULT_WINDOW_SIZE
                  then s.effects + [IncrementLocalWindowSize(initialWindow - DEFAULT_WINDOW_SIZE)]
                  else s.effects)
  }

  /** The upgrade is one-way and keeps TLS, it touches no request
      bookkeeping, and the window grows once and by a positive amount
      exactly when the configured window exceeds the default. */
  lemma SettingsRules(s: ConnState, initialWindow: int)
    ensures var t := SettingsStep(s, initialWindow);
            && t.protocol.IsMultiplex()
            && t.protocol.IsTls() == s.protocol.IsTls()
            && (s.protocol.IsMultiplex() ==> t.protocol == s.protocol)
            && t.(protocol := s.protocol, effects := s.effects) == s
            && s.effects <= t.effects
            && (|t.effects| == |s.effects| + 1 <==> initialWindow > DEFAULT_WINDOW_SIZE)
            && (|t.effects| > |s.effects| ==> t.effects[|s.effects|].IncrementLocalWindowSize?
                                              && t.effects[|s.effects|].delta > 0)
            && (Consistent(s) ==> Consistent(t))
  {
  }

  // ---------------------------------------------------------------------
  // Requests

  /** The effects of answering a request directly: closing its body stream,
      the headers and data frames, the listener that decides whether the
      channel closes, and a flush outside a read burst. */
  function RespondEffects(req: DecodedRequest, protocol: SessionProtocol, handledLastRequest: bool,
                          isReading: bool, h: ResponseHeaders, content: seq<byte>): seq<Effect>
  {
    var frames := ResponseFrames(req.reqMethod, protocol, !handledLastRequest, h, content);
    var opening: seq<Effect> := if req.isWriter then [CloseRequestWriter(req.id)] else [];
    var headersWritten := opening + [Write(req.id, req.streamId, frames[0])];
    var written := if content != [] then headersWritten + [Write(req.id, req.streamId, frames[1])] else headersWritten;
    var listened := written + [AttachListener(req.id, if handledLastRequest then CloseListener else CloseOnFailureListener)];
    if isReading then listened else listened + [Flush]
  }

  /** The effects of dispatching a request to its service. */
  function DispatchEffects(id: nat, serve: ServeOutcome): seq<Effect> {
    var served := match serve
      case Served => [Serve(id)]
      case ThrewResponseDecided => [Serve(id)] + [AbortRequest(id, ResponseComplete)]
      case ThrewOther => [Serve(id)] + [AbortRequest(id, ServiceFailure)];
    served + [SubscribeResponse(id)]
  }

  /** Whether a request reaches its service. */
  predicate IsDispatched(s: ConnState, req: DecodedRequest, env: RequestEnvironment) {
    && !s.handledLastRequest
    && !(!s.protocol.IsMultiplex() && env.sentConnectionCloseHeader)
    && req.routing.RouteMustExist()
  }

  /** The handler answers `req` itself with the given headers and content. */
  function AnswerStep(s: ConnState, req: DecodedRequest, h: ResponseHeaders, content: seq<byte>): ConnState {
    s.(effects := s.effects + RespondEffects(req, s.protocol, s.handledLastRequest, s.isReading, h, content))
  }

  /** A direct answer only appends effects. */
  lemma AnswerKeepsBookkeeping(s: ConnState, req: DecodedRequest, h: ResponseHeaders, content: seq<byte>)
    ensures var t := AnswerStep(s, req, h, content);
            t.(effects := s.effects) == s && s.effects <= t.effects
  {
  }

  /** `req` is handed to its service and registered until its response has
      been written; it takes a count unless its service is transient. */
  function DispatchStep(s: ConnState, req: DecodedRequest, env: RequestEnvironment): ConnState {
    s.(unfinishedRequests := s.unfinishedRequests + {req.id},
       pendingWrites := s.pendingWrites[req.id := env.isTransientService],
       shutdownCounter := s.shutdownCounter + (if env.isTransientService then 0 else 1),
       effects := s.effects + DispatchEffects(req.id, env.serve))
  }

  /** A request that is not ignored, after `handledLastRequest` has been
      updated: closed for a sent `connection: close`, answered directly
      without a route, or dispatched. */
  function AcceptStep(s: ConnState, req: DecodedRequest, env: RequestEnvironment,
                      allowedMethods: string): ConnState
  {
    if !s.protocol.IsMultiplex() && env.sentConnectionCloseHeader then
      s.(effects := s.effects + [CloseChannel])
    else if req.routing == Options then
      AnswerStep(s, req, OptionsHeaders(allowedMethods), [])
    else if req.routing == InvalidPath then
      var r := StatusResponse(req.reqMethod, BAD_REQUEST, INVALID_PATH_CONTENT);
      AnswerStep(s, req, r.headers, r.content)
    else
      DispatchStep(s, req, env)
  }

  /** A decoded request arrives. */
  function RequestStep(s: ConnState, req: DecodedRequest, env: RequestEnvironment,
                       allowedMethods: string): ConnState
  {
    if s.handledLastRequest then s
    else AcceptStep(s.(handledLastRequest := !req.keepAlive), req, env, allowedMethods)
  }

  /** Once the last request is handled every later request is ignored, with
      no effect at all; otherwise the flag is set exactly by a request
      without keep-alive. A request never changes the protocol. */
  lemma LastRequestIsSticky(s: ConnState, req: DecodedRequest, env: RequestEnvironment, allowedMethods: string)
    ensures var t := RequestStep(s, req, env, allowedMethods);
            && (s.handledLastRequest ==> t == s)
            && t.handledLastRequest == (s.handledLastRequest || !req.keepAlive)
            && t.protocol == s.protocol
  {
  }

  /** A dispatched request enters the registry and the pending writes and
      takes a count exactly when its service is not transient; every other
      request (ignored, closed for a sent `connection: close`, `OPTIONS *`,
      invalid path) leaves the registry, the pending writes and the counter
      alone. */
  lemma RequestAccounting(s: ConnState, req: DecodedRequest, env: RequestEnvironment, allowedMethods: string)
    ensures var t := RequestStep(s, req, env, allowedMethods);
            && (IsDispatched(s, req, env) ==>
                  && t.unfinishedRequests == s.unfinishedRequests + {req.id}
                  && t.pendingWrites == s.pendingWrites[req.id := env.isTransientService]
                  && t.shutdownCounter == s.shutdownCounter + (if env.isTransientService then 0 else 1)
                  && t.effects == s.effects + DispatchEffects(req.id, env.serve))
            && t.isCleaning == s.isCleaning
            && (!IsDispatched(s, req, env) ==>
                  && t.unfinishedRequests == s.unfinishedRequests
                  && t.pendingWrites == s.pendingWrites
                  && t.shutdownCounter == s.shutdownCounter)
  {
    if !s.handledLastRequest && !(!s.protocol.IsMultiplex() && env.sentConnectionCloseHeader) {
      var s1 := s.(handledLastRequest := !req.keepAlive);
      if req.routing == Options {
        AnswerKeepsBookkeeping(s1, req, OptionsHeaders(allowedMethods), []);
      } else if req.routing == InvalidPath {
        var r := StatusResponse(req.reqMethod, BAD_REQUEST, INVALID_PATH_CONTENT);
        AnswerKeepsBookkeeping(s1, req, r.headers, r.content);
      }
    }
  }

  /** Answering a request directly invokes no service. */
  lemma RespondEffectsServeNothing(req: DecodedRequest, protocol: SessionProtocol, handledLastRequest: bool,
                                   isReading: bool, h: ResponseHeaders, content: seq<byte>)
    ensures var a := RespondEffects(req, protocol, handledLastRequest, isReading, h, content);
            forall i :: 0 <= i < |a| ==> !a[i].Serve?
  {
  }

  lemma AnswerServesNothing(s: ConnState, req: DecodedRequest, h: ResponseHeaders, content: seq<byte>)
    ensures var t := AnswerStep(s, req, h, content);
            && s.effects <= t.effects
            && forall i :: |s.effects| <= i < |t.effects| ==> !t.effects[i].Serve?
  {
    var a := RespondEffects(req, s.protocol, s.handledLastRequest, s.isReading, h, content);
    RespondEffectsServeNothing(req, s.protocol, s.handledLastRequest, s.isReading, h, content);
    var t := AnswerStep(s, req, h, content);
    assert t.effects == s.effects + a;
    assert forall i :: |s.effects| <= i < |t.effects| ==> t.effects[i] == a[i - |s.effects|];
  }

  /** An HTTP/1 connection whose encoder already sent `connection: close`
      is closed and nothing else happens. An ignored request, that one, the
      `OPTIONS *` answer and the invalid-path rejection invoke no service. */
  lemma EarlyExits(s: ConnState, req: DecodedRequest, env: RequestEnvironment, allowedMethods: string)
    ensures var t := RequestStep(s, req, env, allowedMethods);
            && (!s.handledLastRequest && !s.protocol.IsMultiplex() && env.sentConnectionCloseHeader ==>
                  t.effects == s.effects + [CloseChannel])
            && s.effects <= t.effects
            && (!IsDispatched(s, req, env) ==> forall i :: |s.effects| <= i < |t.effects| ==> !t.effects[i].Serve?)
  {
    if !s.handledLastRequest && !(!s.protocol.IsMultiplex() && env.sentConnectionCloseHeader) {
      var s1 := s.(handledLastRequest := !req.keepAlive);
      if req.routing == Options {
        AnswerServesNothing(s1, req, OptionsHeaders(allowedMethods), []);
      } else if req.routing == InvalidPath {
        var r := StatusResponse(req.reqMethod, BAD_REQUEST, INVALID_PATH_CONTENT);
        AnswerServesNothing(s1, req, r.headers, r.content);
      }
    }
  }

  /** The registry and the pending writes only hold requests among `seen`,
      the requests delivered to the connection so far. */
  predicate Tracked(s: ConnState, seen: set<nat>) {
    s.pendingWrites.Keys <= seen && s.unfinishedRequests <= seen
  }

  /** Every request step keeps the state consistent, provided the request
      is new to the connection. */
  lemma RequestStepConsistent(s: ConnState, seen: set<nat>, req: DecodedRequest, env: RequestEnvironment,
                              allowedMethods: string)
    requires Consistent(s) && Tracked(s, seen)
    requires req.id !in seen
    ensures Consistent(RequestStep(s, req, env, allowedMethods))
    ensures Tracked(RequestStep(s, req, env, allowedMethods), seen + {req.id})
  {
    RequestAccounting(s, req, env, allowedMethods);
    if IsDispatched(s, req, env) {
      NonTransientAdd(s.pendingWrites, req.id, env.isTransientService);
    }
  }

  // ---------------------------------------------------------------------
  // Write completion

  /** The write-completion callback of request `id` runs: the request body
      is aborted, the count is given back, the request leaves the registry
      unless a cleanup is under way, and the connection is closed once the
      registry is empty after the last request. */
  function WriteCompleteStep(s: ConnState, id: nat, failed: bool, requestOpen: bool): ConnState
    requires id in s.pendingWrites
  {
    var registry := if s.isCleaning then s.unfinishedRequests else s.unfinishedRequests - {id};
    var abort := AbortRequest(id, if !failed || !requestOpen then ResponseComplete else WriteFailure);
    s.(pendingWrites := s.pendingWrites - {id},
       shutdownCounter := if s.pendingWrites[id] then s.shutdownCounter else s.shutdownCounter - 1,
       unfinishedRequests := registry,
       effects := if registry == {} && s.handledLastRequest then s.effects + [abort] + [FlushEmptyAndClose]
                  else s.effects + [abort])
  }

  /** Write completion keeps the state consistent: the count is given back
      exactly when the service is not transient, so the counter keeps
      counting the non-transient writes still pending. */
  lemma WriteCompleteConsistent(s: ConnState, id: nat, failed: bool, requestOpen: bool)
    requires Consistent(s) && id in s.pendingWrites
    ensures var t := WriteCompleteStep(s, id, failed, requestOpen);
            && Consistent(t)
            && t.shutdownCounter == s.shutdownCounter - (if s.pendingWrites[id] then 0 else 1)
            && t.pendingWrites.Keys == s.pendingWrites.Keys - {id}
  {
    NonTransientRemove(s.pendingWrites, id);
  }

  /** Write completion only takes requests away. */
  lemma WriteCompleteTracked(s: ConnState, seen: set<nat>, id: nat, failed: bool, requestOpen: bool)
    requires Tracked(s, seen) && id in s.pendingWrites
    ensures Tracked(WriteCompleteStep(s, id, failed, requestOpen), seen)
  {
  }

  /** Once no write is pending the connection holds no count on the
      shutdown counter: its increments and decrements have balanced. */
  lemma DrainedBalanced(s: ConnState)
    requires Consistent(s) && s.pendingWrites == map[]
    ensures s.shutdownCounter == 0
  {
    NothingPendingNothingCounted(s.pendingWrites);
  }

  /** The connection is closed after a write completes exactly when the
      registry is empty and the last request has been handled; outside a
      cleanup that means no write of this connection is still pending. The
      abort of the request body is benign unless the write failed while the
      request was still open. */
  lemma DrainedClose(s: ConnState, id: nat, failed: bool, requestOpen: bool)
    requires Consistent(s) && id in s.pendingWrites
    ensures var t := WriteCompleteStep(s, id, failed, requestOpen);
            && s.effects < t.effects
            && t.effects[|s.effects|] == AbortRequest(id, if failed && requestOpen then WriteFailure else ResponseComplete)
            && (FlushEmptyAndClose in t.effects[|s.effects|..] <==> t.unfinishedRequests == {} && s.handledLastRequest)
            && (!s.isCleaning ==>
                  (FlushEmptyAndClose in t.effects[|s.effects|..] <==> t.pendingWrites == map[] && s.handledLastRequest))
  {
    var t := WriteCompleteStep(s, id, failed, requestOpen);
    WriteCompleteConsistent(s, id, failed, requestOpen);
    var abort := AbortRequest(id, if !failed || !requestOpen then ResponseComplete else WriteFailure);
    var closing := t.unfinishedRequests == {} && s.handledLastRequest;
    assert t.effects[|s.effects|..] == [abort] + (if closing then [FlushEmptyAndClose] else []);
    assert t.pendingWrites.Keys == {} ==> t.pendingWrites == map[];
  }

  // ---------------------------------------------------------------------
  // Disconnection and cleanup

  /** The requests whose responses a sequence of effects aborts. */
  function AbortedIds(a: seq<Effect>): set<nat>
    decreases |a|
  {
    if a == [] then {}
    else AbortedIds(a[..|a| - 1]) + (if a[|a| - 1].AbortResponse? then {a[|a| - 1].id} else {})
  }

  /** `a` aborts the response of every request in `ids`, each exactly once,
      with the given cancel flag, and does nothing else. */
  predicate AbortsEachOnce(a: seq<Effect>, ids: set<nat>, cancel: bool) {
    && (forall i :: 0 <= i < |a| ==> a[i].AbortResponse? && a[i].cancel == cancel)
    && AbortedIds(a) == ids
    && |a| == |ids|
  }

  /** `t` is `s` after a cleanup: nothing happens when the registry is
      empty; otherwise `isCleaning` is set, every registered response is
      aborted with `cancel` on HTTP/1 (an HTTP/2 stream is already reset),
      and the registry is cleared. */
  predicate CleanupDone(s: ConnState, t: ConnState) {
    if s.unfinishedRequests == {} then t == s
    else
      && s.effects <= t.effects
      && AbortsEachOnce(t.effects[|s.effects|..], s.unfinishedRequests, !s.protocol.IsMultiplex())
      && t == s.(isCleaning := true, unfinishedRequests := {}, effects := t.effects)
  }

  /** The channel goes inactive (after the encoder is closed): HTTP/1
      schedules the cleanup for later, HTTP/2 cleans up at once. */
  predicate InactiveStep(s: ConnState, t: ConnState) {
    if !s.protocol.IsMultiplex() then
      t == s.(scheduledCleanups := s.scheduledCleanups + 1, effects := s.effects + [ScheduleCleanup])
    else
      CleanupDone(s, t)
  }

  /** A scheduled cleanup runs. */
  predicate ScheduledCleanupStep(s: ConnState, t: ConnState)
    requires s.scheduledCleanups > 0
  {
    CleanupDone(s.(scheduledCleanups := s.scheduledCleanups - 1), t)
  }

  /** A sequence of effects aborts at most as many responses as it is long. */
  lemma {:induction false} AbortedIdsBound(a: seq<Effect>)
    ensures |AbortedIds(a)| <= |a|
    decreases |a|
  {
    if a != [] {
      AbortedIdsBound(a[..|a| - 1]);
    }
  }

  /** A cleanup aborts no response twice: the effects it appends name
      pairwise distinct requests. */
  lemma {:induction false} AbortsAreDistinct(a: seq<Effect>, ids: set<nat>, cancel: bool, i: nat, j: nat)
    requires AbortsEachOnce(a, ids, cancel)
    requires i < j < |a|
    ensures a[i].id != a[j].id
    decreases |a|
  {
    var n := |a| - 1;
    var front := a[..n];
    var before := AbortedIds(front);
    assert forall k :: 0 <= k < |front| ==> front[k] == a[k];
    assert AbortedIds(a) == before + {a[n].id};
    AbortedIdsBound(front);
    assert a[n].id !in before;
    assert |before| == |front|;
    if j == n {
      AbortedIdsContains(front, i);
    } else {
      AbortsAreDistinct(front, before, cancel, i, j);
    }
  }

  lemma {:induction false} AbortedIdsContains(a: seq<Effect>, i: nat)
    requires i < |a| && a[i].AbortResponse?
    ensures a[i].id in AbortedIds(a)
    decreases |a|
  {
    if i < |a| - 1 {
      assert a[..|a| - 1][i] == a[i];
      AbortedIdsContains(a[..|a| - 1], i);
    }
  }

  /** Cleanup keeps the state consistent and leaves the pending writes and
      the counter alone: their counts are given back by the write-completion
      callbacks that the aborts trigger. */
  lemma CleanupConsistent(s: ConnState, t: ConnState)
    requires Consistent(s) && CleanupDone(s, t)
    ensures Consistent(t)
    ensures t.pendingWrites == s.pendingWrites && t.shutdownCounter == s.shutdownCounter
    ensures t.unfinishedRequests == {}
    ensures s.unfinishedRequests != {} ==> t.isCleaning
  {
  }

  // ---------------------------------------------------------------------
  // Read completion and early-response listeners

  function ReadCompleteStep(s: ConnState): ConnState {
    s.(isReading := false, effects := s.effects + [Flush])
  }

  /** The listener of an early response runs once its write has finished. */
  function EarlyWriteDoneStep(s: ConnState, listener: Listener, result: WriteResult): ConnState {
    var a := OnWriteDone(listener, result);
    s.(effects := s.effects
                  + (if a.logException then [LogException] else [])
                  + (if a.closeChannel then [SafeCloseChannel] else []))
  }
}
