/**
 * The record the interceptor fills for one call (`GRPCNetworkLog`), the parts
 * it observes, and what each handler does to the record, as functions. The
 * class in module `Interceptor` performs these updates in place and is
 * proved against these functions.
 *
 * Times are whole microseconds since the epoch, supplied by the caller in
 * place of the wall clock.
 */
module NetworkLog {
  import opened Wrappers
  import opened Paths
  import opened Headers

  /** Swift `Int32`: the status and error codes are converted to it. */
  type Int32 = x: int | -0x8000_0000 <= x < 0x8000_0000

  /** The mutable record of one call. `requestBody`/`responseBody` are not
      modelled; every other field is. */
  datatype GrpcNetworkLog = GrpcNetworkLog(
    url: Option<string>,
    port: Option<int>,
    requestBodySize: Option<nat>,
    responseBodySize: Option<nat>,
    responseCode: Option<Int32>,
    requestHeaders: HeaderMap,
    responseHeaders: HeaderMap,
    contentType: Option<string>,
    errorDomain: Option<string>,
    errorCode: Option<Int32>,
    startTime: Option<int>,
    duration: Option<int>,
    grpcMethod: Option<string>,
    serverErrorMessage: Option<string>)

  /** `GRPCNetworkLog()`: every optional field unset, both dictionaries empty. */
  const EmptyLog: GrpcNetworkLog :=
    GrpcNetworkLog(None, None, None, None, None, map[], map[], None, None, None, None, None, None, None)

  /** What the interceptor reads from the call context: the call's path and
      the peer authority, `None` when the reflective lookup fails. */
  datatype CallContext = CallContext(path: string, authority: Option<string>)

  /** An outbound part; a message carries its payload bytes, or none. */
  datatype RequestPart =
    | RequestMetadata(headers: seq<Header>)
    | RequestMessage(data: Option<seq<bv8>>)
    | RequestEnd

  /** A gRPC status: its numeric code and its textual description. */
  datatype Status = Status(code: Int32, description: string)

  /** An inbound part. */
  datatype ResponsePart =
    | ResponseMetadata(headers: seq<Header>)
    | ResponseMessage(data: Option<seq<bv8>>)
    | ResponseEnd(status: Status, trailers: seq<Header>)

  /** The code and domain of the error passed to `errorCaught`. */
  datatype CallError = CallError(code: Int32, domain: string)

  /** The arguments of one `NetworkLogger.addGrpcNetworkLog` call (the body
      strings left out): missing numbers are sent as 0. */
  datatype LoggedCall = LoggedCall(
    url: Option<string>,
    requestBodySize: int,
    responseBodySize: int,
    responseCode: Int32,
    requestHeaders: HeaderMap,
    responseHeaders: HeaderMap,
    contentType: Option<string>,
    startTime: int,
    errorDomain: Option<string>,
    errorCode: Int32,
    duration: int,
    grpcMethod: Option<string>,
    serverErrorMessage: Option<string>)

  /** The URL and method, written at the start of every `send`. */
  function WithCallName(log: GrpcNetworkLog, context: CallContext): (r: GrpcNetworkLog)
    ensures r.url.Some? && r.grpcMethod == Some(MethodName(context.path))
    ensures r.(url := log.url, grpcMethod := log.grpcMethod) == log
  {
    log.(url := Some(Url(GetHost(context.authority), log.port, context.path)),
         grpcMethod := Some(MethodName(context.path)))
  }

  /** What `send` records about the part itself, once the call is named. */
  function SendPart(log: GrpcNetworkLog, part: RequestPart, now: int): (r: GrpcNetworkLog)
    ensures r.(startTime := log.startTime, requestHeaders := log.requestHeaders,
               requestBodySize := log.requestBodySize) == log
  {
    match part
    case RequestMetadata(headers) =>
      log.(startTime := Some(now), requestHeaders := AddHeaders(log.requestHeaders, headers))
    case RequestMessage(data) =>
      if data.Some? then log.(requestBodySize := Some(|data.value|)) else log
    case RequestEnd => log
  }

  /** The record after `send(part)` at time `now`. */
  function SendLog(log: GrpcNetworkLog, context: CallContext, part: RequestPart, now: int): (r: GrpcNetworkLog)
    ensures r.url.Some? && r.grpcMethod == Some(MethodName(context.path))
    ensures part.RequestMetadata? ==> r.startTime == Some(now) && ContentType in r.requestHeaders
    ensures r.(url := log.url, grpcMethod := log.grpcMethod, startTime := log.startTime,
               requestHeaders := log.requestHeaders, requestBodySize := log.requestBodySize) == log
  {
    SendPart(WithCallName(log, context), part, now)
  }

  /** The record after `receive(part)` at time `now`, before it is finalised
      and emitted (which a `.end` part triggers). */
  function ReceiveLog(log: GrpcNetworkLog, part: ResponsePart, now: int): (r: GrpcNetworkLog)
    ensures part.ResponseEnd? ==> r.responseCode == Some(part.status.code)
    ensures part.ResponseEnd? ==> r.errorCode.Some? || r.serverErrorMessage.Some? || part.status.code == 0
    ensures r.(responseHeaders := log.responseHeaders, responseBodySize := log.responseBodySize,
               responseCode := log.responseCode, serverErrorMessage := log.serverErrorMessage,
               errorCode := log.errorCode, errorDomain := log.errorDomain, duration := log.duration) == log
  {
    match part
    case ResponseMetadata(headers) =>
      log.(responseHeaders := AddHeaders(log.responseHeaders, headers))
    case ResponseMessage(data) =>
      if data.Some? then log.(responseBodySize := Some(|data.value|)) else log
    case ResponseEnd(status, trailers) =>
      var coded := log.(responseCode := Some(status.code));
      var classified :=
        if |trailers| > 0 then
          coded.(responseHeaders := AddHeaders(coded.responseHeaders, trailers),
                 serverErrorMessage := if status.code != 0 then Some(status.description)
                                       else coded.serverErrorMessage)
        else
          coded.(errorCode := Some(status.code), errorDomain := Some(status.description));
      if classified.startTime.Some? then classified.(duration := Some(now - classified.startTime.value))
      else classified
  }

  /** The record after `errorCaught(error)`, before it is finalised and
      emitted. */
  function ErrorLog(log: GrpcNetworkLog, error: CallError): (r: GrpcNetworkLog)
    ensures r.responseCode.None? && r.serverErrorMessage.None?
    ensures r.errorCode == Some(error.code) && r.errorDomain == Some(error.domain)
    ensures r.(responseCode := log.responseCode, serverErrorMessage := log.serverErrorMessage,
               errorCode := log.errorCode, errorDomain := log.errorDomain) == log
  {
    log.(responseCode := None, serverErrorMessage := None,
         errorCode := Some(error.code), errorDomain := Some(error.domain))
  }

  /** The first half of `addGrpcNetworkLog`: the response's content type is
      copied into the request headers and into `contentType`. */
  function Finalized(log: GrpcNetworkLog): (r: GrpcNetworkLog)
    ensures r.responseHeaders == log.responseHeaders
    ensures r.contentType == Lookup(r.responseHeaders, ContentType)
    ensures r.contentType.Some? ==> Lookup(r.requestHeaders, ContentType) == r.contentType
  {
    var responseType := Lookup(log.responseHeaders, ContentType);
    log.(requestHeaders := if responseType.Some? then log.requestHeaders[ContentType := responseType.value]
                           else log.requestHeaders,
         contentType := responseType)
  }

  /** The second half of `addGrpcNetworkLog`: the arguments handed to the
      logging sink. */
  function Emission(log: GrpcNetworkLog): (r: LoggedCall)
    ensures log.requestBodySize.None? ==> r.requestBodySize == 0
    ensures log.responseBodySize.None? ==> r.responseBodySize == 0
    ensures log.responseCode.None? ==> r.responseCode == 0
    ensures log.errorCode.None? ==> r.errorCode == 0
    ensures log.startTime.None? ==> r.startTime == 0
    ensures log.duration.None? ==> r.duration == 0
    ensures log.responseCode.Some? ==> r.responseCode == log.responseCode.value
    ensures log.errorCode.Some? ==> r.errorCode == log.errorCode.value
    ensures log.requestBodySize.Some? ==> r.requestBodySize == log.requestBodySize.value
    ensures log.responseBodySize.Some? ==> r.responseBodySize == log.responseBodySize.value
    ensures log.startTime.Some? ==> r.startTime == log.startTime.value
    ensures log.duration.Some? ==> r.duration == log.duration.value
    ensures r.url == log.url && r.grpcMethod == log.grpcMethod && r.contentType == log.contentType
    ensures r.requestHeaders == log.requestHeaders && r.responseHeaders == log.responseHeaders
    ensures r.errorDomain == log.errorDomain && r.serverErrorMessage == log.serverErrorMessage
  {
    LoggedCall(
      url := log.url,
      requestBodySize := log.requestBodySize.GetOr(0),
      responseBodySize := log.responseBodySize.GetOr(0),
      responseCode := log.responseCode.GetOr(0),
      requestHeaders := log.requestHeaders,
      responseHeaders := log.responseHeaders,
      contentType := log.contentType,
      startTime := log.startTime.GetOr(0),
      errorDomain := log.errorDomain,
      errorCode := log.errorCode.GetOr(0),
      duration := log.duration.GetOr(0),
      grpcMethod := log.grpcMethod,
      serverErrorMessage := log.serverErrorMessage)
  }

  // ---------------------------------------------------------------------
  // One call as a sequence of events

  /** What the transport delivers to the interceptor of one call. */
  datatype Event =
    | Sent(context: CallContext, request: RequestPart, now: int)
    | Received(response: ResponsePart, now: int)
    | Caught(error: CallError)

  /** The record and everything handed to the sink so far. */
  datatype CallState = CallState(log: GrpcNetworkLog, emitted: seq<LoggedCall>)

  /** The state of a freshly constructed interceptor. */
  function Initial(port: Option<int>): CallState
  {
    CallState(EmptyLog.(port := port), [])
  }

  /** The events on which the interceptor emits. */
  predicate IsTerminal(e: Event)
  {
    e.Caught? || (e.Received? && e.response.ResponseEnd?)
  }

  /** The effect of one event: the handler's update, then for a terminal
      event the finalisation and one emission. */
  function Apply(st: CallState, e: Event): (r: CallState)
    ensures r.log.port == st.log.port
    ensures |r.emitted| == |st.emitted| + (if IsTerminal(e) then 1 else 0)
    ensures r.emitted[..|st.emitted|] == st.emitted
  {
    match e
    case Sent(context, part, now) => CallState(SendLog(st.log, context, part, now), st.emitted)
    case Received(part, now) =>
      var log := ReceiveLog(st.log, part, now);
      if part.ResponseEnd? then CallState(Finalized(log), st.emitted + [Emission(Finalized(log))])
      else CallState(log, st.emitted)
    case Caught(error) =>
      var log := Finalized(ErrorLog(st.log, error));
      CallState(log, st.emitted + [Emission(log)])
  }

  /** The state after the events, in order. */
  function Run(st: CallState, events: seq<Event>): CallState
  {
    if |events| == 0 then st
    else Apply(Run(st, events[..|events| - 1]), events[|events| - 1])
  }

  /** Running one more event is applying it to the state reached so far. */
  lemma RunSnoc(st: CallState, events: seq<Event>, e: Event)
    ensures Run(st, events + [e]) == Apply(Run(st, events), e)
  {
    assert (events + [e])[..|events|] == events;
  }

  function TerminalCount(events: seq<Event>): nat
  {
    if |events| == 0 then 0
    else TerminalCount(events[..|events| - 1]) + (if IsTerminal(events[|events| - 1]) then 1 else 0)
  }

  // ---------------------------------------------------------------------
  // Outbound parts

  /** Every outbound part, whatever its kind, rewrites the URL and the
      method from the path, the authority (or "0.0.0.0") and the port. */
  lemma SendNamesCall(log: GrpcNetworkLog, context: CallContext, part: RequestPart, now: int)
    requires context.authority.Some? ==> '/' !in context.authority.value
    ensures var r := SendLog(log, context, part, now);
      && r.url.Some?
      && Split(r.url.value, '/')
         == ["grpc:", "", GetHost(context.authority) + PortSuffix(log.port), ServiceName(context.path)]
      && r.grpcMethod == Some(MethodName(context.path))
  {
    UrlPieces(GetHost(context.authority), log.port, context.path);
  }

  /** Outbound metadata starts the clock and merges the headers into the
      request headers (later duplicates win, other names keep their value,
      "content-type" defaults to "application/grpc"); nothing else but the
      URL and method changes. */
  lemma SendMetadata(log: GrpcNetworkLog, context: CallContext, headers: seq<Header>, now: int, key: string)
    ensures var r := SendLog(log, context, RequestMetadata(headers), now);
      && r.startTime == Some(now)
      && r.requestHeaders.Keys == log.requestHeaders.Keys + Names(headers) + {ContentType}
      && (key in Names(headers) ==>
            Lookup(r.requestHeaders, key) == Some(headers[LastIndexOf(headers, key)].value))
      && (key !in Names(headers) && (key in log.requestHeaders || key != ContentType) ==>
            Lookup(r.requestHeaders, key) == Lookup(log.requestHeaders, key))
      && (key !in Names(headers) && key !in log.requestHeaders && key == ContentType ==>
            Lookup(r.requestHeaders, key) == Some(DefaultContentType))
      && r.(url := log.url, grpcMethod := log.grpcMethod, startTime := log.startTime,
            requestHeaders := log.requestHeaders) == log
  {
    AddHeadersLookup(log.requestHeaders, headers, key);
  }

  /** An outbound message records its payload's byte count; one without
      payload data changes nothing an outbound `.end` would not. */
  lemma SendMessage(log: GrpcNetworkLog, context: CallContext, data: Option<seq<bv8>>, now: int)
    ensures data.Some? ==>
      SendLog(log, context, RequestMessage(data), now).requestBodySize == Some(|data.value|)
    ensures data.None? ==>
      SendLog(log, context, RequestMessage(data), now) == SendLog(log, context, RequestEnd, now)
    ensures SendLog(log, context, RequestMessage(data), now).(requestBodySize := log.requestBodySize)
         == SendLog(log, context, RequestEnd, now)
  {
  }

  /** An outbound `.end` changes no field but the URL and the method. */
  lemma SendEnd(log: GrpcNetworkLog, context: CallContext, now: int)
    ensures SendLog(log, context, RequestEnd, now).(url := log.url, grpcMethod := log.grpcMethod) == log
  {
  }

  // ---------------------------------------------------------------------
  // Inbound parts

  /** Inbound metadata merges into the response headers exactly as outbound
      metadata does into the request headers; no other field changes. */
  lemma ReceiveMetadata(log: GrpcNetworkLog, headers: seq<Header>, now: int, key: string)
    ensures var r := ReceiveLog(log, ResponseMetadata(headers), now);
      && r.responseHeaders.Keys == log.responseHeaders.Keys + Names(headers) + {ContentType}
      && (key in Names(headers) ==>
            Lookup(r.responseHeaders, key) == Some(headers[LastIndexOf(headers, key)].value))
      && (key !in Names(headers) && (key in log.responseHeaders || key != ContentType) ==>
            Lookup(r.responseHeaders, key) == Lookup(log.responseHeaders, key))
      && (key !in Names(headers) && key !in log.responseHeaders && key == ContentType ==>
            Lookup(r.responseHeaders, key) == Some(DefaultContentType))
      && r.(responseHeaders := log.responseHeaders) == log
  {
    AddHeadersLookup(log.responseHeaders, headers, key);
  }

  /** An inbound message records its payload's byte count; one without
      payload data leaves the record untouched. */
  lemma ReceiveMessage(log: GrpcNetworkLog, data: Option<seq<bv8>>, now: int)
    ensures data.Some? ==>
      ReceiveLog(log, ResponseMessage(data), now) == log.(responseBodySize := Some(|data.value|))
    ensures data.None? ==> ReceiveLog(log, ResponseMessage(data), now) == log
  {
  }

  /** `.end` with trailers: the status code is recorded, the trailers merge
      into the response headers, the description becomes the server error
      message exactly when the code is not 0, and the error fields stay as
      they were. */
  lemma ReceiveEndWithTrailers(log: GrpcNetworkLog, status: Status, trailers: seq<Header>, now: int, key: string)
    requires |trailers| > 0
    ensures var r := ReceiveLog(log, ResponseEnd(status, trailers), now);
      && r.responseCode == Some(status.code)
      && (status.code != 0 ==> r.serverErrorMessage == Some(status.description))
      && (status.code == 0 ==> r.serverErrorMessage == log.serverErrorMessage)
      && r.errorCode == log.errorCode && r.errorDomain == log.errorDomain
      && (key in Names(trailers) ==>
            Lookup(r.responseHeaders, key) == Some(trailers[LastIndexOf(trailers, key)].value))
      && (key !in Names(trailers) && (key in log.responseHeaders || key != ContentType) ==>
            Lookup(r.responseHeaders, key) == Lookup(log.responseHeaders, key))
      && ContentType in r.responseHeaders
      && (ContentType !in Names(trailers) && ContentType !in log.responseHeaders ==>
            r.responseHeaders[ContentType] == DefaultContentType)
      && r.(responseCode := log.responseCode, responseHeaders := log.responseHeaders,
            serverErrorMessage := log.serverErrorMessage, duration := log.duration) == log
  {
    AddHeadersLookup(log.responseHeaders, trailers, key);
    AddHeadersLookup(log.responseHeaders, trailers, ContentType);
  }

  /** `.end` with empty trailers: the code and description become the error
      code and domain, the response headers and the server error message are
      untouched, and the status code is recorded all the same. */
  lemma ReceiveEndTrailersOnly(log: GrpcNetworkLog, status: Status, now: int)
    ensures var r := ReceiveLog(log, ResponseEnd(status, []), now);
      && r.responseCode == Some(status.code)
      && r.errorCode == Some(status.code)
      && r.errorDomain == Some(status.description)
      && r.responseHeaders == log.responseHeaders
      && r.serverErrorMessage == log.serverErrorMessage
      && r.(responseCode := log.responseCode, errorCode := log.errorCode,
            errorDomain := log.errorDomain, duration := log.duration) == log
  {
  }

  /** On `.end` the duration is the time since the start, when the call has
      a start time, and keeps its earlier value otherwise. */
  lemma ReceiveEndDuration(log: GrpcNetworkLog, status: Status, trailers: seq<Header>, now: int)
    ensures var r := ReceiveLog(log, ResponseEnd(status, trailers), now);
      && r.startTime == log.startTime
      && (log.startTime.Some? ==> r.duration == Some(now - log.startTime.value))
      && (log.startTime.None? ==> r.duration == log.duration)
  {
  }

  // ---------------------------------------------------------------------
  // Finalisation and emission

  /** Finalising takes the content type from the response headers only: if
      they have one, the request headers are made to agree with it;
      otherwise the request headers are unchanged. Finalising twice is
      finalising once. */
  lemma FinalizedContentType(log: GrpcNetworkLog)
    ensures var r := Finalized(log);
      && r.contentType == Lookup(log.responseHeaders, ContentType)
      && r.responseHeaders == log.responseHeaders
      && (r.contentType.Some? ==> Lookup(r.requestHeaders, ContentType) == r.contentType)
      && (r.contentType.Some? ==> forall k :: k != ContentType ==> Lookup(r.requestHeaders, k) == Lookup(log.requestHeaders, k))
      && (r.contentType.None? ==> r.requestHeaders == log.requestHeaders)
      && r.(requestHeaders := log.requestHeaders, contentType := log.contentType) == log
      && Finalized(r) == r
  {
  }

  /** A call that ends with status 0 and trailers, and had no error before,
      is logged with code 0, no error and no server error message, and with
      matching request and response content types. */
  lemma SuccessfulEnd(st: CallState, description: string, trailers: seq<Header>, now: int)
    requires |trailers| > 0
    requires st.log.errorCode.None? && st.log.serverErrorMessage.None?
    ensures var st' := Apply(st, Received(ResponseEnd(Status(0, description), trailers), now));
      && |st'.emitted| == |st.emitted| + 1
      && var logged := st'.emitted[|st.emitted|];
      && logged.responseCode == 0
      && logged.errorCode == 0
      && logged.serverErrorMessage == None
      && ContentType in logged.responseHeaders
      && logged.contentType == Some(logged.responseHeaders[ContentType])
      && Lookup(logged.requestHeaders, ContentType) == logged.contentType
  {
  }

  /** A call that ends with a non-zero status and trailers is logged with
      that code and the status description as server error message; its
      error code is whatever an earlier error left, 0 if none. */
  lemma ServerErrorEnd(st: CallState, status: Status, trailers: seq<Header>, now: int)
    requires |trailers| > 0 && status.code != 0
    ensures var st' := Apply(st, Received(ResponseEnd(status, trailers), now));
      && |st'.emitted| == |st.emitted| + 1
      && var logged := st'.emitted[|st.emitted|];
      && logged.responseCode == status.code
      && logged.serverErrorMessage == Some(status.description)
      && logged.errorCode == st.log.errorCode.GetOr(0)
      && logged.errorDomain == st.log.errorDomain
  {
  }

  /** A call that ends with empty trailers is logged as a transport error
      (code and domain from the status) and, as the code stands, with the
      status code as response code too. */
  lemma TrailersOnlyEnd(st: CallState, status: Status, now: int)
    ensures var st' := Apply(st, Received(ResponseEnd(status, []), now));
      && |st'.emitted| == |st.emitted| + 1
      && var logged := st'.emitted[|st.emitted|];
      && logged.errorCode == status.code
      && logged.errorDomain == Some(status.description)
      && logged.responseCode == status.code
      && logged.responseHeaders == st.log.responseHeaders
      && logged.contentType == Lookup(st.log.responseHeaders, ContentType)
  {
  }

  /** The logged start time and duration of a call ending with `.end`: 0 for
      a call whose metadata was never sent, the elapsed microseconds
      otherwise. */
  lemma EndTiming(st: CallState, status: Status, trailers: seq<Header>, now: int)
    ensures var st' := Apply(st, Received(ResponseEnd(status, trailers), now));
      && |st'.emitted| == |st.emitted| + 1
      && var logged := st'.emitted[|st.emitted|];
      && logged.startTime == st.log.startTime.GetOr(0)
      && (st.log.startTime.Some? ==> logged.duration == now - st.log.startTime.value)
      && (st.log.startTime.None? ==> logged.duration == st.log.duration.GetOr(0))
  {
  }

  /** `errorCaught` logs the error's code and domain, clears the status code
      (logged as 0) and the server error message, and keeps the headers, the
      sizes, the URL, the method and the duration as they were. */
  lemma CaughtError(st: CallState, error: CallError)
    ensures var st' := Apply(st, Caught(error));
      && |st'.emitted| == |st.emitted| + 1
      && var logged := st'.emitted[|st.emitted|];
      && logged.responseCode == 0
      && logged.serverErrorMessage == None
      && logged.errorCode == error.code
      && logged.errorDomain == Some(error.domain)
      && logged.responseHeaders == st.log.responseHeaders
      && logged.requestBodySize == st.log.requestBodySize.GetOr(0)
      && logged.responseBodySize == st.log.responseBodySize.GetOr(0)
      && logged.url == st.log.url && logged.grpcMethod == st.log.grpcMethod
      && logged.duration == st.log.duration.GetOr(0)
      && (forall k :: k != ContentType ==> Lookup(logged.requestHeaders, k) == Lookup(st.log.requestHeaders, k))
      && st'.log.responseCode == None && st'.log.serverErrorMessage == None
  {
  }

  // ---------------------------------------------------------------------
  // Whole calls

  /** One event appends exactly the emission of the record it leaves when
      it is terminal, and nothing when it is not. */
  lemma ApplyEmits(st: CallState, e: Event)
    ensures Apply(st, e).emitted
         == st.emitted + (if IsTerminal(e) then [Emission(Apply(st, e).log)] else [])
  {
  }

  /** Until the first terminal event no error code and no server error
      message is recorded, so every call meets the precondition of
      `SuccessfulEnd` at its first `.end`. */
  lemma {:induction false} NoErrorBeforeTerminal(port: Option<int>, events: seq<Event>)
    requires forall i :: 0 <= i < |events| ==> !IsTerminal(events[i])
    ensures Run(Initial(port), events).log.errorCode.None?
    ensures Run(Initial(port), events).log.serverErrorMessage.None?
    decreases |events|
  {
    if |events| > 0 {
      NoErrorBeforeTerminal(port, events[..|events| - 1]);
    }
  }

  /** Emissions are only ever appended: what was handed to the sink stays. */
  lemma {:induction false} EmittedOnlyGrows(st: CallState, events: seq<Event>)
    ensures |st.emitted| <= |Run(st, events).emitted|
    ensures Run(st, events).emitted[..|st.emitted|] == st.emitted
    decreases |events|
  {
    if |events| > 0 {
      var before := Run(st, events[..|events| - 1]);
      EmittedOnlyGrows(st, events[..|events| - 1]);
      ApplyEmits(before, events[|events| - 1]);
    }
  }

  /** Exactly one emission per terminal event: every inbound `.end` and every
      `errorCaught` emits, even after an earlier one; metadata and message
      parts never do. */
  lemma {:induction false} EmissionCount(st: CallState, events: seq<Event>)
    ensures |Run(st, events).emitted| == |st.emitted| + TerminalCount(events)
    decreases |events|
  {
    if |events| > 0 {
      EmissionCount(st, events[..|events| - 1]);
      ApplyEmits(Run(st, events[..|events| - 1]), events[|events| - 1]);
    }
  }

  /** The port given at construction is never changed by any event. */
  lemma {:induction false} PortKept(st: CallState, events: seq<Event>)
    ensures Run(st, events).log.port == st.log.port
    decreases |events|
  {
    if |events| > 0 {
      PortKept(st, events[..|events| - 1]);
    }
  }
}
