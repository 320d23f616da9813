/**
 * `InstabugClientInterceptor`: the per-call object that watches the parts of
 * one gRPC call, updates its `networkLog` record in place, forwards every
 * part it is given, and hands the record to the logging sink on each
 * terminal event.
 */
module Interceptor {
  import opened Wrappers
  import opened Paths
  import opened Headers
  import opened NetworkLog

  class InstabugClientInterceptor {
    /** The record of the call, updated field by field. */
    var networkLog: GrpcNetworkLog

    /** The parts passed on with `context.send`, in order. */
    ghost var sent: seq<RequestPart>
    /** The parts passed on with `context.receive`, in order. */
    ghost var received: seq<ResponsePart>
    /** The records handed to `NetworkLogger.addGrpcNetworkLog`, in order. */
    ghost var emitted: seq<LoggedCall>
    /** The events observed so far. */
    ghost var history: seq<Event>

    /** The object is in the state that running its history from a fresh
        interceptor produces. */
    ghost predicate Valid()
      reads this
    {
      Run(Initial(networkLog.port), history) == CallState(networkLog, emitted)
    }

    /** `init(port:)`: an empty record that remembers the port. */
    constructor (port: Option<int>)
      ensures Valid()
      ensures networkLog == EmptyLog.(port := port)
      ensures sent == [] && received == [] && emitted == [] && history == []
    {
      networkLog := EmptyLog.(port := port);
      sent, received, emitted, history := [], [], [], [];
    }

    /** `send(part, promise:, context:)`: names the call, records what the
        part says, and forwards the part unchanged. */
    method Send(part: RequestPart, context: CallContext, now: int)
      requires Valid()
      modifies this
      ensures Valid()
      ensures networkLog == SendLog(old(networkLog), context, part, now)
      ensures sent == old(sent) + [part] && received == old(received) && emitted == old(emitted)
      ensures history == old(history) + [Sent(context, part, now)]
      ensures |emitted| == TerminalCount(history)
    {
      NameCall(context);
      RecordRequestPart(part, now);
      sent := sent + [part];
      RunSnoc(Initial(networkLog.port), history, Sent(context, part, now));
      history := history + [Sent(context, part, now)];
      EmissionCount(Initial(networkLog.port), history);
    }

    /** The bookkeeping of one outbound part, after the call is named. */
    method RecordRequestPart(part: RequestPart, now: int)
      modifies this
      ensures networkLog == SendPart(old(networkLog), part, now)
      ensures sent == old(sent) && received == old(received) && emitted == old(emitted) && history == old(history)
    {
      match part {
        case RequestMetadata(headers) =>
          networkLog := networkLog.(startTime := Some(now));
          AddRequestHeaders(headers);
        case RequestMessage(data) =>
          if data.Some? {
            networkLog := networkLog.(requestBodySize := Some(|data.value|));
          }
        case RequestEnd =>
      }
    }

    /** The URL and the method, recomputed from the context on every
        outbound part. */
    method NameCall(context: CallContext)
      modifies this
      ensures networkLog == WithCallName(old(networkLog), context)
      ensures sent == old(sent) && received == old(received) && emitted == old(emitted) && history == old(history)
    {
      var authority := GetHost(context.authority);
      var components := Split(context.path, '/');
      var serviceName := "";
      if |components| > 1 {
        serviceName := components[1];
      }
      var portStr := "";
      if networkLog.port.Some? {
        portStr := ":" + IntToString(networkLog.port.value);
      }
      networkLog := networkLog.(url := Some("grpc://" + (authority + portStr) + "/" + serviceName));
      networkLog := networkLog.(grpcMethod := Some(components[|components| - 1]));
    }

    /** `receive(part, context:)`: records what the part says; on `.end`
        classifies the outcome, times the call and emits; then forwards the
        part unchanged. */
    method Receive(part: ResponsePart, now: int)
      requires Valid()
      modifies this
      ensures Valid()
      ensures part.ResponseEnd? ==>
        networkLog == Finalized(ReceiveLog(old(networkLog), part, now)) &&
        emitted == old(emitted) + [Emission(networkLog)]
      ensures !part.ResponseEnd? ==>
        networkLog == ReceiveLog(old(networkLog), part, now) && emitted == old(emitted)
      ensures received == old(received) + [part] && sent == old(sent)
      ensures history == old(history) + [Received(part, now)]
      ensures |emitted| == TerminalCount(history)
    {
      RecordResponsePart(part, now);
      if part.ResponseEnd? {
        AddGrpcNetworkLog();
      }
      received := received + [part];
      RunSnoc(Initial(networkLog.port), history, Received(part, now));
      history := history + [Received(part, now)];
      EmissionCount(Initial(networkLog.port), history);
    }

    /** The bookkeeping of one inbound part, before any emission. */
    method RecordResponsePart(part: ResponsePart, now: int)
      modifies this
      ensures networkLog == ReceiveLog(old(networkLog), part, now)
      ensures sent == old(sent) && received == old(received) && emitted == old(emitted) && history == old(history)
    {
      match part {
        case ResponseMetadata(headers) =>
          AddResponseHeaders(headers);
        case ResponseMessage(data) =>
          if data.Some? {
            networkLog := networkLog.(responseBodySize := Some(|data.value|));
          }
        case ResponseEnd(status, trailers) =>
          RecordEnd(status, trailers, now);
      }
    }

    /** The bookkeeping of an inbound `.end`: the status code, then either
        the trailers and the server error message or the error code and
        domain, then the duration. */
    method RecordEnd(status: Status, trailers: seq<Header>, now: int)
      modifies this
      ensures networkLog == ReceiveLog(old(networkLog), ResponseEnd(status, trailers), now)
      ensures sent == old(sent) && received == old(received) && emitted == old(emitted) && history == old(history)
    {
      networkLog := networkLog.(responseCode := Some(status.code));
      if |trailers| > 0 {
        AddResponseHeaders(trailers);
        if status.code != 0 {
          networkLog := networkLog.(serverErrorMessage := Some(status.description));
        }
      } else {
        networkLog := networkLog.(errorCode := Some(status.code));
        networkLog := networkLog.(errorDomain := Some(status.description));
      }
      if networkLog.startTime.Some? {
        networkLog := networkLog.(duration := Some(now - networkLog.startTime.value));
      }
    }

    /** `errorCaught(_:context:)`: records the error in place of any status
        and emits; the error is not passed on. */
    method ErrorCaught(error: CallError)
      requires Valid()
      modifies this
      ensures Valid()
      ensures networkLog == Finalized(ErrorLog(old(networkLog), error))
      ensures emitted == old(emitted) + [Emission(networkLog)]
      ensures sent == old(sent) && received == old(received)
      ensures history == old(history) + [Caught(error)]
      ensures |emitted| == TerminalCount(history)
    {
      networkLog := networkLog.(responseCode := None);
      networkLog := networkLog.(serverErrorMessage := None);
      networkLog := networkLog.(errorCode := Some(error.code));
      networkLog := networkLog.(errorDomain := Some(error.domain));
      AddGrpcNetworkLog();
      RunSnoc(Initial(networkLog.port), history, Caught(error));
      history := history + [Caught(error)];
      EmissionCount(Initial(networkLog.port), history);
    }

    /** `addGrpcNetworkLog()`: copies the response's content type into the
        request headers and `contentType`, then hands the record to the
        sink. */
    method AddGrpcNetworkLog()
      modifies this
      ensures networkLog == Finalized(old(networkLog))
      ensures emitted == old(emitted) + [Emission(networkLog)]
      ensures sent == old(sent) && received == old(received) && history == old(history)
    {
      if ContentType in networkLog.responseHeaders {
        networkLog := networkLog.(requestHeaders :=
          networkLog.requestHeaders[ContentType := networkLog.responseHeaders[ContentType]]);
      }
      networkLog := networkLog.(contentType := Lookup(networkLog.responseHeaders, ContentType));
      emitted := emitted + [Emission(networkLog)];
    }

    /** The loop over an outbound metadata part, then the content-type
        default. */
    method AddRequestHeaders(headers: seq<Header>)
      modifies this
      ensures networkLog == old(networkLog).(requestHeaders := AddHeaders(old(networkLog).requestHeaders, headers))
      ensures sent == old(sent) && received == old(received) && emitted == old(emitted) && history == old(history)
    {
      for i := 0 to |headers|
        invariant networkLog == old(networkLog).(requestHeaders := Merge(old(networkLog).requestHeaders, headers[..i]))
        invariant sent == old(sent) && received == old(received) && emitted == old(emitted) && history == old(history)
      {
        networkLog := networkLog.(requestHeaders := networkLog.requestHeaders[headers[i].name := headers[i].value]);
        assert headers[..i + 1][..i] == headers[..i];
      }
      assert headers[..|headers|] == headers;
      if Lookup(networkLog.requestHeaders, ContentType).None? {
        networkLog := networkLog.(requestHeaders := networkLog.requestHeaders[ContentType := DefaultContentType]);
      }
    }

    /** The loop over an inbound metadata or trailers part, then the
        content-type default. */
    method AddResponseHeaders(headers: seq<Header>)
      modifies this
      ensures networkLog == old(networkLog).(responseHeaders := AddHeaders(old(networkLog).responseHeaders, headers))
      ensures sent == old(sent) && received == old(received) && emitted == old(emitted) && history == old(history)
    {
      for i := 0 to |headers|
        invariant networkLog == old(networkLog).(responseHeaders := Merge(old(networkLog).responseHeaders, headers[..i]))
        invariant sent == old(sent) && received == old(received) && emitted == old(emitted) && history == old(history)
      {
        networkLog := networkLog.(responseHeaders := networkLog.responseHeaders[headers[i].name := headers[i].value]);
        assert headers[..i + 1][..i] == headers[..i];
      }
      assert headers[..|headers|] == headers;
      if Lookup(networkLog.responseHeaders, ContentType).None? {
        networkLog := networkLog.(responseHeaders := networkLog.responseHeaders[ContentType := DefaultContentType]);
      }
    }
  }
}
