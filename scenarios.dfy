/** Concrete calls, worked through the model end to end. */
module Scenarios {
  import opened Wrappers
  import opened Paths
  import opened Headers
  import opened NetworkLog

  /** A port of 50051 is written ":50051" in the URL. */
  lemma PortExample()
    ensures PortSuffix(Some(50051)) == ":50051"
  {
    assert DecimalString(5) == "5";
    assert DecimalString(50) == DecimalString(5) + "0";
    assert DecimalString(500) == DecimalString(50) + "0";
    assert DecimalString(5005) == DecimalString(500) + "5";
    assert DecimalString(50051) == DecimalString(5005) + "1";
  }

  /** A call on path "/{service}/{method}" to peer 10.0.0.5 through an
      interceptor built with port 50051 is logged under
      "grpc://10.0.0.5:50051/{service}" with method {method}; for example
      "/billing.v1.Invoice/Get" gives "grpc://10.0.0.5:50051/billing.v1.Invoice"
      and "Get". */
  lemma ExampleCall(service: string, rpc: string)
    requires '/' !in service && '/' !in rpc
    ensures Url(GetHost(Some("10.0.0.5")), Some(50051), "/" + service + "/" + rpc)
         == "grpc://10.0.0.5:50051/" + service
    ensures MethodName("/" + service + "/" + rpc) == rpc
  {
    var host := GetHost(Some("10.0.0.5"));
    assert host == "10.0.0.5";
    UrlOfRoutingPath(host, Some(50051), service, rpc);
    RoutingPath(service, rpc);
    PortExample();
    var prefix := "grpc://" + (host + PortSuffix(Some(50051))) + "/";
    assert prefix == "grpc://10.0.0.5:50051/";
    assert Url(host, Some(50051), "/" + service + "/" + rpc) == prefix + service;
  }

  /** When the authority lookup fails, the URL's host piece is "0.0.0.0". */
  lemma LookupFailure(port: Option<int>, path: string)
    ensures Split(Url(GetHost(None), port, path), '/')
         == ["grpc:", "", "0.0.0.0" + PortSuffix(port), ServiceName(path)]
  {
    UrlPieces(GetHost(None), port, path);
  }

  /** Nothing stops a second emission: a call whose `.end` arrives and
      which then reports an error is handed to the sink twice, first with the
      status code and then with the error in its place. */
  lemma EndThenErrorEmitsTwice(port: Option<int>, context: CallContext, headers: seq<Header>,
                               status: Status, trailers: seq<Header>, error: CallError, start: int, end: int)
    ensures var events := [Sent(context, RequestMetadata(headers), start),
                           Received(ResponseEnd(status, trailers), end),
                           Caught(error)];
      var final := Run(Initial(port), events);
      && |final.emitted| == 2
      && final.emitted[0].responseCode == status.code
      && final.emitted[0].duration == end - start
      && final.emitted[1].responseCode == 0
      && final.emitted[1].errorCode == error.code
      && final.emitted[1].errorDomain == Some(error.domain)
  {
    var e0 := Sent(context, RequestMetadata(headers), start);
    var e1 := Received(ResponseEnd(status, trailers), end);
    var e2 := Caught(error);
    RunSnoc(Initial(port), [], e0);
    RunSnoc(Initial(port), [e0], e1);
    RunSnoc(Initial(port), [e0, e1], e2);
    assert [e0] == [] + [e0] && [e0, e1] == [e0] + [e1] && [e0, e1, e2] == [e0, e1] + [e2];
  }
}
