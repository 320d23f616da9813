# Instabug gRPC client interceptor, modelled in Dafny

`InstabugClientInterceptor` is a gRPC client interceptor. It is built once
per call, optionally with a port. It watches the call's outbound parts
(`send`: metadata, message, end) and inbound parts (`receive`: metadata,
message, end with status and trailers). It also sees the out-of-band error
(`errorCaught`). It fills a `GRPCNetworkLog` record with:

- the URL and the gRPC method;
- the request and response header dictionaries;
- the body sizes;
- the status or error classification;
- the start time and the duration.

On each terminal event it finalises the content type and hands the record to
`NetworkLogger.addGrpcNetworkLog`.

The project has these modules:

- `Wrappers` (wrappers.dfy): `Option`.
- `Paths` (paths.dfy): how a call is named.
  - `Split` models Foundation's `components(separatedBy:)`. It has its inverse `Join`.
  - `ServiceName`, `MethodName` and `GetHost` (the authority, or the "0.0.0.0" fallback).
  - The decimal port text, with `ParseInt` as its inverse.
  - `Url`.
- `Headers` (headers.dfy): the `for header in headers` merge into a dictionary, and the "content-type" default.
- `NetworkLog` (network_log.dfy):
  - the record `GrpcNetworkLog`, the parts, statuses and errors;
  - one pure function per handler (`SendLog`, `ReceiveLog`, `ErrorLog`, `Finalized`, `Emission`);
  - a trace semantics `Run` over a sequence of `Event`s;
  - the lemmas that state what each handler and each whole call does.
- `Interceptor` (interceptor.dfy): the class `InstabugClientInterceptor`.
  - Its field `networkLog` is updated in place by `Send`, `Receive`, `ErrorCaught` and `AddGrpcNetworkLog`.
  - The header loops are real `for` loops.
  - Ghost sequences record what is forwarded (`sent`, `received`), what is handed to the sink (`emitted`) and the events seen (`history`).
  - `Valid()` says that the object is the result of running `history` from a fresh interceptor.
  - Every method is proved equal to its pure counterpart.
- `Scenarios` (scenarios.dfy): whole calls worked through the model.

Time is given as whole microseconds since the epoch. The caller passes it in
as `now` instead of reading the wall clock.

### Where the code falls short of the intended behaviour

The interceptor is meant to hand exactly one consistent record per call to
the sink. The model follows the code, which differs from that in these
ways:

- **Emissions.** One emission per call is intended, but nothing guards
  against a second. An inbound `.end` followed by `errorCaught` emits twice
  (`EmissionCount`, `Scenarios.EndThenErrorEmitsTwice`).
- **Trailers-only end.** A call is meant to end either with a status code
  or with an error code and domain, never both. A `.end` with empty
  trailers sets `responseCode` and also `errorCode`/`errorDomain`
  (`TrailersOnlyEnd`).
- **Content type.** The request's content type would be a natural fallback
  when the response has none. The code takes `contentType` from the
  response headers only (`FinalizedContentType`).
- **Trace headers.** No trace-correlation header is injected. Outbound
  metadata is forwarded exactly as given.
- **URL and method.** Both are recomputed on every outbound part, not only
  on the first (`SendNamesCall`).
- **Errors.** `errorCaught` does not forward the error. It leaves the
  duration as it was, and it clears `responseCode` and `serverErrorMessage`
  (`CaughtError`, `ErrorCaught`).

## Model

| member | source | states |
|---|---|---|
| Paths.Split | Instabug-grpc-swift/InstabugClientInterceptor.swift:29-30 | `components(separatedBy:)` always yields at least one piece, and no piece contains the separator |
| Paths.JoinSplit | Instabug-grpc-swift/InstabugClientInterceptor.swift:29-30 | splitting loses nothing: joining the pieces with the separator gives back the path |
| Paths.SplitJoin | Instabug-grpc-swift/InstabugClientInterceptor.swift:29-30 | splitting a join of separator-free pieces gives back exactly those pieces |
| Paths.SplitWithoutSeparator | Instabug-grpc-swift/InstabugClientInterceptor.swift:29-30 | a string without "/" is a single component |
| Paths.SplitAround | Instabug-grpc-swift/InstabugClientInterceptor.swift:29-30 | splitting at a separator splits the two sides independently and concatenates the results |
| Paths.ServiceName | Instabug-grpc-swift/InstabugClientInterceptor.swift:28-31 | the service name is a single "/"-free component (component [1], or "" when there are fewer than two) |
| Paths.MethodName | Instabug-grpc-swift/InstabugClientInterceptor.swift:38 | the method (`.last` component) is a single "/"-free component |
| Paths.RoutingPath | Instabug-grpc-swift/InstabugClientInterceptor.swift:28-38 | for a path `/{service}/{method}` the service name is exactly `service` and the method exactly `method` |
| Paths.PathWithoutSlash | Instabug-grpc-swift/InstabugClientInterceptor.swift:28-38 | a path with no "/" gives an empty service name and is itself the method |
| Paths.GetHost | Instabug-grpc-swift/InstabugClientInterceptor.swift:140-160 | the authority when the lookup finds one, "0.0.0.0" when any step of the lookup fails |
| Paths.DecimalString | Instabug-grpc-swift/InstabugClientInterceptor.swift:35 | the interpolated digits of a non-negative port are digits only, with no leading zero, and denote the number |
| Paths.IntToString | Instabug-grpc-swift/InstabugClientInterceptor.swift:35 | the port text never contains "/", so it cannot shift the URL's components |
| Paths.IntToStringRoundTrip | Instabug-grpc-swift/InstabugClientInterceptor.swift:33-36 | the port text reads back as the port it came from, negative ports included |
| Paths.PortSuffix | Instabug-grpc-swift/InstabugClientInterceptor.swift:33-36 | the suffix is empty exactly when no port was given, and never contains "/" |
| Paths.PortSuffixRoundTrip | Instabug-grpc-swift/InstabugClientInterceptor.swift:33-36 | a given port is written as ":" followed by text that reads back as that port |
| Paths.UrlLayout | Instabug-grpc-swift/InstabugClientInterceptor.swift:37 | the URL is "grpc://", then the authority, then the port suffix, then "/" and the service name, with nothing else in between |
| Paths.UrlPieces | Instabug-grpc-swift/InstabugClientInterceptor.swift:27-37 | the URL splits on "/" into "grpc:", "", the authority followed by ":port" when a port was given, and the service name |
| Paths.UrlOfRoutingPath | Instabug-grpc-swift/InstabugClientInterceptor.swift:27-37 | for a path `/{service}/{method}` the URL is "grpc://" + authority + port suffix + "/" + service |
| Headers.WithDefaultContentType | Instabug-grpc-swift/InstabugClientInterceptor.swift:46-48 | "content-type" is added as "application/grpc" only if absent, and every existing entry keeps its value |
| Headers.Merge | Instabug-grpc-swift/InstabugClientInterceptor.swift:42-44 | the header loop never removes a key, and every header's name is present afterwards |
| Headers.AddHeaders | Instabug-grpc-swift/InstabugClientInterceptor.swift:42-48 | after a metadata part the keys are exactly the old keys, the headers' names and "content-type" |
| Headers.MergeKeys | Instabug-grpc-swift/InstabugClientInterceptor.swift:42-44 | after the header loop the dictionary holds exactly the old keys and the headers' names |
| Headers.MergeLaterWins | Instabug-grpc-swift/InstabugClientInterceptor.swift:42-44 | each header's name maps to its value unless a later header of the same name overrides it |
| Headers.MergeKeepsOthers | Instabug-grpc-swift/InstabugClientInterceptor.swift:42-44 | a name carried by no header keeps its old value, or stays absent |
| Headers.AddHeadersLookup | Instabug-grpc-swift/InstabugClientInterceptor.swift:42-48 | after a metadata part, each name maps to the last header value of that name, else its old value, and a "content-type" that neither had maps to "application/grpc" |
| NetworkLog.WithCallName | Instabug-grpc-swift/InstabugClientInterceptor.swift:27-38 | naming the call sets the URL and sets the method to the last path component, and changes no other field |
| NetworkLog.SendPart | Instabug-grpc-swift/InstabugClientInterceptor.swift:39-56 | the switch over the part changes only startTime, requestHeaders and requestBodySize; each case is stated by SendMetadata, SendMessage and SendEnd |
| NetworkLog.SendLog | Instabug-grpc-swift/InstabugClientInterceptor.swift:27-56 | send always sets URL and method; metadata sets startTime to now and leaves a "content-type"; only the request-side fields, URL, method and startTime can change |
| NetworkLog.ReceiveLog | Instabug-grpc-swift/InstabugClientInterceptor.swift:66-100 | on end the response code is the status code, and a non-zero code always leaves an error code or a server error message; receive never changes URL, method, port, startTime, request headers, request size or contentType |
| NetworkLog.ErrorLog | Instabug-grpc-swift/InstabugClientInterceptor.swift:109-112 | the response code and server error message are cleared, the error code and domain are the error's, and no other field changes |
| NetworkLog.Finalized | Instabug-grpc-swift/InstabugClientInterceptor.swift:117-120 | the response headers are kept, contentType is the response "content-type", and when present the request "content-type" agrees with it |
| NetworkLog.Emission | Instabug-grpc-swift/InstabugClientInterceptor.swift:122-137 | every missing number (sizes, codes, start time, duration) is handed to the sink as 0 and every present one as it is; the URL, method, header maps, content type, error domain and server error message are passed unchanged |
| NetworkLog.SendNamesCall | Instabug-grpc-swift/InstabugClientInterceptor.swift:27-38 | every outbound part, of any kind, sets the URL (components "grpc:", "", host + port suffix, service) and the method from the current path, host and port |
| NetworkLog.SendMetadata | Instabug-grpc-swift/InstabugClientInterceptor.swift:40-48 | outbound metadata sets startTime to now and merges the headers (later duplicates win, others unchanged, content-type default); no other field changes apart from URL and method |
| NetworkLog.SendMessage | Instabug-grpc-swift/InstabugClientInterceptor.swift:50-54 | an outbound message with data sets requestBodySize to its byte count; without data it acts as an outbound end |
| NetworkLog.SendEnd | Instabug-grpc-swift/InstabugClientInterceptor.swift:55 | an outbound end changes no field but URL and method |
| NetworkLog.ReceiveMetadata | Instabug-grpc-swift/InstabugClientInterceptor.swift:67-73 | inbound metadata merges into responseHeaders like outbound metadata, and no other field changes |
| NetworkLog.ReceiveMessage | Instabug-grpc-swift/InstabugClientInterceptor.swift:75-79 | an inbound message with data sets responseBodySize to its byte count; without data the record is untouched |
| NetworkLog.ReceiveEndWithTrailers | Instabug-grpc-swift/InstabugClientInterceptor.swift:81-100 | end with trailers: responseCode is the status code; the trailers merge into responseHeaders (last value wins, others kept, "application/grpc" when neither side had a "content-type"); serverErrorMessage is the description exactly when the code is not 0; errorCode and errorDomain are untouched, and no field but responseCode, responseHeaders, serverErrorMessage and duration changes |
| NetworkLog.ReceiveEndTrailersOnly | Instabug-grpc-swift/InstabugClientInterceptor.swift:81-100 | end with empty trailers: errorCode is the code, errorDomain is the description, responseCode is still set, and no field but responseCode, errorCode, errorDomain and duration changes |
| NetworkLog.ReceiveEndDuration | Instabug-grpc-swift/InstabugClientInterceptor.swift:98-100 | duration becomes now minus startTime when a start time exists, and keeps its prior value otherwise |
| NetworkLog.FinalizedContentType | Instabug-grpc-swift/InstabugClientInterceptor.swift:117-120 | contentType is the response "content-type"; when present it overwrites the request's, and otherwise the request headers are unchanged; finalising is idempotent |
| NetworkLog.NoErrorBeforeTerminal | Instabug-grpc-swift/InstabugClientInterceptor.swift:15-100 | from a fresh interceptor, no event before the first `.end` or error records an error code or a server error message, so a whole call meets SuccessfulEnd's precondition at its first `.end` |
| NetworkLog.SuccessfulEnd | Instabug-grpc-swift/InstabugClientInterceptor.swift:81-137 | a status-0 end with trailers, after no error, is logged with code 0, no error, no server message and matching request/response content types |
| NetworkLog.ServerErrorEnd | Instabug-grpc-swift/InstabugClientInterceptor.swift:81-137 | a non-zero end with trailers is logged with that code and the description as server error message |
| NetworkLog.TrailersOnlyEnd | Instabug-grpc-swift/InstabugClientInterceptor.swift:81-137 | an end with empty trailers is logged with the code as both error code and response code, and the description as error domain |
| NetworkLog.EndTiming | Instabug-grpc-swift/InstabugClientInterceptor.swift:98-135 | the emitted start time is 0 if never set; the emitted duration is the elapsed time, or the prior duration (0 if none) when there is no start time |
| NetworkLog.CaughtError | Instabug-grpc-swift/InstabugClientInterceptor.swift:108-137 | errorCaught clears responseCode and serverErrorMessage in the record, emits the error's code and domain with responseCode 0, and keeps the response headers, every request header except "content-type", the sizes, URL, method and duration |
| NetworkLog.Apply | Instabug-grpc-swift/InstabugClientInterceptor.swift:22-138 | one event keeps the port, keeps every earlier emission, and adds exactly one emission if it is an inbound `.end` or an error and none otherwise (with ApplyEmits stating which record is emitted) |
| NetworkLog.ApplyEmits | Instabug-grpc-swift/InstabugClientInterceptor.swift:101-122 | a terminal event appends exactly one emission of the finalised record; any other event appends nothing |
| NetworkLog.EmittedOnlyGrows | Instabug-grpc-swift/InstabugClientInterceptor.swift:116-138 | emissions are only appended: whatever was handed to the sink stays as it was |
| NetworkLog.EmissionCount | Instabug-grpc-swift/InstabugClientInterceptor.swift:101-113 | over any sequence of events the number of emissions is the number of inbound ends plus errorCaught calls |
| NetworkLog.PortKept | Instabug-grpc-swift/InstabugClientInterceptor.swift:15-18 | the port given at construction is never changed by any event |
| Interceptor.InstabugClientInterceptor.constructor | Instabug-grpc-swift/InstabugClientInterceptor.swift:15-20 | a fresh empty record that holds the given port; nothing forwarded or emitted yet |
| Interceptor.InstabugClientInterceptor.Send | Instabug-grpc-swift/InstabugClientInterceptor.swift:22-60 | the record becomes `SendLog` of the old record, the identical part is forwarded, nothing is emitted, and the emission count stays equal to the number of terminal events |
| Interceptor.InstabugClientInterceptor.RecordRequestPart | Instabug-grpc-swift/InstabugClientInterceptor.swift:39-56 | the in-place updates for a metadata, message or end part equal what `SendLog` records about the part |
| Interceptor.InstabugClientInterceptor.NameCall | Instabug-grpc-swift/InstabugClientInterceptor.swift:27-38 | the in-place URL and method assignments equal `WithCallName` |
| Interceptor.InstabugClientInterceptor.Receive | Instabug-grpc-swift/InstabugClientInterceptor.swift:62-106 | the record becomes `ReceiveLog` of the old record (finalised and emitted once on end), and the identical part is forwarded |
| Interceptor.InstabugClientInterceptor.RecordResponsePart | Instabug-grpc-swift/InstabugClientInterceptor.swift:66-100 | the in-place updates for a metadata, message or end part equal `ReceiveLog` |
| Interceptor.InstabugClientInterceptor.RecordEnd | Instabug-grpc-swift/InstabugClientInterceptor.swift:81-100 | the in-place end-of-call updates equal `ReceiveLog` on an end part |
| Interceptor.InstabugClientInterceptor.ErrorCaught | Instabug-grpc-swift/InstabugClientInterceptor.swift:108-114 | the record becomes the finalised `ErrorLog`, exactly one emission is appended, and nothing is forwarded |
| Interceptor.InstabugClientInterceptor.AddGrpcNetworkLog | Instabug-grpc-swift/InstabugClientInterceptor.swift:116-138 | the record becomes `Finalized` of the old one, and its `Emission` is appended to what the sink received |
| Interceptor.InstabugClientInterceptor.AddRequestHeaders | Instabug-grpc-swift/InstabugClientInterceptor.swift:42-48 | the header loop and default leave requestHeaders equal to `AddHeaders` of the old dictionary, with all other fields unchanged |
| Interceptor.InstabugClientInterceptor.AddResponseHeaders | Instabug-grpc-swift/InstabugClientInterceptor.swift:68-73 | the header loop and default leave responseHeaders equal to `AddHeaders` of the old dictionary, with all other fields unchanged |
| Scenarios.PortExample | Instabug-grpc-swift/InstabugClientInterceptor.swift:33-36 | port 50051 is written ":50051" |
| Scenarios.ExampleCall | Instabug-grpc-swift/InstabugClientInterceptor.swift:27-38 | authority 10.0.0.5, port 50051 and path `/{service}/{method}` give "grpc://10.0.0.5:50051/{service}" and method `{method}` |
| Scenarios.LookupFailure | Instabug-grpc-swift/InstabugClientInterceptor.swift:140-160 | when the authority lookup fails, the URL's host component is "0.0.0.0" followed by the port suffix |
| Scenarios.EndThenErrorEmitsTwice | Instabug-grpc-swift/InstabugClientInterceptor.swift:101-113 | metadata, then end, then an error emits twice: first with the status code and the elapsed duration, then with response code 0 and the error's code and domain |

## Left out

- `getHost`'s reflective walk (`Mirror` over the context's private `_pipeline`, `details` and `authority` fields) is not modelled. Its outcome is an input, `CallContext.authority`: `None` when any step of the walk fails.
- `Date().timeIntervalSince1970` and the `Double` arithmetic with `* 1000000` are not modelled. Times are whole microseconds passed in as `now`, so duration and start time are exact integers with no floating-point rounding.
- `requestBody` and `responseBody` (`String(data:encoding: .utf8)`) are not modelled. Only the byte counts are kept.
- Int64 conversions are not modelled: sizes, start time and duration are unbounded integers. The Swift conversions would trap on values out of range, which needs payloads or times beyond 2^63.
- Status and error codes are typed `Int32` (a subset type). Swift's `Int32(...)` traps outside that range, so the model only accepts in-range codes.
- `NetworkLogger.addGrpcNetworkLog` is not modelled as an SDK call. Each call is one `LoggedCall` appended to the ghost sequence `emitted`.
- The body-string arguments of the `addGrpcNetworkLog` call are left out of `LoggedCall`, with the body strings themselves.
- `EventLoopPromise`, `ClientInterceptorContext.send/receive` and the NIO event loop are not modelled. Forwarding is recorded as appending the part to the ghost sequences `sent` and `received`.
- The generic payload types (`InstabugGRPCDataProtocol`) are reduced to an optional byte sequence per message.
- `GRPCStatus.description` formatting is not modelled. A status carries its description as an opaque string.
- Header names, values and paths are compared as sequences of code points. Swift `String` equality uses Unicode canonical equivalence, so the source's dictionaries and `components(separatedBy:)` treat canonically equivalent names (precomposed and decomposed accents) as one; the model treats them as different. gRPC header names and paths are ASCII, where the two agree.
- `open` overriding by subclasses and the `lazy` initialisation of `networkLog` are not modelled. The record is created by the constructor.
