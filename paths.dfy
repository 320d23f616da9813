/**
 * How the interceptor names a call: the log URL and the gRPC method, both
 * derived from the call's path (`/{service}/{method}` in the gRPC-over-HTTP/2
 * protocol), the peer authority and the optional port given at construction.
 */
module Paths {
  import opened Wrappers

  /** Foundation's `components(separatedBy:)` for a one-character separator:
      the pieces between separators, keeping empty ones, so there is always
      at least one piece and `Join` puts the string back together. */
  function Split(s: string, sep: char): (parts: seq<string>)
    ensures |parts| >= 1
    ensures forall i :: 0 <= i < |parts| ==> sep !in parts[i]
    decreases |s|
  {
    if |s| == 0 then [""]
    else
      var rest := Split(s[1..], sep);
      if s[0] == sep then [""] + rest
      else [[s[0]] + rest[0]] + rest[1..]
  }

  /** The inverse of `Split`: the pieces with one separator between neighbours. */
  function Join(parts: seq<string>, sep: char): string
  {
    if |parts| == 0 then ""
    else if |parts| == 1 then parts[0]
    else parts[0] + [sep] + Join(parts[1..], sep)
  }

  /** `Join` undoes `Split`: no character of the string is lost or moved. */
  lemma {:induction false} JoinSplit(s: string, sep: char)
    ensures Join(Split(s, sep), sep) == s
    decreases |s|
  {
    if |s| > 0 {
      var rest := Split(s[1..], sep);
      JoinSplit(s[1..], sep);
      assert s == [s[0]] + s[1..];
      if s[0] == sep {
        assert ([""] + rest)[1..] == rest;
      } else if |rest| > 1 {
        var parts := [[s[0]] + rest[0]] + rest[1..];
        assert parts[1..] == rest[1..];
        assert Join(rest, sep) == rest[0] + [sep] + Join(rest[1..], sep);
      }
    }
  }

  /** A string without the separator is a single piece. */
  lemma {:induction false} SplitWithoutSeparator(s: string, sep: char)
    requires sep !in s
    ensures Split(s, sep) == [s]
    decreases |s|
  {
    if |s| > 0 {
      SplitWithoutSeparator(s[1..], sep);
      assert [s[0]] + s[1..] == s;
    }
  }

  /** Splitting at a separator splits the two sides independently. */
  lemma {:induction false} SplitAround(a: string, b: string, sep: char)
    ensures Split(a + [sep] + b, sep) == Split(a, sep) + Split(b, sep)
    decreases |a|
  {
    var s := a + [sep] + b;
    if |a| == 0 {
      assert s[0] == sep && s[1..] == b;
    } else {
      assert s[0] == a[0] && s[1..] == a[1..] + [sep] + b;
      SplitAround(a[1..], b, sep);
    }
  }

  /** Splitting what `Join` produced gives back the pieces, when no piece
      holds the separator. */
  lemma {:induction false} SplitJoin(parts: seq<string>, sep: char)
    requires |parts| >= 1
    requires forall i :: 0 <= i < |parts| ==> sep !in parts[i]
    ensures Split(Join(parts, sep), sep) == parts
    decreases |parts|
  {
    if |parts| == 1 {
      SplitWithoutSeparator(parts[0], sep);
    } else {
      SplitJoin(parts[1..], sep);
      SplitWithoutSeparator(parts[0], sep);
      SplitAround(parts[0], Join(parts[1..], sep), sep);
      assert [parts[0]] + parts[1..] == parts;
    }
  }

  /** The service: piece [1] of the path split on "/", or "" when the path
      has fewer than two pieces. */
  function ServiceName(path: string): (name: string)
    ensures '/' !in name
  {
    var components := Split(path, '/');
    if |components| > 1 then components[1] else ""
  }

  /** The gRPC method: the last "/"-piece of the path (`.last` of a
      never-empty array, so it is always present). */
  function MethodName(path: string): (name: string)
    ensures '/' !in name
  {
    var components := Split(path, '/');
    components[|components| - 1]
  }

  /** A path of the protocol's shape `/{service}/{method}` yields exactly its
      service and its method. */
  lemma RoutingPath(service: string, rpc: string)
    requires '/' !in service && '/' !in rpc
    ensures ServiceName("/" + service + "/" + rpc) == service
    ensures MethodName("/" + service + "/" + rpc) == rpc
  {
    var parts := ["", service, rpc];
    assert Join(parts, '/') == "/" + service + "/" + rpc by {
      assert Join(parts[1..], '/') == service + "/" + rpc by {
        assert parts[1..][1..] == [rpc];
      }
    }
    SplitJoin(parts, '/');
  }

  /** A path without any "/" has no service, and is itself the method. */
  lemma PathWithoutSlash(path: string)
    requires '/' !in path
    ensures ServiceName(path) == "" && MethodName(path) == path
  {
    SplitWithoutSeparator(path, '/');
  }

  /** The peer-address fallback used when the authority cannot be found. */
  const DefaultIP: string := "0.0.0.0"

  /** The authority if the lookup found one, the fallback address otherwise. */
  function GetHost(authority: Option<string>): (host: string)
    ensures authority.Some? ==> host == authority.value
    ensures authority.None? ==> host == DefaultIP
  {
    authority.GetOr(DefaultIP)
  }

  predicate IsDigit(c: char)
  {
    '0' <= c <= '9'
  }

  predicate AllDigits(s: string)
  {
    forall i :: 0 <= i < |s| ==> IsDigit(s[i])
  }

  /** The number a string of decimal digits denotes. */
  function DecimalValue(s: string): nat
    requires AllDigits(s)
  {
    if |s| == 0 then 0
    else 10 * DecimalValue(s[..|s| - 1]) + (s[|s| - 1] as int - '0' as int)
  }

  /** Swift's decimal rendering of a non-negative integer: digits only, no
      leading zero, denoting `n`. */
  function DecimalString(n: nat): (s: string)
    ensures |s| >= 1 && AllDigits(s)
    ensures s[0] == '0' ==> n == 0
    ensures DecimalValue(s) == n
  {
    if n < 10 then [('0' as int + n) as char]
    else
      var s := DecimalString(n / 10) + [('0' as int + n % 10) as char];
      assert s[..|s| - 1] == DecimalString(n / 10);
      s
  }

  /** String interpolation of a Swift `Int`: a minus sign before the digits
      of a negative number. */
  function IntToString(i: int): (s: string)
    ensures '/' !in s
  {
    if i < 0 then "-" + DecimalString(-i) else DecimalString(i)
  }

  /** Reads back what `IntToString` writes: an optional minus sign and at
      least one digit. */
  function ParseInt(s: string): Option<int>
  {
    if |s| > 0 && s[0] == '-' then
      (if |s| > 1 && AllDigits(s[1..]) then var magnitude: int := DecimalValue(s[1..]); Some(-magnitude)
       else None)
    else if |s| > 0 && AllDigits(s) then Some(DecimalValue(s))
    else None
  }

  /** The port text in the URL denotes the port it came from. */
  lemma IntToStringRoundTrip(i: int)
    ensures ParseInt(IntToString(i)) == Some(i)
  {
    if i < 0 {
      assert ("-" + DecimalString(-i))[1..] == DecimalString(-i);
    }
  }

  /** ":" and the port when one was given at construction, "" otherwise. */
  function PortSuffix(port: Option<int>): (suffix: string)
    ensures port.None? <==> suffix == ""
    ensures '/' !in suffix
  {
    if port.Some? then ":" + IntToString(port.value) else ""
  }

  /** A given port is written as ":" followed by text that reads back as
      the port. */
  lemma PortSuffixRoundTrip(port: Option<int>)
    requires port.Some?
    ensures PortSuffix(port)[0] == ':'
    ensures ParseInt(PortSuffix(port)[1..]) == Some(port.value)
  {
    var digits := IntToString(port.value);
    IntToStringRoundTrip(port.value);
    assert (":" + digits)[1..] == digits;
  }

  /** The URL recorded for a call. */
  function Url(authority: string, port: Option<int>, path: string): string
  {
    "grpc://" + (authority + PortSuffix(port)) + "/" + ServiceName(path)
  }

  /** Where each part sits in the URL: the scheme, then the authority, then
      the port suffix, then "/" and the service name at the end. */
  lemma UrlLayout(authority: string, port: Option<int>, path: string)
    ensures var url := Url(authority, port, path);
      var service := ServiceName(path);
      && |url| == 7 + |authority| + |PortSuffix(port)| + 1 + |service|
      && url[..7] == "grpc://"
      && url[7..7 + |authority|] == authority
      && url[7 + |authority|..7 + |authority| + |PortSuffix(port)|] == PortSuffix(port)
      && url[|url| - |service| - 1] == '/'
      && url[|url| - |service|..] == service
  {
    var suffix := PortSuffix(port);
    var service := ServiceName(path);
    var hostPort := authority + suffix;
    var head := "grpc://" + hostPort;
    var tail := "/" + service;
    var url := Url(authority, port, path);
    assert url == head + tail && |head| == 7 + |authority| + |suffix|;
    assert url[..|head|] == head && url[|head|..] == tail;
    assert url[|url| - |service| - 1] == '/' && url[|url| - |service|..] == service by {
      assert url[|head|..] == tail && tail[1..] == service;
    }
    assert url[..7] == "grpc://" && url[7..7 + |authority|] == authority
        && url[7 + |authority|..7 + |authority| + |suffix|] == suffix by {
      assert url[..|head|] == head;
      assert head[7..] == hostPort;
      assert hostPort[..|authority|] == authority && hostPort[|authority|..] == suffix;
    }
  }

  /** The three "/" of a URL, grouped the way `SplitAround` takes them apart. */
  lemma UrlShape(authority: string, port: Option<int>, path: string)
    ensures Url(authority, port, path)
         == "grpc:" + "/" + ("" + "/" + ((authority + PortSuffix(port)) + "/" + ServiceName(path)))
  {
    Regroup(authority + PortSuffix(port), ServiceName(path));
  }

  lemma Regroup(hostPort: string, service: string)
    ensures "grpc://" + hostPort + "/" + service == "grpc:" + "/" + ("" + "/" + (hostPort + "/" + service))
  {
  }

  /** Splitting a string that starts with a separator-free piece and a
      separator. */
  lemma SplitFirst(first: string, rest: string, sep: char)
    requires sep !in first
    ensures Split(first + [sep] + rest, sep) == [first] + Split(rest, sep)
  {
    SplitAround(first, rest, sep);
    SplitWithoutSeparator(first, sep);
  }

  /** The URL splits on "/" into the scheme, an empty piece, the authority
      with its port suffix, and the service: so the authority, the port and
      the service can all be read back from the URL. */
  lemma UrlPieces(authority: string, port: Option<int>, path: string)
    requires '/' !in authority
    ensures Split(Url(authority, port, path), '/')
         == ["grpc:", "", authority + PortSuffix(port), ServiceName(path)]
  {
    var hostPort := authority + PortSuffix(port);
    var service := ServiceName(path);
    var tail := hostPort + "/" + service;
    var afterScheme := "" + "/" + tail;
    SplitFirst(hostPort, service, '/');
    SplitWithoutSeparator(service, '/');
    SplitFirst("", tail, '/');
    SplitFirst("grpc:", afterScheme, '/');
    UrlShape(authority, port, path);
  }

  /** For a path of the protocol's shape the URL ends in "/" and the service. */
  lemma UrlOfRoutingPath(authority: string, port: Option<int>, service: string, rpc: string)
    requires '/' !in service && '/' !in rpc
    ensures Url(authority, port, "/" + service + "/" + rpc)
         == "grpc://" + (authority + PortSuffix(port)) + "/" + service
  {
    RoutingPath(service, rpc);
  }
}
