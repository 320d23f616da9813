/**
 * The header bookkeeping of the interceptor: metadata is a sequence of
 * name/value pairs, and each metadata or trailers part is copied into one of
 * the record's string-to-string dictionaries, after which "content-type"
 * receives a default if it is still absent.
 */
module Headers {
  import opened Wrappers

  datatype Header = Header(name: string, value: string)

  type HeaderMap = map<string, string>

  const ContentType: string := "content-type"
  const DefaultContentType: string := "application/grpc"

  /** Swift's dictionary subscript: the value under `key`, if any. */
  function Lookup(m: HeaderMap, key: string): Option<string>
  {
    if key in m then Some(m[key]) else None
  }

  /** The names carried by a metadata part. */
  function Names(headers: seq<Header>): set<string>
  {
    set h | h in headers :: h.name
  }

  /** The dictionary after `for header in headers { m[header.name] = header.value }`:
      the headers written one after the other, in order. */
  function Merge(m: HeaderMap, headers: seq<Header>): (r: HeaderMap)
    ensures m.Keys <= r.Keys
    ensures forall i :: 0 <= i < |headers| ==> headers[i].name in r
  {
    if |headers| == 0 then m
    else
      var last := headers[|headers| - 1];
      Merge(m, headers[..|headers| - 1])[last.name := last.value]
  }

  /** The default applied after every merge: "content-type" is set to
      "application/grpc" only if no value is present. */
  function WithDefaultContentType(m: HeaderMap): (r: HeaderMap)
    ensures r.Keys == m.Keys + {ContentType}
    ensures forall k :: k in m ==> r[k] == m[k]
    ensures ContentType !in m ==> r[ContentType] == DefaultContentType
  {
    if ContentType !in m then m[ContentType := DefaultContentType] else m
  }

  /** A metadata part added to a dictionary, default included. */
  function AddHeaders(m: HeaderMap, headers: seq<Header>): (r: HeaderMap)
    ensures r.Keys == m.Keys + Names(headers) + {ContentType}
  {
    MergeKeys(m, headers);
    WithDefaultContentType(Merge(m, headers))
  }

  /** After a merge the dictionary holds exactly the old keys and the
      headers' names. */
  lemma {:induction false} MergeKeys(m: HeaderMap, headers: seq<Header>)
    ensures Merge(m, headers).Keys == m.Keys + Names(headers)
    decreases |headers|
  {
    if |headers| > 0 {
      var init := headers[..|headers| - 1];
      MergeKeys(m, init);
      assert headers == init + [headers[|headers| - 1]];
      assert Names(headers) == Names(init) + {headers[|headers| - 1].name};
    }
  }

  /** For every header, the merged dictionary maps its name to its value,
      unless a later header of the same name overrides it: later duplicates
      win. */
  lemma {:induction false} MergeLaterWins(m: HeaderMap, headers: seq<Header>, j: nat)
    requires j < |headers|
    requires forall i :: j < i < |headers| ==> headers[i].name != headers[j].name
    ensures Lookup(Merge(m, headers), headers[j].name) == Some(headers[j].value)
    decreases |headers|
  {
    if j < |headers| - 1 {
      var init := headers[..|headers| - 1];
      assert init[j] == headers[j];
      MergeLaterWins(m, init, j);
    }
  }

  /** A name that no header carries keeps its old value, or stays absent. */
  lemma {:induction false} MergeKeepsOthers(m: HeaderMap, headers: seq<Header>, key: string)
    requires key !in Names(headers)
    ensures Lookup(Merge(m, headers), key) == Lookup(m, key)
    decreases |headers|
  {
    if |headers| > 0 {
      var init := headers[..|headers| - 1];
      assert headers[|headers| - 1] in headers;
      assert Names(init) <= Names(headers) by {
        forall n | n in Names(init) ensures n in Names(headers) {
          var h :| h in init && h.name == n;
          assert h in headers;
        }
      }
      MergeKeepsOthers(m, init, key);
    }
  }

  /** What a metadata part leaves under each name: the value of the last
      header of that name if the part carries it; otherwise the old value;
      and "application/grpc" for a "content-type" that neither had. */
  lemma AddHeadersLookup(m: HeaderMap, headers: seq<Header>, key: string)
    ensures AddHeaders(m, headers).Keys == m.Keys + Names(headers) + {ContentType}
    ensures key in Names(headers) ==>
      Lookup(AddHeaders(m, headers), key) == Some(headers[LastIndexOf(headers, key)].value)
    ensures key !in Names(headers) && (key in m || key != ContentType) ==>
      Lookup(AddHeaders(m, headers), key) == Lookup(m, key)
    ensures key !in Names(headers) && key !in m && key == ContentType ==>
      Lookup(AddHeaders(m, headers), key) == Some(DefaultContentType)
  {
    MergeKeys(m, headers);
    if key in Names(headers) {
      MergeLaterWins(m, headers, LastIndexOf(headers, key));
    } else {
      MergeKeepsOthers(m, headers, key);
    }
  }

  /** The position of the last header named `key`. */
  function LastIndexOf(headers: seq<Header>, key: string): (j: nat)
    requires key in Names(headers)
    ensures j < |headers| && headers[j].name == key
    ensures forall i :: j < i < |headers| ==> headers[i].name != key
  {
    var last := headers[|headers| - 1];
    if last.name == key then |headers| - 1
    else
      var init := headers[..|headers| - 1];
      assert key in Names(init) by {
        var h :| h in headers && h.name == key;
        assert h != last;
      }
      LastIndexOf(init, key)
  }
}
