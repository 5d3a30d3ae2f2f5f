/**
 * The HTTP values the handlers read and build: header lists, the incoming
 * request, the response, and the request sent on to Notion together with
 * what came back from it.
 */
module Http {

  import opened Wrappers
  import opened Text

  /** One header line; a header list may repeat a name, as `HeaderMap` may. */
  datatype Header = Header(name: string, value: string)

  datatype Method = Method(name: string)

  const Options := Method("OPTIONS")
  const Get := Method("GET")

  /** A request body as `to_bytes` sees it: its bytes, or the failure reading the stream. */
  datatype Body = Bytes(data: string) | Broken(reason: string)

  /** An incoming request: verb, the URI's path and query, headers and body. */
  datatype Request = Request(verb: Method, path: string, query: Option<string>, headers: seq<Header>, body: Body)

  /**
   * A response: status, headers in the order they were added, body. Header
   * names built by the handlers are written in lower case, as `HeaderName`
   * stores them.
   */
  datatype Response = Response(status: nat, headers: seq<Header>, body: string)

  /** The request sent to Notion: verb, URL, headers and body, if one is attached. */
  datatype Outbound = Outbound(verb: Method, url: string, headers: seq<Header>, body: Option<string>)

  /** What Notion answered: status, headers and body text. */
  datatype Upstream = Upstream(status: nat, headers: seq<Header>, body: string)

  /** Header names compare without regard to ASCII case. */
  predicate Named(h: Header, name: string) {
    ToLower(h.name) == name
  }

  /** `headers.get(name)`: the value of the first header with that name. */
  function Lookup(headers: seq<Header>, name: string): (r: Option<string>)
    ensures r.None? <==> forall i :: 0 <= i < |headers| ==> !Named(headers[i], name)
    ensures r.Some? ==> exists i :: 0 <= i < |headers| && Named(headers[i], name) && headers[i].value == r.value
    decreases |headers|
  {
    if headers == [] then None
    else if Named(headers[0], name) then Some(headers[0].value)
    else
      var r := Lookup(headers[1..], name);
      assert forall i :: 1 <= i < |headers| ==> headers[1..][i - 1] == headers[i];
      r
  }

  /** The first header with a given name decides the lookup; later ones are ignored. */
  lemma {:induction false} LookupFirst(headers: seq<Header>, name: string, i: nat)
    requires i < |headers| && Named(headers[i], name)
    requires forall j :: 0 <= j < i ==> !Named(headers[j], name)
    ensures Lookup(headers, name) == Some(headers[i].value)
    decreases i
  {
    if i > 0 {
      assert forall j :: 0 <= j < i - 1 ==> headers[1..][j] == headers[j + 1];
      LookupFirst(headers[1..], name, i - 1);
    }
  }

  /** In a list of two headers, a name as long as the first one's cannot find it, so it finds the second. */
  lemma LookupPair(a: Header, b: Header, name: string)
    requires Named(b, name) && |a.name| != |name|
    ensures Lookup([a, b], name) == Some(b.value)
  {
    LookupFirst([a, b], name, 1);
  }

  /** `HeaderValue::to_str` succeeds: every character is visible ASCII or a tab. */
  predicate Visible(v: string) {
    forall i :: 0 <= i < |v| ==> v[i] == '\t' || (' ' <= v[i] <= '~')
  }

  /** The host the request names: its `host` header when that reads as text, `localhost` otherwise. */
  function HostOf(headers: seq<Header>): (r: string)
    ensures r != "localhost" ==> Visible(r) && exists i :: 0 <= i < |headers| && Named(headers[i], "host") && headers[i].value == r
  {
    match Lookup(headers, "host")
    case Some(v) => if Visible(v) then v else "localhost"
    case None => "localhost"
  }

  /** Without a `host` header the request is taken to be for `localhost`. */
  lemma HostOfAbsent(headers: seq<Header>)
    requires forall i :: 0 <= i < |headers| ==> !Named(headers[i], "host")
    ensures HostOf(headers) == "localhost"
  {
  }

  /** The first `host` header names the host when its value is readable text, and `localhost` stands in when it is not. */
  lemma HostOfFirst(headers: seq<Header>, i: nat)
    requires i < |headers| && Named(headers[i], "host")
    requires forall j :: 0 <= j < i ==> !Named(headers[j], "host")
    ensures Visible(headers[i].value) ==> HostOf(headers) == headers[i].value
    ensures !Visible(headers[i].value) ==> HostOf(headers) == "localhost"
  {
    LookupFirst(headers, "host", i);
  }

  /** The headers whose lower-cased name is not in `drop`, in their original order. */
  function Keep(headers: seq<Header>, drop: set<string>): seq<Header>
    decreases |headers|
  {
    if headers == [] then []
    else
      var n := |headers| - 1;
      Keep(headers[..n], drop) + (if ToLower(headers[n].name) in drop then [] else [headers[n]])
  }

  /** A header survives exactly when it was there and its name is not dropped. */
  lemma {:induction false} KeepMembers(headers: seq<Header>, drop: set<string>)
    ensures forall h :: h in Keep(headers, drop) <==> h in headers && ToLower(h.name) !in drop
    decreases |headers|
  {
    if headers != [] {
      var n := |headers| - 1;
      KeepMembers(headers[..n], drop);
      assert headers == headers[..n] + [headers[n]];
    }
  }

  /** Filtering works piece by piece, so the survivors keep their relative order. */
  lemma {:induction false} KeepAppend(a: seq<Header>, b: seq<Header>, drop: set<string>)
    ensures Keep(a + b, drop) == Keep(a, drop) + Keep(b, drop)
    decreases |b|
  {
    if b == [] {
      assert a + b == a;
    } else {
      var n := |b| - 1;
      KeepAppend(a, b[..n], drop);
      assert (a + b)[..|a + b| - 1] == a + b[..n];
    }
  }

  /** Dropping one set of names and then another drops both at once. */
  lemma {:induction false} KeepTwice(headers: seq<Header>, d1: set<string>, d2: set<string>)
    ensures Keep(Keep(headers, d1), d2) == Keep(headers, d1 + d2)
    decreases |headers|
  {
    if headers != [] {
      var n := |headers| - 1;
      var last := if ToLower(headers[n].name) in d1 then [] else [headers[n]];
      KeepTwice(headers[..n], d1, d2);
      KeepAppend(Keep(headers[..n], d1), last, d2);
      if last != [] {
        assert last[..0] == [];
      }
    }
  }

  /** A list with no dropped name passes through whole. */
  lemma {:induction false} KeepNone(headers: seq<Header>, drop: set<string>)
    requires forall i :: 0 <= i < |headers| ==> ToLower(headers[i].name) !in drop
    ensures Keep(headers, drop) == headers
    decreases |headers|
  {
    if headers != [] {
      var n := |headers| - 1;
      KeepNone(headers[..n], drop);
      assert headers == headers[..n] + [headers[n]];
    }
  }

  /** The request headers never passed on to Notion. */
  const Hop := {"host", "content-length"}

  /**
   * The header loop of `handle_html_content`: each request header is passed
   * on unless its lower-cased name is `host` or `content-length`.
   */
  method ForwardHeaders(headers: seq<Header>) returns (out: seq<Header>)
    ensures out == Keep(headers, Hop)
  {
    out := [];
    for i := 0 to |headers|
      invariant out == Keep(headers[..i], Hop)
    {
      var name := ToLower(headers[i].name);
      if !(name == "host" || name == "content-length") {
        out := out + [headers[i]];
      }
      assert headers[..i + 1][..i] == headers[..i];
    }
    assert headers[..|headers|] == headers;
  }

  /** A response's header map, from which entries are removed in place. */
  class HeaderMap {
    var entries: seq<Header>

    constructor (entries: seq<Header>)
      ensures this.entries == entries
    {
      this.entries := entries;
    }

    /** `HeaderMap::remove(key)`: every value stored under `key` goes, the rest stay in order. */
    method Remove(key: string)
      modifies this
      ensures entries == Keep(old(entries), {key})
    {
      var kept := [];
      for i := 0 to |entries|
        invariant kept == Keep(entries[..i], {key})
      {
        if ToLower(entries[i].name) != key {
          kept := kept + [entries[i]];
        }
        assert entries[..i + 1][..i] == entries[..i];
      }
      assert entries[..|entries|] == entries;
      entries := kept;
    }
  }
}
