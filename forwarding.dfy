/**
 * The three handlers that forward a request to Notion: JavaScript assets,
 * API calls and page content. What Notion answers is an input here (an
 * `Upstream` value, or the error the HTTP client reported); what the model
 * produces is the request sent and the response returned.
 */
module Forwarding {

  import opened Wrappers
  import opened Text
  import opened Patterns
  import opened Config
  import opened Errors
  import opened Http
  import opened Inject

  /** The Notion origin for a workspace. */
  function NotionOrigin(username: string): string {
    "https://" + username + ".notion.site"
  }

  /** The URL the request is forwarded to: Notion's origin, the same path, and `?query` when the query is not empty. */
  function NotionUrl(username: string, path: string, query: Option<string>): (r: string)
    ensures StartsWith(r, NotionOrigin(username) + path)
    ensures EndsWith(r, query.GetOr(""))
  {
    var q := query.GetOr("");
    QueryTail(NotionOrigin(username) + path, q);
    NotionOrigin(username) + path + (if q == "" then "" else "?" + q)
  }

  /** A URL with its query attached starts with what came before and ends with the query. */
  lemma QueryTail(a: string, q: string)
    ensures StartsWith(a + (if q == "" then "" else "?" + q), a)
    ensures EndsWith(a + (if q == "" then "" else "?" + q), q)
  {
    var tail := if q == "" then "" else "?" + q;
    PrefixOfAppend(a, tail);
    if q != "" {
      assert a + tail == (a + "?") + q;
      EndsWithAppend(a + "?", q);
    } else {
      assert (a + tail)[|a + tail|..] == q;
    }
  }

  /** Splits a forwarded URL back into path and query at the first `?`. */
  function SplitNotionUrl(url: string, username: string): Option<(string, string)> {
    match StripPrefix(url, NotionOrigin(username))
    case None => None
    case Some(r) =>
      match IndexFrom(r, 0, '?')
      case None => Some((r, ""))
      case Some(k) => Some((r[..k], r[k + 1..]))
  }

  /** The text after an origin splits at its first `?` into a path free of `?` and the query after it. */
  lemma SplitAfterOrigin(o: string, path: string, q: string)
    requires '?' !in path
    ensures var r := path + (if q == "" then "" else "?" + q);
            && StripPrefix(o + path + (if q == "" then "" else "?" + q), o) == Some(r)
            && IndexFrom(r, 0, '?') == (if q == "" then None else Some(|path|))
            && (q == "" ==> r == path)
            && (q != "" ==> r[..|path|] == path && r[|path| + 1..] == q)
  {
    var tail := if q == "" then "" else "?" + q;
    var r := path + tail;
    assert o + path + tail == o + r;
    StripPrefixAppend(o, r);
    assert forall j :: 0 <= j < |path| ==> r[j] == path[j];
    if q != "" {
      assert r[|path|] == '?';
      assert r[..|path|] == path && r[|path| + 1..] == q;
    }
  }

  /** A path without `?` and its query come back out of the forwarded URL unchanged; a missing query and an empty one both read as empty. */
  lemma NotionUrlRoundTrip(username: string, path: string, query: Option<string>)
    requires '?' !in path
    ensures SplitNotionUrl(NotionUrl(username, path, query), username) == Some((path, query.GetOr("")))
  {
    SplitAfterOrigin(NotionOrigin(username), path, query.GetOr(""));
  }

  /**
   * The domain rewrite of `handle_js_assets`: `www.notion.so`, then
   * `notion.so`, then the workspace's `notion.site` host all become the
   * site's own domain, one replace after another. A script that names no
   * Notion host comes back unchanged.
   */
  function JsRewritten(body: string, username: string, domain: string): (r: string)
    ensures !Contains(body, "notion.so") && !Contains(body, username + ".notion.site") ==> r == body
  {
    NotionHostsAbsent(body, username, domain);
    ReplaceAll(ReplaceAll(ReplaceAll(body, "www.notion.so", domain), "notion.so", domain),
               username + ".notion.site", domain)
  }

  /** A script naming no Notion host is left alone by each of the three replaces. */
  lemma NotionHostsAbsent(body: string, username: string, domain: string)
    ensures !Contains(body, "notion.so") && !Contains(body, username + ".notion.site") ==>
            && ReplaceAll(body, "www.notion.so", domain) == body
            && ReplaceAll(body, "notion.so", domain) == body
            && ReplaceAll(body, username + ".notion.site", domain) == body
  {
    if !Contains(body, "notion.so") && !Contains(body, username + ".notion.site") {
      if Contains(body, "www.notion.so") {
        OccursContains("www.notion.so", "notion.so", 4);
        ContainsTransitive(body, "www.notion.so", "notion.so");
      }
      ReplaceAllAbsent(body, "www.notion.so", domain);
      ReplaceAllAbsent(body, "notion.so", domain);
      ReplaceAllAbsent(body, username + ".notion.site", domain);
    }
  }

  /** Each replace in the chain is a split at its host name and a join with the domain. */
  lemma JsRewrittenSplit(body: string, username: string, domain: string)
    ensures var first := ReplaceAll(body, "www.notion.so", domain);
            var second := ReplaceAll(first, "notion.so", domain);
            && first == Join(Split(body, "www.notion.so"), domain)
            && second == Join(Split(first, "notion.so"), domain)
            && JsRewritten(body, username, domain) == Join(Split(second, username + ".notion.site"), domain)
  {
    var first := ReplaceAll(body, "www.notion.so", domain);
    var second := ReplaceAll(first, "notion.so", domain);
    ReplaceAllSplit(body, "www.notion.so", domain);
    ReplaceAllSplit(first, "notion.so", domain);
    ReplaceAllSplit(second, username + ".notion.site", domain);
  }

  /** The request `handle_js_assets` sends: a plain GET of the forwarded URL. */
  function JsRequest(url: string): Outbound {
    Outbound(Get, url, [], None)
  }

  /** `handle_js_assets`'s answer: 200 whatever Notion's status was, the rewritten script, and an open CORS origin. */
  function JsResponse(up: Upstream, username: string, cfg: DomainSnapshot): (r: Response)
    ensures r.status == 200 && r.body == JsRewritten(up.body, username, cfg.myDomain)
    ensures Lookup(r.headers, "content-type") == Some("application/javascript")
    ensures Lookup(r.headers, "access-control-allow-origin") == Some("*")
  {
    var headers := [Header("content-type", "application/javascript"), Header("access-control-allow-origin", "*")];
    ToLowerIdentity("access-control-allow-origin");
    ToLowerIdentity("content-type");
    LookupFirst(headers, "content-type", 0);
    LookupPair(Header("content-type", "application/javascript"), Header("access-control-allow-origin", "*"),
               "access-control-allow-origin");
    Response(200, headers, JsRewritten(up.body, username, cfg.myDomain))
  }

  /** The endpoint to which `handle_api_requests` never attaches the body. */
  const PublicPageData := "/api/v3/getPublicPageData"

  /**
   * The request `handle_api_requests` sends: the client's method, a JSON
   * content type and the configured user agent in place of the client's
   * headers, and the client's body unless the URL names `getPublicPageData`.
   * Reading that body can fail, which ends the request before anything is sent.
   */
  function ApiRequest(verb: Method, url: string, userAgent: string, body: Body): (r: Result<Outbound, ProxyError>)
    ensures r.Ok? ==> r.value.verb == verb && r.value.url == url
    ensures r.Ok? ==> r.value.body.Some? <==> !Contains(url, PublicPageData)
    ensures r.Ok? && r.value.body.Some? ==> body == Bytes(r.value.body.value)
    ensures r.Err? <==> !Contains(url, PublicPageData) && body.Broken?
    ensures r.Err? ==> r.error == Internal(body.reason)
  {
    var headers := [Header("content-type", "application/json;charset=UTF-8"), Header("user-agent", userAgent)];
    if Contains(url, PublicPageData) then Ok(Outbound(verb, url, headers, None))
    else
      match body
      case Broken(e) => Err(Internal(e))
      case Bytes(b) => Ok(Outbound(verb, url, headers, Some(b)))
  }

  /** `handle_api_requests`'s answer: Notion's status and body, an open CORS origin and a JSON content type. */
  function ApiResponse(up: Upstream): (r: Response)
    ensures r.status == up.status && r.body == up.body
    ensures Lookup(r.headers, "content-type") == Some("application/json")
    ensures Lookup(r.headers, "access-control-allow-origin") == Some("*")
  {
    var headers := [Header("access-control-allow-origin", "*"), Header("content-type", "application/json")];
    ToLowerIdentity("access-control-allow-origin");
    ToLowerIdentity("content-type");
    LookupFirst(headers, "access-control-allow-origin", 0);
    LookupPair(Header("access-control-allow-origin", "*"), Header("content-type", "application/json"), "content-type");
    Response(up.status, headers, up.body)
  }

  /**
   * The request `handle_html_content` sends: the client's method and headers
   * except `host` and `content-length`, and the body only when it is not empty.
   */
  function HtmlRequest(verb: Method, url: string, headers: seq<Header>, body: Body): (r: Result<Outbound, ProxyError>)
    ensures r.Err? <==> body.Broken?
    ensures r.Err? ==> r.error == Internal(body.reason)
    ensures r.Ok? ==> r.value.verb == verb && r.value.url == url
    ensures r.Ok? ==> forall h :: h in r.value.headers <==> h in headers && !Named(h, "host") && !Named(h, "content-length")
    ensures r.Ok? ==> (r.value.body.Some? <==> body.data != "")
    ensures r.Ok? && r.value.body.Some? ==> r.value.body.value == body.data
  {
    KeepMembers(headers, Hop);
    match body
    case Broken(e) => Err(Internal(e))
    case Bytes(b) => Ok(Outbound(verb, url, Keep(headers, Hop), if b == "" then None else Some(b)))
  }

  /** The response headers `handle_html_content` drops. */
  const PolicyHeaders := {"content-security-policy", "x-content-security-policy"}

  /**
   * `handle_html_content`'s answer: Notion's status, Notion's headers
   * without the two content-security-policy headers, and the page after
   * `rewrite_html`. `style` is the fixed top-bar stylesheet and `script` the
   * bootstrap script rendered for the site.
   */
  function HtmlResponse(cfg: DomainSnapshot, style: string, script: string, up: Upstream): (r: Response)
    ensures r.status == up.status && r.body == Rewritten(cfg, style, script, up.body)
    ensures forall h :: h in r.headers
                        <==> h in up.headers && !Named(h, "content-security-policy") && !Named(h, "x-content-security-policy")
  {
    PolicyHeadersDropped(up.headers);
    Response(up.status, Keep(up.headers, PolicyHeaders), Rewritten(cfg, style, script, up.body))
  }

  /** No content-security-policy header survives, every other header does, and their order is kept. */
  lemma PolicyHeadersDropped(headers: seq<Header>)
    ensures forall h :: h in Keep(headers, PolicyHeaders)
                        <==> h in headers && !Named(h, "content-security-policy") && !Named(h, "x-content-security-policy")
  {
    KeepMembers(headers, PolicyHeaders);
  }

  /** What one forwarding handler produced: its result and the request it sent, if it got that far. */
  datatype Forwarded = Forwarded(result: Result<Response, ProxyError>, sent: Option<Outbound>)

  /** The outcome once the request is sent: Notion's error, or the response built from its answer. */
  function AfterSend(request: Outbound, fetched: Result<Upstream, ProxyError>, respond: Upstream -> Response): Forwarded {
    match fetched
    case Err(e) => Forwarded(Err(e), Some(request))
    case Ok(up) => Forwarded(Ok(respond(up)), Some(request))
  }

  /** `handle_html_content` as a value. */
  function HtmlServed(cfg: DomainSnapshot, style: string, script: string, url: string, req: Request,
                      fetched: Result<Upstream, ProxyError>): Forwarded {
    match HtmlRequest(req.verb, url, req.headers, req.body)
    case Err(e) => Forwarded(Err(e), None)
    case Ok(request) => AfterSend(request, fetched, up => HtmlResponse(cfg, style, script, up))
  }

  /**
   * `handle_html_content`: the header loop, the body check, the send, the
   * two removals from the response's header map, then the rewrite.
   */
  method HandleHtmlContent(cfg: DomainSnapshot, style: string, script: string, url: string, req: Request,
                           fetched: Result<Upstream, ProxyError>) returns (out: Forwarded)
    ensures out == HtmlServed(cfg, style, script, url, req, fetched)
  {
    var forwarded := ForwardHeaders(req.headers);
    if req.body.Broken? {
      return Forwarded(Err(Internal(req.body.reason)), None);
    }
    var bytes := req.body.data;
    var request := Outbound(req.verb, url, forwarded, if bytes == "" then None else Some(bytes));
    if fetched.Err? {
      return Forwarded(Err(fetched.error), Some(request));
    }
    var up := fetched.value;
    var responseHeaders := new HeaderMap(up.headers);
    responseHeaders.Remove("content-security-policy");
    responseHeaders.Remove("x-content-security-policy");
    KeepTwice(up.headers, {"content-security-policy"}, {"x-content-security-policy"});
    assert {"content-security-policy"} + {"x-content-security-policy"} == PolicyHeaders;
    var html := RewriteHtml(cfg, style, script, up.body);
    out := Forwarded(Ok(Response(up.status, responseHeaders.entries, html)), Some(request));
  }
}
