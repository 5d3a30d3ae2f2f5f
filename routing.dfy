/**
 * What `handle_request` does once the site is known: it classifies the
 * request by method and path, first match wins, and serves it.
 */
module Routing {

  import opened Wrappers
  import opened Text
  import opened Config
  import opened Errors
  import opened Http
  import opened Documents
  import opened Forwarding

  /** The eight ways a request for a known site is answered. */
  datatype Action =
    | Preflight
    | Robots
    | Sitemap
    | JsAsset
    | Api
    | SlugRedirect(page: string)
    | UnknownPageRedirect
    | Content

  /** The path without its leading `/`; a path without one gives the empty slug. */
  function PathSlug(path: string): string {
    StripPrefix(path, "/").GetOr("")
  }

  predicate IsLowerHex(c: char) {
    '0' <= c <= '9' || 'a' <= c <= 'f'
  }

  /** `^[0-9a-f]{32}$`: exactly 32 lower-case hexadecimal digits. */
  predicate IsPageId(s: string) {
    |s| == 32 && forall i :: 0 <= i < |s| ==> IsLowerHex(s[i])
  }

  /** The chain of checks in `handle_request`, after the site lookup. */
  function Classify(verb: Method, path: string, cfg: DomainSnapshot): (r: Action)
    ensures Guard(r, verb, path, cfg)
  {
    if verb == Options then Preflight
    else if path == "/robots.txt" then Robots
    else if path == "/sitemap.xml" then Sitemap
    else if StartsWith(path, "/app") && EndsWith(path, ".js") then JsAsset
    else if StartsWith(path, "/api") then Api
    else
      var slug := PathSlug(path);
      if slug in cfg.slugToPage then SlugRedirect(cfg.slugToPage[slug])
      else if IsPageId(slug) && slug !in cfg.pages then UnknownPageRedirect
      else Content
  }

  /** Where each action stands in the order of checks. */
  function Rank(a: Action): nat {
    match a
    case Preflight => 0
    case Robots => 1
    case Sitemap => 2
    case JsAsset => 3
    case Api => 4
    case SlugRedirect(_) => 5
    case UnknownPageRedirect => 6
    case Content => 7
  }

  /** The condition under which an action applies, taken on its own. */
  predicate Guard(a: Action, verb: Method, path: string, cfg: DomainSnapshot) {
    match a
    case Preflight => verb == Options
    case Robots => path == "/robots.txt"
    case Sitemap => path == "/sitemap.xml"
    case JsAsset => StartsWith(path, "/app") && EndsWith(path, ".js")
    case Api => StartsWith(path, "/api")
    case SlugRedirect(page) => PathSlug(path) in cfg.slugToPage && cfg.slugToPage[PathSlug(path)] == page
    case UnknownPageRedirect => IsPageId(PathSlug(path)) && PathSlug(path) !in cfg.pages
    case Content => true
  }

  /** `a` applies and no action checked before it does. */
  ghost predicate FirstMatch(a: Action, verb: Method, path: string, cfg: DomainSnapshot) {
    Guard(a, verb, path, cfg) && forall b :: Rank(b) < Rank(a) ==> !Guard(b, verb, path, cfg)
  }

  /** The classification picks the first action in the order of checks whose condition holds. */
  lemma ClassifyFirstMatch(verb: Method, path: string, cfg: DomainSnapshot)
    ensures FirstMatch(Classify(verb, path, cfg), verb, path, cfg)
  {
    var c := Classify(verb, path, cfg);
    forall b | Rank(b) < Rank(c) ensures !Guard(b, verb, path, cfg) {
      match b
      case SlugRedirect(p) =>
      case _ =>
    }
  }

  /** The first action whose condition holds is the only one the classification can pick. */
  lemma FirstMatchUnique(verb: Method, path: string, cfg: DomainSnapshot, a: Action)
    ensures Classify(verb, path, cfg) == a <==> FirstMatch(a, verb, path, cfg)
  {
    ClassifyFirstMatch(verb, path, cfg);
  }

  /**
   * `handle_request` after the site lookup: the URL for Notion is built, the
   * request is classified and the matching handler runs. `script` is the
   * bootstrap script rendered for the site and `fetched` what Notion answered
   * to the request sent, if one was sent.
   */
  function Serve(username: string, userAgent: string, cfg: DomainSnapshot, style: string, script: string,
                 req: Request, fetched: Result<Upstream, ProxyError>): (r: Forwarded)
    ensures r.sent.Some? ==> Classify(req.verb, req.path, cfg) in {JsAsset, Api, Content}
    ensures r.sent.Some? ==> r.sent.value.url == NotionUrl(username, req.path, req.query)
    ensures r.sent.Some? && fetched.Err? ==> r.result == Err(fetched.error)
    ensures r.sent.None? && r.result.Err? ==> req.body.Broken? && r.result.error == Internal(req.body.reason)
  {
    var url := NotionUrl(username, req.path, req.query);
    match Classify(req.verb, req.path, cfg)
    case Preflight => Forwarded(Ok(PreflightResponse()), None)
    case Robots => Forwarded(Ok(RobotsResponse(cfg)), None)
    case Sitemap => Forwarded(Ok(SitemapResponse(cfg)), None)
    case JsAsset => AfterSend(JsRequest(url), fetched, up => JsResponse(up, username, cfg))
    case Api =>
      (match ApiRequest(req.verb, url, userAgent, req.body)
       case Err(e) => Forwarded(Err(e), None)
       case Ok(request) => AfterSend(request, fetched, ApiResponse))
    case SlugRedirect(page) => Forwarded(Ok(RedirectResponse("https://" + cfg.myDomain + "/" + page)), None)
    case UnknownPageRedirect => Forwarded(Ok(RedirectResponse("https://" + cfg.myDomain)), None)
    case Content => HtmlServed(cfg, style, script, url, req, fetched)
  }

  /**
   * The `match` of `handle_request` once the site is known: page content
   * goes through `handle_html_content` step by step, every other action is
   * answered as `Serve` describes.
   */
  method Dispatch(username: string, userAgent: string, cfg: DomainSnapshot, style: string, script: string,
                  req: Request, fetched: Result<Upstream, ProxyError>) returns (out: Forwarded)
    ensures out == Serve(username, userAgent, cfg, style, script, req, fetched)
  {
    if Classify(req.verb, req.path, cfg) == Content {
      var url := NotionUrl(username, req.path, req.query);
      out := HandleHtmlContent(cfg, style, script, url, req, fetched);
      ServeContent(username, userAgent, cfg, style, script, req, fetched);
    } else {
      out := Serve(username, userAgent, cfg, style, script, req, fetched);
    }
  }

  /** A request classified as content is served by the page handler with the forwarded URL. */
  lemma ServeContent(username: string, userAgent: string, cfg: DomainSnapshot, style: string, script: string,
                     req: Request, fetched: Result<Upstream, ProxyError>)
    requires Classify(req.verb, req.path, cfg) == Content
    ensures Serve(username, userAgent, cfg, style, script, req, fetched)
            == HtmlServed(cfg, style, script, NotionUrl(username, req.path, req.query), req, fetched)
  {
  }

  /** No path is special to a preflight: an OPTIONS request gets the fixed answer whatever else it carries, and Notion is not asked. */
  lemma PreflightIgnoresRequest(username: string, userAgent: string, cfg: DomainSnapshot, style: string, script: string,
                                req: Request, fetched: Result<Upstream, ProxyError>)
    requires req.verb == Options
    ensures Serve(username, userAgent, cfg, style, script, req, fetched) == Forwarded(Ok(PreflightResponse()), None)
    ensures PreflightResponse().status == 200
  {
  }

  /** The checks that come before the slug lookup all fail. */
  predicate PastFixedRoutes(req: Request) {
    req.verb != Options && req.path != "/robots.txt" && req.path != "/sitemap.xml"
    && !(StartsWith(req.path, "/app") && EndsWith(req.path, ".js")) && !StartsWith(req.path, "/api")
  }

  /**
   * A path whose slug is a key of `slug_to_page` gets a permanent redirect to
   * `https://{my_domain}/{page}`, and Notion is not asked.
   */
  lemma SlugRedirects(username: string, userAgent: string, cfg: DomainSnapshot, style: string, script: string,
                      req: Request, fetched: Result<Upstream, ProxyError>)
    requires PastFixedRoutes(req) && PathSlug(req.path) in cfg.slugToPage
    ensures var f := Serve(username, userAgent, cfg, style, script, req, fetched);
            && f.sent.None? && f.result.Ok? && f.result.value.status == 301
            && Lookup(f.result.value.headers, "location") == Some("https://" + cfg.myDomain + "/" + cfg.slugToPage[PathSlug(req.path)])
  {
  }

  /** `/` has the empty slug, so a site mapping the empty slug redirects its root to that page. */
  lemma RootRedirects(username: string, userAgent: string, cfg: DomainSnapshot, style: string, script: string,
                      req: Request, fetched: Result<Upstream, ProxyError>)
    requires req.verb != Options && req.path == "/" && "" in cfg.slugToPage
    ensures var f := Serve(username, userAgent, cfg, style, script, req, fetched);
            && f.result.Ok? && f.result.value.status == 301
            && Lookup(f.result.value.headers, "location") == Some("https://" + cfg.myDomain + "/" + cfg.slugToPage[""])
  {
    assert StripPrefix("/", "/") == Some("");
    assert !StartsWith("/", "/app") && !StartsWith("/", "/api");
    SlugRedirects(username, userAgent, cfg, style, script, req, fetched);
  }

  /**
   * A slug that is not mapped but is a page id (32 lower-case hexadecimal
   * digits) no page of the site has gets a permanent redirect to the bare
   * site, `https://{my_domain}`.
   */
  lemma UnknownPageIdRedirects(username: string, userAgent: string, cfg: DomainSnapshot, style: string, script: string,
                               req: Request, fetched: Result<Upstream, ProxyError>)
    requires PastFixedRoutes(req) && PathSlug(req.path) !in cfg.slugToPage
    requires IsPageId(PathSlug(req.path)) && PathSlug(req.path) !in cfg.pages
    ensures var f := Serve(username, userAgent, cfg, style, script, req, fetched);
            && f.sent.None? && f.result.Ok? && f.result.value.status == 301
            && Lookup(f.result.value.headers, "location") == Some("https://" + cfg.myDomain)
  {
  }

  /** A slug that is one of the site's pages, or that holds an upper-case letter, is never sent to the bare site. */
  lemma KnownPageNotRedirected(verb: Method, path: string, cfg: DomainSnapshot)
    requires PathSlug(path) in cfg.pages || exists i :: 0 <= i < |PathSlug(path)| && 'A' <= PathSlug(path)[i] <= 'Z'
    ensures Classify(verb, path, cfg) != UnknownPageRedirect
  {
    if exists i :: 0 <= i < |PathSlug(path)| && 'A' <= PathSlug(path)[i] <= 'Z' {
      var i :| 0 <= i < |PathSlug(path)| && 'A' <= PathSlug(path)[i] <= 'Z';
      assert !IsLowerHex(PathSlug(path)[i]);
    }
  }

  /**
   * Any other path is fetched from Notion and rewritten: the request goes to
   * the workspace's origin with the same path and query.
   */
  lemma ContentFetched(username: string, userAgent: string, cfg: DomainSnapshot, style: string, script: string,
                       req: Request, fetched: Result<Upstream, ProxyError>)
    requires PastFixedRoutes(req) && PathSlug(req.path) !in cfg.slugToPage
    requires !(IsPageId(PathSlug(req.path)) && PathSlug(req.path) !in cfg.pages)
    requires req.body.Bytes?
    ensures var f := Serve(username, userAgent, cfg, style, script, req, fetched);
            && f.sent.Some? && f.sent.value.url == NotionUrl(username, req.path, req.query)
            && f.sent.value.verb == req.verb
            && (fetched.Ok? ==> f.result == Ok(HtmlResponse(cfg, style, script, fetched.value)))
            && (fetched.Err? ==> f.result == Err(fetched.error))
  {
  }
}
