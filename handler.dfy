/**
 * `AppState`: the static site table, the Notion settings and the cache of
 * resolved site configurations; `get_domain_config`, `handle_request` and
 * `proxy_handler`, which turns every error into a 500.
 */
module Handler {

  import opened Wrappers
  import opened Text
  import opened Config
  import opened Errors
  import opened Http
  import opened Forwarding
  import opened Routing

  /** The cache key for a host: one leading `www.` removed. */
  function CanonicalHost(host: string): (r: string)
    ensures StartsWith(host, "www.") ==> "www." + r == host
    ensures !StartsWith(host, "www.") ==> r == host
  {
    StripPrefix(host, "www.").GetOr(host)
  }

  /** `www.h` and `h` share a key, for every `h` not itself starting with `www.`; exactly one `www.` goes. */
  lemma CanonicalHostWww(h: string)
    ensures CanonicalHost("www." + h) == h
    ensures !StartsWith(h, "www.") ==> CanonicalHost(h) == h
    ensures CanonicalHost("www." + h) == CanonicalHost(h) <==> !StartsWith(h, "www.")
  {
    assert ("www." + h)[..4] == "www." && ("www." + h)[4..] == h;
    if StartsWith(h, "www.") {
      assert "www." + h[4..] == h;
      assert |h[4..]| < |h|;
    }
  }

  /** The answer `proxy_handler` sends: the response, or a 500 carrying the error's message. */
  function ToResponse(r: Result<Response, ProxyError>): (resp: Response)
    ensures r.Ok? ==> resp == r.value
    ensures r.Err? ==> resp.status == 500 && ParseMessage(resp.body) == Some(r.error)
  {
    match r
    case Ok(response) => response
    case Err(e) =>
      ParseMessageRoundTrip(e);
      Response(500, [Header("content-type", "text/plain; charset=utf-8")], Message(e))
  }

  /** Every error, an unknown site included, reaches the client as a plain-text 500 whose body names it. */
  lemma ErrorsAre500(e: ProxyError)
    ensures ToResponse(Err(e)).status == 500
    ensures ToResponse(Err(e)).body == Message(e)
    ensures Lookup(ToResponse(Err(e)).headers, "content-type") == Some("text/plain; charset=utf-8")
    ensures e.DomainNotFound? ==> StartsWith(ToResponse(Err(e)).body, "Domain not found: ")
  {
    LookupFirst([Header("content-type", "text/plain; charset=utf-8")], "content-type", 0);
    assert Message(e) == Prefix(e) + Payload(e);
    if e.DomainNotFound? {
      assert Message(e)[..18] == "Domain not found: ";
    }
  }

  /** The configuration fields a site is configured with, as opposed to the derived ones. */
  predicate SameSettings(a: DomainSnapshot, b: DomainSnapshot) {
    a.myDomain == b.myDomain && a.slugToPage == b.slugToPage
    && a.pageTitle == b.pageTitle && a.pageDescription == b.pageDescription
    && a.googleFont == b.googleFont && a.customScript == b.customScript
  }

  class AppState {
    /** The `domains` table of the configuration, keyed by host without `www.`. */
    const domains: map<string, DomainSnapshot>
    /** The Notion workspace name and the user agent sent to its API. */
    const username: string
    const userAgent: string
    /** Resolved configurations; entries are never evicted in this model. */
    var cache: map<string, DomainSnapshot>

    /** Every cached configuration is its table entry with the derived fields computed. */
    predicate Valid()
      reads this
    {
      forall h :: h in cache ==> h in domains && SameSettings(cache[h], domains[h]) && Consistent(cache[h])
    }

    /** `AppState::new`: an empty cache. */
    constructor (domains: map<string, DomainSnapshot>, username: string, userAgent: string)
      ensures this.domains == domains && this.username == username && this.userAgent == userAgent
      ensures cache == map[] && Valid()
    {
      this.domains := domains;
      this.username := username;
      this.userAgent := userAgent;
      cache := map[];
    }

    /**
     * `get_domain_config`: strip one `www.`, answer from the cache when it
     * holds the host, otherwise compute the table entry's derived fields, cache
     * the result and return it; a host in neither is `DomainNotFound` and the
     * cache is left alone.
     */
    method GetDomainConfig(host: string) returns (r: Result<DomainSnapshot, ProxyError>)
      requires Valid()
      modifies this
      ensures Valid()
      ensures var key := CanonicalHost(host);
              if key in old(cache) then r == Ok(old(cache)[key]) && cache == old(cache)
              else if key in domains then
                r.Ok? && cache == old(cache)[key := r.value]
                && SameSettings(r.value, domains[key]) && Consistent(r.value)
              else r == Err(DomainNotFound(key)) && cache == old(cache)
    {
      var key := CanonicalHost(host);
      if key in cache {
        return Ok(cache[key]);
      }
      if key in domains {
        var config := new DomainConfig.Clone(domains[key]);
        config.ComputeDerivedFields();
        var snapshot := config.Snapshot();
        cache := cache[key := snapshot];
        return Ok(snapshot);
      }
      return Err(DomainNotFound(key));
    }

    /**
     * `handle_request`: the site lookup comes first, so an unknown host fails
     * even for a preflight; then the request is served for the site found,
     * which after the call is the one cached under the host. `render` stands
     * for the bootstrap script rendered from a site's configuration.
     */
    method HandleRequest(req: Request, fetched: Result<Upstream, ProxyError>, style: string,
                         render: DomainSnapshot -> string) returns (out: Forwarded)
      requires Valid()
      modifies this
      ensures Valid()
      ensures var key := CanonicalHost(HostOf(req.headers));
              if key in old(cache) || key in domains then
                key in cache && cache == old(cache)[key := cache[key]]
                && out == Serve(username, userAgent, cache[key], style, render(cache[key]), req, fetched)
              else
                out == Forwarded(Err(DomainNotFound(key)), None) && cache == old(cache)
      ensures CanonicalHost(HostOf(req.headers)) in old(cache) ==> cache == old(cache)
    {
      var host := HostOf(req.headers);
      var found := GetDomainConfig(host);
      if found.Err? {
        return Forwarded(Err(found.error), None);
      }
      var cfg := found.value;
      assert cache[CanonicalHost(host)] == cfg;
      out := Dispatch(username, userAgent, cfg, style, render(cfg), req, fetched);
    }

    /** `proxy_handler`: the request handled, any error turned into a 500. */
    method ProxyHandler(req: Request, fetched: Result<Upstream, ProxyError>, style: string,
                        render: DomainSnapshot -> string) returns (resp: Response, sent: Option<Outbound>)
      requires Valid()
      modifies this
      ensures Valid()
      ensures var key := CanonicalHost(HostOf(req.headers));
              if key in old(cache) || key in domains then
                key in cache
                && (resp, sent) == (ToResponse(Serve(username, userAgent, cache[key], style, render(cache[key]), req, fetched).result),
                                    Serve(username, userAgent, cache[key], style, render(cache[key]), req, fetched).sent)
              else
                resp.status == 500 && ParseMessage(resp.body) == Some(DomainNotFound(key)) && sent.None?
      ensures CanonicalHost(HostOf(req.headers)) in old(cache) ==> cache == old(cache)
    {
      var out := HandleRequest(req, fetched, style, render);
      resp := ToResponse(out.result);
      sent := out.sent;
    }
  }
}
