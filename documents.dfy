/**
 * The responses built without asking Notion: the CORS preflight answer,
 * `robots.txt`, `sitemap.xml` and the permanent redirect.
 */
module Documents {

  import opened Wrappers
  import opened Text
  import opened Patterns
  import opened Config
  import opened Http

  /** `handle_cors_preflight`: 200, the fixed CORS headers, empty body; nothing of the request is read. */
  function PreflightResponse(): (r: Response)
    ensures r.status == 200 && r.body == ""
    ensures Lookup(r.headers, "access-control-allow-origin") == Some("*")
  {
    var headers := [Header("access-control-allow-origin", "*"),
                    Header("access-control-allow-methods", "GET, HEAD, POST, PUT, OPTIONS"),
                    Header("access-control-allow-headers", "Content-Type")];
    ToLowerIdentity("access-control-allow-origin");
    LookupFirst(headers, "access-control-allow-origin", 0);
    Response(200, headers, "")
  }

  /** The preflight answer allows the five methods the site serves. */
  lemma PreflightAllowsMethods()
    ensures Lookup(PreflightResponse().headers, "access-control-allow-methods") == Some("GET, HEAD, POST, PUT, OPTIONS")
  {
    var headers := PreflightResponse().headers;
    ToLowerIdentity(headers[1].name);
    LookupFirst(headers, headers[1].name, 1);
  }

  /** The preflight answer allows a `Content-Type` request header. */
  lemma PreflightAllowsHeaders()
    ensures Lookup(PreflightResponse().headers, "access-control-allow-headers") == Some("Content-Type")
  {
    var headers := PreflightResponse().headers;
    ToLowerIdentity(headers[2].name);
    assert ToLower(headers[1].name)[21] == 'm';
    LookupFirst(headers, headers[2].name, 2);
  }

  /** The body of `robots.txt`: a single line pointing at the site's sitemap. */
  function RobotsBody(domain: string): string {
    "Sitemap: https://" + domain + "/sitemap.xml"
  }

  /** Reads the domain back out of a `robots.txt` body. */
  function ParseRobots(body: string): Option<string> {
    if |body| >= 29 && StartsWith(body, "Sitemap: https://") && EndsWith(body, "/sitemap.xml")
    then Some(body[17..|body| - 12])
    else None
  }

  /** `a + m + c` starts with `a`, ends with `c`, and has `m` between them. */
  lemma Framed(a: string, m: string, c: string)
    ensures StartsWith(a + m + c, a) && EndsWith(a + m + c, c)
    ensures (a + m + c)[|a|..|a + m + c| - |c|] == m
  {
    var s := a + m + c;
    assert s[..|a|] == a;
    assert s[|s| - |c|..] == c;
    assert s[|a|..|s| - |c|] == m;
  }

  /** The robots file names the sitemap of the site it was built for, and that name reads back. */
  lemma ParseRobotsRoundTrip(domain: string)
    ensures ParseRobots(RobotsBody(domain)) == Some(domain)
  {
    Framed("Sitemap: https://", domain, "/sitemap.xml");
  }

  /** `generate_robots_txt`. */
  function RobotsResponse(cfg: DomainSnapshot): (r: Response)
    ensures r.status == 200 && Lookup(r.headers, "content-type") == Some("text/plain")
    ensures ParseRobots(r.body) == Some(cfg.myDomain)
  {
    ParseRobotsRoundTrip(cfg.myDomain);
    LookupFirst([Header("content-type", "text/plain")], "content-type", 0);
    Response(200, [Header("content-type", "text/plain")], RobotsBody(cfg.myDomain))
  }

  const UrlsetOpen := "<?xml version=\"1.0\" encoding=\"UTF-8\"?>\n<urlset xmlns=\"http://www.sitemaps.org/schemas/sitemap/0.9\">"
  const UrlsetClose := "</urlset>"
  const EntryClose := "</loc></url>"

  /** What comes before the slug in a sitemap entry. */
  function EntryOpen(domain: string): string {
    "<url><loc>https://" + domain + "/"
  }

  /** One `<url>` element of the sitemap. */
  function Entry(domain: string, slug: string): string {
    EntryOpen(domain) + slug + EntryClose
  }

  /** The entries for `slugs`, one after another in `slugs` order. */
  function Entries(domain: string, slugs: seq<string>): string
    decreases |slugs|
  {
    if slugs == [] then "" else Entry(domain, slugs[0]) + Entries(domain, slugs[1..])
  }

  /** The entries are the mapped slugs joined with nothing between them, as `urls.join("")` builds them. */
  lemma {:induction false} EntriesJoin(domain: string, slugs: seq<string>)
    ensures Entries(domain, slugs) == Join(seq(|slugs|, i requires 0 <= i < |slugs| => Entry(domain, slugs[i])), "")
    decreases |slugs|
  {
    var parts := seq(|slugs|, i requires 0 <= i < |slugs| => Entry(domain, slugs[i]));
    if |slugs| == 1 {
      assert Entries(domain, slugs[1..]) == "";
      assert Entry(domain, slugs[0]) + "" == Entry(domain, slugs[0]);
    } else if |slugs| > 1 {
      EntriesJoin(domain, slugs[1..]);
      assert parts[1..] == seq(|slugs[1..]|, i requires 0 <= i < |slugs[1..]| => Entry(domain, slugs[1..][i]));
      assert parts[0] + "" == parts[0];
    }
  }

  /** The whole sitemap document. */
  function SitemapBody(domain: string, slugs: seq<string>): string {
    UrlsetOpen + Entries(domain, slugs) + UrlsetClose
  }

  /**
   * Reads a run of entries back into slugs; a slug is taken to run up to the
   * next `<`.
   */
  function ParseEntries(s: string, domain: string): Option<seq<string>>
    decreases |s|
  {
    if s == [] then Some([])
    else
      match StripPrefix(s, EntryOpen(domain))
      case None => None
      case Some(r) =>
        match IndexFrom(r, 0, '<')
        case None => None
        case Some(k) =>
          match StripPrefix(r[k..], EntryClose)
          case None => None
          case Some(rest) =>
            match ParseEntries(rest, domain)
            case None => None
            case Some(slugs) => Some([r[..k]] + slugs)
  }

  /** Reads a sitemap document back into its slugs. */
  function ParseSitemap(body: string, domain: string): Option<seq<string>> {
    if |body| >= |UrlsetOpen| + |UrlsetClose| && StartsWith(body, UrlsetOpen) && EndsWith(body, UrlsetClose)
    then ParseEntries(body[|UrlsetOpen|..|body| - |UrlsetClose|], domain)
    else None
  }

  /** Concatenation regrouped to the right. */
  lemma Regroup(a: string, b: string, c: string, d: string)
    ensures a + b + c + d == a + (b + (c + d))
  {
  }

  /** The first `c` in `s` is at `k` when `s[k]` is `c` and nothing before it is. */
  lemma IndexFromFirst(s: string, k: nat, c: char)
    requires k < |s| && s[k] == c
    requires forall j :: 0 <= j < k ==> s[j] != c
    ensures IndexFrom(s, 0, c) == Some(k)
  {
  }

  /** One entry followed by more text reads back as its slug, leaving the text. */
  lemma EntryStep(domain: string, slug: string, rest: string)
    requires '<' !in slug
    ensures StripPrefix(Entry(domain, slug) + rest, EntryOpen(domain)) == Some(slug + (EntryClose + rest))
    ensures IndexFrom(slug + (EntryClose + rest), 0, '<') == Some(|slug|)
    ensures (slug + (EntryClose + rest))[|slug|..] == EntryClose + rest
    ensures (slug + (EntryClose + rest))[..|slug|] == slug
    ensures StripPrefix(EntryClose + rest, EntryClose) == Some(rest)
  {
    var o := EntryOpen(domain);
    var u := EntryClose + rest;
    var t := slug + u;
    Regroup(o, slug, EntryClose, rest);
    StripPrefixAppend(o, t);
    StripPrefixAppend(slug, u);
    StripPrefixAppend(EntryClose, rest);
    assert t[..|slug|] == slug;
    assert t[|slug|] == u[0] == '<';
    IndexFromFirst(t, |slug|, '<');
  }

  /** Reading an entry and then the text after it. */
  lemma ParseEntriesStep(domain: string, slug: string, rest: string)
    requires '<' !in slug
    ensures ParseEntries(Entry(domain, slug) + rest, domain)
            == if ParseEntries(rest, domain).Some? then Some([slug] + ParseEntries(rest, domain).value) else None
  {
    EntryStep(domain, slug, rest);
    assert |Entry(domain, slug) + rest| > 0;
  }

  /** Slugs free of `<` read back from their entries, in order. */
  lemma {:induction false} ParseEntriesRoundTrip(domain: string, slugs: seq<string>)
    requires PlainSlugs(slugs)
    ensures ParseEntries(Entries(domain, slugs), domain) == Some(slugs)
    decreases |slugs|
  {
    if slugs != [] {
      ParseEntriesStep(domain, slugs[0], Entries(domain, slugs[1..]));
      ParseEntriesRoundTrip(domain, slugs[1..]);
      assert [slugs[0]] + slugs[1..] == slugs;
    }
  }

  /**
   * The sitemap lists exactly the given slugs, each once per occurrence and
   * in the given order: reading it back gives `slugs` (for slugs free of `<`).
   */
  lemma ParseSitemapRoundTrip(domain: string, slugs: seq<string>)
    ensures PlainSlugs(slugs) ==> ParseSitemap(SitemapBody(domain, slugs), domain) == Some(slugs)
  {
    if PlainSlugs(slugs) {
      Framed(UrlsetOpen, Entries(domain, slugs), UrlsetClose);
      ParseEntriesRoundTrip(domain, slugs);
    }
  }

  /** No slug holds a `<`, so each one's end is visible in the document. */
  predicate PlainSlugs(slugs: seq<string>) {
    forall i :: 0 <= i < |slugs| ==> '<' !in slugs[i]
  }

  /** `generate_sitemap`: one entry per element of `slugs`, in that order. */
  function SitemapResponse(cfg: DomainSnapshot): (r: Response)
    ensures r.status == 200 && Lookup(r.headers, "content-type") == Some("application/xml")
    ensures PlainSlugs(cfg.slugs) ==> ParseSitemap(r.body, cfg.myDomain) == Some(cfg.slugs)
  {
    ParseSitemapRoundTrip(cfg.myDomain, cfg.slugs);
    LookupFirst([Header("content-type", "application/xml")], "content-type", 0);
    Response(200, [Header("content-type", "application/xml")], SitemapBody(cfg.myDomain, cfg.slugs))
  }

  /** `redirect_response`: a permanent redirect to `location` with an empty body. */
  function RedirectResponse(location: string): (r: Response)
    ensures r.status == 301 && r.body == ""
    ensures Lookup(r.headers, "location") == Some(location)
  {
    LookupFirst([Header("location", location)], "location", 0);
    Response(301, [Header("location", location)], "")
  }
}
