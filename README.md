# notion-blog-rs request path, modelled in Dafny

notion-blog-rs is a reverse proxy. It serves public Notion pages under a site's
own domain. For each request it does the following:

- It resolves the site from the `Host` header, through a cache of site
  configurations.
- It answers a few documents itself: the CORS preflight, `robots.txt`,
  `sitemap.xml` and slug redirects.
- It forwards everything else to the workspace's `notion.site` origin: script
  assets, API calls and page content.
- It rewrites what comes back. Script assets get their Notion host names
  replaced. HTML pages get their meta tags replaced, a font link and a
  stylesheet inserted before `</head>`, and a bootstrap script plus the site's
  own script inserted before `</body>`.
- Any error becomes a 500 whose body is the error's display text.

The model covers that path, one module per concern:

| module | file | models |
|---|---|---|
| `Wrappers` | wrappers.dfy | `Option` and `Result` |
| `Text` | text.dfy | the `str` methods the proxy calls: `starts_with`, `strip_prefix`, `contains`, ASCII `to_lowercase`, `join`, `replace` |
| `Patterns` | patterns.dfy | the fixed regular expressions of the rewriter, matched token by token, and `Regex::replace_all` as a left-to-right scan |
| `Config` | config.dfy | `DomainConfig` (a class, because `compute_derived_fields` updates it in place) and its value form `DomainSnapshot` |
| `Errors` | errors.dfy | the `ProxyError` variants on the request path and their display text |
| `Rewriter` | rewriter.dfy | `rewrite_meta_tags` |
| `Inject` | inject.dfy | `inject_head_content`, `inject_body_scripts`, `rewrite_html` |
| `Http` | http.dfy | headers, requests, responses, the header filter of the content handler, `HeaderMap::remove` |
| `Documents` | documents.dfy | preflight, `robots.txt`, `sitemap.xml`, redirect |
| `Forwarding` | forwarding.dfy | the Notion URL and the JS, API and HTML handlers |
| `Routing` | routing.dfy | the dispatch chain of `handle_request` |
| `Handler` | handler.dfy | `AppState`, `get_domain_config`, `handle_request`, `proxy_handler` |

The network is not modelled. What Notion answers to the one request a handler
sends is an input, `fetched: Result<Upstream, ProxyError>`, and the model
returns both the request that would be sent and the response. Two pieces of
text are opaque inputs:

- `style` is the fixed top-bar stylesheet.
- `render` / `script` stands for the bootstrap script, which `inject_body_scripts`
  renders from the site's maps with `serde_json`.

Where the repository's design notes describe other behaviour, the model
follows the code:

- Within `handle_request`, an OPTIONS request gets 200 with the three CORS
  headers. The site lookup runs before that check, so an unknown host fails
  even for a preflight that reaches `handle_request`. The CORS layer that
  main.rs puts in front of the handler is not part of this model.
- Every error, `DomainNotFound` included, becomes 500 with a plain-text body.
- The path `/` has the empty slug, so a site that maps `""` redirects its root
  to `https://{domain}/{page}`.
- A path of 32 lower-case hex digits that is not one of the site's pages redirects to
  `https://{domain}`.
- `og:url` and `twitter:url` get the bare domain.
- `robots.txt` is the single `Sitemap:` line.
- Sitemap entries carry only `<loc>`.
- API requests keep the client's method.
- The JS handler answers 200 whatever Notion's status was.

## Model

| member | source | states |
|---|---|---|
| Config.DomainConfig.constructor | src/config.rs:72-86 | a new configuration has the given domain and table, no optional settings, and derived fields consistent with the table |
| Config.DomainConfig.Clone | src/handler.rs:54-59 | the cloned configuration is field for field the stored one |
| Config.DomainConfig.ComputeDerivedFields | src/config.rs:88-98 | after the call, `slugs` lists every key of `slug_to_page` once, `pages` is aligned with it, and `page_to_slug` is the result of inserting page -> slug in that order; the configured fields are unchanged |
| Config.PushEntry | src/config.rs:93-97 | one loop step keeps the vectors aligned and free of repeats and adds one insertion to the inverse table |
| Config.DerivedLengths | src/config.rs:88-98 | `slugs`, `pages` and `slug_to_page` have the same length |
| Config.InverseKeys | src/config.rs:93-97 | the inverse table is keyed by exactly the pages pushed |
| Config.InverseLastWins | src/config.rs:93-97 | each page maps to the slug pushed at that page's last position: a later insert overwrites an earlier one |
| Config.DerivedInverse | src/config.rs:88-98 | the keys of `page_to_slug` are the values of `slug_to_page`; each page maps back to a slug that maps to it, the last one in visiting order |
| Config.DerivedInjective | src/config.rs:88-98 | when no two slugs share a page, `page_to_slug` is the exact inverse of `slug_to_page` |
| Config.DerivedAgree | src/config.rs:88-98 | any two visiting orders give the same slug set and the same inverse key set, and the same inverse table when no page is shared |
| Errors.Message | src/error.rs:18-28 | the display text starts with the variant's fixed prefix and ends with its payload |
| Errors.ParseMessageRoundTrip | src/error.rs:18-28 | each error's display text names its variant and carries its payload, so it reads back as the same error |
| Errors.MessageInjective | src/error.rs:18-28 | distinct errors never display the same text |
| Text.StripPrefix | src/handler.rs:46 | the result is present exactly when the text starts with the prefix, and prefix plus result is the text |
| Text.ReplaceAllChar | src/rewriter.rs:130-133 | replacing one character by another keeps the length and rewrites each position on its own |
| Patterns.MatchAtPrefix | src/rewriter.rs:43-51 | whether a pattern matches at a position, and how far, depends only on the characters it consumes |
| Patterns.ScanNoHitsIff | src/rewriter.rs:43-51 | the replace-all scan finds no match exactly when the pattern matches at no position |
| Patterns.ReplaceMatchesScan | src/rewriter.rs:43-51 | `replace_all` cuts the text into gaps and matches that weave back to the text, where each cut-out piece is a full match of the pattern, no match of the pattern starts inside a gap, so no match is skipped, and the replacement is written in place of each match |
| Patterns.ScanGapsClear | src/rewriter.rs:43-51 | the scan skips no match: no position inside a gap starts a match, and each cut-out piece starts where the pattern matches with exactly its length |
| Patterns.ReplaceMatches | src/rewriter.rs:43-51 | `Regex::replace_all` with a literal replacement; what it does is stated by Patterns.ReplaceMatchesScan and Patterns.ReplaceMatchesAbsent |
| Patterns.ReplaceMatchesAbsent | src/rewriter.rs:118-120 | a text the pattern matches nowhere is left unchanged |
| Patterns.ReplaceAllIsLiteralScan | src/rewriter.rs:37-40 | `str::replace` is the replace-all scan with the literal pattern |
| Patterns.ReplaceAllSplit | src/rewriter.rs:151 | `replace` splits the text at every occurrence into pieces free of the pattern that join back to the text, and joins them with the replacement instead |
| Text.ReplaceAll | src/rewriter.rs:151 | `str::replace`; what it does is stated by Patterns.ReplaceAllIsLiteralScan, Patterns.ReplaceAllSplit and Patterns.ReplaceAllAbsent |
| Patterns.ReplaceAllAbsent | src/rewriter.rs:151 | a text not containing the pattern is left unchanged by `replace` |
| Patterns.ReplaceAllSplice | src/rewriter.rs:85 | one occurrence of the pattern between a part that cannot start it and a part free of it is the only thing replaced |
| Rewriter.RewriteMetaTags | src/rewriter.rs:31-123 | the meta pass applies, in order, the title rules when a title is set, the description rules when a description is set, the two URL rules and the itunes removal |
| Rewriter.RewriteTitle | src/rewriter.rs:35-63 | the title pass rewrites `<title>`, then `og:title`, then `twitter:title` |
| Rewriter.TitlePass | src/rewriter.rs:37-40 | `<title>` is replaced at every occurrence: the text split at `<title>` is joined with the new title tag |
| Rewriter.RewriteDescription | src/rewriter.rs:66-89 | the description pass applies the three description rules in order |
| Rewriter.DescriptionTemplateFill | src/rewriter.rs:66-89 | filling `{}` in each description template gives the tag with the description as content |
| Rewriter.TemplateFill | src/rewriter.rs:85 | the template's single `{}` is replaced by the value and nothing else changes |
| Rewriter.RewriteUrls | src/rewriter.rs:92-115 | the URL pass applies the `og:url` and `twitter:url` rules with the bare domain |
| Rewriter.ReplacementMatches | src/rewriter.rs:43-51 | when the content holds no `"`, a tag written by a content rule is matched by that rule's own pattern, exactly up to its closing quote |
| Rewriter.ApplyRulesAppend | src/rewriter.rs:31-123 | running two rule lists in a row is running their concatenation |
| Rewriter.ApplyRulesAbsent | src/rewriter.rs:31-123 | rules that match nowhere leave the page unchanged |
| Rewriter.MetaRewrittenAbsent | src/rewriter.rs:31-123 | a page on which no meta rule matches is returned unchanged |
| Rewriter.MetaRewrittenSteps | src/rewriter.rs:31-123 | the meta pass is the title, description, URL and itunes passes in that order |
| Inject.FontFamily | src/rewriter.rs:130-133 | the family name has the font's length, with `+` for each space |
| Inject.FontLinkShape | src/rewriter.rs:129-138 | the font link starts with the Google Fonts URL followed by the family name |
| Inject.HeadBlockShape | src/rewriter.rs:129-148 | the head block ends with the top-bar stylesheet; with a font it starts with the font link, and without one it is the stylesheet alone |
| Inject.InjectHeadContent | src/rewriter.rs:125-154 | the head pass writes the head block before `</head>` |
| Inject.HeadPlacement | src/rewriter.rs:151 | every `</head>` gets the head block before it and nothing else changes; a page without `</head>` is unchanged |
| Inject.InsertBeforePlacement | src/rewriter.rs:151 | inserting before a tag keeps every piece between tags and adds the block before each tag |
| Inject.BodyScriptsPlacement | src/rewriter.rs:156-278 | every `</body>` gets the bootstrap script and then the site's own script before it; a page without `</body>` is unchanged |
| Inject.RewriteHtml | src/rewriter.rs:15-29 | the page goes through the meta pass, the head pass and the body pass, in that order |
| Inject.RewrittenIdentity | src/rewriter.rs:15-29 | a page with no meta match, no `</head>` and no `</body>` comes out unchanged |
| Http.Lookup | src/handler.rs:90-93 | the lookup finds nothing exactly when no header has the name, case-insensitively; otherwise it returns a value stored under that name |
| Http.LookupFirst | src/handler.rs:90-93 | the first header with the name decides the lookup |
| Http.HostOf | src/handler.rs:90-93 | the host is `localhost`, or the readable value of a `host` header of the request |
| Http.HostOfFirst | src/handler.rs:90-93 | the host is the first `host` header when that is readable text, and `localhost` otherwise |
| Http.HostOfAbsent | src/handler.rs:90-93 | without a `host` header the host is `localhost` |
| Http.ForwardHeaders | src/handler.rs:290-295 | the forwarded headers are the request's headers minus `host` and `content-length`, in order |
| Http.KeepMembers | src/handler.rs:290-295 | a header survives the filter exactly when it was there and its name is not dropped |
| Http.KeepAppend | src/handler.rs:290-295 | the filter works piece by piece, so the survivors keep their order |
| Http.KeepNone | src/handler.rs:290-295 | a list with no dropped name passes through whole |
| Http.HeaderMap.Remove | src/handler.rs:314-315 | every entry under the key goes and the others stay in order |
| Http.KeepTwice | src/handler.rs:314-315 | removing one name and then another is removing both at once |
| Documents.PreflightResponse | src/handler.rs:165-176 | 200, empty body, and an open `access-control-allow-origin` |
| Documents.PreflightAllowsMethods | src/handler.rs:169-172 | the preflight allows `GET, HEAD, POST, PUT, OPTIONS` |
| Documents.PreflightAllowsHeaders | src/handler.rs:173 | the preflight allows the `Content-Type` request header |
| Documents.ParseRobotsRoundTrip | src/handler.rs:178-185 | the robots file reads back as the domain it was built for |
| Documents.RobotsResponse | src/handler.rs:178-185 | 200, `text/plain`, and a body naming the site's own sitemap |
| Documents.EntriesJoin | src/handler.rs:187-210 | the entries are the mapped slugs joined with nothing between them |
| Documents.ParseEntriesRoundTrip | src/handler.rs:187-210 | the entries read back as the slugs, in order |
| Documents.ParseSitemapRoundTrip | src/handler.rs:187-210 | the sitemap document reads back as exactly the slugs it was built from, in order |
| Documents.SitemapResponse | src/handler.rs:187-210 | 200, `application/xml`, and a body listing exactly the site's slugs |
| Documents.RedirectResponse | src/handler.rs:212-218 | 301, empty body, and a `location` header with the target |
| Forwarding.NotionUrl | src/handler.rs:119-128 | the forwarded URL starts with the workspace origin followed by the path, and ends with the query |
| Forwarding.NotionUrlRoundTrip | src/handler.rs:119-128 | the forwarded URL splits back into the request's path and query; a missing query and an empty one both give no `?` |
| Forwarding.JsRewrittenSplit | src/handler.rs:229-235 | each of the three replaces splits at its host name and joins with the domain |
| Forwarding.JsRewritten | src/handler.rs:229-235 | a script that names no Notion host comes back unchanged; Forwarding.JsRewrittenSplit states what each replace does |
| Forwarding.JsResponse | src/handler.rs:237-242 | 200 whatever Notion's status was, the rewritten script, `application/javascript` and an open CORS origin |
| Forwarding.ApiRequest | src/handler.rs:245-277 | the client's method and the URL are kept; the body is attached exactly when the URL does not name `getPublicPageData`; a body that cannot be read fails the request exactly when it was needed |
| Forwarding.ApiResponse | src/handler.rs:271-276 | Notion's status and body, an open CORS origin and `application/json` |
| Forwarding.HtmlRequest | src/handler.rs:279-304 | the client's method and the URL are kept; `host` and `content-length` are dropped and every other header kept; the body is attached exactly when it is not empty; an unreadable body fails the request |
| Forwarding.HtmlResponse | src/handler.rs:306-331 | Notion's status, the rewritten page, and exactly Notion's headers other than the two content-security-policy headers |
| Forwarding.PolicyHeadersDropped | src/handler.rs:314-315 | no content-security-policy header survives and every other header does |
| Forwarding.HandleHtmlContent | src/handler.rs:279-331 | the content handler sends the filtered request and answers with Notion's status, its headers without the two policy headers, and the rewritten page; Notion's error is passed on |
| Routing.Classify | src/handler.rs:102-162 | the action chosen is one whose condition holds; Routing.ClassifyFirstMatch adds that no earlier one holds |
| Routing.Serve | src/handler.rs:102-162 | a request is sent only for a script asset, an API call or page content, and then to the forwarded URL; Notion's error is passed on; a failure with nothing sent is the unreadable body |
| Routing.Dispatch | src/handler.rs:102-162 | the dispatch, with page content handled step by step, answers as Routing.Serve |
| Routing.ClassifyFirstMatch | src/handler.rs:102-162 | the action chosen is one whose condition holds, with no action checked before it holding |
| Routing.FirstMatchUnique | src/handler.rs:102-162 | an action is chosen exactly when it is the first in the order of checks whose condition holds |
| Routing.ServeContent | src/handler.rs:162 | a request classified as content is served by the content handler with the forwarded URL |
| Routing.PreflightIgnoresRequest | src/handler.rs:102-104 | an OPTIONS request gets the fixed 200 answer whatever its path, and nothing is sent to Notion |
| Routing.SlugRedirects | src/handler.rs:142-149 | a mapped slug gets a 301 to `https://{domain}/{page}` and nothing is sent |
| Routing.RootRedirects | src/handler.rs:142-149 | `/` redirects to the page mapped to the empty slug |
| Routing.UnknownPageIdRedirects | src/handler.rs:152-159 | an unmapped slug of 32 lower-case hex digits that is not a known page gets a 301 to `https://{domain}` and nothing is sent |
| Routing.KnownPageNotRedirected | src/handler.rs:152-159 | a known page id, or a slug with an upper-case letter, is never redirected to the bare domain |
| Routing.ContentFetched | src/handler.rs:162 | any other path is fetched from the workspace origin with the same path, query and method, and the page is rewritten |
| Handler.CanonicalHost | src/handler.rs:46 | a host starting with `www.` loses exactly that prefix; any other host is its own key |
| Handler.CanonicalHostWww | src/handler.rs:46 | `www.h` and `h` share a cache key exactly when `h` does not itself start with `www.`; only one `www.` is removed |
| Handler.ToResponse | src/handler.rs:73-78 | a success passes through; an error becomes a 500 whose body reads back as that error |
| Handler.ErrorsAre500 | src/handler.rs:73-78 | every error, an unknown site included, is a plain-text 500 whose body is the error's display text |
| Handler.AppState.constructor | src/handler.rs:28-42 | the state starts with the given table and settings and an empty cache |
| Handler.AppState.GetDomainConfig | src/handler.rs:44-63 | a cached host is answered from the cache; a configured one is computed, cached and returned with consistent derived fields; any other host is `DomainNotFound` and the cache is unchanged |
| Handler.AppState.HandleRequest | src/handler.rs:82-163 | the site is resolved first; an unknown site fails before anything else; a known one is served by the dispatch with its cached configuration; a host already cached leaves the cache untouched |
| Handler.AppState.ProxyHandler | src/handler.rs:66-80 | the handled request's response, or a 500 naming the error; an unknown host gets a 500 naming `DomainNotFound` and nothing is sent; a host already cached leaves the cache untouched |

## Left out

- Network I/O: the request to Notion is returned, not sent. Notion's answer, or the client error, is the input `fetched`.
- Streaming bodies: request bodies are modelled as their bytes read as text, or as the failure reading them. Response bodies are text.
- moka cache eviction, time-to-live and concurrent access: cache entries are never evicted, and requests are handled one at a time.
- The bootstrap script text that `inject_body_scripts` builds with `format!` and `serde_json` is the opaque `script` input. It is rendered by the `render` parameter, because JSON serialisation is not modelled.
- The top-bar stylesheet literal is the opaque `style` input. Only its position in the page is specified.
- Regular-expression replacement strings: `$` expansion is not modelled. The replacements are substituted literally. A title or description holding `$` would be expanded by the `regex` crate.
- `ProxyError::HtmlRewrite` is never raised. The patterns are fixed and always compile. `inject_body_scripts` maps `serde_json` failures to `JsonParse`, but serialising string maps and string vectors cannot fail, so that error is not modelled. `UrlParse`, `Io` and `Config` errors lie outside the request path.
- main.rs, cli.rs, loading of the configuration file, tracing and logging, and the `/health` route (routed in main.rs) are not part of this model.
- Header order: responses keep headers in the order they arrived or were added. The `http` crate's `HeaderMap` iterates all values of one name together, so with interleaved names the forwarded order can differ.
- Documents.ParseSitemapRoundTrip: the round trip is proved for slugs without `<`. A slug holding `<` makes the document ambiguous to read back.
- Documents.ParseEntriesRoundTrip: the round trip is proved for slugs without `<`, for the same reason.
- Documents.SitemapResponse: that the body lists exactly the site's slugs is proved for slugs without `<`, for the same reason.
- Forwarding.NotionUrlRoundTrip: the round trip is proved for paths without `?`. A URI's path never holds one.
- Text.ToLower: lower-casing is ASCII only. Header names are ASCII tokens.
- Config.DomainConfig.ComputeDerivedFields: the visiting order of the `HashMap` is left unspecified. The contract holds for every order, but it cannot name the `page_to_slug` value when two slugs share a page.
