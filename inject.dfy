/**
 * The head and body passes of `HtmlRewriter` and `rewrite_html`, which runs
 * the meta pass, the head pass and the body pass in that order.
 */
module Inject {

  import opened Wrappers
  import opened Text
  import opened Patterns
  import opened Config
  import opened Rewriter

  /** `s.replace(tag, block + tag)`: `block` written immediately before every `tag`. */
  function InsertBefore(s: string, tag: string, block: string): string {
    ReplaceAll(s, tag, block + tag)
  }

  /**
   * Cutting the text at every `tag` gives pieces free of `tag` that join back
   * to the text; the insertion joins the same pieces with `block + tag`.
   */
  lemma InsertBeforeSplit(s: string, tag: string, block: string)
    requires tag != []
    ensures forall g :: g in Split(s, tag) ==> !Contains(g, tag)
    ensures Join(Split(s, tag), tag) == s
    ensures InsertBefore(s, tag, block) == Join(Split(s, tag), block + tag)
  {
    ReplaceAllSplit(s, tag, block + tag);
  }

  /** Every `tag` gets `block` before it, nothing else changes; text without `tag` is left as it is. */
  lemma InsertBeforePlacement(s: string, tag: string, block: string)
    requires tag != []
    ensures forall g :: g in Split(s, tag) ==> !Contains(g, tag)
    ensures Join(Split(s, tag), tag) == s
    ensures InsertBefore(s, tag, block) == Join(Split(s, tag), block + tag)
    ensures !Contains(s, tag) ==> InsertBefore(s, tag, block) == s
  {
    InsertBeforeSplit(s, tag, block);
    if !Contains(s, tag) {
      InsertBeforeAbsent(s, tag, block);
    }
  }

  /** Text without `tag` is left as it is. */
  lemma InsertBeforeAbsent(s: string, tag: string, block: string)
    requires !Contains(s, tag)
    ensures InsertBefore(s, tag, block) == s
  {
    ReplaceAllAbsent(s, tag, block + tag);
  }

  /** The font name as it goes into the Google Fonts URL: every space becomes `+`. */
  function FontFamily(font: string): (r: string)
    ensures |r| == |font|
    ensures forall i :: 0 <= i < |font| ==> r[i] == (if font[i] == ' ' then '+' else font[i])
  {
    ReplaceAllChar(font, ' ', '+');
    ReplaceAll(font, " ", "+")
  }

  /** The Google Fonts stylesheet address, up to the family name. */
  const FontsUrl := "<link href=\"https://fonts.googleapis.com/css?family="

  /** The stylesheet link for `font` and the rule making it the page font. */
  function FontLink(font: string): string {
    FontsUrl + FontFamily(font) + FontTail(font)
  }

  /** What follows the family name in the font link: the weights, and the rule making `font` the page font. */
  function FontTail(font: string): string {
    ":Regular,Bold,Italic&display=swap\" rel=\"stylesheet\">\n                <style>* { font-family: \"" + font + "\" !important; }</style>"
  }

  /**
   * What `inject_head_content` puts before `</head>`: the font link when a
   * font is set, then `style`, the fixed stylesheet hiding Notion's top bar.
   */
  function HeadBlock(font: Option<string>, style: string): string {
    (if font.Some? then FontLink(font.value) else "") + style
  }

  /** The font link opens with the Google Fonts stylesheet URL, followed by the family name with `+` for spaces. */
  lemma FontLinkShape(font: string)
    ensures StartsWith(FontLink(font), FontsUrl + FontFamily(font))
  {
    PrefixOfAppend(FontsUrl + FontFamily(font), FontTail(font));
  }

  /**
   * The head block always ends with the top-bar style; with a font it starts
   * with the font's link, without one it is the style alone.
   */
  lemma HeadBlockShape(font: Option<string>, style: string)
    ensures EndsWith(HeadBlock(font, style), style)
    ensures font.Some? ==> StartsWith(HeadBlock(font, style), FontLink(font.value))
    ensures font.None? ==> HeadBlock(font, style) == style
  {
    var link := if font.Some? then FontLink(font.value) else "";
    PrefixOfAppend(link, style);
    if font.None? {
      assert link + style == style;
    }
  }

  /** What `inject_head_content` returns. */
  function HeadInjected(cfg: DomainSnapshot, style: string, html: string): string {
    InsertBefore(html, "</head>", HeadBlock(cfg.googleFont, style))
  }

  /** `inject_head_content`: the head block built with `push_str`, then written before `</head>`. */
  method InjectHeadContent(cfg: DomainSnapshot, style: string, html: string) returns (out: string)
    ensures out == HeadInjected(cfg, style, html)
  {
    var fontPart := "";
    if cfg.googleFont.Some? {
      fontPart := FontLink(cfg.googleFont.value);
    }
    var head := fontPart + style;
    out := ReplaceAll(html, "</head>", head + "</head>");
  }

  /**
   * What `inject_body_scripts` puts before `</body>`: the bootstrap script
   * (`script`, rendered from the site's maps and domain), then the site's own
   * script, or nothing when it has none.
   */
  function ScriptBlock(script: string, custom: Option<string>): string {
    script + custom.GetOr("") + "\n        "
  }

  /** `inject_body_scripts`. */
  function BodyInjected(cfg: DomainSnapshot, script: string, html: string): string {
    InsertBefore(html, "</body>", ScriptBlock(script, cfg.customScript))
  }

  /**
   * Every `</body>` is preceded by the bootstrap script and then the site's
   * own script; a page without `</body>` is unchanged.
   */
  lemma BodyScriptsPlacement(cfg: DomainSnapshot, script: string, html: string)
    ensures BodyInjected(cfg, script, html)
            == Join(Split(html, "</body>"), script + cfg.customScript.GetOr("") + "\n        " + "</body>")
    ensures Join(Split(html, "</body>"), "</body>") == html
    ensures forall g :: g in Split(html, "</body>") ==> !Contains(g, "</body>")
    ensures !Contains(html, "</body>") ==> BodyInjected(cfg, script, html) == html
  {
    InsertBeforeSplit(html, "</body>", ScriptBlock(script, cfg.customScript));
    if !Contains(html, "</body>") {
      InsertBeforeAbsent(html, "</body>", ScriptBlock(script, cfg.customScript));
    }
  }

  /** Every `</head>` is preceded by the head block; a page without `</head>` is unchanged. */
  lemma HeadPlacement(cfg: DomainSnapshot, style: string, html: string)
    ensures HeadInjected(cfg, style, html) == Join(Split(html, "</head>"), HeadBlock(cfg.googleFont, style) + "</head>")
    ensures Join(Split(html, "</head>"), "</head>") == html
    ensures forall g :: g in Split(html, "</head>") ==> !Contains(g, "</head>")
    ensures !Contains(html, "</head>") ==> HeadInjected(cfg, style, html) == html
  {
    InsertBeforePlacement(html, "</head>", HeadBlock(cfg.googleFont, style));
  }

  /**
   * What `rewrite_html` returns: the meta pass, then the head pass, then the
   * body pass. `style` is the fixed top-bar stylesheet and `script` the
   * rendered bootstrap script.
   */
  function Rewritten(cfg: DomainSnapshot, style: string, script: string, html: string): string {
    BodyInjected(cfg, script, HeadInjected(cfg, style, MetaRewritten(cfg, html)))
  }

  /** `rewrite_html`: the three passes applied in turn to an accumulator. */
  method RewriteHtml(cfg: DomainSnapshot, style: string, script: string, html: string) returns (out: string)
    ensures out == Rewritten(cfg, style, script, html)
  {
    out := html;
    out := RewriteMetaTags(cfg, out);
    out := InjectHeadContent(cfg, style, out);
    out := BodyInjected(cfg, script, out);
  }

  /**
   * A page with nothing any pass looks for (no rule matches, no `</head>`,
   * no `</body>`) comes out exactly as it went in.
   */
  lemma RewrittenIdentity(cfg: DomainSnapshot, style: string, script: string, html: string)
    requires forall r, i :: r in MetaRules(cfg) && 0 <= i < |html| ==> MatchAt(r.pattern, html[i..]).None?
    requires !Contains(html, "</head>") && !Contains(html, "</body>")
    ensures Rewritten(cfg, style, script, html) == html
  {
    MetaRewrittenAbsent(cfg, html);
    HeadPlacement(cfg, style, html);
    BodyScriptsPlacement(cfg, script, html);
  }
}
