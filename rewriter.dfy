/**
 * `HtmlRewriter`: the three whole-text passes applied to every proxied page.
 * The meta pass replaces title, description and URL tags and deletes the
 * App Store banner tag; the head pass inserts fonts and styles before
 * `</head>`; the body pass inserts the bootstrap script and the site's own
 * script before `</body>`.
 */
module Rewriter {

  import opened Wrappers
  import opened Text
  import opened Patterns
  import opened Config

  /** One `replace_all`: every match of `pattern` becomes `replacement`. */
  datatype Rule = Rule(pattern: Pattern, replacement: string)

  const OgTitle := "property=\"og:title\""
  const TwitterTitle := "name=\"twitter:title\""
  const NameDescription := "name=\"description\""
  const OgDescription := "property=\"og:description\""
  const TwitterDescription := "name=\"twitter:description\""
  const OgUrl := "property=\"og:url\""
  const TwitterUrl := "name=\"twitter:url\""
  const ItunesApp := "name=\"apple-itunes-app\""

  /** The normalised tag written in place of a match: `<meta ATTRIBUTE content="VALUE"`. */
  function MetaReplacement(attribute: string, content: string): string {
    "<meta " + attribute + " content=\"" + content + "\""
  }

  /** Every `<meta\s+ATTRIBUTE\s+content="[^"]*"` becomes the normalised tag carrying `content`. */
  function ContentRule(attribute: string, content: string): Rule {
    Rule(MetaContent(attribute), MetaReplacement(attribute, content))
  }

  /** What every `<title>` becomes: the configured title, then a hidden copy of the page's own. */
  function TitleTag(title: string): string {
    "<title>" + title + "</title><title style=\"display:none\">"
  }

  const DescriptionAttributes := [NameDescription, OgDescription, TwitterDescription]
  const UrlAttributes := [OgUrl, TwitterUrl]

  /** The replacements made when the site has a title `t`. */
  function TitleRules(t: string): seq<Rule> {
    [Rule(Literal("<title>"), TitleTag(t)), ContentRule(OgTitle, t), ContentRule(TwitterTitle, t)]
  }

  /** The replacements made when the site has a description `d`. */
  function DescriptionRules(d: string): seq<Rule> {
    seq(|DescriptionAttributes|, i requires 0 <= i < |DescriptionAttributes| => ContentRule(DescriptionAttributes[i], d))
  }

  /** The rules of an optional setting: none when the setting is absent. */
  function OptionalRules(setting: Option<string>, rules: string -> seq<Rule>): seq<Rule> {
    if setting.Some? then rules(setting.value) else []
  }

  function UrlRules(domain: string): seq<Rule> {
    seq(|UrlAttributes|, i requires 0 <= i < |UrlAttributes| => ContentRule(UrlAttributes[i], domain))
  }

  const ItunesRule := Rule(MetaTag(ItunesApp), "")

  /** The replacements of `rewrite_meta_tags`, in the order they run. */
  function MetaRules(cfg: DomainSnapshot): seq<Rule> {
    OptionalRules(cfg.pageTitle, TitleRules) + OptionalRules(cfg.pageDescription, DescriptionRules) + UrlRules(cfg.myDomain) + [ItunesRule]
  }

  /** The rules applied one after the other, each to the output of the one before. */
  function ApplyRules(s: string, rules: seq<Rule>): string
    decreases |rules|
  {
    if rules == [] then s
    else
      var n := |rules| - 1;
      ReplaceMatches(ApplyRules(s, rules[..n]), rules[n].pattern, rules[n].replacement)
  }

  /** What `rewrite_meta_tags` returns. */
  function MetaRewritten(cfg: DomainSnapshot, html: string): string {
    ApplyRules(html, MetaRules(cfg))
  }

  lemma {:induction false} ApplyRulesAppend(s: string, a: seq<Rule>, b: seq<Rule>)
    ensures ApplyRules(s, a + b) == ApplyRules(ApplyRules(s, a), b)
    decreases |b|
  {
    if b == [] {
      assert a + b == a;
    } else {
      var n := |b| - 1;
      assert (a + b)[..|a + b| - 1] == a + b[..n];
      ApplyRulesAppend(s, a, b[..n]);
    }
  }

  /** Text none of whose rules match anywhere passes every rule unchanged. */
  lemma {:induction false} ApplyRulesAbsent(s: string, rules: seq<Rule>)
    requires forall r, i :: r in rules && 0 <= i < |s| ==> MatchAt(r.pattern, s[i..]).None?
    ensures ApplyRules(s, rules) == s
    decreases |rules|
  {
    if rules != [] {
      var n := |rules| - 1;
      ApplyRulesAbsent(s, rules[..n]);
      ReplaceMatchesAbsent(s, rules[n].pattern, rules[n].replacement);
    }
  }

  /** A page with no title, meta or banner tag to rewrite leaves the meta pass as it came. */
  lemma MetaRewrittenAbsent(cfg: DomainSnapshot, html: string)
    requires forall r, i :: r in MetaRules(cfg) && 0 <= i < |html| ==> MatchAt(r.pattern, html[i..]).None?
    ensures MetaRewritten(cfg, html) == html
  {
    ApplyRulesAbsent(html, MetaRules(cfg));
  }

  /**
   * The title pass: cutting the page at every `<title>` gives pieces free of
   * `<title>`, and the output is those pieces joined with the title tag.
   */
  lemma TitlePass(html: string, t: string)
    ensures forall g :: g in Split(html, "<title>") ==> !Contains(g, "<title>")
    ensures Join(Split(html, "<title>"), "<title>") == html
    ensures ApplyRules(html, TitleRules(t)[..1]) == ReplaceAll(html, "<title>", TitleTag(t))
            == Join(Split(html, "<title>"), TitleTag(t))
  {
    var rules := TitleRules(t)[..1];
    assert rules[..0] == [];
    ReplaceAllSplit(html, "<title>", TitleTag(t));
    ReplaceAllIsLiteralScan(html, "<title>", TitleTag(t));
  }

  /** `<meta\s+ATTRIBUTE\s+content="[^"]*"` matched token by token, ending at the given positions. */
  lemma MetaContentWalk(s: string, attribute: string, p1: nat, p2: nat, p3: nat, p4: nat, p5: nat, p6: nat)
    requires p1 <= p2 <= p3 <= p4 <= p5 <= |s|
    requires StepToken(Text("<meta"), s, 0) == Some(p1)
    requires StepToken(Space, s, p1) == Some(p2)
    requires StepToken(Text(attribute), s, p2) == Some(p3)
    requires StepToken(Space, s, p3) == Some(p4)
    requires StepToken(Text("content=\""), s, p4) == Some(p5)
    requires StepToken(Through('"'), s, p5) == Some(p6)
    ensures MatchTokens(Tokens(MetaContent(attribute)), s, 0) == Some(p6)
  {
    var toks := Tokens(MetaContent(attribute));
    MatchTokensStep(toks, s, 5, p5, p6);
    MatchTokensStep(toks, s, 4, p4, p5);
    MatchTokensStep(toks, s, 3, p3, p4);
    MatchTokensStep(toks, s, 2, p2, p3);
    MatchTokensStep(toks, s, 1, p1, p2);
    MatchTokensStep(toks, s, 0, 0, p1);
    assert toks[6..] == [] && toks[0..] == toks;
  }

  /** Matching the tokens from the k-th on is the k-th token, then the rest. */
  lemma MatchTokensStep(toks: seq<Token>, s: string, k: nat, i: nat, j: nat)
    requires k < |toks| && i <= |s| && StepToken(toks[k], s, i) == Some(j)
    ensures MatchTokens(toks[k..], s, i) == MatchTokens(toks[k + 1..], s, j)
  {
    assert toks[k..][0] == toks[k] && toks[k..][1..] == toks[k + 1..];
  }

  /** Where the pieces of the normalised tag sit in the output. */
  lemma TagLayout(attribute: string, content: string, rest: string)
    ensures var s := MetaReplacement(attribute, content) + rest;
      var j := 6 + |attribute|;
      && |MetaReplacement(attribute, content)| == j + 11 + |content| <= |s|
      && s[0..5] == "<meta" && s[5] == ' ' && s[6..j] == attribute && s[j] == ' '
      && s[j + 1..j + 10] == "content=\"" && s[j + 10..j + 10 + |content|] == content
      && s[j + 10 + |content|] == '"'
  {
    var s := MetaReplacement(attribute, content) + rest;
    var j := 6 + |attribute|;
    var m := "<meta " + attribute;
    var n := m + " content=\"";
    var o := n + content;
    assert s == o + "\"" + rest;
    assert s[0..5] == m[0..5];
    assert s[6..j] == m[6..j];
    assert s[j + 1..j + 10] == n[j + 1..j + 10];
    assert s[j + 10..j + 10 + |content|] == o[j + 10..j + 10 + |content|];
  }

  lemma FirstOfSlice(s: string, i: nat, j: nat, t: string)
    requires i < j <= |s| && s[i..j] == t
    ensures s[i] == t[0]
  {
    assert s[i..j][0] == s[i];
  }

  /** A literal piece present at `i` is taken whole. */
  lemma TextStep(s: string, i: nat, t: string, e: nat)
    requires t != [] && e == i + |t| <= |s| && s[i..e] == t
    ensures StepToken(Text(t), s, i) == Some(e)
  {
  }

  /** One space followed by something else is a whole `\s+`. */
  lemma SingleSpace(s: string, i: nat)
    requires i + 1 < |s| && s[i] == ' ' && !IsWhiteSpace(s[i + 1])
    ensures StepToken(Space, s, i) == Some(i + 1)
  {
    assert SpaceRun(s, i + 1) == 0;
  }

  /** `[^"]*"` over a quote-free stretch and its closing quote. */
  lemma QuotedValue(s: string, i: nat, content: string)
    requires i + |content| < |s| && s[i..i + |content|] == content && '"' !in content
    requires s[i + |content|] == '"'
    ensures StepToken(Through('"'), s, i) == Some(i + |content| + 1)
  {
    forall k | i <= k < i + |content| ensures s[k] != '"' {
      assert s[k] == content[k - i];
    }
    assert IndexFrom(s, i, '"') == Some(i + |content|);
  }

  /** The tokens of `<meta\s+ATTRIBUTE\s+content="[^"]*"`, one by one, over text laid out as the normalised tag. */
  lemma TagSteps(s: string, attribute: string, content: string)
    requires attribute != [] && !IsWhiteSpace(attribute[0]) && '"' !in content
    requires 17 + |attribute| + |content| <= |s|
    requires s[0..5] == "<meta" && s[5] == ' ' && s[6..6 + |attribute|] == attribute
    requires s[6 + |attribute|] == ' ' && s[7 + |attribute|..16 + |attribute|] == "content=\""
    requires s[16 + |attribute|..16 + |attribute| + |content|] == content
    requires s[16 + |attribute| + |content|] == '"'
    ensures MatchTokens(Tokens(MetaContent(attribute)), s, 0) == Some(17 + |attribute| + |content|)
  {
    var j := 6 + |attribute|;
    FirstOfSlice(s, 6, j, attribute);
    FirstOfSlice(s, j + 1, j + 10, "content=\"");
    TextStep(s, 0, "<meta", 5);
    SingleSpace(s, 5);
    TextStep(s, 6, attribute, j);
    SingleSpace(s, j);
    TextStep(s, j + 1, "content=\"", j + 10);
    QuotedValue(s, j + 10, content);
    MetaContentWalk(s, attribute, 5, 6, j, j + 1, j + 10, j + 11 + |content|);
  }

  /**
   * The written tag is itself a whole match of its pattern, carrying `content`:
   * the output holds the normalised tag with the configured value.
   */
  lemma ReplacementMatches(attribute: string, content: string, rest: string)
    requires attribute != [] && !IsWhiteSpace(attribute[0]) && '"' !in content
    ensures MatchAt(MetaContent(attribute), MetaReplacement(attribute, content) + rest)
            == Some(|MetaReplacement(attribute, content)|)
  {
    TagLayout(attribute, content, rest);
    TagSteps(MetaReplacement(attribute, content) + rest, attribute, content);
  }

  /** Applying the first k+1 rules is applying rule k to the result of the first k. */
  lemma ApplyRulesStep(s: string, rules: seq<Rule>, k: nat)
    requires k < |rules|
    ensures ApplyRules(s, rules[..k + 1])
            == ReplaceMatches(ApplyRules(s, rules[..k]), rules[k].pattern, rules[k].replacement)
  {
    assert rules[..k + 1][..k] == rules[..k];
  }

  lemma ApplyRulesWhole(s: string, rules: seq<Rule>)
    ensures ApplyRules(s, rules[..|rules|]) == ApplyRules(s, rules)
  {
    assert rules[..|rules|] == rules;
  }

  /**
   * The description templates carry `{}` where the content goes; filling it
   * in with `str::replace` gives the normalised tag.
   */
  lemma TemplateFill(attribute: string, d: string)
    requires '{' !in attribute
    ensures ReplaceAll(MetaReplacement(attribute, "{}"), "{}", d) == MetaReplacement(attribute, d)
  {
    var prefix := "<meta " + attribute + " content=\"";
    assert MetaReplacement(attribute, "{}") == prefix + "{}" + "\"";
    assert MetaReplacement(attribute, d) == prefix + d + "\"";
    assert !Contains("\"", "{}") by { assert !Contains("\""[1..], "{}"); }
    ReplaceAllSplice(prefix, "{}", "\"", d);
  }

  lemma DescriptionAttributesBraceFree()
    ensures forall i :: 0 <= i < |DescriptionAttributes| ==> '{' !in DescriptionAttributes[i]
  {
    assert '{' !in NameDescription && '{' !in OgDescription && '{' !in TwitterDescription;
  }

  /** `rewrite_meta_tags`: the title, description, URL and banner passes in turn. */
  method RewriteMetaTags(cfg: DomainSnapshot, html: string) returns (out: string)
    ensures out == MetaRewritten(cfg, html)
  {
    out := html;
    if cfg.pageTitle.Some? {
      out := RewriteTitle(cfg.pageTitle.value, out);
    }
    if cfg.pageDescription.Some? {
      out := RewriteDescription(cfg.pageDescription.value, out);
    }
    out := RewriteUrls(cfg.myDomain, out);
    ghost var afterUrl := out;
    out := ReplaceMatches(out, MetaTag(ItunesApp), "");
    assert [ItunesRule][..0] == [];
    ApplyRulesStep(afterUrl, [ItunesRule], 0);
    MetaRewrittenSteps(cfg, html);
  }

  /**
   * The `page_title` block of `rewrite_meta_tags`: the `str::replace` of
   * `<title>` (the literal rule, see `TitlePass`), then the `replace_all` of
   * the og:title tag and of the twitter:title tag.
   */
  method RewriteTitle(t: string, html: string) returns (out: string)
    ensures out == ApplyRules(html, TitleRules(t))
  {
    ghost var rules := TitleRules(t);
    out := ReplaceAll(html, "<title>", TitleTag(t));
    TitlePass(html, t);
    out := ReplaceMatches(out, MetaContent(OgTitle), MetaReplacement(OgTitle, t));
    ApplyRulesStep(html, rules, 1);
    out := ReplaceMatches(out, MetaContent(TwitterTitle), MetaReplacement(TwitterTitle, t));
    ApplyRulesStep(html, rules, 2);
    ApplyRulesWhole(html, rules);
  }

  /** The `desc_patterns` table: each pattern with a replacement holding `{}` where the content goes. */
  const DescriptionTemplates := DescriptionRules("{}")

  /** Filling a template's `{}` with `str::replace` gives the rule for that description. */
  lemma DescriptionTemplateFill(d: string, i: nat)
    requires i < |DescriptionTemplates|
    ensures DescriptionRules(d)[i]
            == Rule(DescriptionTemplates[i].pattern, ReplaceAll(DescriptionTemplates[i].replacement, "{}", d))
  {
    DescriptionAttributesBraceFree();
    TemplateFill(DescriptionAttributes[i], d);
  }

  /** The `page_description` loop of `rewrite_meta_tags`: each template filled in, then applied. */
  method RewriteDescription(d: string, html: string) returns (out: string)
    ensures out == ApplyRules(html, DescriptionRules(d))
  {
    out := html;
    ghost var rules := DescriptionRules(d);
    for i := 0 to |DescriptionTemplates|
      invariant out == ApplyRules(html, rules[..i])
    {
      var (pattern, template) := (DescriptionTemplates[i].pattern, DescriptionTemplates[i].replacement);
      out := ReplaceMatches(out, pattern, ReplaceAll(template, "{}", d));
      DescriptionTemplateFill(d, i);
      ApplyRulesStep(html, rules, i);
    }
    ApplyRulesWhole(html, rules);
  }

  /** The `domain_patterns` loop of `rewrite_meta_tags`. */
  method RewriteUrls(domain: string, html: string) returns (out: string)
    ensures out == ApplyRules(html, UrlRules(domain))
  {
    out := html;
    var rules := UrlRules(domain);
    for i := 0 to |rules|
      invariant out == ApplyRules(html, rules[..i])
    {
      out := ReplaceMatches(out, rules[i].pattern, rules[i].replacement);
      ApplyRulesStep(html, rules, i);
    }
    ApplyRulesWhole(html, rules);
  }

  /** The meta pass is the title, description, URL and banner passes in turn. */
  lemma MetaRewrittenSteps(cfg: DomainSnapshot, html: string)
    ensures MetaRewritten(cfg, html)
            == ApplyRules(ApplyRules(ApplyRules(ApplyRules(html, OptionalRules(cfg.pageTitle, TitleRules)),
                 OptionalRules(cfg.pageDescription, DescriptionRules)), UrlRules(cfg.myDomain)), [ItunesRule])
  {
    var t := OptionalRules(cfg.pageTitle, TitleRules);
    var d := OptionalRules(cfg.pageDescription, DescriptionRules);
    var u := UrlRules(cfg.myDomain);
    ApplyRulesAppend(html, t, d);
    ApplyRulesAppend(html, t + d, u);
    ApplyRulesAppend(html, t + d + u, [ItunesRule]);
  }
}
