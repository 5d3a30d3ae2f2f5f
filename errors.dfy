/** The `ProxyError` variants the request path can produce, and their display text. */
module Errors {

  import opened Wrappers
  import opened Text

  datatype ProxyError =
    /** A network failure talking to Notion (`reqwest::Error`). */
    | Request(detail: string)
    | DomainNotFound(host: string)
    | HtmlRewrite(detail: string)
    | Internal(detail: string)

  /** The text `Display` gives each variant: a fixed prefix, then the payload. */
  function Prefix(e: ProxyError): string {
    match e
    case Request(_) => "HTTP request error: "
    case DomainNotFound(_) => "Domain not found: "
    case HtmlRewrite(_) => "HTML rewriting error: "
    case Internal(_) => "Internal server error: "
  }

  function Payload(e: ProxyError): string {
    match e
    case Request(d) => d
    case DomainNotFound(h) => h
    case HtmlRewrite(d) => d
    case Internal(d) => d
  }

  /** `e.to_string()`. */
  function Message(e: ProxyError): (m: string)
    ensures StartsWith(m, Prefix(e)) && EndsWith(m, Payload(e))
  {
    PrefixOfAppend(Prefix(e), Payload(e));
    Prefix(e) + Payload(e)
  }

  /** Reads the variant and its payload back from a message. */
  function ParseMessage(m: string): Option<ProxyError> {
    if StartsWith(m, "HTTP request error: ") then Some(Request(m[20..]))
    else if StartsWith(m, "Domain not found: ") then Some(DomainNotFound(m[18..]))
    else if StartsWith(m, "HTML rewriting error: ") then Some(HtmlRewrite(m[22..]))
    else if StartsWith(m, "Internal server error: ") then Some(Internal(m[23..]))
    else None
  }

  /** A text whose character `k` differs from `p`'s does not start with `p`. */
  lemma DiffersAt(m: string, p: string, k: nat)
    requires k < |m| && k < |p| && m[k] != p[k]
    ensures !StartsWith(m, p)
  {
    if |p| <= |m| {
      assert m[..|p|][k] == m[k];
    }
  }

  /** The message names its variant and carries its payload: parsing it gives the error back. */
  lemma ParseMessageRoundTrip(e: ProxyError)
    ensures ParseMessage(Message(e)) == Some(e)
  {
    var m := Message(e);
    var p := Prefix(e);
    assert m[..|p|] == p;
    assert m[|p|..] == Payload(e);
    assert m[0] == p[0] && m[3] == p[3];
    match e
    case Request(_) =>
    case DomainNotFound(_) =>
      DiffersAt(m, "HTTP request error: ", 0);
    case HtmlRewrite(_) =>
      DiffersAt(m, "HTTP request error: ", 3);
      DiffersAt(m, "Domain not found: ", 0);
    case Internal(_) =>
      DiffersAt(m, "HTTP request error: ", 0);
      DiffersAt(m, "Domain not found: ", 0);
      DiffersAt(m, "HTML rewriting error: ", 0);
  }

  /** Distinct errors never display the same text. */
  lemma MessageInjective(a: ProxyError, b: ProxyError)
    requires Message(a) == Message(b)
    ensures a == b
  {
    ParseMessageRoundTrip(a);
    ParseMessageRoundTrip(b);
  }
}
