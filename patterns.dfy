/**
 * The fixed patterns the HTML rewriter hands to Rust's `regex` crate, each
 * matched by hand, and the crate's `replace_all`: a left-to-right scan that
 * replaces every leftmost, non-overlapping match.
 *
 * Every pattern used has at most one match at a given start position (a
 * greedy `\s+` is followed by a letter, a `[^"]*` by `"`, a `[^>]*` by `>`),
 * so "leftmost-first" is simply "the first position where `MatchAt` succeeds".
 */
module Patterns {

  import opened Wrappers
  import opened Text

  datatype Pattern =
    /** A fixed string, as `str::replace` looks for it. */
    | Literal(text: string)
    /** `<meta\s+ATTRIBUTE\s+content="[^"]*"`, e.g. ATTRIBUTE = `property="og:title"`. */
    | MetaContent(attribute: string)
    /** `<meta\s+ATTRIBUTE[^>]*>`, e.g. ATTRIBUTE = `name="apple-itunes-app"`. */
    | MetaTag(attribute: string)

  /** The pieces the patterns are written in. */
  datatype Token =
    /** The text itself. */
    | Text(text: string)
    /** `\s+`: one or more white-space characters, as many as there are. */
    | Space
    /** `[^c]*c`: everything up to and including the next `c`. */
    | Through(c: char)

  /** The patterns spelled out as token sequences. */
  function Tokens(p: Pattern): seq<Token> {
    match p
    case Literal(t) => [Text(t)]
    case MetaContent(a) => [Text("<meta"), Space, Text(a), Space, Text("content=\""), Through('"')]
    case MetaTag(a) => [Text("<meta"), Space, Text(a), Through('>')]
  }

  /** Length of the run of white space starting at `i`. */
  function SpaceRun(s: string, i: nat): (n: nat)
    requires i <= |s|
    ensures i + n <= |s|
    ensures forall k :: i <= k < i + n ==> IsWhiteSpace(s[k])
    ensures i + n < |s| ==> !IsWhiteSpace(s[i + n])
    decreases |s| - i
  {
    if i < |s| && IsWhiteSpace(s[i]) then 1 + SpaceRun(s, i + 1) else 0
  }

  /** The first position at or after `i` holding `c`. */
  function IndexFrom(s: string, i: nat, c: char): (r: Option<nat>)
    requires i <= |s|
    ensures r.Some? ==> i <= r.value < |s| && s[r.value] == c
    ensures r.Some? ==> forall k :: i <= k < r.value ==> s[k] != c
    ensures r.None? ==> forall k :: i <= k < |s| ==> s[k] != c
    decreases |s| - i
  {
    if i == |s| then None
    else if s[i] == c then Some(i)
    else IndexFrom(s, i + 1, c)
  }

  predicate OccursAt(s: string, i: nat, t: string) {
    i + |t| <= |s| && s[i..i + |t|] == t
  }

  /**
   * Where a token matching at `i` ends. Each token consumes at least one
   * character, and `Space` takes the whole run, which is the only way a
   * `\s+` followed by a non-space can match.
   */
  function StepToken(tok: Token, s: string, i: nat): (r: Option<nat>)
    requires i <= |s|
    ensures r.Some? ==> i < r.value <= |s|
  {
    match tok
    case Text(t) => if t != [] && OccursAt(s, i, t) then Some(i + |t|) else None
    case Space =>
      var n := SpaceRun(s, i);
      if n == 0 then None else Some(i + n)
    case Through(c) =>
      match IndexFrom(s, i, c)
      case None => None
      case Some(q) => Some(q + 1)
  }

  /** Where the tokens, matched one after the other from `i`, end. */
  function MatchTokens(toks: seq<Token>, s: string, i: nat): (r: Option<nat>)
    requires i <= |s|
    ensures r.Some? ==> i <= r.value <= |s|
    ensures r.Some? && toks != [] ==> i < r.value
    decreases |toks|
  {
    if toks == [] then Some(i)
    else
      match StepToken(toks[0], s, i)
      case None => None
      case Some(j) => MatchTokens(toks[1..], s, j)
  }

  /** Length of the match of `p` at the very start of `s`, if `p` matches there. */
  function MatchAt(p: Pattern, s: string): (r: Option<nat>)
    ensures r.Some? ==> 0 < r.value <= |s|
  {
    MatchTokens(Tokens(p), s, 0)
  }

  lemma {:induction false} SpaceRunAgree(s: string, t: string, i: nat, m: nat)
    requires i <= m <= |s| && m <= |t| && s[..m] == t[..m]
    requires i + SpaceRun(s, i) < m
    ensures SpaceRun(t, i) == SpaceRun(s, i)
    decreases |s| - i
  {
    assert s[i] == s[..m][i] == t[..m][i] == t[i];
    if IsWhiteSpace(s[i]) {
      SpaceRunAgree(s, t, i + 1, m);
    }
  }

  lemma {:induction false} IndexFromAgree(s: string, t: string, i: nat, c: char, m: nat)
    requires i <= m <= |s| && m <= |t| && s[..m] == t[..m]
    requires IndexFrom(s, i, c).Some? && IndexFrom(s, i, c).value < m
    ensures IndexFrom(t, i, c) == IndexFrom(s, i, c)
    decreases |s| - i
  {
    assert s[i] == s[..m][i] == t[..m][i] == t[i];
    if s[i] != c {
      IndexFromAgree(s, t, i + 1, c, m);
    }
  }

  lemma OccursAtAgree(s: string, t: string, i: nat, a: string, m: nat)
    requires m <= |s| && m <= |t| && s[..m] == t[..m]
    requires i + |a| <= m
    ensures OccursAt(s, i, a) <==> OccursAt(t, i, a)
  {
    assert s[i..i + |a|] == s[..m][i..i + |a|];
    assert t[i..i + |a|] == t[..m][i..i + |a|];
  }

  /**
   * A token that matches in `s` ending at or before `m` matches the same way
   * in any text agreeing with `s` on its first `m` characters, provided that
   * a `Space` run does not reach `m` (the character after it is looked at).
   */
  lemma StepTokenAgree(tok: Token, s: string, t: string, i: nat, m: nat)
    requires i <= m <= |s| && m <= |t| && s[..m] == t[..m]
    requires StepToken(tok, s, i).Some? && StepToken(tok, s, i).value <= m
    requires tok.Space? ==> StepToken(tok, s, i).value < m
    ensures StepToken(tok, t, i) == StepToken(tok, s, i)
  {
    match tok
    case Text(a) => OccursAtAgree(s, t, i, a, m);
    case Space => SpaceRunAgree(s, t, i, m);
    case Through(c) => IndexFromAgree(s, t, i, c, m);
  }

  /** No `Space` is last: every run of white space is followed by another token. */
  predicate SpaceNotLast(toks: seq<Token>) {
    toks != [] ==> !toks[|toks| - 1].Space?
  }

  lemma {:induction false} MatchTokensAgree(toks: seq<Token>, s: string, t: string, i: nat, m: nat)
    requires i <= m <= |s| && m <= |t| && s[..m] == t[..m]
    requires SpaceNotLast(toks)
    requires MatchTokens(toks, s, i).Some? && MatchTokens(toks, s, i).value <= m
    ensures MatchTokens(toks, t, i) == MatchTokens(toks, s, i)
    decreases |toks|
  {
    if toks != [] {
      var j := StepToken(toks[0], s, i).value;
      var rest := toks[1..];
      if toks[0].Space? {
        assert rest != [];
        assert j < MatchTokens(rest, s, j).value;
      }
      StepTokenAgree(toks[0], s, t, i, m);
      MatchTokensAgree(rest, s, t, j, m);
    }
  }

  /** A match depends only on the text it covers: no pattern looks past its own end. */
  lemma MatchAtPrefix(p: Pattern, s: string, t: string)
    requires MatchAt(p, s).Some?
    requires MatchAt(p, s).value <= |t| && t[..MatchAt(p, s).value] == s[..MatchAt(p, s).value]
    ensures MatchAt(p, t) == MatchAt(p, s)
  {
    var n := MatchAt(p, s).value;
    assert s[..n] == t[..n];
    MatchTokensAgree(Tokens(p), s, t, 0, n);
  }

  /**
   * A matcher gives the length of the match at the very start of a text; a
   * match is never empty and never runs past the text.
   */
  type Matcher = m: string -> Option<nat> | forall x :: m(x).Some? ==> 0 < m(x).value <= |x|
    witness (x: string) => None

  function MatcherOf(p: Pattern): Matcher {
    x => MatchAt(p, x)
  }

  /** The left-to-right scan of `replace_all`: every leftmost, non-overlapping match becomes `rep`. */
  function ReplaceEach(s: string, m: Matcher, rep: string): string
    decreases |s|
  {
    if s == [] then []
    else
      match m(s)
      case Some(n) => rep + ReplaceEach(s[n..], m, rep)
      case None => [s[0]] + ReplaceEach(s[1..], m, rep)
  }

  /** `Regex::replace_all(s, rep)` for the pattern `p`, with `rep` taken literally. */
  function ReplaceMatches(s: string, p: Pattern, rep: string): string {
    ReplaceEach(s, MatcherOf(p), rep)
  }

  /**
   * What the scan sees, left to right: the text before the next match
   * (`gap`), the matched text (`hit`) and the rest; `Last` holds the text
   * after the final match.
   */
  datatype Scan = Last(gap: string) | Hit(gap: string, hit: string, rest: Scan)

  function Prepend(c: char, sc: Scan): Scan {
    match sc
    case Last(g) => Last([c] + g)
    case Hit(g, h, r) => Hit([c] + g, h, r)
  }

  /** Reference decomposition of `s` into the gaps and hits that the scan for `m` sees. */
  function ScanMatches(s: string, m: Matcher): Scan
    decreases |s|
  {
    if s == [] then Last([])
    else
      match m(s)
      case Some(n) => Hit([], s[..n], ScanMatches(s[n..], m))
      case None => Prepend(s[0], ScanMatches(s[1..], m))
  }

  /** The gaps and hits glued back together. */
  function Weave(sc: Scan): string {
    match sc
    case Last(g) => g
    case Hit(g, h, r) => g + h + Weave(r)
  }

  /** The gaps with `sep` standing where every hit was. */
  function JoinGaps(sc: Scan, sep: string): string {
    match sc
    case Last(g) => g
    case Hit(g, _, r) => g + sep + JoinGaps(r, sep)
  }

  function Gaps(sc: Scan): (gs: seq<string>)
    ensures |gs| >= 1
  {
    match sc
    case Last(g) => [g]
    case Hit(g, _, r) => [g] + Gaps(r)
  }

  function Hits(sc: Scan): seq<string> {
    match sc
    case Last(_) => []
    case Hit(_, h, r) => [h] + Hits(r)
  }

  lemma PrependFacts(c: char, sc: Scan, sep: string)
    ensures Weave(Prepend(c, sc)) == [c] + Weave(sc)
    ensures JoinGaps(Prepend(c, sc), sep) == [c] + JoinGaps(sc, sep)
    ensures Hits(Prepend(c, sc)) == Hits(sc)
    ensures Gaps(Prepend(c, sc)) == [[c] + sc.gap] + Gaps(sc)[1..]
  {
  }

  lemma WeavePrefix(sc: Scan)
    ensures StartsWith(Weave(sc), sc.gap)
  {
    var w := Weave(sc);
    assert w[..|sc.gap|] == sc.gap;
  }

  /** Gluing the gaps and hits back together gives the scanned text. */
  lemma {:induction false} ScanWeave(s: string, m: Matcher)
    ensures Weave(ScanMatches(s, m)) == s
    decreases |s|
  {
    if s != [] {
      match m(s)
      case Some(n) =>
        ScanWeave(s[n..], m);
        assert s == s[..n] + s[n..];
      case None =>
        ScanWeave(s[1..], m);
        PrependFacts(s[0], ScanMatches(s[1..], m), []);
        assert s == [s[0]] + s[1..];
    }
  }

  /** `replace_all` puts `rep` exactly where the hits were. */
  lemma {:induction false} ReplaceEachJoin(s: string, m: Matcher, rep: string)
    ensures ReplaceEach(s, m, rep) == JoinGaps(ScanMatches(s, m), rep)
    decreases |s|
  {
    if s != [] {
      match m(s)
      case Some(n) =>
        ReplaceEachJoin(s[n..], m, rep);
      case None =>
        ReplaceEachJoin(s[1..], m, rep);
        PrependFacts(s[0], ScanMatches(s[1..], m), rep);
    }
  }

  /** For a matcher that looks no further than its match, every hit is a whole match. */
  lemma {:induction false} ScanHitsMatch(s: string, m: Matcher)
    requires forall x :: m(x).Some? ==> m(x[..m(x).value]) == m(x)
    ensures forall h :: h in Hits(ScanMatches(s, m)) ==> m(h) == Some(|h|)
    decreases |s|
  {
    if s != [] {
      match m(s)
      case Some(n) =>
        ScanHitsMatch(s[n..], m);
        assert m(s[..n]) == Some(n);
      case None =>
        ScanHitsMatch(s[1..], m);
        PrependFacts(s[0], ScanMatches(s[1..], m), []);
    }
  }

  /** The scan finds nothing exactly when the matcher succeeds at no position of `s`. */
  lemma {:induction false} ScanNoHitsIff(s: string, m: Matcher)
    ensures Hits(ScanMatches(s, m)) == [] <==> forall i :: 0 <= i < |s| ==> m(s[i..]).None?
    decreases |s|
  {
    if s != [] {
      assert s[0..] == s;
      match m(s)
      case Some(n) =>
      case None =>
        ScanNoHitsIff(s[1..], m);
        PrependFacts(s[0], ScanMatches(s[1..], m), []);
        forall i | 1 <= i < |s| ensures s[1..][i - 1..] == s[i..] { }
    }
  }

  /**
   * The scan misses nothing: the matcher fails at every position of every
   * gap (looking at the text from there on), and each hit is the match found
   * where the gap before it ends.
   */
  predicate GapsClear(sc: Scan, m: Matcher) {
    match sc
    case Last(g) => forall i :: 0 <= i < |g| ==> m(g[i..]).None?
    case Hit(g, h, r) =>
      && (forall i :: 0 <= i < |g| ==> m((g + h + Weave(r))[i..]).None?)
      && m(h + Weave(r)) == Some(|h|)
      && GapsClear(r, m)
  }

  /** The final gap grown by one character at the front stays clear when the matcher fails at the new position. */
  lemma ClearFrontLast(c: char, g: string, m: Matcher)
    requires forall i :: 0 <= i < |g| ==> m(g[i..]).None?
    requires m([c] + g).None?
    ensures forall i :: 0 <= i < |[c] + g| ==> m(([c] + g)[i..]).None?
  {
    forall i | 0 <= i < |[c] + g| ensures m(([c] + g)[i..]).None? {
      if i > 0 {
        assert ([c] + g)[i..] == g[i - 1..];
      } else {
        assert ([c] + g)[0..] == [c] + g;
      }
    }
  }

  /** A gap before a hit, grown by one character at the front, stays clear when the matcher fails at the new position. */
  lemma ClearFrontHit(c: char, g: string, h: string, w: string, m: Matcher)
    requires forall i :: 0 <= i < |g| ==> m((g + h + w)[i..]).None?
    requires m([c] + g + h + w).None?
    ensures forall i :: 0 <= i < |[c] + g| ==> m(([c] + g + h + w)[i..]).None?
  {
    forall i | 0 <= i < |[c] + g| ensures m(([c] + g + h + w)[i..]).None? {
      if i > 0 {
        assert ([c] + g + h + w)[i..] == (g + h + w)[i - 1..];
      } else {
        assert ([c] + g + h + w)[0..] == [c] + g + h + w;
      }
    }
  }

  /** A character the matcher fails at, put in front of a clear scan, keeps it clear. */
  lemma PrependClear(c: char, sc: Scan, m: Matcher)
    requires GapsClear(sc, m) && m([c] + Weave(sc)).None?
    ensures GapsClear(Prepend(c, sc), m)
  {
    match sc
    case Last(g) =>
      ClearFrontLast(c, g, m);
    case Hit(g, h, r) =>
      var w := Weave(r);
      assert Weave(sc) == g + h + w;
      assert [c] + (g + h + w) == [c] + g + h + w;
      ClearFrontHit(c, g, h, Weave(r), m);
  }

  /** The scan finds every leftmost match: no match starts inside a gap. */
  lemma {:induction false} ScanGapsClear(s: string, m: Matcher)
    ensures GapsClear(ScanMatches(s, m), m)
    decreases |s|
  {
    if s != [] {
      match m(s)
      case Some(n) =>
        ScanGapsClear(s[n..], m);
        ScanWeave(s[n..], m);
        assert s[..n] + s[n..] == s;
      case None =>
        ScanGapsClear(s[1..], m);
        ScanWeave(s[1..], m);
        assert [s[0]] + s[1..] == s;
        PrependClear(s[0], ScanMatches(s[1..], m), m);
    }
  }

  lemma JoinGapsNoHits(sc: Scan, sep: string)
    requires Hits(sc) == []
    ensures JoinGaps(sc, sep) == Weave(sc)
  {
  }

  /** Where the matcher never succeeds, the scan leaves the text as it is. */
  lemma NoMatchUnchanged(s: string, m: Matcher, rep: string)
    requires forall i :: 0 <= i < |s| ==> m(s[i..]).None?
    ensures ReplaceEach(s, m, rep) == s
  {
    ScanNoHitsIff(s, m);
    ScanWeave(s, m);
    ReplaceEachJoin(s, m, rep);
    JoinGapsNoHits(ScanMatches(s, m), rep);
  }

  /**
   * `replace_all` for a fixed pattern characterised: `s` is the gaps woven
   * with the hits, every hit is a whole match of `p`, no match of `p` starts
   * inside a gap, and the result has `rep` in place of each hit.
   */
  lemma ReplaceMatchesScan(s: string, p: Pattern, rep: string)
    ensures Weave(ScanMatches(s, MatcherOf(p))) == s
    ensures forall h :: h in Hits(ScanMatches(s, MatcherOf(p))) ==> MatchAt(p, h) == Some(|h|)
    ensures ReplaceMatches(s, p, rep) == JoinGaps(ScanMatches(s, MatcherOf(p)), rep)
    ensures GapsClear(ScanMatches(s, MatcherOf(p)), MatcherOf(p))
  {
    ScanGapsClear(s, MatcherOf(p));
    ScanWeave(s, MatcherOf(p));
    HitsMatchPattern(s, p);
    ReplaceEachJoin(s, MatcherOf(p), rep);
  }

  /** The matcher of a pattern decides on the matched text alone. */
  lemma MatcherOfLocal(p: Pattern)
    ensures forall x :: MatcherOf(p)(x).Some? ==> MatcherOf(p)(x[..MatcherOf(p)(x).value]) == MatcherOf(p)(x)
  {
    forall x | MatchAt(p, x).Some? ensures MatchAt(p, x[..MatchAt(p, x).value]) == MatchAt(p, x) {
      MatchAtPrefix(p, x, x[..MatchAt(p, x).value]);
    }
  }

  /** Every hit of the scan for `p` is a whole match of `p`. */
  lemma HitsMatchPattern(s: string, p: Pattern)
    ensures forall h :: h in Hits(ScanMatches(s, MatcherOf(p))) ==> MatchAt(p, h) == Some(|h|)
  {
    MatcherOfLocal(p);
    ScanHitsMatch(s, MatcherOf(p));
  }

  /** Text where `p` matches nowhere comes out of `replace_all` unchanged. */
  lemma ReplaceMatchesAbsent(s: string, p: Pattern, rep: string)
    requires forall i :: 0 <= i < |s| ==> MatchAt(p, s[i..]).None?
    ensures ReplaceMatches(s, p, rep) == s
  {
    NoMatchUnchanged(s, MatcherOf(p), rep);
  }

  // ---- `str::replace` as the scan for a literal ----

  /** A literal matches exactly where the text starts with it. */
  lemma MatchLiteral(pat: string, s: string)
    ensures MatchAt(Literal(pat), s) == if pat != [] && StartsWith(s, pat) then Some(|pat|) else None
  {
    var toks := Tokens(Literal(pat));
    assert toks[0] == Text(pat) && toks[1..] == [];
    if |pat| <= |s| {
      assert s[0..|pat|] == s[..|pat|];
    }
    assert OccursAt(s, 0, pat) <==> StartsWith(s, pat);
    match StepToken(Text(pat), s, 0)
    case None =>
    case Some(j) => assert MatchTokens([], s, j) == Some(j);
  }

  lemma LiteralMatcher(pat: string)
    ensures forall x :: MatcherOf(Literal(pat))(x) == if pat != [] && StartsWith(x, pat) then Some(|pat|) else None
  {
    forall x ensures MatcherOf(Literal(pat))(x) == if pat != [] && StartsWith(x, pat) then Some(|pat|) else None {
      MatchLiteral(pat, x);
    }
  }

  lemma {:induction false} ReplaceAllIsLiteralScan(s: string, pat: string, rep: string)
    requires pat != []
    ensures ReplaceAll(s, pat, rep) == ReplaceEach(s, MatcherOf(Literal(pat)), rep)
    decreases |s|
  {
    MatchLiteral(pat, s);
    if s != [] {
      if StartsWith(s, pat) {
        ReplaceAllIsLiteralScan(s[|pat|..], pat, rep);
      } else {
        ReplaceAllIsLiteralScan(s[1..], pat, rep);
      }
    }
  }

  lemma {:induction false} WeaveConst(sc: Scan, sep: string)
    requires forall h :: h in Hits(sc) ==> h == sep
    ensures Weave(sc) == JoinGaps(sc, sep)
  {
    match sc
    case Last(_) =>
    case Hit(g, h, r) =>
      assert forall x :: x in Hits(r) ==> x in Hits(sc);
      assert h in Hits(sc);
      WeaveConst(r, sep);
  }

  lemma {:induction false} JoinGapsIsJoin(sc: Scan, sep: string)
    ensures JoinGaps(sc, sep) == Join(Gaps(sc), sep)
  {
    if sc.Hit? {
      JoinGapsIsJoin(sc.rest, sep);
      var gs := Gaps(sc);
      assert gs[1..] == Gaps(sc.rest);
    }
  }

  /** The pieces of `s` between the occurrences of `pat` that `str::replace` finds. */
  function Split(s: string, pat: string): (parts: seq<string>)
    ensures |parts| >= 1
  {
    Gaps(ScanMatches(s, MatcherOf(Literal(pat))))
  }

  predicate GapsFree(sc: Scan, pat: string) {
    !Contains(sc.gap, pat) && (sc.Hit? ==> GapsFree(sc.rest, pat))
  }

  lemma {:induction false} GapsFreeAll(sc: Scan, pat: string)
    requires GapsFree(sc, pat)
    ensures forall g :: g in Gaps(sc) ==> !Contains(g, pat)
  {
    if sc.Hit? {
      GapsFreeAll(sc.rest, pat);
    }
  }

  lemma StartsWithTransitive(s: string, g: string, pat: string)
    requires StartsWith(s, g) && StartsWith(g, pat)
    ensures StartsWith(s, pat)
  {
    assert s[..|pat|] == s[..|g|][..|pat|];
  }

  /** Putting a character that starts no occurrence in front of an occurrence-free prefix keeps it free. */
  lemma PrependFree(s: string, g: string, pat: string)
    requires s != [] && !StartsWith(s, pat) && StartsWith(s[1..], g) && !Contains(g, pat)
    ensures !Contains([s[0]] + g, pat)
  {
    var g' := [s[0]] + g;
    assert StartsWith(s, g') by {
      assert s == [s[0]] + s[1..];
      assert s[1..][..|g|] == g;
    }
    if StartsWith(g', pat) {
      StartsWithTransitive(s, g', pat);
    }
    assert g'[1..] == g;
  }

  /** No piece between occurrences holds an occurrence itself. */
  lemma {:induction false} ScanGapsFree(s: string, pat: string)
    requires pat != []
    ensures GapsFree(ScanMatches(s, MatcherOf(Literal(pat))), pat)
    decreases |s|
  {
    var m := MatcherOf(Literal(pat));
    assert !StartsWith([], pat);
    MatchLiteral(pat, s);
    if s != [] {
      if StartsWith(s, pat) {
        ScanGapsFree(s[|pat|..], pat);
      } else {
        var rest := ScanMatches(s[1..], m);
        assert ScanMatches(s, m) == Prepend(s[0], rest);
        ScanGapsFree(s[1..], pat);
        ScanWeave(s[1..], m);
        WeavePrefix(rest);
        PrependFree(s, rest.gap, pat);
      }
    }
  }

  /**
   * `str::replace` characterised: the pieces between the occurrences of `pat`
   * are free of `pat`, joining them with `pat` gives `s` back, and the result
   * joins the same pieces with `rep`.
   */
  lemma ReplaceAllSplit(s: string, pat: string, rep: string)
    requires pat != []
    ensures Join(Split(s, pat), pat) == s
    ensures ReplaceAll(s, pat, rep) == Join(Split(s, pat), rep)
    ensures forall g :: g in Split(s, pat) ==> !Contains(g, pat)
  {
    var m := MatcherOf(Literal(pat));
    var sc := ScanMatches(s, m);
    ReplaceMatchesScan(s, Literal(pat), rep);
    forall h | h in Hits(sc) ensures h == pat {
      MatchLiteral(pat, h);
      assert h[..|pat|] == pat;
    }
    WeaveConst(sc, pat);
    JoinGapsIsJoin(sc, pat);
    JoinGapsIsJoin(sc, rep);
    ReplaceAllIsLiteralScan(s, pat, rep);
    ScanGapsFree(s, pat);
    GapsFreeAll(sc, pat);
  }

  /** Text without `pat` comes out of `str::replace` unchanged. */
  lemma ReplaceAllAbsent(s: string, pat: string, rep: string)
    requires !Contains(s, pat)
    ensures ReplaceAll(s, pat, rep) == s
  {
    ContainsIffOccurs(s, pat);
    assert pat != [] by { assert StartsWith(s[0..], []); }
    forall i | 0 <= i < |s| ensures MatchAt(Literal(pat), s[i..]).None? {
      MatchLiteral(pat, s[i..]);
      assert !StartsWith(s[i..], pat) || i > |s| - |pat|;
    }
    ReplaceMatchesAbsent(s, Literal(pat), rep);
    ReplaceAllIsLiteralScan(s, pat, rep);
  }

  lemma ReplaceAllHit(s: string, pat: string, rep: string)
    requires pat != [] && StartsWith(s, pat)
    ensures ReplaceAll(s, pat, rep) == rep + ReplaceAll(s[|pat|..], pat, rep)
  {
  }

  lemma ReplaceAllMiss(s: string, pat: string, rep: string)
    requires pat != [] && s != [] && !StartsWith(s, pat)
    ensures ReplaceAll(s, pat, rep) == [s[0]] + ReplaceAll(s[1..], pat, rep)
  {
  }

  /**
   * A template with one occurrence of `pat` whose text before it holds no
   * `pat[0]`: `str::replace` fills in `rep` there and copies the rest.
   */
  lemma {:induction false} ReplaceAllSplice(a: string, pat: string, b: string, rep: string)
    requires pat != [] && pat[0] !in a && !Contains(b, pat)
    ensures ReplaceAll(a + pat + b, pat, rep) == a + rep + b
    decreases |a|
  {
    if a == [] {
      SpliceAtStart(pat, b, rep);
    } else {
      var s := a + pat + b;
      SpliceMiss(a, pat, b);
      ReplaceAllMiss(s, pat, rep);
      ReplaceAllSplice(a[1..], pat, b, rep);
      ConsRest(a, rep, b);
    }
  }

  /** A non-empty text is its first character followed by the rest. */
  lemma ConsRest(a: string, x: string, y: string)
    requires a != []
    ensures [a[0]] + (a[1..] + x + y) == a + x + y
  {
    assert a == [a[0]] + a[1..];
  }

  lemma SpliceAtStart(pat: string, b: string, rep: string)
    requires pat != [] && !Contains(b, pat)
    ensures ReplaceAll(pat + b, pat, rep) == rep + b
  {
    var s := pat + b;
    assert s[..|pat|] == pat;
    assert s[|pat|..] == b;
    ReplaceAllHit(s, pat, rep);
    ReplaceAllAbsent(b, pat, rep);
  }

  lemma SpliceMiss(a: string, pat: string, b: string)
    requires pat != [] && a != [] && pat[0] !in a
    ensures !StartsWith(a + pat + b, pat)
    ensures (a + pat + b)[0] == a[0] && (a + pat + b)[1..] == a[1..] + pat + b
  {
    var s := a + pat + b;
    assert s[0] == a[0] && s[0] != pat[0];
    ConsRest(a, pat, b);
    assert s[1..] == ([a[0]] + (a[1..] + pat + b))[1..] == a[1..] + pat + b;
    if |pat| <= |s| {
      assert s[..|pat|][0] == s[0];
    }
  }
}
