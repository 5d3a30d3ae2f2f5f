/**
 * A site's configuration (`DomainConfig`) and the derived indexes that
 * `compute_derived_fields` rebuilds from the `slug_to_page` table: the
 * parallel `slugs`/`pages` vectors and the inverse table `page_to_slug`.
 */
module Config {

  import opened Wrappers

  /**
   * A `DomainConfig` as a value: what the static `domains` table and the
   * cache hold and what the handlers receive (the Rust code clones configs
   * in and out of both).
   */
  datatype DomainSnapshot = DomainSnapshot(
    myDomain: string,
    slugToPage: map<string, string>,
    pageTitle: Option<string>,
    pageDescription: Option<string>,
    googleFont: Option<string>,
    customScript: Option<string>,
    pageToSlug: map<string, string>,
    slugs: seq<string>,
    pages: seq<string>)

  /** No slug appears twice. */
  predicate Distinct(xs: seq<string>) {
    forall i, j :: 0 <= i < j < |xs| ==> xs[i] != xs[j]
  }

  /** `slugs` lists every key of `m` exactly once, in some order. */
  predicate Enumerates(slugs: seq<string>, m: map<string, string>) {
    Distinct(slugs) && (forall k :: k in m ==> k in slugs) && (forall i :: 0 <= i < |slugs| ==> slugs[i] in m)
  }

  /** `pages[i]` is the page `m` gives `slugs[i]`. */
  predicate Aligned(slugs: seq<string>, pages: seq<string>, m: map<string, string>) {
    |slugs| == |pages| && forall i :: 0 <= i < |slugs| ==> slugs[i] in m && m[slugs[i]] == pages[i]
  }

  /**
   * The table built by inserting `pages[i] -> slugs[i]` for i = 0, 1, ...,
   * so a later insertion under the same page overwrites an earlier one.
   */
  function Inverse(slugs: seq<string>, pages: seq<string>): map<string, string>
    requires |slugs| == |pages|
    decreases |slugs|
  {
    if slugs == [] then map[]
    else
      var n := |slugs| - 1;
      Inverse(slugs[..n], pages[..n])[pages[n] := slugs[n]]
  }

  /** What `compute_derived_fields` leaves behind for the table `m`, for some enumeration order. */
  predicate DerivedFrom(m: map<string, string>, slugs: seq<string>, pages: seq<string>, pageToSlug: map<string, string>) {
    Enumerates(slugs, m) && Aligned(slugs, pages, m) && pageToSlug == Inverse(slugs, pages)
  }

  predicate Consistent(d: DomainSnapshot) {
    DerivedFrom(d.slugToPage, d.slugs, d.pages, d.pageToSlug)
  }

  /** `p` occurs at `k` in `pages` and nowhere after it. */
  predicate LastAt(pages: seq<string>, p: string, k: int) {
    0 <= k < |pages| && pages[k] == p && forall j :: k < j < |pages| ==> pages[j] != p
  }

  lemma {:induction false} DistinctCard(xs: seq<string>)
    requires Distinct(xs)
    ensures |set x | x in xs| == |xs|
    decreases |xs|
  {
    if xs != [] {
      var n := |xs| - 1;
      DistinctCard(xs[..n]);
      assert (set x | x in xs) == (set x | x in xs[..n]) + {xs[n]};
    }
  }

  /** The inverse table is keyed by exactly the pages listed. */
  lemma {:induction false} InverseKeys(slugs: seq<string>, pages: seq<string>)
    requires |slugs| == |pages|
    ensures forall p :: p in Inverse(slugs, pages) <==> p in pages
    decreases |slugs|
  {
    if slugs != [] {
      var n := |slugs| - 1;
      InverseKeys(slugs[..n], pages[..n]);
      assert pages == pages[..n] + [pages[n]];
    }
  }

  /** Each page maps to the slug listed at its last position: the last insertion wins. */
  lemma {:induction false} InverseLastWins(slugs: seq<string>, pages: seq<string>, p: string)
    requires |slugs| == |pages| && p in Inverse(slugs, pages)
    ensures exists k :: LastAt(pages, p, k) && Inverse(slugs, pages)[p] == slugs[k]
    decreases |slugs|
  {
    var n := |slugs| - 1;
    if pages[n] == p {
      assert LastAt(pages, p, n);
    } else {
      InverseLastWins(slugs[..n], pages[..n], p);
      var k :| LastAt(pages[..n], p, k) && Inverse(slugs[..n], pages[..n])[p] == slugs[..n][k];
      assert LastAt(pages, p, k);
    }
  }

  /** `slugs.len() == pages.len() == slug_to_page.len()`. */
  lemma DerivedLengths(m: map<string, string>, slugs: seq<string>, pages: seq<string>, pageToSlug: map<string, string>)
    requires DerivedFrom(m, slugs, pages, pageToSlug)
    ensures |slugs| == |pages| == |m|
  {
    DistinctCard(slugs);
    assert (set x | x in slugs) == m.Keys;
  }

  /**
   * The inverse table: its keys are exactly the pages of `m`, and each page
   * maps back to a slug that `m` sends to that page, namely the last such
   * slug in enumeration order.
   */
  lemma DerivedInverse(m: map<string, string>, slugs: seq<string>, pages: seq<string>, pageToSlug: map<string, string>)
    requires DerivedFrom(m, slugs, pages, pageToSlug)
    ensures pageToSlug.Keys == m.Values
    ensures forall p :: p in pageToSlug ==> pageToSlug[p] in m && m[pageToSlug[p]] == p
    ensures forall p :: p in pageToSlug ==> exists k :: LastAt(pages, p, k) && pageToSlug[p] == slugs[k]
  {
    InverseKeys(slugs, pages);
    forall p | p in m.Values ensures p in pageToSlug {
      var k :| k in m && m[k] == p;
      var i :| 0 <= i < |slugs| && slugs[i] == k;
      assert pages[i] == p;
    }
    forall p | p in pageToSlug
      ensures p in m.Values
      ensures pageToSlug[p] in m && m[pageToSlug[p]] == p
      ensures exists k :: LastAt(pages, p, k) && pageToSlug[p] == slugs[k]
    {
      InverseLastWins(slugs, pages, p);
      var k :| LastAt(pages, p, k) && pageToSlug[p] == slugs[k];
      assert slugs[k] in m && m[slugs[k]] == p;
    }
  }

  /** No two slugs share a page. */
  predicate Injective(m: map<string, string>) {
    forall a, b :: a in m && b in m && m[a] == m[b] ==> a == b
  }

  /** With no shared pages, `page_to_slug` is the exact inverse of `slug_to_page`. */
  lemma DerivedInjective(m: map<string, string>, slugs: seq<string>, pages: seq<string>, pageToSlug: map<string, string>)
    requires DerivedFrom(m, slugs, pages, pageToSlug) && Injective(m)
    ensures forall k :: k in m ==> m[k] in pageToSlug && pageToSlug[m[k]] == k
  {
    DerivedInverse(m, slugs, pages, pageToSlug);
  }

  /**
   * The derived fields depend on nothing but `slug_to_page`: any two
   * enumerations list the same slugs and pages, give the same inverse key
   * set, and the same inverse table when no page is shared.
   */
  lemma DerivedAgree(m: map<string, string>,
                     s1: seq<string>, p1: seq<string>, i1: map<string, string>,
                     s2: seq<string>, p2: seq<string>, i2: map<string, string>)
    requires DerivedFrom(m, s1, p1, i1) && DerivedFrom(m, s2, p2, i2)
    ensures forall k :: k in s1 <==> k in s2
    ensures i1.Keys == i2.Keys
    ensures Injective(m) ==> i1 == i2
  {
    DerivedInverse(m, s1, p1, i1);
    DerivedInverse(m, s2, p2, i2);
    if Injective(m) {
      InverseUnique(m, i1, i2);
    }
  }

  /** With no shared pages, two inverse tables over the same pages that both map back into `m` are equal. */
  lemma InverseUnique(m: map<string, string>, i1: map<string, string>, i2: map<string, string>)
    requires Injective(m) && i1.Keys == i2.Keys
    requires forall p :: p in i1 ==> i1[p] in m && m[i1[p]] == p
    requires forall p :: p in i2 ==> i2[p] in m && m[i2[p]] == p
    ensures i1 == i2
  {
    forall p | p in i1 ensures i1[p] == i2[p] {
      assert m[i1[p]] == p == m[i2[p]];
    }
  }

  /** Pushing one more entry of `m` keeps the vectors aligned and distinct and adds one insertion to the inverse. */
  lemma PushEntry(m: map<string, string>, slugs: seq<string>, pages: seq<string>, slug: string)
    requires Aligned(slugs, pages, m) && Distinct(slugs) && slug in m && slug !in slugs
    ensures Aligned(slugs + [slug], pages + [m[slug]], m)
    ensures Distinct(slugs + [slug])
    ensures Inverse(slugs + [slug], pages + [m[slug]]) == Inverse(slugs, pages)[m[slug] := slug]
  {
    assert (slugs + [slug])[..|slugs|] == slugs && (pages + [m[slug]])[..|pages|] == pages;
  }

  class DomainConfig {
    var myDomain: string
    var slugToPage: map<string, string>
    var pageTitle: Option<string>
    var pageDescription: Option<string>
    var googleFont: Option<string>
    var customScript: Option<string>
    var pageToSlug: map<string, string>
    var slugs: seq<string>
    var pages: seq<string>

    /** The derived fields agree with `slugToPage`. */
    predicate Valid()
      reads this
    {
      DerivedFrom(slugToPage, slugs, pages, pageToSlug)
    }

    function Snapshot(): DomainSnapshot
      reads this
    {
      DomainSnapshot(myDomain, slugToPage, pageTitle, pageDescription, googleFont, customScript,
                     pageToSlug, slugs, pages)
    }

    /** `DomainConfig::new`: no optional settings, derived fields already computed. */
    constructor (myDomain: string, slugToPage: map<string, string>)
      ensures this.myDomain == myDomain && this.slugToPage == slugToPage
      ensures pageTitle.None? && pageDescription.None? && googleFont.None? && customScript.None?
      ensures Valid()
    {
      this.myDomain := myDomain;
      this.slugToPage := slugToPage;
      pageTitle := None;
      pageDescription := None;
      googleFont := None;
      customScript := None;
      pageToSlug := map[];
      slugs := [];
      pages := [];
      new;
      ComputeDerivedFields();
    }

    /** `.clone()` of a stored configuration, derived fields included. */
    constructor Clone(d: DomainSnapshot)
      ensures Snapshot() == d
    {
      myDomain := d.myDomain;
      slugToPage := d.slugToPage;
      pageTitle := d.pageTitle;
      pageDescription := d.pageDescription;
      googleFont := d.googleFont;
      customScript := d.customScript;
      pageToSlug := d.pageToSlug;
      slugs := d.slugs;
      pages := d.pages;
    }

    /**
     * `compute_derived_fields`: clear the three derived fields, then visit
     * the entries of `slugToPage` in an unspecified order, pushing the slug
     * and the page and recording page -> slug.
     */
    method ComputeDerivedFields()
      modifies this
      ensures Valid()
      ensures myDomain == old(myDomain) && slugToPage == old(slugToPage)
      ensures pageTitle == old(pageTitle) && pageDescription == old(pageDescription)
      ensures googleFont == old(googleFont) && customScript == old(customScript)
    {
      pageToSlug := map[];
      slugs := [];
      pages := [];
      var remaining := slugToPage.Keys;
      while remaining != {}
        invariant Distinct(slugs)
        invariant forall k :: k in slugToPage <==> k in remaining || k in slugs
        invariant forall k :: k in remaining ==> k !in slugs
        invariant Aligned(slugs, pages, slugToPage)
        invariant pageToSlug == Inverse(slugs, pages)
        invariant myDomain == old(myDomain) && slugToPage == old(slugToPage)
        invariant pageTitle == old(pageTitle) && pageDescription == old(pageDescription)
        invariant googleFont == old(googleFont) && customScript == old(customScript)
        decreases remaining
      {
        var slug :| slug in remaining;
        var page := slugToPage[slug];
        PushEntry(slugToPage, slugs, pages, slug);
        slugs := slugs + [slug];
        pages := pages + [page];
        pageToSlug := pageToSlug[page := slug];
        remaining := remaining - {slug};
      }
    }
  }
}
