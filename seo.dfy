// The page metadata of the web app: title, description, keywords, robots policy,
// canonical URL and social-card image, composed from the page's own SEO fields and
// the site configuration, with the page's remaining fields overriding the defaults.
// The base URL is `WebUtils.BaseUrl` of the deployment environment.

module Seo {
  import opened Text
  import opened Json
  import StudioHelper

  const SiteTitle: string := "Roboto Studio Demo"
  const SiteDescription: string := "Roboto Studio Demo"
  const TwitterHandle: string := "@studioroboto"
  const SiteKeywords: seq<string> := ["roboto", "studio", "demo", "sanity", "next", "react", "template"]

  /** The social-card parameters: `type` and `id`. */
  datatype OgImageParams = OgImageParams(imageType: Option<string>, id: Option<string>)

  /** The parameters `generateOgImageUrl` sets, in the order it sets them: `id`, then `type`. */
  function OgQueryEntries(params: OgImageParams): (r: seq<(string, string)>)
    ensures |r| == (if Truthy(params.id) then 1 else 0) + (if Truthy(params.imageType) then 1 else 0)
    ensures Truthy(params.id) ==> r[0] == ("id", params.id.value)
    ensures Truthy(params.imageType) ==> r[|r| - 1] == ("type", params.imageType.value)
  {
    (if Truthy(params.id) then [("id", params.id.value)] else [])
    + (if Truthy(params.imageType) then [("type", params.imageType.value)] else [])
  }

  function Pairs(entries: seq<(string, string)>): (r: seq<string>)
    ensures |r| == |entries|
    ensures forall i :: 0 <= i < |entries| ==> r[i] == entries[i].0 + "=" + entries[i].1
  {
    seq(|entries|, i requires 0 <= i < |entries| => entries[i].0 + "=" + entries[i].1)
  }

  /** `URLSearchParams.toString()` for values that need no percent-encoding. */
  function QueryString(entries: seq<(string, string)>): string {
    Join(Pairs(entries), "&")
  }

  /** `generateOgImageUrl(params = {})`. */
  function OgImageUrl(baseUrl: string, params: Option<OgImageParams>): (r: string)
    ensures r == baseUrl + "/api/og?" + QueryString(OgQueryEntries(if params.Some? then params.value else OgImageParams(None, None)))
  {
    var p := if params.Some? then params.value else OgImageParams(None, None);
    baseUrl + "/api/og?" + QueryString(OgQueryEntries(p))
  }

  /** Reading a query string back: `&`-separated pairs, split at the first `=`. */
  function ParsePair(s: string): (string, string) {
    var kv := Split(s, '=');
    (kv[0], Join(kv[1..], "="))
  }

  function ParseQuery(q: string): (r: seq<(string, string)>) {
    if q == "" then []
    else
      var parts := Split(q, '&');
      seq(|parts|, i requires 0 <= i < |parts| => ParsePair(parts[i]))
  }

  /** A key or value written as it is: no `&`, no `=`. */
  predicate Plain(s: string) { '&' !in s && '=' !in s }

  lemma ParsePairOfPair(k: string, v: string)
    requires Plain(k) && Plain(v)
    ensures ParsePair(k + "=" + v) == (k, v)
  {
    assert [k, v][1..] == [v];
    assert Join([k, v], "=") == k + "=" + v;
    SplitJoin([k, v], '=');
  }

  /** A query string built from plain entries, at least one with a non-empty key, reads back as those entries. */
  lemma ParseQueryString(entries: seq<(string, string)>)
    requires forall i :: 0 <= i < |entries| ==> Plain(entries[i].0) && Plain(entries[i].1) && entries[i].0 != ""
    ensures ParseQuery(QueryString(entries)) == entries
  {
    var parts := Pairs(entries);
    if |entries| > 0 {
      assert forall i :: 0 <= i < |parts| ==> '&' !in parts[i] by {
        forall i | 0 <= i < |parts|
          ensures '&' !in parts[i]
        {
          assert parts[i] == entries[i].0 + "=" + entries[i].1;
        }
      }
      SplitJoin(parts, '&');
      assert QueryString(entries) != "" by {
        JoinFirst(parts, "&");
      }
      forall i | 0 <= i < |entries|
        ensures ParsePair(parts[i]) == entries[i]
      {
        ParsePairOfPair(entries[i].0, entries[i].1);
      }
    }
  }

  /** A join starts with its first part. */
  lemma JoinFirst(parts: seq<string>, sep: string)
    requires |parts| >= 1
    ensures |Join(parts, sep)| >= |parts[0]|
  {
  }

  /** The social-card URL carries exactly the given `id` and `type`, in that order. */
  lemma OgImageUrlCarriesParams(baseUrl: string, params: OgImageParams)
    requires params.id.Some? ==> Plain(params.id.value)
    requires params.imageType.Some? ==> Plain(params.imageType.value)
    ensures var q := OgImageUrl(baseUrl, Some(params))[|baseUrl + "/api/og?"|..];
      ParseQuery(q) == OgQueryEntries(params)
  {
    var entries := OgQueryEntries(params);
    ParseQueryString(entries);
    var url := OgImageUrl(baseUrl, Some(params));
    assert url[|baseUrl + "/api/og?"|..] == QueryString(entries);
  }

  /** Without parameters the URL ends in the bare `?`. */
  lemma OgImageUrlDefault(baseUrl: string)
    ensures OgImageUrl(baseUrl, None) == baseUrl + "/api/og?"
  {
  }

  /** `buildPageUrl`: the slug appended to the base URL, with a `/` in front when it lacks one. */
  function PageUrl(baseUrl: string, slug: string): (r: string)
    ensures StartsWith(slug, "/") ==> r == baseUrl + slug
    ensures !StartsWith(slug, "/") ==> r == baseUrl + "/" + slug
  {
    var normalized := if StartsWith(slug, "/") then slug else "/" + slug;
    baseUrl + normalized
  }

  /** A page URL is the base URL followed by a path, and prefixing the slug with `/` changes nothing. */
  lemma PageUrlIsPath(baseUrl: string, slug: string)
    ensures StartsWith(PageUrl(baseUrl, slug), baseUrl + "/")
    ensures !StartsWith(slug, "/") ==> PageUrl(baseUrl, "/" + slug) == PageUrl(baseUrl, slug)
  {
    var r := PageUrl(baseUrl, slug);
    if StartsWith(slug, "/") {
      assert r == (baseUrl + "/") + slug[1..] by {
        assert slug == "/" + slug[1..];
      }
    } else {
      assert ("/" + slug)[..1] == "/";
    }
    assert r[..|baseUrl + "/"|] == baseUrl + "/";
  }

  /** `slug.replace(/^\//, "")`: one leading slash removed. */
  function DropLeadingSlash(slug: string): (r: string)
    ensures StartsWith(slug, "/") ==> "/" + r == slug
    ensures !StartsWith(slug, "/") ==> r == slug
  {
    if StartsWith(slug, "/") then slug[1..] else slug
  }

  /** `extractTitle`. */
  function ExtractTitle(pageTitle: Option<string>, slug: string, siteTitle: string): (r: string)
    ensures Truthy(pageTitle) ==> r == pageTitle.value
    ensures !Truthy(pageTitle) && slug != "" && slug != "/" ==> r == StudioHelper.Capitalize(DropLeadingSlash(slug))
    ensures !Truthy(pageTitle) && (slug == "" || slug == "/") ==> r == siteTitle
  {
    if Truthy(pageTitle) then pageTitle.value
    else if slug != "" && slug != "/" then StudioHelper.Capitalize(DropLeadingSlash(slug))
    else siteTitle
  }

  /** The title is never empty when the site title is not. */
  lemma ExtractTitleNonEmpty(pageTitle: Option<string>, slug: string, siteTitle: string)
    requires siteTitle != ""
    ensures ExtractTitle(pageTitle, slug, siteTitle) != ""
  {
    if !Truthy(pageTitle) && slug != "" && slug != "/" && StartsWith(slug, "/") {
      assert DropLeadingSlash(slug) != "";
    }
  }

  /** The document title: the page's title followed by the site's, once. */
  function FullTitle(defaultTitle: string): (r: string)
    ensures defaultTitle == SiteTitle ==> r == SiteTitle
    ensures defaultTitle != SiteTitle ==> r == defaultTitle + " | " + SiteTitle
  {
    if defaultTitle == SiteTitle then defaultTitle else defaultTitle + " | " + SiteTitle
  }

  /** The site title names only itself, and every other title ends with `| <site title>`. */
  lemma FullTitleIs(defaultTitle: string)
    ensures FullTitle(defaultTitle) == SiteTitle <==> defaultTitle == SiteTitle
    ensures EndsWith(FullTitle(defaultTitle), SiteTitle)
  {
    var r := FullTitle(defaultTitle);
    if defaultTitle != SiteTitle {
      assert |r| > |SiteTitle|;
      assert r == (defaultTitle + " | ") + SiteTitle;
      assert r[|r| - |SiteTitle|..] == SiteTitle;
    } else {
      assert r[|r| - |SiteTitle|..] == SiteTitle;
    }
  }

  const NoIndex: string := "noindex, nofollow"
  const Index: string := "index, follow"

  /** The robots policy; `seoNoIndex` defaults to `false`. */
  function Robots(seoNoIndex: Option<bool>): (r: string)
    ensures r == NoIndex <==> seoNoIndex == Some(true)
    ensures r == Index <==> seoNoIndex != Some(true)
  {
    if seoNoIndex == Some(true) then NoIndex else Index
  }

  /** The fields `getSEOMetadata` reads from the page; `rest` is every other field the page has. */
  datatype PageSeoData = PageSeoData(
    title: Option<string>,
    description: Option<string>,
    slug: Option<string>,
    contentId: Option<string>,
    contentType: Option<string>,
    keywords: Option<seq<string>>,
    seoNoIndex: Option<bool>,
    pageType: Option<string>,
    rest: map<string, Json>)

  /** The names the destructuring takes out; everything else is an override. */
  const ReadKeys: set<string> :=
    {"title", "description", "slug", "contentId", "contentType", "keywords", "seoNoIndex", "pageType"}

  function Overrides(page: PageSeoData): (r: map<string, Json>)
    ensures r.Keys == page.rest.Keys - ReadKeys
    ensures forall k :: k in r ==> r[k] == page.rest[k]
  {
    map k | k in page.rest && k !in ReadKeys :: page.rest[k]
  }

  /** The values of the metadata that the properties of this module talk about. */
  datatype Defaults = Defaults(title: string, fullTitle: string, description: string,
                               pageUrl: string, ogImage: string, keywords: seq<string>, robots: string)

  function DefaultsOf(page: PageSeoData, baseUrl: string): (d: Defaults)
    ensures d.fullTitle == FullTitle(d.title)
    ensures d.keywords == SiteKeywords + (if page.keywords.Some? then page.keywords.value else [])
    ensures d.robots == Robots(page.seoNoIndex)
    ensures d.pageUrl == PageUrl(baseUrl, if page.slug.Some? then page.slug.value else "/")
    ensures d.title == ExtractTitle(page.title, if page.slug.Some? then page.slug.value else "/", SiteTitle)
    ensures d.description == OrElse(page.description, SiteDescription)
    ensures d.ogImage == OgImageUrl(baseUrl, Some(OgImageParams(page.contentType, page.contentId)))
  {
    var slug := if page.slug.Some? then page.slug.value else "/";
    var title := ExtractTitle(page.title, slug, SiteTitle);
    Defaults(title, FullTitle(title), OrElse(page.description, SiteDescription),
      PageUrl(baseUrl, slug), OgImageUrl(baseUrl, Some(OgImageParams(page.contentType, page.contentId))),
      SiteKeywords + (if page.keywords.Some? then page.keywords.value else []), Robots(page.seoNoIndex))
  }

  /** The `defaultMetadata` object (`metadataBase`, a `URL` object, is kept as its string). */
  function DefaultMetadata(page: PageSeoData, baseUrl: string): (r: map<string, Json>)
    ensures var d := DefaultsOf(page, baseUrl);
      && r.Keys == DefaultKeys
      && r["title"] == JStr(d.fullTitle)
      && r["description"] == JStr(d.description)
      && r["keywords"] == Strings(d.keywords)
      && r["robots"] == JStr(d.robots)
      && r["alternates"] == JObj(map["canonical" := JStr(d.pageUrl)])
  {
    var d := DefaultsOf(page, baseUrl);
    var pageType := if page.pageType.Some? then page.pageType.value else "website";
    map[
      "metadataBase" := JStr(baseUrl),
      "creator" := JStr(SiteTitle),
      "authors" := JArr([JObj(map["name" := JStr(SiteTitle)])]),
      "icons" := JObj(map["icon" := JStr(baseUrl + "/favicon.ico")]),
      "twitter" := TwitterCard(d),
      "openGraph" := OpenGraph(d, pageType),
      "title" := JStr(d.fullTitle),
      "description" := JStr(d.description),
      "keywords" := Strings(d.keywords),
      "robots" := JStr(d.robots),
      "alternates" := JObj(map["canonical" := JStr(d.pageUrl)])
    ]
  }

  /** The `twitter` entry of the defaults. */
  function TwitterCard(d: Defaults): Json {
    JObj(map[
      "card" := JStr("summary_large_image"),
      "images" := Strings([d.ogImage]),
      "creator" := JStr(TwitterHandle),
      "title" := JStr(d.title),
      "description" := JStr(d.description)])
  }

  /** The `openGraph` entry of the defaults. */
  function OpenGraph(d: Defaults, pageType: string): Json {
    JObj(map[
      "type" := JStr(pageType),
      "countryName" := JStr("UK"),
      "description" := JStr(d.description),
      "title" := JStr(d.title),
      "images" := JArr([JObj(map[
        "url" := JStr(d.ogImage),
        "width" := JInt(1200),
        "height" := JInt(630),
        "alt" := JStr(d.title),
        "secureUrl" := JStr(d.ogImage)])]),
      "url" := JStr(d.pageUrl)])
  }

  const DefaultKeys: set<string> :=
    {"title", "description", "metadataBase", "creator", "authors", "icons", "keywords", "robots",
     "twitter", "alternates", "openGraph"}

  /** `getSEOMetadata(page = {})`: the defaults, overridden key by key by the page's other fields. */
  function SeoMetadata(page: Option<PageSeoData>, baseUrl: string): (r: map<string, Json>)
    ensures var p := if page.Some? then page.value else PageSeoData(None, None, None, None, None, None, None, None, map[]);
      var d := DefaultsOf(p, baseUrl);
      && r.Keys == DefaultKeys + Overrides(p).Keys
      && (forall k :: k in Overrides(p) ==> r[k] == Overrides(p)[k])
      && r["title"] == JStr(d.fullTitle)
      && r["description"] == JStr(d.description)
      && ("keywords" !in Overrides(p) ==> r["keywords"] == Strings(d.keywords))
      && ("robots" !in Overrides(p) ==> r["robots"] == JStr(d.robots))
      && ("alternates" !in Overrides(p) ==> r["alternates"] == JObj(map["canonical" := JStr(d.pageUrl)]))
  {
    var p := if page.Some? then page.value else PageSeoData(None, None, None, None, None, None, None, None, map[]);
    Spread(DefaultMetadata(p, baseUrl), Overrides(p))
  }

  /** A page field the destructuring leaves over, set to `undefined`, erases the default it lands on. */
  lemma UndefinedOverrideErases(page: PageSeoData, baseUrl: string, k: string)
    requires k in page.rest && k !in ReadKeys && page.rest[k] == JUndefined
    ensures k in SeoMetadata(Some(page), baseUrl) && SeoMetadata(Some(page), baseUrl)[k] == JUndefined
  {
    assert k in Overrides(page);
  }

  /** The page keywords follow the site keywords, which always come first. */
  lemma KeywordsExtendSite(page: PageSeoData, baseUrl: string)
    ensures var k := DefaultsOf(page, baseUrl).keywords;
      |k| >= |SiteKeywords| && k[..|SiteKeywords|] == SiteKeywords
  {
  }

  /** A page without a slug is canonical at the site root. */
  lemma DefaultCanonicalIsRoot(page: PageSeoData, baseUrl: string)
    requires page.slug.None?
    ensures DefaultsOf(page, baseUrl).pageUrl == baseUrl + "/"
  {
  }

  /** A page without a title or slug carries the site title alone. */
  lemma DefaultTitleIsSiteTitle(baseUrl: string)
    ensures SeoMetadata(None, baseUrl)["title"] == JStr(SiteTitle)
    ensures SeoMetadata(None, baseUrl)["robots"] == JStr(Index)
  {
  }
}
