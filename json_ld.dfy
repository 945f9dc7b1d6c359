// The structured-data objects the web app embeds: the plain text of rich text, and
// the FAQ page, Organization and Article objects, each as a record whose `None`
// properties are `undefined` and left out of the JSON; `stegaClean` is the identity
// on the data modelled.

module JsonLd {
  import opened Text
  import opened PortableText

  /** A span that contributes: of type `span`, with non-empty text. */
  predicate TextSpan(c: Span) {
    c.spanType == Some("span") && Truthy(c.text)
  }

  /** The texts of a block's contributing spans, concatenated with no separator. */
  function SpanTexts(children: seq<Span>): string
    decreases |children|
  {
    if |children| == 0 then ""
    else
      var last := children[|children| - 1];
      SpanTexts(children[..|children| - 1]) + (if TextSpan(last) then last.text.value else "")
  }

  /** A block that contributes: of type `block`, with an array of children. */
  predicate TextBlock(b: Block) {
    b.blockType == "block" && b.children.Some?
  }

  /** One string per contributing block, in order. */
  function BlockTexts(blocks: seq<Block>): (r: seq<string>)
    ensures |r| <= |blocks|
    decreases |blocks|
  {
    if |blocks| == 0 then []
    else
      var last := blocks[|blocks| - 1];
      BlockTexts(blocks[..|blocks| - 1]) + (if TextBlock(last) then [SpanTexts(last.children.value)] else [])
  }

  /** `extractPlainTextFromRichText`: a non-array input has no text. */
  function PlainText(richText: Option<seq<Block>>): (r: string)
    ensures richText.None? ==> r == ""
    ensures |r| > 0 ==> !IsWhitespace(r[0]) && !IsWhitespace(r[|r| - 1])
  {
    if richText.None? then ""
    else
      var joined := Join(BlockTexts(richText.value), " ");
      var t := TrimStart(joined);
      var r := TrimEnd(t);
      assert |r| > 0 ==> r[0] == t[0];
      r
  }

  /** Blocks of another type and blocks without children add nothing. */
  lemma PlainTextSkips(blocks: seq<Block>, b: Block)
    requires !TextBlock(b)
    ensures PlainText(Some(blocks + [b])) == PlainText(Some(blocks))
  {
    assert (blocks + [b])[..|blocks|] == blocks;
    assert BlockTexts(blocks + [b]) == BlockTexts(blocks);
  }

  /** Spans of another type and spans without text add nothing. */
  lemma SpanTextsSkips(children: seq<Span>, c: Span)
    requires !TextSpan(c)
    ensures SpanTexts(children + [c]) == SpanTexts(children)
  {
    assert (children + [c])[..|children|] == children;
  }

  /** Each further text block is separated from the text before it by one space. */
  lemma BlockTextsSeparated(blocks: seq<Block>, b: Block)
    requires TextBlock(b) && |BlockTexts(blocks)| >= 1
    ensures Join(BlockTexts(blocks + [b]), " ") == Join(BlockTexts(blocks), " ") + " " + SpanTexts(b.children.value)
  {
    assert (blocks + [b])[..|blocks|] == blocks;
    JoinAppend(BlockTexts(blocks), SpanTexts(b.children.value), " ");
  }

  /** A single block reads as its spans' texts run together, trimmed. */
  lemma PlainTextOfOneBlock(b: Block)
    requires TextBlock(b)
    ensures PlainText(Some([b])) == Trim(SpanTexts(b.children.value))
  {
    assert [b][..0] == [];
  }

  /** An FAQ entry: its title and rich-text answer may be missing. */
  datatype Faq = Faq(id: string, title: Option<string>, richText: Option<seq<Block>>)

  /** `faq?.title && faq?.richText`: an array, even an empty one, is truthy. */
  predicate ValidFaq(f: Option<Faq>) {
    f.Some? && Truthy(f.value.title) && f.value.richText.Some?
  }

  /** The valid entries, in order. */
  function ValidFaqs(faqs: seq<Option<Faq>>): (r: seq<Faq>)
    ensures |r| <= |faqs|
    ensures forall i :: 0 <= i < |r| ==> ValidFaq(Some(r[i]))
    ensures r == [] <==> forall k :: 0 <= k < |faqs| ==> !ValidFaq(faqs[k])
    decreases |faqs|
  {
    if |faqs| == 0 then []
    else
      var init := faqs[..|faqs| - 1];
      var last := faqs[|faqs| - 1];
      assert forall k :: 0 <= k < |init| ==> init[k] == faqs[k];
      ValidFaqs(init) + (if ValidFaq(last) then [last.value] else [])
  }

  /** A `Question` with its `Answer`; the `@type` tags are implied by the datatypes. */
  datatype QuestionLd = QuestionLd(name: string, answerText: string)

  /** A `FAQPage` object in the `https://schema.org` context. */
  datatype FaqPageLd = FaqPageLd(mainEntity: seq<QuestionLd>)

  function Question(f: Faq): QuestionLd {
    QuestionLd(if f.title.Some? then f.title.value else "", PlainText(f.richText))
  }

  function Questions(faqs: seq<Faq>): (r: seq<QuestionLd>)
    ensures |r| == |faqs|
    ensures forall i :: 0 <= i < |faqs| ==> r[i] == Question(faqs[i])
  {
    seq(|faqs|, i requires 0 <= i < |faqs| => Question(faqs[i]))
  }

  /** `FaqJsonLd`: nothing to render without at least one valid entry. */
  function FaqJsonLd(faqs: Option<seq<Option<Faq>>>): (r: Option<FaqPageLd>)
    ensures r.None? <==> faqs.None? || forall k :: 0 <= k < |faqs.value| ==> !ValidFaq(faqs.value[k])
    ensures r.Some? ==> r.value.mainEntity == Questions(ValidFaqs(faqs.value))
  {
    if faqs.None? || |faqs.value| == 0 then None
    else
      var valid := ValidFaqs(faqs.value);
      if |valid| == 0 then None
      else Some(FaqPageLd(Questions(valid)))
  }

  /** Each question is named by its entry's title and answered by the plain text of its rich text. */
  lemma FaqQuestionsFollowEntries(faqs: seq<Option<Faq>>, i: nat)
    requires i < |ValidFaqs(faqs)|
    ensures var f := ValidFaqs(faqs)[i];
      var q := FaqJsonLd(Some(faqs)).value.mainEntity[i];
      q.name == f.title.value && q.answerText == PlainText(f.richText)
  {
  }

  /** The entries the FAQ page keeps are exactly the valid ones, in input order. */
  lemma {:induction false} ValidFaqsAppend(a: seq<Option<Faq>>, b: seq<Option<Faq>>)
    ensures ValidFaqs(a + b) == ValidFaqs(a) + ValidFaqs(b)
    decreases |b|
  {
    if |b| == 0 {
      assert a + b == a;
    } else {
      assert (a + b)[..|a + b| - 1] == a + b[..|b| - 1];
      ValidFaqsAppend(a, b[..|b| - 1]);
    }
  }

  /** The site settings the objects read. */
  datatype Settings = Settings(
    siteTitle: Option<string>,
    siteDescription: Option<string>,
    logo: Option<string>,
    contactEmail: Option<string>,
    socialLinks: Option<seq<Option<string>>>)

  /** `Object.values(links).filter(Boolean)`. */
  function TruthyValues(xs: seq<Option<string>>): (r: seq<string>)
    ensures forall s :: s in r <==> s != "" && Some(s) in xs
    decreases |xs|
  {
    if |xs| == 0 then []
    else
      var init := xs[..|xs| - 1];
      var last := xs[|xs| - 1];
      assert forall x :: x in xs <==> x in init || x == last;
      TruthyValues(init) + (if Truthy(last) then [last.value] else [])
  }

  /** An `ImageObject`; an undefined `url` is left out. */
  datatype ImageObjectLd = ImageObjectLd(url: Option<string>)

  /** A `ContactPoint` of type `customer service`. */
  datatype ContactPointLd = ContactPointLd(email: string)

  /**
   * An `Organization` object in the `https://schema.org` context; a `None` property is
   * `undefined` and left out.
   */
  datatype OrganizationLd = OrganizationLd(
    name: Option<string>,
    description: Option<string>,
    url: string,
    logo: Option<ImageObjectLd>,
    contactPoint: Option<ContactPointLd>,
    sameAs: Option<seq<string>>)

  /** `x || undefined`. */
  function OrUndefined(s: Option<string>): (r: Option<string>)
    ensures r.Some? <==> Truthy(s)
    ensures r.Some? ==> r == s
  {
    if Truthy(s) then s else None
  }

  /** `OrganizationJsonLd`. */
  function OrganizationJsonLd(settings: Option<Settings>, baseUrl: string): (r: Option<OrganizationLd>)
    ensures r.None? <==> settings.None?
    ensures r.Some? ==> var s := settings.value;
      && r.value.url == baseUrl
      && r.value.name == s.siteTitle
      && r.value.description == OrUndefined(s.siteDescription)
      && (r.value.sameAs.Some? <==> s.socialLinks.Some? && TruthyValues(s.socialLinks.value) != [])
      && (r.value.sameAs.Some? ==> r.value.sameAs.value == TruthyValues(s.socialLinks.value))
      && (r.value.contactPoint.Some? <==> Truthy(s.contactEmail))
      && (r.value.contactPoint.Some? ==> r.value.contactPoint.value.email == s.contactEmail.value)
      && (r.value.logo.Some? <==> Truthy(s.logo))
      && (r.value.logo.Some? ==> r.value.logo.value.url == s.logo)
  {
    if settings.None? then None
    else
      var s := settings.value;
      var links := if s.socialLinks.Some? then Some(TruthyValues(s.socialLinks.value)) else None;
      Some(OrganizationLd(
        s.siteTitle,
        OrUndefined(s.siteDescription),
        baseUrl,
        if Truthy(s.logo) then Some(ImageObjectLd(s.logo)) else None,
        if Truthy(s.contactEmail) then Some(ContactPointLd(s.contactEmail.value)) else None,
        if links.Some? && |links.value| > 0 then links else None))
  }

  /** Every non-empty social link is listed. */
  lemma SameAsListsTruthyLinks(settings: Settings, baseUrl: string, link: string)
    requires settings.socialLinks.Some? && Some(link) in settings.socialLinks.value && link != ""
    ensures var r := OrganizationJsonLd(Some(settings), baseUrl).value;
      r.sameAs.Some? && link in r.sameAs.value
  {
  }

  datatype ImageRef = ImageRef(id: Option<string>)
  datatype Author = Author(name: Option<string>, image: Option<ImageRef>)
  datatype Article = Article(
    title: Option<string>,
    description: Option<string>,
    slug: Option<string>,
    image: Option<ImageRef>,
    authors: Option<Author>)

  /** `buildSafeImageUrl`, with `urlFor` the external image-URL builder applied to the image id. */
  function SafeImageUrl(image: Option<ImageRef>, urlFor: string -> string): (r: Option<string>)
    ensures r.Some? <==> image.Some? && Truthy(image.value.id)
    ensures r.Some? ==> r.value == urlFor(image.value.id.value)
  {
    if image.None? || !Truthy(image.value.id) then None else Some(urlFor(image.value.id.value))
  }

  /** A `Person`: the author's name, the site URL and the author's image. */
  datatype PersonLd = PersonLd(name: Option<string>, url: string, image: Option<ImageObjectLd>)

  /** The publishing `Organization`. */
  datatype PublisherLd = PublisherLd(name: string, logo: Option<ImageObjectLd>)

  /** An `Article` object without its two dates; `mainEntityOfPage` is the `@id` of a `WebPage`. */
  datatype ArticleLd = ArticleLd(
    headline: Option<string>,
    description: Option<string>,
    image: Option<seq<string>>,
    author: seq<PersonLd>,
    publisher: PublisherLd,
    url: string,
    mainEntityOfPage: string)

  /** `ArticleJsonLd` without its two dates. */
  function ArticleJsonLd(article: Option<Article>, settings: Option<Settings>, baseUrl: string,
                         urlFor: string -> string): (r: Option<ArticleLd>)
    ensures r.None? <==> article.None?
    ensures r.Some? ==> var a := article.value;
      && r.value.url == baseUrl + Show(a.slug)
      && r.value.mainEntityOfPage == r.value.url
      && (a.authors.None? <==> r.value.author == [])
      && |r.value.author| <= 1
      && (a.authors.Some? ==> r.value.author[0].name == a.authors.value.name && r.value.author[0].url == baseUrl)
      && (r.value.image.Some? <==> Truthy(SafeImageUrl(a.image, urlFor)))
      && (r.value.image.Some? ==> r.value.image.value == [SafeImageUrl(a.image, urlFor).value])
      && r.value.headline == a.title
      && r.value.description == OrUndefined(a.description)
      && (a.authors.Some? ==>
            r.value.author[0].image ==
              (if a.authors.value.image.Some? then Some(ImageObjectLd(SafeImageUrl(a.authors.value.image, urlFor))) else None))
      && r.value.publisher.name == OrElse(if settings.Some? then settings.value.siteTitle else None, "Website")
      && (r.value.publisher.logo.Some? <==> settings.Some? && Truthy(settings.value.logo))
      && (r.value.publisher.logo.Some? ==> r.value.publisher.logo.value.url == settings.value.logo)
  {
    if article.None? then None
    else
      var a := article.value;
      var articleUrl := baseUrl + Show(a.slug);
      var imageUrl := SafeImageUrl(a.image, urlFor);
      var siteTitle := if settings.Some? then settings.value.siteTitle else None;
      var logo := if settings.Some? then settings.value.logo else None;
      var author := if a.authors.Some? then
          var au := a.authors.value;
          [PersonLd(au.name, baseUrl, if au.image.Some? then Some(ImageObjectLd(SafeImageUrl(au.image, urlFor))) else None)]
        else [];
      Some(ArticleLd(
        a.title,
        OrUndefined(a.description),
        if Truthy(imageUrl) then Some([imageUrl.value]) else None,
        author,
        PublisherLd(OrElse(siteTitle, "Website"), if Truthy(logo) then Some(ImageObjectLd(logo)) else None),
        articleUrl,
        articleUrl))
  }
}
