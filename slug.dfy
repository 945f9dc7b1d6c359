// The studio's slug field: its defaults, the slugifier that prefixes a slug with
// the document type, and the uniqueness check over the other documents.

module SlugUtils {
  import opened Text
  import opened SanityIds
  import opened Json

  /** `getDocTypePrefix`: pages live at the root, every other type under its own name. */
  function DocTypePrefix(docType: string): (r: string)
    ensures docType == "page" <==> r == "" && docType != ""
    ensures docType != "page" ==> r == docType
  {
    if docType == "page" then "" else docType
  }

  /** `slugMapper`: the types whose slug is fixed. */
  function FixedSlug(docType: string): (r: Option<string>)
    ensures r.Some? <==> docType == "homePage" || docType == "blogIndex"
    ensures r.Some? ==> StartsWith(r.value, "/")
  {
    if docType == "homePage" then Some("/")
    else if docType == "blogIndex" then Some("/blog")
    else None
  }

  /**
   * `createSlug`, with `slugified` the result of the external slugifier on the title.
   * The fixed types ignore the title; the others join the non-empty members of
   * prefix and slug with `/` and put a `/` in front.
   */
  function CreateSlug(docType: string, slugified: string): (r: string)
    ensures StartsWith(r, "/")
    ensures docType == "homePage" ==> r == "/"
    ensures docType == "blogIndex" ==> r == "/blog"
    ensures FixedSlug(docType).None? ==> r == "/" + Join(NonEmpty([DocTypePrefix(docType), slugified]), "/")
  {
    if FixedSlug(docType).Some? then FixedSlug(docType).value
    else "/" + Join(NonEmpty([DocTypePrefix(docType), slugified]), "/")
  }

  /** A page slug is the slugified title directly under the root. */
  lemma CreateSlugPage(slugified: string)
    ensures CreateSlug("page", slugified) == "/" + slugified
  {
    assert [DocTypePrefix("page"), slugified] == [""] + [slugified];
    NonEmptyAppend([""], [slugified]);
    assert [""][1..] == [];
    if slugified != "" {
      assert NonEmpty([slugified]) == [slugified] by {
        assert [slugified][1..] == [];
      }
    }
  }

  /** Any other type puts its name first, and alone when the title slugifies to nothing. */
  lemma CreateSlugOther(docType: string, slugified: string)
    requires docType != "page" && docType != "" && FixedSlug(docType).None?
    ensures slugified != "" ==> CreateSlug(docType, slugified) == "/" + docType + "/" + slugified
    ensures slugified == "" ==> CreateSlug(docType, slugified) == "/" + docType
  {
    assert [docType, slugified] == [docType] + [slugified];
    NonEmptyAppend([docType], [slugified]);
    assert [docType][1..] == [] && [slugified][1..] == [];
    if slugified != "" {
      NonEmptyOfNonEmpty([docType, slugified]);
      assert Join([docType, slugified], "/") == docType + "/" + slugified by {
        assert [docType, slugified][1..] == [slugified];
      }
    }
  }

  /** A document as the uniqueness query sees it. */
  datatype SlugDoc = SlugDoc(id: string, slugCurrent: Option<string>)

  /** A document that is neither version of `docId` and already uses `slug`. */
  predicate Conflicts(d: SlugDoc, slug: string, docId: Option<string>) {
    var id := PublishedId(OrElseId(docId));
    d.id != DraftId(id) && d.id != id && d.slugCurrent == Some(slug)
  }

  /** `document?._id ?? ""`. */
  function OrElseId(docId: Option<string>): string {
    if docId.Some? then docId.value else ""
  }

  /** The query result: the conflicting documents, in order. */
  function ConflictingDocs(docs: seq<SlugDoc>, slug: string, docId: Option<string>): (r: seq<SlugDoc>)
    ensures forall d :: d in r <==> d in docs && Conflicts(d, slug, docId)
  {
    if |docs| == 0 then []
    else
      var rest := ConflictingDocs(docs[1..], slug, docId);
      assert forall d :: d in docs <==> d == docs[0] || d in docs[1..];
      if Conflicts(docs[0], slug, docId) then [docs[0]] + rest else rest
  }

  /** `isUnique`: no other document uses the slug. */
  function IsUnique(slug: string, docId: Option<string>, docs: seq<SlugDoc>): (r: bool)
    ensures r <==> forall k :: 0 <= k < |docs| ==> !Conflicts(docs[k], slug, docId)
  {
    var found := ConflictingDocs(docs, slug, docId);
    if |found| != 0 then
      assert found[0] in found;
      assert found[0] in docs;
      false
    else
      assert forall k :: 0 <= k < |docs| ==> docs[k] in docs;
      true
  }

  /** The draft and the published version of a document get the same answer. */
  lemma IsUniqueSameForDraft(slug: string, id: string, docs: seq<SlugDoc>)
    ensures IsUnique(slug, Some(DraftId(id)), docs) == IsUnique(slug, Some(id), docs)
  {
    DraftAndPublishedAgree(id);
  }

  /** The document's own versions never make its slug taken. */
  lemma IsUniqueIgnoresOwnVersions(slug: string, id: string, docs: seq<SlugDoc>, own: SlugDoc)
    requires own.id == PublishedId(id) || own.id == DraftId(PublishedId(id))
    ensures IsUnique(slug, Some(id), docs + [own]) == IsUnique(slug, Some(id), docs)
  {
    var all := docs + [own];
    assert forall k :: 0 <= k < |docs| ==> all[k] == docs[k];
    assert all[|docs|] == own;
  }

  /** How a slug field checks uniqueness: the built-in query or a check the caller supplies. */
  datatype UniqueCheck = IsUniqueDefault | CallerCheck(name: string)

  /** The slug options: the uniqueness check, and every other option (`source`, `slugify`, ...) by name. */
  datatype SlugOptions = SlugOptions(isUnique: Option<UniqueCheck>, others: map<string, Json>)

  /**
   * The arguments of `defineSlug`: the properties it reads, and every other property of the
   * schema (`description`, `group`, `validation`, `hidden`, ...) by name.
   */
  datatype SlugSchema = SlugSchema(name: Option<string>, title: Option<string>,
                                   components: Option<map<string, Json>>, options: Option<SlugOptions>,
                                   others: map<string, Json>)

  /** The field `defineSlug` declares. */
  datatype SlugField = SlugField(name: string, title: string, fieldType: string,
                                 components: map<string, Json>, options: SlugOptions, others: map<string, Json>)

  /** The properties `defineSlug` writes after spreading the schema. */
  const FieldKeys: set<string> := {"name", "title", "type", "components", "options"}

  const DefaultSchema: SlugSchema := SlugSchema(Some("slug"), None, None, None, map[])

  /** `defineSlug`; a missing schema stands for the default `{ name: "slug" }`. */
  function DefineSlug(schema: Option<SlugSchema>): (f: SlugField)
    ensures f.fieldType == "slug" && f.options.isUnique.Some?
    ensures var s := if schema.Some? then schema.value else DefaultSchema;
      && f.name == (if s.name.Some? then s.name.value else "slug")
      && f.title == (if s.title.Some? then s.title.value else "URL")
      && f.components == (if s.components.Some? then s.components.value else map[])
      && (s.options.Some? && s.options.value.isUnique.Some? ==> f.options.isUnique == s.options.value.isUnique)
      && (s.options.None? || s.options.value.isUnique.None? ==> f.options.isUnique == Some(IsUniqueDefault))
      && f.options.others == (if s.options.Some? then s.options.value.others else map[])
      && f.others.Keys == s.others.Keys - FieldKeys
      && (forall k :: k in f.others ==> f.others[k] == s.others[k])
  {
    var s := if schema.Some? then schema.value else DefaultSchema;
    var given := if s.options.Some? then s.options.value else SlugOptions(None, map[]);
    SlugField(
      if s.name.Some? then s.name.value else "slug",
      if s.title.Some? then s.title.value else "URL",
      "slug",
      if s.components.Some? then s.components.value else map[],
      given.(isUnique := Some(if given.isUnique.Some? then given.isUnique.value else IsUniqueDefault)),
      map k | k in s.others && k !in FieldKeys :: s.others[k])
  }

  /** With no arguments the field is `slug`, titled `URL`, checked by `isUnique`. */
  lemma DefineSlugDefaults()
    ensures DefineSlug(None) == SlugField("slug", "URL", "slug", map[], SlugOptions(Some(IsUniqueDefault), map[]), map[])
  {
    var f := DefineSlug(None);
    assert f.others == map[];
  }
}
