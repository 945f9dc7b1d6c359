// The studio's slug-validation hook: it runs the slug rules over the value being
// edited, adds the messages the form already reports for the slug field, and
// derives the two flags the slug field shows.

module SlugHook {
  import opened Text
  import opened SlugValidation

  /** One element of a form path: a field name, an array key or an index. */
  datatype PathSegment = Field(name: string) | Keyed(key: string) | Index(i: int)

  /** One entry of the form's validation status (an entry may be missing). */
  datatype Marker = Marker(path: seq<PathSegment>, message: Option<string>)

  /** The filter in `extractSanityValidationErrors`: a slug-field entry that carries a message. */
  predicate Selected(v: Option<Marker>) {
    v.Some? && (Field("current") in v.value.path || Field("slug") in v.value.path) && Truthy(v.value.message)
  }

  /** `extractSanityValidationErrors`. */
  function SanityErrors(validation: seq<Option<Marker>>, enabled: bool): (r: seq<string>)
    ensures !enabled ==> r == []
    ensures |r| <= |validation|
    ensures enabled ==> forall m :: m in r <==>
      exists k :: 0 <= k < |validation| && Selected(validation[k]) && validation[k].value.message == Some(m)
    ensures forall k :: 0 <= k < |r| ==> r[k] != ""
    decreases |validation|
  {
    if !enabled || |validation| == 0 then []
    else
      var init := validation[..|validation| - 1];
      var last := validation[|validation| - 1];
      var r := SanityErrors(init, enabled) + (if Selected(last) then [last.value.message.value] else []);
      assert forall k :: 0 <= k < |init| ==> init[k] == validation[k];
      r
  }

  /** The extracted messages keep the order of the entries they come from. */
  lemma {:induction false} SanityErrorsAppend(a: seq<Option<Marker>>, b: seq<Option<Marker>>)
    ensures SanityErrors(a + b, true) == SanityErrors(a, true) + SanityErrors(b, true)
    decreases |b|
  {
    if |b| == 0 {
      assert a + b == a;
    } else {
      var b' := b[..|b| - 1];
      assert (a + b)[..|a + b| - 1] == a + b';
      SanityErrorsAppend(a, b');
    }
  }

  /** `parseSlugSegments`. */
  function ParseSlugSegments(slug: Option<string>): (segs: seq<string>)
    ensures !Truthy(slug) ==> segs == []
    ensures forall k :: 0 <= k < |segs| ==> segs[k] != "" && '/' !in segs[k]
  {
    if !Truthy(slug) then [] else Segments(slug.value)
  }

  /** A path written `/a/b/c` parses back to exactly its segments. */
  lemma ParseSlugSegmentsOfPath(segs: seq<string>)
    requires |segs| >= 1
    requires forall k :: 0 <= k < |segs| ==> segs[k] != "" && '/' !in segs[k]
    ensures ParseSlugSegments(Some("/" + Join(segs, "/"))) == segs
  {
    SegmentsOfRootedJoin(segs);
  }

  /** `validateSegments`: each segment on its own, with no options. */
  function ValidateSegments(segs: seq<string>): (vs: seq<Validation>)
    ensures |vs| == |segs|
    ensures forall k :: 0 <= k < |segs| ==> vs[k] == ValidationOf(Some(segs[k]), NoOptions)
  {
    seq(|segs|, k requires 0 <= k < |segs| => ValidationOf(Some(segs[k]), NoOptions))
  }

  /** A segment checked on its own never gets a slash-structure error. */
  lemma SegmentValidationHasNoStructureErrors(slug: Option<string>, k: int)
    requires 0 <= k < |ParseSlugSegments(slug)|
    ensures var v := ValidateSegments(ParseSlugSegments(slug))[k];
      MissingLeadingSlash !in v.errors && TrailingSlash !in v.errors && MultipleSlashes !in v.errors
  {
    SingleSegmentSkipsStructure(ParseSlugSegments(slug)[k], NoOptions);
  }

  /** The configuration the hook validates with: the table entry of the document type, if any. */
  function DocumentConfig(providedType: Option<string>, formType: Option<string>): (c: Options)
    ensures Truthy(providedType) ==> c == DocumentTypeConfig(providedType.value)
    ensures !Truthy(providedType) && Truthy(formType) ==> c == DocumentTypeConfig(formType.value)
    ensures !Truthy(providedType) && !Truthy(formType) ==> c == NoOptions
  {
    var t := if Truthy(providedType) then providedType else formType;
    if Truthy(t) then DocumentTypeConfig(t.value) else NoOptions
  }

  /** The hook's own validation: an empty slug has no messages at all. */
  function UnifiedValidation(slug: Option<string>, config: Options): (r: Validation)
    ensures !Truthy(slug) ==> r == Validation([], [])
    ensures Truthy(slug) ==> r == ValidationOf(slug, config)
    ensures NoDuplicates(r.errors) && NoDuplicates(r.warnings)
  {
    if !Truthy(slug) then Validation([], []) else ValidationOf(slug, config)
  }

  /** Unlike `validateSlug`, the hook reports nothing for an empty slug. */
  lemma EmptySlugDiffers(config: Options)
    ensures UnifiedValidation(Some(""), config).errors == []
    ensures ValidationOf(Some(""), config).errors == [Required]
  {
    BlankSlugIsRequired(Some(""), config);
  }

  /** `xs.filter(x => !ex.has(x))`. */
  function Without(xs: seq<string>, ex: seq<string>): (r: seq<string>)
    ensures forall x :: x in r <==> x in xs && x !in ex
    ensures NoDuplicates(xs) ==> NoDuplicates(r)
    ensures |r| <= |xs|
  {
    if |xs| == 0 then []
    else
      var init := Without(xs[..|xs| - 1], ex);
      assert forall x :: x in xs <==> x in xs[..|xs| - 1] || x == xs[|xs| - 1];
      if xs[|xs| - 1] in ex then init else init + [xs[|xs| - 1]]
  }

  /** The combined result: errors then external errors, once each; warnings once each and not errors. */
  function Combined(validation: Validation, external: seq<string>): (r: Validation)
    ensures NoDuplicates(r.errors) && NoDuplicates(r.warnings)
    ensures forall e :: e in r.errors <==> e in validation.errors || e in external
    ensures forall w :: w in r.warnings <==> w in validation.warnings && w !in r.errors
    ensures |Dedup(validation.errors)| <= |r.errors|
    ensures r.errors[..|Dedup(validation.errors)|] == Dedup(validation.errors)
  {
    DedupPrefix(validation.errors, external);
    var errorSet := Dedup(validation.errors + external);
    Validation(errorSet, Without(Dedup(validation.warnings), errorSet))
  }

  /** Without external messages, a result that is already free of duplicates keeps its errors. */
  lemma CombinedWithoutExternal(validation: Validation)
    requires NoDuplicates(validation.errors)
    ensures Combined(validation, []).errors == validation.errors
  {
    assert validation.errors + [] == validation.errors;
    DedupOfDistinct(validation.errors);
  }

  /** `combinedValidation`: the arrays are filled by pushes, then deduplicated through sets. */
  method CombineValidation(validation: Validation, sanityValidationErrors: seq<string>) returns (r: Validation)
    ensures r == Combined(validation, sanityValidationErrors)
  {
    var allErrors: seq<string> := [];
    var allWarnings: seq<string> := [];
    allErrors := allErrors + validation.errors;
    allWarnings := allWarnings + validation.warnings;
    allErrors := allErrors + sanityValidationErrors;
    assert allWarnings == validation.warnings;
    assert allErrors == validation.errors + sanityValidationErrors;
    var errorSet := Dedup(allErrors);
    var uniqueWarnings := Without(Dedup(allWarnings), errorSet);
    r := Validation(errorSet, uniqueWarnings);
  }

  /** What `useSlugValidation` returns. */
  datatype HookResult = HookResult(
    validation: Validation,
    segmentValidations: seq<Validation>,
    pathValidation: Validation,
    documentTypeErrors: seq<string>,
    sanityValidationErrors: seq<string>,
    allErrors: seq<string>,
    allWarnings: seq<string>,
    hasValidationIssues: bool,
    hasCriticalErrors: bool)

  /**
   * `useSlugValidation`. The form supplies the document type (`formType`) and the
   * validation status of the document (`status`); `includeSanityValidation` defaults to true.
   */
  function UseSlugValidation(slug: Option<string>, documentType: Option<string>,
                             includeSanityValidation: Option<bool>,
                             formType: Option<string>, status: seq<Option<Marker>>): (r: HookResult)
    ensures r.hasCriticalErrors <==> r.allErrors != []
    ensures r.hasValidationIssues <==> r.allErrors != [] || r.allWarnings != []
    ensures r.allErrors == r.validation.errors && r.allWarnings == r.validation.warnings
    ensures r.documentTypeErrors == r.pathValidation.errors
    ensures r.pathValidation == UnifiedValidation(slug, DocumentConfig(documentType, formType))
    ensures r.validation == Combined(r.pathValidation, r.sanityValidationErrors)
    ensures r.sanityValidationErrors == SanityErrors(status, includeSanityValidation != Some(false))
    ensures r.segmentValidations == ValidateSegments(ParseSlugSegments(slug))
  {
    var enabled := if includeSanityValidation.Some? then includeSanityValidation.value else true;
    var config := DocumentConfig(documentType, formType);
    var sanityErrors := SanityErrors(status, enabled);
    var validation := UnifiedValidation(slug, config);
    var segmentValidations := ValidateSegments(ParseSlugSegments(slug));
    var combined := Combined(validation, sanityErrors);
    HookResult(combined, segmentValidations, validation, validation.errors, sanityErrors,
      combined.errors, combined.warnings,
      |combined.errors| > 0 || |combined.warnings| > 0, |combined.errors| > 0)
  }

  /** For an empty slug only the form's own messages remain. */
  lemma EmptySlugKeepsOnlyExternal(slug: Option<string>, documentType: Option<string>,
                                   includeSanityValidation: Option<bool>,
                                   formType: Option<string>, status: seq<Option<Marker>>)
    requires !Truthy(slug)
    ensures var r := UseSlugValidation(slug, documentType, includeSanityValidation, formType, status);
      r.allErrors == Dedup(r.sanityValidationErrors) && r.allWarnings == [] && r.segmentValidations == []
  {
    var r := UseSlugValidation(slug, documentType, includeSanityValidation, formType, status);
    assert [] + r.sanityValidationErrors == r.sanityValidationErrors;
  }

  /** What `useBasicSlugValidation` returns. */
  datatype BasicResult = BasicResult(errors: seq<string>, warnings: seq<string>, isValid: bool)

  /** `useBasicSlugValidation`: the form's messages are left out. */
  function UseBasicSlugValidation(slug: Option<string>, formType: Option<string>,
                                  status: seq<Option<Marker>>): (r: BasicResult)
    ensures r.isValid <==> r.errors == []
    ensures var v := UnifiedValidation(slug, DocumentConfig(None, formType));
      r.errors == v.errors && (forall w :: w in r.warnings <==> w in v.warnings && w !in v.errors)
    ensures !Truthy(slug) ==> r == BasicResult([], [], true)
  {
    var h := UseSlugValidation(slug, None, Some(false), formType, status);
    var v := UnifiedValidation(slug, DocumentConfig(None, formType));
    CombinedWithoutExternal(v);
    BasicResult(h.allErrors, h.allWarnings, !h.hasCriticalErrors)
  }
}
