/**
 * The slug rules engine of the studio: per-document-type rule table, per-segment
 * format and length checks, path-structure checks, forbidden prefixes, custom
 * rules, the cleaner that turns free text into a slug, and slug generation from a
 * title.
 */
module SlugValidation {
  import opened Text

  // ---------------------------------------------------------------- messages

  const Required: string := "Slug is required."
  const InvalidCharacters: string := "Only lowercase letters, numbers, and hyphens are allowed."
  const InvalidStartEnd: string := "Slug can't start or end with a hyphen."
  const ConsecutiveHyphens: string := "Use only one hyphen between words."
  const NoSpaces: string := "No spaces. Use hyphens instead."
  const NoUnderscores: string := "Underscores aren't allowed. Use hyphens instead."
  const MultipleSlashes: string := "Multiple consecutive slashes (//) are not allowed."
  const MissingLeadingSlash: string := "URL path must start with a forward slash (/)"
  const TrailingSlash: string := "URL path must not end with a forward slash (/)"

  const MinSlugLength: nat := 3
  const MaxSlugLength: nat := 60
  const MinBlogSlugLength: nat := 3

  // The warning templates with the two length constants filled in.
  const TooShort: string := "Slug must be at least 3 characters long."
  const TooLong: string := "Slug can't be longer than 60 characters."
  const AlreadyExists: string := "This slug is already in use. Try another."

  const AuthorAdminMessage: string := "Author URLs cannot contain '/admin' path"
  const BlogPostShortMessage: string := "Blog post slug must be at least 3 characters"
  const BlogIndexMessage: string := "Blog index must be exactly '/blog'"
  const HomePageMessage: string := "Home page must be exactly '/'"
  const PageBlogMessage: string := "Pages cannot use \"/blog\" prefix - reserved for blog content"
  const PageAuthorMessage: string := "Pages cannot use \"/author\" prefix - reserved for authors"
  const PageAdminMessage: string := "Pages cannot use \"/admin\" prefix - reserved for admin"
  const PageApiMessage: string := "Pages cannot use \"/api\" prefix - reserved for API routes"

  // ---------------------------------------------------------------- rule table

  /**
   * The regular expressions of the rule table: `^<literal>` and `^<literal>.+`
   * (the `.` matching anything but a line terminator).
   */
  datatype Pattern = StartsWithLiteral(prefix: string) | StartsWithLiteralThenAny(prefix: string)

  predicate Matches(p: Pattern, s: string) {
    match p
    case StartsWithLiteral(q) => StartsWith(s, q)
    case StartsWithLiteralThenAny(q) => StartsWith(s, q) && |s| > |q| && !IsLineTerminator(s[|q|])
  }

  const BlogPrefixPattern: Pattern := StartsWithLiteral("/blog")
  const AuthorPrefixPattern: Pattern := StartsWithLiteral("/author")
  const BlogPostPattern: Pattern := StartsWithLiteralThenAny("/blog/")
  const AdminPattern: Pattern := StartsWithLiteral("/admin")
  const ApiPattern: Pattern := StartsWithLiteral("/api")

  /** The custom validators of the rule table, one tag per closure. */
  datatype CustomRule = AuthorNoAdmin | BlogPostMinLength | BlogIndexExact | HomePageExact | PageReservedPrefixes

  function RunRule(rule: CustomRule, slug: string): seq<string> {
    match rule
    case AuthorNoAdmin =>
      if Contains(slug, "/admin") then [AuthorAdminMessage] else []
    case BlogPostMinLength =>
      var segs := Segments(slug);
      if |segs| == 2 && Utf16Length(segs[1]) < MinBlogSlugLength then [BlogPostShortMessage] else []
    case BlogIndexExact =>
      if slug != "/blog" then [BlogIndexMessage] else []
    case HomePageExact =>
      if slug != "/" then [HomePageMessage] else []
    case PageReservedPrefixes =>
      (if StartsWith(slug, "/blog") then [PageBlogMessage] else [])
      + (if StartsWith(slug, "/author") then [PageAuthorMessage] else [])
      + (if StartsWith(slug, "/admin") then [PageAdminMessage] else [])
      + (if StartsWith(slug, "/api") then [PageApiMessage] else [])
  }

  /** Validation options; `None` is a property that is not set. */
  datatype Options = Options(
    documentType: Option<string>,
    requireSlash: Option<bool>,
    requiredPrefix: Option<string>,
    sanityDocumentType: Option<string>,
    segmentCount: Option<int>,
    forbiddenPatterns: Option<seq<Pattern>>,
    customValidators: Option<seq<CustomRule>>)

  const NoOptions: Options := Options(None, None, None, None, None, None, None)

  /** `{ sanityDocumentType: t }`. */
  function ForType(t: string): Options {
    NoOptions.(sanityDocumentType := Some(t))
  }

  const KnownTypes: set<string> := {"author", "blog", "blogIndex", "homePage", "page"}

  /** `getDocumentTypeConfig`: the table entry, or the default rules for any other type. */
  function DocumentTypeConfig(t: string): (c: Options)
    ensures c.sanityDocumentType == Some(t)
    ensures c.requireSlash == Some(true)
    ensures Truthy(c.documentType) && c.customValidators.Some?
    ensures t !in KnownTypes ==>
      c == Options(Some("Document"), Some(true), None, Some(t), None, Some([AdminPattern, ApiPattern]), Some([]))
  {
    if t == "author" then
      Options(Some("Author"), Some(true), Some("/author/"), Some("author"), Some(2),
        Some([BlogPrefixPattern]), Some([AuthorNoAdmin]))
    else if t == "blog" then
      Options(Some("Blog post"), Some(true), Some("/blog/"), Some("blog"), Some(2),
        Some([AuthorPrefixPattern, AdminPattern]), Some([BlogPostMinLength]))
    else if t == "blogIndex" then
      Options(Some("Blog index"), Some(true), Some("/blog"), Some("blogIndex"), Some(1),
        Some([BlogPostPattern]), Some([BlogIndexExact]))
    else if t == "homePage" then
      Options(Some("Home page"), Some(true), Some("/"), Some("homePage"), Some(0),
        None, Some([HomePageExact]))
    else if t == "page" then
      Options(Some("Page"), Some(true), None, Some("page"), None,
        Some([BlogPrefixPattern, AuthorPrefixPattern, AdminPattern, ApiPattern]), Some([PageReservedPrefixes]))
    else
      Options(Some("Document"), Some(true), None, Some(t), None, Some([AdminPattern, ApiPattern]), Some([]))
  }

  function Pick<T>(over: Option<T>, base: Option<T>): Option<T> {
    if over.Some? then over else base
  }

  /** `{ ...base, ...over }`. */
  function Merge(base: Options, over: Options): Options {
    Options(
      Pick(over.documentType, base.documentType),
      Pick(over.requireSlash, base.requireSlash),
      Pick(over.requiredPrefix, base.requiredPrefix),
      Pick(over.sanityDocumentType, base.sanityDocumentType),
      Pick(over.segmentCount, base.segmentCount),
      Pick(over.forbiddenPatterns, base.forbiddenPatterns),
      Pick(over.customValidators, base.customValidators))
  }

  /** The configuration `validateSlug` works with: the table entry overridden by the caller's options. */
  function EffectiveConfig(options: Options): (c: Options)
    ensures c.sanityDocumentType == options.sanityDocumentType
    ensures options.documentType.Some? ==> c.documentType == options.documentType
  {
    if Truthy(options.sanityDocumentType) then
      Merge(DocumentTypeConfig(options.sanityDocumentType.value), options)
    else options
  }

  /** Naming only the document type selects exactly that type's table entry. */
  lemma EffectiveConfigForType(t: string)
    requires t != ""
    ensures EffectiveConfig(ForType(t)) == DocumentTypeConfig(t)
  {
  }

  // ---------------------------------------------------------------- segments

  predicate IsSlugChar(c: char) {
    IsLowerAlpha(c) || IsDigit(c) || c == '-'
  }

  predicate AllSlugChars(s: string) {
    forall i :: 0 <= i < |s| ==> IsSlugChar(s[i])
  }

  /** `/^[a-z0-9-]+$/`. */
  predicate MatchesSlugRegex(s: string) {
    |s| > 0 && AllSlugChars(s)
  }

  /** The shape `cleanSlug` produces: slug characters only, no doubled or edge hyphen. */
  predicate IsCleanSlug(s: string) {
    AllSlugChars(s) && !HasAdjacentPair(s, '-') && (|s| > 0 ==> s[0] != '-' && s[|s| - 1] != '-')
  }

  datatype Validation = Validation(errors: seq<string>, warnings: seq<string>)

  /** `validateSlugRequired`. */
  function RequiredErrors(slug: string): seq<string> {
    if Trim(slug) == "" then [Required] else []
  }

  /** `validateSlugFormat`: one message per violated rule, in the order of the checks. */
  function FormatErrors(slug: string): seq<string> {
    (if !MatchesSlugRegex(slug) then [InvalidCharacters] else [])
    + (if Contains(slug, " ") then [NoSpaces] else [])
    + (if Contains(slug, "_") then [NoUnderscores] else [])
    + (if StartsWith(slug, "-") || EndsWith(slug, "-") then [InvalidStartEnd] else [])
    + (if Contains(slug, "--") then [ConsecutiveHyphens] else [])
  }

  /** `validateSlugLength`; the length is the string's UTF-16 length. */
  function LengthWarnings(slug: string): seq<string> {
    (if Utf16Length(slug) < MinSlugLength then [TooShort] else [])
    + (if Utf16Length(slug) > MaxSlugLength then [TooLong] else [])
  }

  /** `validateSlugSegment`: a blank segment only gets `Required`. */
  function SegmentValidation(slug: string): Validation {
    if RequiredErrors(slug) != [] then Validation(RequiredErrors(slug), [])
    else Validation(FormatErrors(slug), LengthWarnings(slug))
  }

  /** Each format rule contributes its own message exactly when it is violated. */
  lemma FormatErrorsIff(s: string)
    ensures InvalidCharacters in FormatErrors(s) <==> !MatchesSlugRegex(s)
    ensures NoSpaces in FormatErrors(s) <==> ' ' in s
    ensures NoUnderscores in FormatErrors(s) <==> '_' in s
    ensures InvalidStartEnd in FormatErrors(s) <==> (|s| > 0 && (s[0] == '-' || s[|s| - 1] == '-'))
    ensures ConsecutiveHyphens in FormatErrors(s) <==> HasAdjacentPair(s, '-')
  {
    FormatErrorsByTest(FormatErrors(s), s);
    FormatTestsMeaning(s);
  }

  /** What the substring and prefix tests of `validateSlugFormat` amount to. */
  lemma FormatTestsMeaning(s: string)
    ensures Contains(s, " ") <==> ' ' in s
    ensures Contains(s, "_") <==> '_' in s
    ensures Contains(s, "--") <==> HasAdjacentPair(s, '-')
    ensures StartsWith(s, "-") || EndsWith(s, "-") <==> |s| > 0 && (s[0] == '-' || s[|s| - 1] == '-')
  {
    ContainsCharIff(s, ' ');
    ContainsCharIff(s, '_');
    ContainsPairIff(s, '-');
    assert Contains(s, "--") == Contains(s, ['-', '-']);
    assert StartsWith(s, "-") <==> |s| > 0 && s[0] == '-';
    assert EndsWith(s, "-") <==> |s| > 0 && s[|s| - 1] == '-' by {
      if |s| > 0 {
        assert s[|s| - 1..] == [s[|s| - 1]];
      }
    }
  }

  /** Each format message is present exactly when its own test in `validateSlugFormat` fires. */
  lemma FormatErrorsByTest(errors: seq<string>, s: string)
    requires errors == FormatErrors(s)
    ensures InvalidCharacters in errors <==> !MatchesSlugRegex(s)
    ensures NoSpaces in errors <==> Contains(s, " ")
    ensures NoUnderscores in errors <==> Contains(s, "_")
    ensures InvalidStartEnd in errors <==> StartsWith(s, "-") || EndsWith(s, "-")
    ensures ConsecutiveHyphens in errors <==> Contains(s, "--")
  {
    FlaggedFormatMessages(!MatchesSlugRegex(s), Contains(s, " "), Contains(s, "_"),
      StartsWith(s, "-") || EndsWith(s, "-"), Contains(s, "--"));
  }

  lemma FlaggedFormatMessages(invalid: bool, space: bool, underscore: bool, edge: bool, double: bool)
    ensures var errors := (if invalid then [InvalidCharacters] else [])
      + (if space then [NoSpaces] else [])
      + (if underscore then [NoUnderscores] else [])
      + (if edge then [InvalidStartEnd] else [])
      + (if double then [ConsecutiveHyphens] else []);
      (InvalidCharacters in errors <==> invalid) && (NoSpaces in errors <==> space)
      && (NoUnderscores in errors <==> underscore) && (InvalidStartEnd in errors <==> edge)
      && (ConsecutiveHyphens in errors <==> double)
  {
    FormatMessagesDistinct();
  }

  lemma FormatMessagesDistinct()
    ensures InvalidCharacters != NoSpaces && InvalidCharacters != NoUnderscores
    ensures InvalidCharacters != InvalidStartEnd && InvalidCharacters != ConsecutiveHyphens
    ensures NoSpaces != NoUnderscores && NoSpaces != InvalidStartEnd && NoSpaces != ConsecutiveHyphens
    ensures NoUnderscores != InvalidStartEnd && NoUnderscores != ConsecutiveHyphens
    ensures InvalidStartEnd != ConsecutiveHyphens
  {
    assert |InvalidCharacters| == 57 && |NoSpaces| == 31 && |NoUnderscores| == 48;
    assert |InvalidStartEnd| == 38 && |ConsecutiveHyphens| == 34;
  }

  /** The format messages are distinct, so no rule is reported twice. */
  lemma FormatErrorsDistinct(s: string)
    ensures NoDuplicates(FormatErrors(s))
  {
    FormatMessagesDistinct();
  }

  /** A segment has no format error exactly when it is a non-empty clean slug. */
  lemma FormatErrorsEmptyIff(s: string)
    ensures FormatErrors(s) == [] <==> (s != "" && IsCleanSlug(s))
  {
    FormatErrorsIff(s);
    if s != "" && IsCleanSlug(s) {
      assert ' ' !in s && '_' !in s by {
        forall i | 0 <= i < |s| ensures s[i] != ' ' && s[i] != '_' {
          assert IsSlugChar(s[i]);
        }
      }
    }
    if FormatErrors(s) == [] {
      assert InvalidCharacters !in FormatErrors(s);
      assert InvalidStartEnd !in FormatErrors(s);
      assert ConsecutiveHyphens !in FormatErrors(s);
    }
  }

  lemma LengthMessagesDistinct()
    ensures TooShort != TooLong
  {
    assert TooShort[5] != TooLong[5];
  }

  /** A segment is warned as too short exactly when it is non-blank and under 3 code units. */
  lemma TooShortIff(s: string)
    ensures TooShort in SegmentValidation(s).warnings <==> !AllWhitespace(s) && Utf16Length(s) < MinSlugLength
  {
    TrimEmptyIff(s);
    SegmentWarningsCases(SegmentValidation(s).warnings, s);
  }

  /** A segment is warned as too long exactly when it is non-blank and over 60 code units. */
  lemma TooLongIff(s: string)
    ensures TooLong in SegmentValidation(s).warnings <==> !AllWhitespace(s) && Utf16Length(s) > MaxSlugLength
  {
    TrimEmptyIff(s);
    SegmentWarningsCases(SegmentValidation(s).warnings, s);
  }

  /** The length warnings are the only warnings a segment gets. */
  lemma SegmentWarningsAreLength(s: string)
    ensures forall w :: w in SegmentValidation(s).warnings ==> w == TooShort || w == TooLong
  {
    SegmentWarningsCases(SegmentValidation(s).warnings, s);
  }

  lemma SegmentWarningsCases(ws: seq<string>, s: string)
    requires ws == SegmentValidation(s).warnings
    ensures Trim(s) == "" ==> ws == []
    ensures Trim(s) != "" ==> ws == LengthWarnings(s)
    ensures forall w :: w in ws ==> w == TooShort || w == TooLong
  {
    if Trim(s) != "" {
      LengthWarningsCases(ws, s);
    }
  }

  lemma LengthWarningsCases(ws: seq<string>, s: string)
    requires ws == LengthWarnings(s)
    ensures TooShort in ws <==> Utf16Length(s) < MinSlugLength
    ensures TooLong in ws <==> Utf16Length(s) > MaxSlugLength
    ensures forall w :: w in ws ==> w == TooShort || w == TooLong
  {
    LengthMessagesDistinct();
  }

  /** A blank segment gets the `Required` error and nothing else. */
  lemma BlankSegmentIsRequired(s: string)
    requires AllWhitespace(s)
    ensures SegmentValidation(s) == Validation([Required], [])
  {
    TrimEmptyIff(s);
  }

  // ---------------------------------------------------------------- whole paths

  function SegmentCountMessage(documentType: Option<string>, count: int): string {
    Show(documentType) + " URLs must have " + IntToString(count) + " segments"
  }

  /** `validatePathStructure`. */
  function StructureErrors(slug: string, c: Options): seq<string> {
    var segs := Segments(slug);
    (if c.segmentCount.Some? && |segs| != c.segmentCount.value
     then [SegmentCountMessage(c.documentType, c.segmentCount.value)]
     else [])
    + (if c.requireSlash == Some(true) && !StartsWith(slug, "/") then [MissingLeadingSlash] else [])
    + (if c.sanityDocumentType != Some("homePage") && EndsWith(slug, "/") then [TrailingSlash] else [])
    + (if Contains(slug, "//") then [MultipleSlashes] else [])
  }

  function PrefixMessage(documentType: string, prefix: string): string {
    documentType + " URLs must start with \"" + prefix + "\""
  }

  /** `validateRequiredPrefix`. */
  function RequiredPrefixErrors(slug: string, c: Options): seq<string> {
    if Truthy(c.requiredPrefix) && Truthy(c.documentType) && !StartsWith(slug, c.requiredPrefix.value)
    then [PrefixMessage(c.documentType.value, c.requiredPrefix.value)]
    else []
  }

  function ForbiddenMessage(c: Options): string {
    "URL pattern not allowed for " + OrElse(c.documentType, "this document type")
  }

  /** One message per pattern of `patterns` that matches `slug`. */
  function ForbiddenLoop(slug: string, patterns: seq<Pattern>, message: string): (r: seq<string>)
    ensures forall e :: e in r ==> e == message
    ensures r != [] <==> exists k :: 0 <= k < |patterns| && Matches(patterns[k], slug)
  {
    if |patterns| == 0 then []
    else
      var init := patterns[..|patterns| - 1];
      var r := ForbiddenLoop(slug, init, message)
               + (if Matches(patterns[|patterns| - 1], slug) then [message] else []);
      assert forall k :: 0 <= k < |init| ==> init[k] == patterns[k];
      r
  }

  /** `validateForbiddenPatterns`, as a value. */
  function ForbiddenErrors(slug: string, c: Options): seq<string> {
    if c.forbiddenPatterns.Some? then ForbiddenLoop(slug, c.forbiddenPatterns.value, ForbiddenMessage(c))
    else []
  }

  /** The messages of `rules` run on `slug`, concatenated in order. */
  function CustomLoop(slug: string, rules: seq<CustomRule>): (r: seq<string>)
    ensures forall e :: e in r <==> exists k :: 0 <= k < |rules| && e in RunRule(rules[k], slug)
  {
    if |rules| == 0 then []
    else
      var init := rules[..|rules| - 1];
      var prev := CustomLoop(slug, init);
      var tail := RunRule(rules[|rules| - 1], slug);
      CustomLoopSnoc(slug, rules, init, prev, tail);
      prev + tail
  }

  lemma CustomLoopSnoc(slug: string, rules: seq<CustomRule>, init: seq<CustomRule>, prev: seq<string>, tail: seq<string>)
    requires |rules| > 0 && init == rules[..|rules| - 1] && tail == RunRule(rules[|rules| - 1], slug)
    requires forall e :: e in prev <==> exists k :: 0 <= k < |init| && e in RunRule(init[k], slug)
    ensures forall e :: e in prev + tail <==> exists k :: 0 <= k < |rules| && e in RunRule(rules[k], slug)
  {
    assert forall k :: 0 <= k < |init| ==> init[k] == rules[k];
  }

  /** `validateCustomRules`, as a value. */
  function CustomErrors(slug: string, c: Options): seq<string> {
    if c.customValidators.Some? then CustomLoop(slug, c.customValidators.value) else []
  }

  /** The per-segment results of `segs`, in order. */
  function SegmentValidations(segs: seq<string>): (vs: seq<Validation>)
    ensures |vs| == |segs|
    ensures forall k :: 0 <= k < |segs| ==> vs[k] == SegmentValidation(segs[k])
  {
    seq(|segs|, k requires 0 <= k < |segs| => SegmentValidation(segs[k]))
  }

  /** The errors of `vs`, concatenated in order. */
  function ErrorsOf(vs: seq<Validation>): seq<string> {
    if |vs| == 0 then [] else ErrorsOf(vs[..|vs| - 1]) + vs[|vs| - 1].errors
  }

  /** The warnings of `vs`, concatenated in order. */
  function WarningsOf(vs: seq<Validation>): seq<string> {
    if |vs| == 0 then [] else WarningsOf(vs[..|vs| - 1]) + vs[|vs| - 1].warnings
  }

  lemma {:induction false} InErrorsOf(vs: seq<Validation>, e: string)
    ensures e in ErrorsOf(vs) <==> exists k :: 0 <= k < |vs| && e in vs[k].errors
  {
    if |vs| > 0 {
      var init := vs[..|vs| - 1];
      InErrorsOf(init, e);
      assert forall k :: 0 <= k < |init| ==> init[k] == vs[k];
    }
  }

  lemma {:induction false} InWarningsOf(vs: seq<Validation>, w: string)
    ensures w in WarningsOf(vs) <==> exists k :: 0 <= k < |vs| && w in vs[k].warnings
  {
    if |vs| > 0 {
      var init := vs[..|vs| - 1];
      InWarningsOf(init, w);
      assert forall k :: 0 <= k < |init| ==> init[k] == vs[k];
    }
  }

  /** The segments `validateSlug` checks one by one: the whole slug when it has no `/`. */
  function CheckedSegments(slug: string): seq<string> {
    if '/' in slug then Segments(slug) else [slug]
  }

  /** Every error `validateSlug` collects, before duplicates are dropped. */
  function AllErrors(slug: string, c: Options): seq<string> {
    if '/' in slug then
      StructureErrors(slug, c) + RequiredPrefixErrors(slug, c) + ForbiddenErrors(slug, c)
      + CustomErrors(slug, c) + ErrorsOf(SegmentValidations(Segments(slug)))
    else
      SegmentValidation(slug).errors + CustomErrors(slug, c)
  }

  function AllWarnings(slug: string, c: Options): seq<string> {
    WarningsOf(SegmentValidations(CheckedSegments(slug)))
  }

  /** The result of `validateSlug(slug, options)`. */
  function ValidationOf(slug: Option<string>, options: Options): (r: Validation)
    ensures NoDuplicates(r.errors) && NoDuplicates(r.warnings)
    ensures slug.Some? && slug.value != "" ==>
      (forall e :: e in r.errors <==> e in AllErrors(slug.value, EffectiveConfig(options)))
      && (forall w :: w in r.warnings <==> w in AllWarnings(slug.value, EffectiveConfig(options)))
  {
    if slug.None? || slug.value == "" then Validation([Required], [])
    else
      var c := EffectiveConfig(options);
      Validation(Dedup(AllErrors(slug.value, c)), Dedup(AllWarnings(slug.value, c)))
  }

  /** `validateForbiddenPatterns`. */
  method ValidateForbiddenPatterns(slug: string, c: Options) returns (errors: seq<string>)
    ensures errors == ForbiddenErrors(slug, c)
  {
    errors := [];
    if c.forbiddenPatterns.Some? {
      var patterns := c.forbiddenPatterns.value;
      var message := ForbiddenMessage(c);
      for k := 0 to |patterns|
        invariant errors == ForbiddenLoop(slug, patterns[..k], message)
      {
        assert patterns[..k + 1][..k] == patterns[..k];
        if Matches(patterns[k], slug) {
          errors := errors + [message];
        }
      }
      assert patterns[..|patterns|] == patterns;
    }
  }

  /** `validateCustomRules`. */
  method ValidateCustomRules(slug: string, c: Options) returns (errors: seq<string>)
    ensures errors == CustomErrors(slug, c)
  {
    errors := [];
    if c.customValidators.Some? {
      var rules := c.customValidators.value;
      for k := 0 to |rules|
        invariant errors == CustomLoop(slug, rules[..k])
      {
        assert rules[..k + 1][..k] == rules[..k];
        errors := errors + RunRule(rules[k], slug);
      }
      assert rules[..|rules|] == rules;
    }
  }

  /** `validateSlug`. */
  /** The loop over the segments of a slug with a `/`: each segment's messages, appended in order. */
  method CollectSegmentMessages(segments: seq<string>) returns (errors: seq<string>, warnings: seq<string>)
    ensures errors == ErrorsOf(SegmentValidations(segments))
    ensures warnings == WarningsOf(SegmentValidations(segments))
  {
    errors := [];
    warnings := [];
    ghost var vs := SegmentValidations(segments);
    for k := 0 to |segments|
      invariant errors == ErrorsOf(vs[..k])
      invariant warnings == WarningsOf(vs[..k])
    {
      var v := SegmentValidation(segments[k]);
      MessagesSnoc(vs, k);
      errors := errors + v.errors;
      warnings := warnings + v.warnings;
    }
    assert vs[..|segments|] == vs;
  }

  lemma MessagesSnoc(vs: seq<Validation>, k: nat)
    requires k < |vs|
    ensures ErrorsOf(vs[..k + 1]) == ErrorsOf(vs[..k]) + vs[k].errors
    ensures WarningsOf(vs[..k + 1]) == WarningsOf(vs[..k]) + vs[k].warnings
  {
    assert vs[..k + 1][..k] == vs[..k];
  }

  method ValidateSlug(slug: Option<string>, options: Options) returns (r: Validation)
    ensures r == ValidationOf(slug, options)
  {
    if slug.None? || slug.value == "" {
      return Validation([Required], []);
    }
    var s := slug.value;
    var config := EffectiveConfig(options);
    var allErrors: seq<string> := [];
    var allWarnings: seq<string> := [];
    if '/' in s {
      allErrors := StructureErrors(s, config);
      allErrors := allErrors + RequiredPrefixErrors(s, config);
      var forbidden := ValidateForbiddenPatterns(s, config);
      allErrors := allErrors + forbidden;
      var custom := ValidateCustomRules(s, config);
      allErrors := allErrors + custom;
      var segmentErrors, segmentWarnings := CollectSegmentMessages(Segments(s));
      allErrors := allErrors + segmentErrors;
      allWarnings := segmentWarnings;
      assert allErrors == AllErrors(s, config);
    } else {
      var v := SegmentValidation(s);
      allErrors := v.errors;
      allWarnings := v.warnings;
      var custom := ValidateCustomRules(s, config);
      allErrors := allErrors + custom;
      assert CheckedSegments(s) == [s];
      assert SegmentValidations([s]) == [v];
      assert [v][..0] == [];
      assert WarningsOf([v]) == WarningsOf([]) + v.warnings;
      assert AllWarnings(s, config) == allWarnings;
      assert AllErrors(s, config) == allErrors;
    }
    r := Validation(Dedup(allErrors), Dedup(allWarnings));
  }

  // ---------------------------------------------------------------- properties of validateSlug

  /** A missing or empty slug yields exactly the `Required` error. */
  lemma BlankSlugIsRequired(slug: Option<string>, options: Options)
    requires slug.None? || slug.value == ""
    ensures ValidationOf(slug, options) == Validation([Required], [])
  {
  }

  /** Over a list of segments, every warning is a length warning. */
  lemma SegmentListWarningsAreLength(segs: seq<string>)
    ensures forall w :: w in WarningsOf(SegmentValidations(segs)) ==> w == TooShort || w == TooLong
  {
    var vs := SegmentValidations(segs);
    forall w | w in WarningsOf(vs) ensures w == TooShort || w == TooLong {
      InWarningsOf(vs, w);
      var k :| 0 <= k < |vs| && w in vs[k].warnings;
      SegmentWarningsAreLength(segs[k]);
    }
  }

  /** Over a list of segments, `TooShort` appears exactly when some non-blank segment is under 3 code units. */
  lemma SegmentListTooShort(segs: seq<string>)
    ensures TooShort in WarningsOf(SegmentValidations(segs)) <==>
      exists k :: 0 <= k < |segs| && !AllWhitespace(segs[k]) && Utf16Length(segs[k]) < MinSlugLength
  {
    var vs := SegmentValidations(segs);
    InWarningsOf(vs, TooShort);
    forall k | 0 <= k < |segs|
      ensures TooShort in vs[k].warnings <==> !AllWhitespace(segs[k]) && Utf16Length(segs[k]) < MinSlugLength
    {
      TooShortIff(segs[k]);
    }
  }

  /** Over a list of segments, `TooLong` appears exactly when some non-blank segment is over 60 code units. */
  lemma SegmentListTooLong(segs: seq<string>)
    ensures TooLong in WarningsOf(SegmentValidations(segs)) <==>
      exists k :: 0 <= k < |segs| && !AllWhitespace(segs[k]) && Utf16Length(segs[k]) > MaxSlugLength
  {
    var vs := SegmentValidations(segs);
    InWarningsOf(vs, TooLong);
    forall k | 0 <= k < |segs|
      ensures TooLong in vs[k].warnings <==> !AllWhitespace(segs[k]) && Utf16Length(segs[k]) > MaxSlugLength
    {
      TooLongIff(segs[k]);
    }
  }

  /**
   * The only warnings `validateSlug` emits are the per-segment length warnings,
   * each exactly when one of the checked segments earns it.
   */
  lemma WarningsAreLengthWarnings(slug: string, options: Options)
    requires slug != ""
    ensures forall w :: w in ValidationOf(Some(slug), options).warnings ==> w == TooShort || w == TooLong
    ensures TooShort in ValidationOf(Some(slug), options).warnings <==>
      exists k :: 0 <= k < |CheckedSegments(slug)| && !AllWhitespace(CheckedSegments(slug)[k])
        && Utf16Length(CheckedSegments(slug)[k]) < MinSlugLength
    ensures TooLong in ValidationOf(Some(slug), options).warnings <==>
      exists k :: 0 <= k < |CheckedSegments(slug)| && !AllWhitespace(CheckedSegments(slug)[k])
        && Utf16Length(CheckedSegments(slug)[k]) > MaxSlugLength
  {
    SegmentListWarningsAreLength(CheckedSegments(slug));
    SegmentListTooShort(CheckedSegments(slug));
    SegmentListTooLong(CheckedSegments(slug));
  }

  /** A message that only the structure check can produce. */
  predicate IsStructureMessage(m: string) {
    m == MissingLeadingSlash || m == TrailingSlash || m == MultipleSlashes
  }

  lemma StructureMessageNotCustom(m: string, rule: CustomRule, slug: string)
    requires IsStructureMessage(m)
    ensures m !in RunRule(rule, slug)
  {
  }

  lemma StructureMessageNotSegment(m: string, seg: string)
    requires IsStructureMessage(m)
    ensures m !in SegmentValidation(seg).errors
  {
    SegmentErrorsAmong(seg);
  }

  /** A segment's errors are the required message and the five format messages, none as long as a structure message. */
  lemma SegmentErrorsAmong(seg: string)
    ensures forall e :: e in SegmentValidation(seg).errors ==> |e| != 44 && |e| != 46 && |e| != 50
  {
    var errors := SegmentValidation(seg).errors;
    if RequiredErrors(seg) == [] {
      assert errors == FormatErrors(seg);
      FormatErrorLengths(errors, seg);
    } else {
      assert errors == [Required];
    }
  }

  lemma FormatErrorLengths(errors: seq<string>, seg: string)
    requires errors == FormatErrors(seg)
    ensures forall e :: e in errors ==> |e| != 44 && |e| != 46 && |e| != 50
  {
  }

  lemma StructureMessageShape(m: string)
    requires IsStructureMessage(m)
    ensures |m| > 8 && (m[|m| - 1] == '.' || m[|m| - 1] == ')')
    ensures m[7] != 't'
  {
    if m == MultipleSlashes {
      assert m[7] == 'e';
    } else {
      assert m[7] == 'h';
    }
  }

  /** No message assembled from the options coincides with a structure message. */
  lemma StructureMessageNotDynamic(m: string, c: Options)
    requires IsStructureMessage(m)
    ensures m != ForbiddenMessage(c)
    ensures c.segmentCount.Some? ==> m != SegmentCountMessage(c.documentType, c.segmentCount.value)
    ensures Truthy(c.requiredPrefix) && Truthy(c.documentType) ==>
      m != PrefixMessage(c.documentType.value, c.requiredPrefix.value)
  {
    StructureMessageShape(m);
    var fm := ForbiddenMessage(c);
    assert fm[7] == 't';
    if c.segmentCount.Some? {
      var sm := SegmentCountMessage(c.documentType, c.segmentCount.value);
      assert sm[|sm| - 1] == 's';
    }
    if Truthy(c.requiredPrefix) && Truthy(c.documentType) {
      var pm := PrefixMessage(c.documentType.value, c.requiredPrefix.value);
      assert pm[|pm| - 1] == '"';
    }
  }

  /** The structure check, message by message; the three fixed messages differ in length. */
  lemma StructureErrorsParts(slug: string, c: Options)
    ensures var segs := Segments(slug);
      StructureErrors(slug, c) ==
        (if c.segmentCount.Some? && |segs| != c.segmentCount.value
         then [SegmentCountMessage(c.documentType, c.segmentCount.value)] else [])
        + (if c.requireSlash == Some(true) && !StartsWith(slug, "/") then [MissingLeadingSlash] else [])
        + (if c.sanityDocumentType != Some("homePage") && EndsWith(slug, "/") then [TrailingSlash] else [])
        + (if Contains(slug, "//") then [MultipleSlashes] else [])
    ensures |MissingLeadingSlash| == 44 && |TrailingSlash| == 46 && |MultipleSlashes| == 50
  {
  }

  /** Each fixed structure message is in the structure errors exactly when its own test fires. */
  lemma StructureMessagesSeparate(slug: string, c: Options)
    ensures MissingLeadingSlash in StructureErrors(slug, c) <==>
      c.requireSlash == Some(true) && !StartsWith(slug, "/")
    ensures TrailingSlash in StructureErrors(slug, c) <==>
      c.sanityDocumentType != Some("homePage") && EndsWith(slug, "/")
    ensures MultipleSlashes in StructureErrors(slug, c) <==> Contains(slug, "//")
  {
    StructureMessageNotDynamic(MissingLeadingSlash, c);
    StructureMessageNotDynamic(TrailingSlash, c);
    StructureMessageNotDynamic(MultipleSlashes, c);
    StructureErrorsParts(slug, c);
    var segs := Segments(slug);
    var count := if c.segmentCount.Some? && |segs| != c.segmentCount.value
      then [SegmentCountMessage(c.documentType, c.segmentCount.value)] else [];
    FlaggedStructureMessages(count, c.requireSlash == Some(true) && !StartsWith(slug, "/"),
      c.sanityDocumentType != Some("homePage") && EndsWith(slug, "/"), Contains(slug, "//"));
  }

  lemma FlaggedStructureMessages(count: seq<string>, a: bool, b: bool, d: bool)
    requires MissingLeadingSlash !in count && TrailingSlash !in count && MultipleSlashes !in count
    ensures var r := count + (if a then [MissingLeadingSlash] else []) + (if b then [TrailingSlash] else [])
        + (if d then [MultipleSlashes] else []);
      && (MissingLeadingSlash in r <==> a) && (TrailingSlash in r <==> b) && (MultipleSlashes in r <==> d)
  {
    assert |MissingLeadingSlash| == 44 && |TrailingSlash| == 46 && |MultipleSlashes| == 50;
  }

  lemma MissingLeadingSlashInStructure(slug: string, c: Options)
    ensures MissingLeadingSlash in StructureErrors(slug, c) <==>
      c.requireSlash == Some(true) && !StartsWith(slug, "/")
  {
    StructureMessagesSeparate(slug, c);
  }

  lemma TrailingSlashInStructure(slug: string, c: Options)
    ensures TrailingSlash in StructureErrors(slug, c) <==>
      c.sanityDocumentType != Some("homePage") && EndsWith(slug, "/")
  {
    StructureMessagesSeparate(slug, c);
  }

  lemma MultipleSlashesInStructure(slug: string, c: Options)
    ensures MultipleSlashes in StructureErrors(slug, c) <==> Contains(slug, "//")
  {
    StructureMessagesSeparate(slug, c);
  }

  /** The structure messages come from the structure check and nowhere else. */
  lemma StructureMessageOrigin(m: string, slug: string, c: Options)
    requires IsStructureMessage(m)
    ensures m in AllErrors(slug, c) <==> '/' in slug && m in StructureErrors(slug, c)
  {
    StructureMessageNotDynamic(m, c);
    var fm := ForbiddenMessage(c);
    if c.forbiddenPatterns.Some? {
      assert m !in ForbiddenLoop(slug, c.forbiddenPatterns.value, fm);
    }
    assert m !in ForbiddenErrors(slug, c);
    assert m !in RequiredPrefixErrors(slug, c);
    forall rule: CustomRule ensures m !in RunRule(rule, slug) {
      StructureMessageNotCustom(m, rule, slug);
    }
    assert m !in CustomErrors(slug, c);
    var segs := Segments(slug);
    var vs := SegmentValidations(segs);
    forall k | 0 <= k < |segs| ensures m !in vs[k].errors {
      StructureMessageNotSegment(m, segs[k]);
    }
    InErrorsOf(vs, m);
    StructureMessageNotSegment(m, slug);
  }

  lemma SlashContainsSlash(s: string)
    requires Contains(s, "//") || EndsWith(s, "/")
    ensures '/' in s
    decreases |s|
  {
    if EndsWith(s, "/") {
      assert s[|s| - 1] == '/';
    } else if StartsWith(s, "//") {
      assert s[0] == '/';
    } else {
      SlashContainsSlash(s[1..]);
    }
  }

  /** `ValidationOf` holds a message exactly when the collected errors do. */
  lemma ErrorMembership(slug: string, options: Options, m: string)
    requires slug != ""
    ensures m in ValidationOf(Some(slug), options).errors <==> m in AllErrors(slug, EffectiveConfig(options))
  {
  }

  /** `//` anywhere in the slug is reported, and only then. */
  lemma MultipleSlashesIff(slug: string, options: Options)
    requires slug != ""
    ensures MultipleSlashes in ValidationOf(Some(slug), options).errors <==> Contains(slug, "//")
  {
    var c := EffectiveConfig(options);
    ErrorMembership(slug, options, MultipleSlashes);
    StructureMessageOrigin(MultipleSlashes, slug, c);
    MultipleSlashesInStructure(slug, c);
    if Contains(slug, "//") {
      SlashContainsSlash(slug);
    }
  }

  /** A trailing `/` is reported unless the effective document type is the home page. */
  lemma TrailingSlashIff(slug: string, options: Options)
    requires slug != ""
    ensures TrailingSlash in ValidationOf(Some(slug), options).errors <==>
      EndsWith(slug, "/") && options.sanityDocumentType != Some("homePage")
  {
    var c := EffectiveConfig(options);
    ErrorMembership(slug, options, TrailingSlash);
    StructureMessageOrigin(TrailingSlash, slug, c);
    TrailingSlashInStructure(slug, c);
    if EndsWith(slug, "/") {
      SlashContainsSlash(slug);
    }
  }

  /** A leading `/` is demanded of every slug with a `/` whose type requires one. */
  lemma MissingLeadingSlashIff(slug: string, options: Options)
    requires slug != ""
    ensures MissingLeadingSlash in ValidationOf(Some(slug), options).errors <==>
      '/' in slug && EffectiveConfig(options).requireSlash == Some(true) && !StartsWith(slug, "/")
  {
    var c := EffectiveConfig(options);
    ErrorMembership(slug, options, MissingLeadingSlash);
    StructureMessageOrigin(MissingLeadingSlash, slug, c);
    MissingLeadingSlashInStructure(slug, c);
  }

  /**
   * A slug without `/` skips the structure, prefix and forbidden-pattern checks but
   * still gets every message of the type's custom rules.
   */
  lemma SingleSegmentSkipsStructure(slug: string, options: Options)
    requires slug != "" && '/' !in slug
    ensures MissingLeadingSlash !in ValidationOf(Some(slug), options).errors
    ensures TrailingSlash !in ValidationOf(Some(slug), options).errors
    ensures MultipleSlashes !in ValidationOf(Some(slug), options).errors
    ensures forall e :: e in CustomErrors(slug, EffectiveConfig(options)) ==> e in ValidationOf(Some(slug), options).errors
  {
    var c := EffectiveConfig(options);
    MissingLeadingSlashIff(slug, options);
    TrailingSlashIff(slug, options);
    MultipleSlashesIff(slug, options);
    if EndsWith(slug, "/") || Contains(slug, "//") {
      SlashContainsSlash(slug);
    }
    forall e | e in CustomErrors(slug, c) ensures e in ValidationOf(Some(slug), options).errors {
      ErrorMembership(slug, options, e);
    }
  }

  /** `about` for a page: no missing-leading-slash error. */
  lemma AboutPageHasNoSlashError()
    ensures MissingLeadingSlash !in ValidationOf(Some("about"), ForType("page")).errors
  {
    assert '/' !in "about";
    SingleSegmentSkipsStructure("about", ForType("page"));
  }

  // ---------------------------------------------------------------- wrappers

  /** The outcome of a schema validation rule: accepted, or a message. */
  datatype Verdict = Accepted | Rejected(message: string)

  /** `validateSanitySlug`: every error and warning joined by `; `, or acceptance. */
  function ValidateSanitySlug(current: Option<string>, options: Options): (v: Verdict)
    ensures v == Accepted <==>
      ValidationOf(current, options).errors == [] && ValidationOf(current, options).warnings == []
    ensures (current.None? || current.value == "") ==> v == Rejected(Required)
    ensures v.Rejected? ==>
      v.message == Join(ValidationOf(current, options).errors + ValidationOf(current, options).warnings, "; ")
  {
    var validation := ValidationOf(current, options);
    var all := validation.errors + validation.warnings;
    if |all| > 0 then Rejected(Join(all, "; ")) else Accepted
  }

  /** `validateSlugForDocumentType`: errors then warnings, with the type's own rules. */
  function ValidateSlugForDocumentType(slug: Option<string>, t: string): (r: seq<string>)
    ensures r == [] <==> ValidateSanitySlug(slug, ForType(t)) == Accepted
    ensures forall e :: e in ValidationOf(slug, ForType(t)).errors ==> e in r
    ensures r == ValidationOf(slug, ForType(t)).errors + ValidationOf(slug, ForType(t)).warnings
  {
    var validation := ValidationOf(slug, ForType(t));
    validation.errors + validation.warnings
  }

  datatype Comprehensive = Comprehensive(
    isValid: bool,
    hasErrors: bool,
    hasWarnings: bool,
    validation: Validation,
    segments: seq<string>,
    segmentValidations: seq<Validation>)

  /** `validateSlugComprehensive`. */
  function ValidateSlugComprehensive(slug: Option<string>, options: Options): (r: Comprehensive)
    ensures r.isValid <==> r.validation.errors == []
    ensures r.hasErrors == !r.isValid
    ensures r.validation == ValidationOf(slug, options)
    ensures r.hasWarnings <==> r.validation.warnings != []
    ensures r.segments == (if slug.Some? && slug.value != "" then Segments(slug.value) else [])
    ensures |r.segmentValidations| == |r.segments|
    ensures forall k :: 0 <= k < |r.segments| ==> r.segmentValidations[k] == SegmentValidation(r.segments[k])
  {
    var validation := ValidationOf(slug, options);
    var segments := if slug.Some? && slug.value != "" then Segments(slug.value) else [];
    Comprehensive(
      |validation.errors| == 0,
      |validation.errors| > 0,
      |validation.warnings| > 0,
      validation,
      segments,
      seq(|segments|, k requires 0 <= k < |segments| => SegmentValidation(segments[k])))
  }

  /** The per-segment breakdown agrees with the aggregate: each segment's messages are in it. */
  lemma ComprehensiveSegmentsAgree(slug: string, options: Options)
    requires slug != ""
    ensures var r := ValidateSlugComprehensive(Some(slug), options);
      forall k, e :: 0 <= k < |r.segments| && e in r.segmentValidations[k].errors ==> e in r.validation.errors
    ensures var r := ValidateSlugComprehensive(Some(slug), options);
      forall k, w :: 0 <= k < |r.segments| && w in r.segmentValidations[k].warnings ==> w in r.validation.warnings
  {
    var r := ValidateSlugComprehensive(Some(slug), options);
    var c := EffectiveConfig(options);
    var segs := CheckedSegments(slug);
    if '/' !in slug {
      SplitWithoutSeparator(slug, '/');
      assert Segments(slug) == [slug];
    }
    assert r.segments == segs;
    var vs := SegmentValidations(segs);
    assert r.segmentValidations == vs;
    SegmentMessagesInAll(slug, c);
    forall k, e | 0 <= k < |segs| && e in vs[k].errors
      ensures e in r.validation.errors
    {
      InErrorsOf(vs, e);
    }
    forall k, w | 0 <= k < |segs| && w in vs[k].warnings
      ensures w in r.validation.warnings
    {
      InWarningsOf(vs, w);
    }
  }

  /** The messages of every checked segment are among the slug's collected messages. */
  lemma SegmentMessagesInAll(slug: string, c: Options)
    ensures var vs := SegmentValidations(CheckedSegments(slug));
      forall e :: e in ErrorsOf(vs) ==> e in AllErrors(slug, c)
    ensures var vs := SegmentValidations(CheckedSegments(slug));
      AllWarnings(slug, c) == WarningsOf(vs)
  {
    var vs := SegmentValidations(CheckedSegments(slug));
    if '/' !in slug {
      assert vs[..0] == [];
      assert ErrorsOf(vs) == SegmentValidation(slug).errors;
    }
  }

  // ---------------------------------------------------------------- cleaning

  lemma NoPairAt(s: string, i: int)
    requires !HasAdjacentPair(s, '-') && 0 <= i < |s| - 1
    ensures !(s[i] == '-' && s[i + 1] == '-')
  {
  }

  lemma NoPairTail(s: string)
    requires |s| > 0 && !HasAdjacentPair(s, '-')
    ensures !HasAdjacentPair(s[1..], '-')
  {
    forall i | 0 <= i < |s| - 2 ensures !(s[1..][i] == '-' && s[1..][i + 1] == '-') {
      NoPairAt(s, i + 1);
    }
  }

  lemma NoPairCons(c: char, t: string)
    requires !HasAdjacentPair(t, '-')
    requires c != '-' || |t| == 0 || t[0] != '-'
    ensures !HasAdjacentPair([c] + t, '-')
  {
    var s := [c] + t;
    forall i | 0 <= i < |s| - 1 ensures !(s[i] == '-' && s[i + 1] == '-') {
      if i > 0 {
        NoPairAt(t, i - 1);
      }
    }
  }

  lemma SliceKeepsClean(s: string, a: nat, b: nat)
    requires a <= b <= |s|
    requires AllSlugChars(s) && !HasAdjacentPair(s, '-')
    ensures AllSlugChars(s[a..b]) && !HasAdjacentPair(s[a..b], '-')
  {
    var t := s[a..b];
    forall i | 0 <= i < |t| - 1 ensures !(t[i] == '-' && t[i + 1] == '-') {
      NoPairAt(s, a + i);
    }
  }

  /** `.replace(/\s+/g, "-")`: each run of white space becomes one hyphen. */
  function ReplaceWhitespaceRuns(s: string): (r: string)
    ensures forall i :: 0 <= i < |r| ==> !IsWhitespace(r[i])
    ensures NoWhitespace(s) ==> r == s
    decreases |s|
  {
    if |s| == 0 then ""
    else if IsWhitespace(s[0]) then "-" + ReplaceWhitespaceRuns(TrimStart(s[1..]))
    else
      var r := [s[0]] + ReplaceWhitespaceRuns(s[1..]);
      assert [s[0]] + s[1..] == s;
      r
  }

  predicate NoWhitespace(s: string) {
    forall i :: 0 <= i < |s| ==> !IsWhitespace(s[i])
  }

  /** `.replace(/[^a-z0-9-]/g, "")`. */
  function RemoveInvalidChars(s: string): (r: string)
    ensures AllSlugChars(r)
    ensures AllSlugChars(s) ==> r == s
  {
    if |s| == 0 then ""
    else
      var r := (if IsSlugChar(s[0]) then [s[0]] else []) + RemoveInvalidChars(s[1..]);
      assert [s[0]] + s[1..] == s;
      r
  }

  /** Drops the hyphens at the front. */
  function TrimLeadingHyphens(s: string): (r: string)
    ensures |r| <= |s| && r == s[|s| - |r|..]
    ensures |r| > 0 ==> r[0] != '-'
    ensures (|s| == 0 || s[0] != '-') ==> r == s
  {
    if |s| > 0 && s[0] == '-' then TrimLeadingHyphens(s[1..]) else s
  }

  /** Drops the hyphens at the back. */
  function TrimTrailingHyphens(s: string): (r: string)
    ensures |r| <= |s| && r == s[..|r|]
    ensures |r| > 0 ==> r[|r| - 1] != '-'
    ensures (|s| == 0 || s[|s| - 1] != '-') ==> r == s
  {
    if |s| > 0 && s[|s| - 1] == '-' then TrimTrailingHyphens(s[..|s| - 1]) else s
  }

  /** `.replace(/-+/g, "-")`: each run of hyphens becomes one. */
  function CollapseHyphenRuns(s: string): (r: string)
    ensures !HasAdjacentPair(r, '-')
    ensures |r| > 0 && r[0] == '-' ==> |s| > 0 && s[0] == '-'
    ensures AllSlugChars(s) ==> AllSlugChars(r)
    ensures !HasAdjacentPair(s, '-') ==> r == s
    decreases |s|
  {
    if |s| == 0 then ""
    else if s[0] == '-' then
      var t := TrimLeadingHyphens(s[1..]);
      var rest := CollapseHyphenRuns(t);
      CollapseHyphenStep(s, t, rest);
      "-" + rest
    else
      var rest := CollapseHyphenRuns(s[1..]);
      CollapseOtherStep(s, rest);
      [s[0]] + rest
  }

  /** One step of `CollapseHyphenRuns` at a run of hyphens, given what the recursive call promises. */
  lemma CollapseHyphenStep(s: string, t: string, rest: string)
    requires |s| > 0 && s[0] == '-' && t == TrimLeadingHyphens(s[1..])
    requires !HasAdjacentPair(rest, '-') && (|rest| > 0 && rest[0] == '-' ==> |t| > 0 && t[0] == '-')
    requires AllSlugChars(t) ==> AllSlugChars(rest)
    requires !HasAdjacentPair(t, '-') ==> rest == t
    ensures !HasAdjacentPair("-" + rest, '-')
    ensures AllSlugChars(s) ==> AllSlugChars("-" + rest)
    ensures !HasAdjacentPair(s, '-') ==> "-" + rest == s
  {
    NoPairCons('-', rest);
    assert "-" + rest == ['-'] + rest;
    if AllSlugChars(s) {
      SliceKeepsChars(s, |s| - |t|, |s|);
    }
    if !HasAdjacentPair(s, '-') {
      NoPairTail(s);
      if |s| > 1 {
        NoPairAt(s, 0);
      }
      assert t == s[1..];
      assert ['-'] + s[1..] == s;
    }
  }

  /** One step of `CollapseHyphenRuns` at any other character. */
  lemma CollapseOtherStep(s: string, rest: string)
    requires |s| > 0 && s[0] != '-'
    requires !HasAdjacentPair(rest, '-')
    requires AllSlugChars(s[1..]) ==> AllSlugChars(rest)
    requires !HasAdjacentPair(s[1..], '-') ==> rest == s[1..]
    ensures !HasAdjacentPair([s[0]] + rest, '-')
    ensures AllSlugChars(s) ==> AllSlugChars([s[0]] + rest)
    ensures !HasAdjacentPair(s, '-') ==> [s[0]] + rest == s
  {
    NoPairCons(s[0], rest);
    assert [s[0]] + s[1..] == s;
    if !HasAdjacentPair(s, '-') {
      NoPairTail(s);
    }
  }

  lemma SliceKeepsChars(s: string, a: nat, b: nat)
    requires a <= b <= |s| && AllSlugChars(s)
    ensures AllSlugChars(s[a..b])
  {
  }

  /** `.replace(/^-+|-+$/g, "")`. */
  function TrimEdgeHyphens(s: string): (r: string) {
    TrimTrailingHyphens(TrimLeadingHyphens(s))
  }

  lemma TrimEdgeHyphensClean(s: string)
    requires AllSlugChars(s) && !HasAdjacentPair(s, '-')
    ensures IsCleanSlug(TrimEdgeHyphens(s))
  {
    var l := TrimLeadingHyphens(s);
    SliceKeepsClean(s, |s| - |l|, |s|);
    var r := TrimTrailingHyphens(l);
    SliceKeepsClean(l, 0, |r|);
    if |r| > 0 {
      assert r[0] == l[0];
    }
  }

  /** A string with no edge hyphen comes through `TrimEdgeHyphens` unchanged. */
  lemma TrimEdgeHyphensIdentity(s: string)
    requires |s| > 0 ==> s[0] != '-' && s[|s| - 1] != '-'
    ensures TrimEdgeHyphens(s) == s
  {
  }

  /** `cleanSlug`. */
  function CleanSlug(slug: string): string {
    if slug == "" then ""
    else TrimEdgeHyphens(CollapseHyphenRuns(RemoveInvalidChars(ReplaceWhitespaceRuns(ToLower(slug)))))
  }

  /** The cleaner's output has only `[a-z0-9-]`, no `--` and no edge hyphen. */
  lemma CleanSlugIsClean(slug: string)
    ensures IsCleanSlug(CleanSlug(slug))
  {
    if slug != "" {
      TrimEdgeHyphensClean(CollapseHyphenRuns(RemoveInvalidChars(ReplaceWhitespaceRuns(ToLower(slug)))));
    }
  }

  lemma SlugCharsUnchangedByLower(s: string)
    requires AllSlugChars(s)
    ensures ToLower(s) == s && NoWhitespace(s)
  {
    forall i | 0 <= i < |s| ensures LowerChar(s[i]) == s[i] && !IsWhitespace(s[i]) {
      assert IsSlugChar(s[i]);
    }
  }

  /** A slug already in clean shape passes through the cleaner unchanged. */
  lemma CleanSlugOfClean(s: string)
    requires IsCleanSlug(s)
    ensures CleanSlug(s) == s
  {
    if s != "" {
      SlugCharsUnchangedByLower(s);
      TrimEdgeHyphensIdentity(s);
    }
  }

  /** `cleanSlug` is idempotent. */
  lemma CleanSlugIdempotent(slug: string)
    ensures CleanSlug(CleanSlug(slug)) == CleanSlug(slug)
  {
    CleanSlugIsClean(slug);
    CleanSlugOfClean(CleanSlug(slug));
  }

  /** A non-empty cleaned slug has no format errors. */
  lemma CleanSlugPassesFormat(slug: string)
    requires CleanSlug(slug) != ""
    ensures FormatErrors(CleanSlug(slug)) == []
  {
    CleanSlugIsClean(slug);
    FormatErrorsEmptyIff(CleanSlug(slug));
  }

  /** Text made of white space only cleans to the empty slug. */
  lemma CleanSlugOfBlank(title: string)
    requires AllWhitespace(title)
    ensures CleanSlug(title) == ""
  {
    if title != "" {
      assert ToLower(title) == title by {
        forall i | 0 <= i < |title| ensures LowerChar(title[i]) == title[i] {
          assert IsWhitespace(title[i]);
        }
      }
      TrimEmptyIff(title[1..]);
      assert TrimStart(title[1..]) == "" by {
        assert TrimEnd(TrimStart(title[1..])) == "";
      }
      assert ReplaceWhitespaceRuns(title) == "-";
      assert RemoveInvalidChars("-") == "-" by {
        assert AllSlugChars("-");
      }
      assert CollapseHyphenRuns("-") == "-";
      assert TrimLeadingHyphens("-") == "";
    }
  }

  datatype CleanReport = CleanReport(cleanedSlug: string, wasChanged: bool, changes: seq<string>)

  const AddedEmpty: string := "Added empty slug"
  const ConvertedLowercase: string := "Converted to lowercase"
  const ReplacedSpaces: string := "Replaced spaces with hyphens"
  const RemovedInvalid: string := "Removed invalid characters"
  const FixedHyphens: string := "Fixed multiple consecutive hyphens"
  const RemovedEdgeHyphens: string := "Removed leading/trailing hyphens"

  /** The text being cleaned and the changes noted so far. */
  datatype CleanState = CleanState(cleaned: string, changes: seq<string>)

  function LowerStep(st: CleanState): CleanState {
    if st.cleaned != ToLower(st.cleaned)
    then CleanState(ToLower(st.cleaned), st.changes + [ConvertedLowercase]) else st
  }

  function SpaceStep(st: CleanState): CleanState {
    if Contains(st.cleaned, " ")
    then CleanState(ReplaceWhitespaceRuns(st.cleaned), st.changes + [ReplacedSpaces]) else st
  }

  function InvalidStep(st: CleanState): CleanState {
    if !AllSlugChars(st.cleaned)
    then CleanState(RemoveInvalidChars(st.cleaned), st.changes + [RemovedInvalid]) else st
  }

  function HyphenStep(st: CleanState): CleanState {
    if Contains(st.cleaned, "--")
    then CleanState(CollapseHyphenRuns(st.cleaned), st.changes + [FixedHyphens]) else st
  }

  function EdgeStep(st: CleanState): CleanState {
    if StartsWith(st.cleaned, "-") || EndsWith(st.cleaned, "-")
    then CleanState(TrimEdgeHyphens(st.cleaned), st.changes + [RemovedEdgeHyphens]) else st
  }

  /** The report `cleanSlugWithValidation` returns: each step runs only when its test fires. */
  function TrackedClean(slug: string): CleanReport {
    if slug == "" then CleanReport("", true, [AddedEmpty])
    else
      var st := EdgeStep(HyphenStep(InvalidStep(SpaceStep(LowerStep(CleanState(slug, []))))));
      CleanReport(st.cleaned, slug != st.cleaned, st.changes)
  }

  /** `cleanSlugWithValidation`. */
  method CleanSlugWithValidation(slug: string) returns (r: CleanReport)
    ensures r == TrackedClean(slug)
  {
    var original := slug;
    var changes: seq<string> := [];
    if slug == "" {
      return CleanReport("", true, [AddedEmpty]);
    }
    var cleaned := slug;
    ghost var st := CleanState(slug, []);
    if cleaned != ToLower(cleaned) {
      changes := changes + [ConvertedLowercase];
      cleaned := ToLower(cleaned);
    }
    st := LowerStep(st);
    assert st == CleanState(cleaned, changes);
    if Contains(cleaned, " ") {
      changes := changes + [ReplacedSpaces];
      cleaned := ReplaceWhitespaceRuns(cleaned);
    }
    st := SpaceStep(st);
    assert st == CleanState(cleaned, changes);
    if !AllSlugChars(cleaned) {
      changes := changes + [RemovedInvalid];
      cleaned := RemoveInvalidChars(cleaned);
    }
    st := InvalidStep(st);
    assert st == CleanState(cleaned, changes);
    if Contains(cleaned, "--") {
      changes := changes + [FixedHyphens];
      cleaned := CollapseHyphenRuns(cleaned);
    }
    st := HyphenStep(st);
    assert st == CleanState(cleaned, changes);
    if StartsWith(cleaned, "-") || EndsWith(cleaned, "-") {
      changes := changes + [RemovedEdgeHyphens];
      cleaned := TrimEdgeHyphens(cleaned);
    }
    st := EdgeStep(st);
    assert st == CleanState(cleaned, changes);
    r := CleanReport(cleaned, original != cleaned, changes);
  }

  /** The lowercase step always leaves the lowercased text. */
  lemma LowerStepText(st: CleanState)
    ensures LowerStep(st).cleaned == ToLower(st.cleaned)
  {
  }

  /** The character filter always leaves exactly the filtered text. */
  lemma InvalidStepText(st: CleanState)
    ensures InvalidStep(st).cleaned == RemoveInvalidChars(st.cleaned)
  {
  }

  /** On slug characters the hyphen step always leaves the collapsed text, which has no `--`. */
  lemma HyphenStepText(st: CleanState)
    requires AllSlugChars(st.cleaned)
    ensures HyphenStep(st).cleaned == CollapseHyphenRuns(st.cleaned)
    ensures AllSlugChars(HyphenStep(st).cleaned) && !HasAdjacentPair(HyphenStep(st).cleaned, '-')
  {
    ContainsPairIff(st.cleaned, '-');
    assert Contains(st.cleaned, "--") == Contains(st.cleaned, ['-', '-']);
  }

  /** The edge step always leaves the edge-trimmed text. */
  lemma EdgeStepText(st: CleanState)
    ensures EdgeStep(st).cleaned == TrimEdgeHyphens(st.cleaned)
  {
    var s := st.cleaned;
    if !(StartsWith(s, "-") || EndsWith(s, "-")) && |s| > 0 {
      assert s[0] != '-' by {
        assert s[0] == '-' ==> StartsWith(s, "-");
      }
      assert s[|s| - 1] != '-' by {
        assert s[|s| - 1..] == [s[|s| - 1]];
      }
      TrimEdgeHyphensIdentity(s);
    }
  }

  /** The space step, when the text has a space or no white space, leaves the hyphenated text. */
  lemma SpaceStepText(st: CleanState)
    requires ' ' in st.cleaned || NoWhitespace(st.cleaned)
    ensures SpaceStep(st).cleaned == ReplaceWhitespaceRuns(st.cleaned)
  {
    ContainsCharIff(st.cleaned, ' ');
  }

  lemma LowerKeepsSpaces(s: string)
    ensures ' ' in s <==> ' ' in ToLower(s)
    ensures NoWhitespace(s) ==> NoWhitespace(ToLower(s))
  {
    var l := ToLower(s);
    if ' ' in l {
      var i :| 0 <= i < |l| && l[i] == ' ';
      assert s[i] == ' ';
    }
    if ' ' in s {
      var i :| 0 <= i < |s| && s[i] == ' ';
      assert l[i] == ' ';
    }
  }

  /** The tracked cleaner also produces a clean slug. */
  lemma TrackedCleanIsClean(slug: string)
    requires slug != ""
    ensures IsCleanSlug(TrackedClean(slug).cleanedSlug)
  {
    var st2 := SpaceStep(LowerStep(CleanState(slug, [])));
    var st3 := InvalidStep(st2);
    InvalidStepText(st2);
    HyphenStepText(st3);
    var st4 := HyphenStep(st3);
    EdgeStepText(st4);
    TrimEdgeHyphensClean(st4.cleaned);
  }

  /**
   * Whenever the text has a plain space, or has no white space at all, the tracked
   * cleaner agrees with `cleanSlug`.
   */
  lemma TrackedCleanAgrees(slug: string)
    requires slug != ""
    requires ' ' in slug || NoWhitespace(slug)
    ensures TrackedClean(slug).cleanedSlug == CleanSlug(slug)
  {
    var st1 := LowerStep(CleanState(slug, []));
    LowerStepText(CleanState(slug, []));
    LowerKeepsSpaces(slug);
    SpaceStepText(st1);
    var st2 := SpaceStep(st1);
    InvalidStepText(st2);
    var st3 := InvalidStep(st2);
    HyphenStepText(st3);
    EdgeStepText(HyphenStep(st3));
  }

  /** A step either leaves the state alone or notes one more change. */
  predicate NotesAtMostOne(before: CleanState, after: CleanState) {
    after == before || (|after.changes| == |before.changes| + 1 && after.changes[..|before.changes|] == before.changes)
  }

  /** Only the lowercase step notes `ConvertedLowercase`. */
  lemma LaterStepsShape(st: CleanState)
    ensures NotesAtMostOne(st, SpaceStep(st)) && NotesAtMostOne(st, InvalidStep(st))
    ensures NotesAtMostOne(st, HyphenStep(st)) && NotesAtMostOne(st, EdgeStep(st))
    ensures ConvertedLowercase in SpaceStep(st).changes <==> ConvertedLowercase in st.changes
    ensures ConvertedLowercase in InvalidStep(st).changes <==> ConvertedLowercase in st.changes
    ensures ConvertedLowercase in HyphenStep(st).changes <==> ConvertedLowercase in st.changes
    ensures ConvertedLowercase in EdgeStep(st).changes <==> ConvertedLowercase in st.changes
  {
    assert |ConvertedLowercase| != |ReplacedSpaces| && |ConvertedLowercase| != |RemovedInvalid|;
    assert |ConvertedLowercase| != |FixedHyphens| && |ConvertedLowercase| != |RemovedEdgeHyphens|;
    NotedOther(st, SpaceStep(st), ReplacedSpaces);
    NotedOther(st, InvalidStep(st), RemovedInvalid);
    NotedOther(st, HyphenStep(st), FixedHyphens);
    NotedOther(st, EdgeStep(st), RemovedEdgeHyphens);
  }

  lemma NotedOther(st: CleanState, after: CleanState, note: string)
    requires after == st || after.changes == st.changes + [note]
    requires note != ConvertedLowercase
    ensures NotesAtMostOne(st, after)
    ensures ConvertedLowercase in after.changes <==> ConvertedLowercase in st.changes
  {
    if after != st {
      assert after.changes[..|st.changes|] == st.changes;
    }
  }

  /**
   * An empty list of changes means the slug came through untouched, and lowercasing
   * is reported exactly when the slug had upper-case letters.
   */
  lemma TrackedCleanReport(slug: string)
    requires slug != ""
    ensures TrackedClean(slug).changes == [] ==> TrackedClean(slug).cleanedSlug == slug
    ensures ConvertedLowercase in TrackedClean(slug).changes <==> slug != ToLower(slug)
  {
    var st0 := CleanState(slug, []);
    var st1 := LowerStep(st0);
    var st2 := SpaceStep(st1);
    var st3 := InvalidStep(st2);
    var st4 := HyphenStep(st3);
    var st5 := EdgeStep(st4);
    LaterStepsShape(st1);
    LaterStepsShape(st2);
    LaterStepsShape(st3);
    LaterStepsShape(st4);
    assert TrackedClean(slug) == CleanReport(st5.cleaned, slug != st5.cleaned, st5.changes);
    if st5.changes == [] {
      assert st4 == st5 && st3 == st4 && st2 == st3 && st1 == st2;
      assert st1 == st0;
    }
  }

  lemma ReplaceAroundBreak(x: char, w: char, y: char)
    requires IsLowerAlpha(x) && IsLowerAlpha(y) && IsWhitespace(w)
    ensures ReplaceWhitespaceRuns([x, w, y]) == [x, '-', y]
  {
    assert !IsWhitespace(x) && !IsWhitespace(y);
    assert ReplaceWhitespaceRuns([y]) == [y] by {
      assert [y][1..] == [];
    }
    assert ReplaceWhitespaceRuns([w, y]) == "-" + [y] by {
      assert [w, y][1..] == [y];
      assert TrimStart([y]) == [y];
    }
    assert ReplaceWhitespaceRuns([x, w, y]) == [x] + ReplaceWhitespaceRuns([w, y]) by {
      assert [x, w, y][1..] == [w, y];
    }
    assert [x] + ("-" + [y]) == [x, '-', y];
  }

  lemma FilterAroundBreak(x: char, w: char, y: char)
    requires IsLowerAlpha(x) && IsLowerAlpha(y) && IsWhitespace(w)
    ensures RemoveInvalidChars([x, w, y]) == [x, y]
  {
    assert [x, w, y][1..] == [w, y];
    assert [w, y][1..] == [y];
    assert RemoveInvalidChars([y]) == [y] by {
      assert [y][1..] == [];
    }
  }

  lemma LowerOfLetters(s: string)
    requires forall i :: 0 <= i < |s| ==> !IsUpperAlpha(s[i])
    ensures ToLower(s) == s
  {
  }

  /** `cleanSlug` turns white space between two letters into a hyphen. */
  lemma CleanSlugAroundBreak(x: char, w: char, y: char)
    requires IsLowerAlpha(x) && IsLowerAlpha(y) && IsWhitespace(w)
    ensures CleanSlug([x, w, y]) == [x, '-', y]
  {
    var s := [x, w, y];
    LowerOfLetters(s);
    ReplaceAroundBreak(x, w, y);
    HyphenatedPairKept([x, '-', y], x, y);
  }

  lemma HyphenatedPairKept(t: string, x: char, y: char)
    requires IsLowerAlpha(x) && IsLowerAlpha(y) && t == [x, '-', y]
    ensures TrimEdgeHyphens(CollapseHyphenRuns(RemoveInvalidChars(t))) == t
  {
    assert AllSlugChars(t);
    assert !HasAdjacentPair(t, '-') by {
      forall i | 0 <= i < |t| - 1 ensures !(t[i] == '-' && t[i + 1] == '-') {
        assert i == 0 || i == 1;
      }
    }
    TrimEdgeHyphensIdentity(t);
  }

  /** The tracked cleaner drops white space between two letters when it is not a plain space. */
  lemma TrackedCleanAroundBreak(x: char, w: char, y: char)
    requires IsLowerAlpha(x) && IsLowerAlpha(y) && IsWhitespace(w) && w != ' '
    ensures TrackedClean([x, w, y]).cleanedSlug == [x, y]
  {
    var st2 := SpaceStep(LowerStep(CleanState([x, w, y], [])));
    BreakSurvivesLowerAndSpace(x, w, y);
    var st3 := InvalidStep(st2);
    BreakFiltered(st2, x, w, y);
    var st4 := HyphenStep(st3);
    PairKeptByHyphenStep(st3, x, y);
    EdgeStepText(st4);
    TrimEdgeHyphensIdentity([x, y]);
  }

  lemma BreakSurvivesLowerAndSpace(x: char, w: char, y: char)
    requires IsLowerAlpha(x) && IsLowerAlpha(y) && IsWhitespace(w) && w != ' '
    ensures SpaceStep(LowerStep(CleanState([x, w, y], []))).cleaned == [x, w, y]
  {
    var s := [x, w, y];
    LowerOfLetters(s);
    var st1 := LowerStep(CleanState(s, []));
    assert st1.cleaned == s;
    ContainsCharIff(s, ' ');
    assert !Contains(s, " ");
  }

  lemma BreakFiltered(st: CleanState, x: char, w: char, y: char)
    requires IsLowerAlpha(x) && IsLowerAlpha(y) && IsWhitespace(w)
    requires st.cleaned == [x, w, y]
    ensures InvalidStep(st).cleaned == [x, y]
  {
    InvalidStepText(st);
    FilterAroundBreak(x, w, y);
  }

  lemma PairKeptByHyphenStep(st: CleanState, x: char, y: char)
    requires IsLowerAlpha(x) && IsLowerAlpha(y)
    requires st.cleaned == [x, y]
    ensures HyphenStep(st).cleaned == [x, y]
  {
    ContainsPairIff([x, y], '-');
    assert !Contains(st.cleaned, "--");
  }

  /**
   * White space other than a plain space reaches the character filter only when the
   * text has no space, so the tracked cleaner drops a tab where `cleanSlug` makes it
   * a hyphen.
   */
  lemma TrackedCleanDropsTab()
    ensures CleanSlug("a\tb") == "a-b"
    ensures TrackedClean("a\tb").cleanedSlug == "ab"
  {
    CleanSlugAroundBreak('a', '\t', 'b');
    TrackedCleanAroundBreak('a', '\t', 'b');
  }

  // ---------------------------------------------------------------- generation

  /** The path kept for a nested page: every segment of the current slug but the last. */
  function PageSlugFromTitle(clean: string, currentSlug: Option<string>): string {
    if currentSlug.Some? && '/' in currentSlug.value && |Segments(currentSlug.value)| > 1 then
      var segs := Segments(currentSlug.value);
      "/" + Join(segs[..|segs| - 1], "/") + "/" + clean
    else "/" + clean
  }

  /** The path joined from a configured prefix and the cleaned title. */
  function PrefixedSlug(prefix: string, clean: string): string {
    if EndsWith(prefix, "/") then prefix + clean else prefix + "/" + clean
  }

  /** The switch on the document type in `generateSlugFromTitle`, given the cleaned title. */
  function SlugForType(clean: string, documentType: string, currentSlug: Option<string>): (r: string)
    requires clean != ""
    ensures r != ""
    ensures documentType == "homePage" ==> r == "/"
    ensures documentType == "blogIndex" ==> r == "/blog"
    ensures documentType == "author" ==> r == "/author/" + clean
    ensures documentType == "blog" ==> r == "/blog/" + clean
    ensures documentType == "page" ==> r == PageSlugFromTitle(clean, currentSlug)
    ensures documentType !in KnownTypes ==> r == "/" + clean
  {
    if documentType == "homePage" then "/"
    else if documentType == "blogIndex" then "/blog"
    else if documentType == "author" then "/author/" + clean
    else if documentType == "blog" then "/blog/" + clean
    else if documentType == "page" then PageSlugFromTitle(clean, currentSlug)
    else DefaultSlug(DocumentTypeConfig(documentType), clean)
  }

  /** The `default:` case: the configured prefix when there is one, the root otherwise. */
  function DefaultSlug(config: Options, clean: string): (r: string)
    ensures !Truthy(config.requiredPrefix) ==> r == "/" + clean
    ensures Truthy(config.requiredPrefix) ==> StartsWith(r, config.requiredPrefix.value) && EndsWith(r, clean)
  {
    if Truthy(config.requiredPrefix) then PrefixedSlug(config.requiredPrefix.value, clean)
    else "/" + clean
  }

  /** `generateSlugFromTitle`. */
  function GenerateSlugFromTitle(title: string, documentType: string, currentSlug: Option<string>): (r: string)
    ensures (AllWhitespace(title) || CleanSlug(title) == "") ==> r == ""
    ensures r != "" ==> r == SlugForType(CleanSlug(title), documentType, currentSlug)
  {
    TrimEmptyIff(title);
    if Trim(title) == "" then ""
    else
      var clean := CleanSlug(title);
      if clean == "" then "" else SlugForType(clean, documentType, currentSlug)
  }

  /** The generated slug is empty exactly when the title cleans to nothing. */
  lemma GeneratedEmptyIff(title: string, documentType: string, currentSlug: Option<string>)
    ensures GenerateSlugFromTitle(title, documentType, currentSlug) == "" <==> CleanSlug(title) == ""
  {
    TrimEmptyIff(title);
    if AllWhitespace(title) {
      CleanSlugOfBlank(title);
    }
  }

  /** Every other type falls back to `/<clean>`: the default rules have no required prefix. */
  lemma GenerateForUnknownType(title: string, documentType: string, currentSlug: Option<string>)
    requires documentType !in KnownTypes
    requires CleanSlug(title) != ""
    ensures GenerateSlugFromTitle(title, documentType, currentSlug) == "/" + CleanSlug(title)
  {
    GeneratedEmptyIff(title, documentType, currentSlug);
  }

  /**
   * A page under a nested slug keeps all but the last segment of the current slug
   * and puts the cleaned title last.
   */
  lemma PageSlugKeepsParents(clean: string, currentSlug: string)
    requires clean != "" && '/' !in clean
    requires '/' in currentSlug && |Segments(currentSlug)| > 1
    ensures var segs := Segments(currentSlug);
      Segments(PageSlugFromTitle(clean, Some(currentSlug))) == segs[..|segs| - 1] + [clean]
  {
    var segs := Segments(currentSlug);
    var parents := segs[..|segs| - 1];
    var all := parents + [clean];
    forall k | 0 <= k < |all| ensures all[k] != "" && '/' !in all[k] {
      if k < |parents| {
        assert all[k] == segs[k];
      }
    }
    JoinAppend(parents, clean, "/");
    assert PageSlugFromTitle(clean, Some(currentSlug)) == "/" + Join(all, "/");
    SegmentsOfRootedJoin(all);
  }

  /** A cleaned slug holds no `/`. */
  lemma CleanSlugHasNoSlash(title: string)
    ensures '/' !in CleanSlug(title)
  {
    CleanSlugIsClean(title);
  }

  /** `generateSlugFromTitle` for a page under a nested slug. */
  lemma GeneratePageKeepsParents(title: string, currentSlug: string)
    requires CleanSlug(title) != ""
    requires '/' in currentSlug && |Segments(currentSlug)| > 1
    ensures var segs := Segments(currentSlug);
      Segments(GenerateSlugFromTitle(title, "page", Some(currentSlug))) == segs[..|segs| - 1] + [CleanSlug(title)]
  {
    GeneratedEmptyIff(title, "page", Some(currentSlug));
    CleanSlugHasNoSlash(title);
    PageSlugKeepsParents(CleanSlug(title), currentSlug);
  }

  /** A page without a nested current slug lands directly under the root. */
  lemma GeneratePageAtRoot(title: string, currentSlug: Option<string>)
    requires CleanSlug(title) != ""
    requires currentSlug.None? || '/' !in currentSlug.value || |Segments(currentSlug.value)| <= 1
    ensures GenerateSlugFromTitle(title, "page", currentSlug) == "/" + CleanSlug(title)
  {
    GeneratedEmptyIff(title, "page", currentSlug);
  }
}
