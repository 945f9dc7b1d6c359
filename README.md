# A verified model of the logic under a CMS-backed marketing site

The site is a monorepo with two apps: a content studio, where editors write pages,
blog posts and redirects, and a web app, which renders them. Most of both is
rendering and CMS schema declarations. This project models the deterministic logic
underneath, in Dafny, and proves what that logic promises.

- **Slug rules** (`SlugValidation`, `SlugHook`, `SlugUtils`, `Redirect`). These are the
  per-document-type rule table and the checks run against a slug:
  - character format and segment length;
  - slash structure, required prefix, forbidden prefixes and custom rules.

  The checks return deduplicated error and warning lists with exact messages. Alongside them:
  - `cleanSlug`, `cleanSlugWithValidation` and `generateSlugFromTitle`;
  - the editor hook that merges these results with the form's own messages;
  - the type-prefixed slugifier and the uniqueness predicate;
  - the redirect validators.
- **Pages by path** (`NestedPages`, `NestedPagesRender`). This is the studio navigation that
  groups pages into folders by the segments of their slugs:
  - draft/published deduplication, a loop over a `Map`;
  - in-place insertion into the folder tree. The tree is a class whose invariant ties it to the documents filed so far;
  - rendering into nested lists of folder, document and divider entries, under fixed ordering rules.
- **Table of contents** (`TableOfContent`). Heading blocks are picked out and given ids,
  then arranged into a tree by level. The arranging uses the loops of the source, which
  share a `processed` set.
- **Structured data and small helpers** (`JsonLd`, `StudioHelper`, `WebUtils`):
  - plain text of rich text, and the FAQ, Organization and Article objects;
  - title case, radio layouts, rich-text summaries, column splitting, page templates;
  - the base URL and text-to-slug.
- **Media, SEO, social cards, deployment, CLI** (`MediaUtils`, `Seo`, `OgConfig`, `SanityCli`,
  `CliAlert`):
  - the media normaliser;
  - page metadata composition;
  - the social-card size parser;
  - the studio host choice;
  - the padded box of the seed-data hint, whose width ignores colour escapes.

Shared modules:
- `Text`: JavaScript string built-ins. This includes `split`/`join`, `trim` with the
  ECMAScript white-space set, `[...new Set(xs)]`, and `length` in UTF-16 code units.
- `PortableText`: rich-text blocks and spans.
- `Json`: metadata and option values. An absent key and a key mapped to `JUndefined` both read as `undefined`; only the second is copied by a spread.
- `SanityIds`: `drafts.` ids.

Operations that update state in the source are methods with loops. Each is proved
equal to a specification function, and the properties are lemmas about those functions.
This covers:
- `deduplicateDocuments`, `processDocumentIntoStructure`, `buildFolderStructure`;
- the list builders of the navigation;
- `buildHeadingHierarchy` and `collectChildHeadings`;
- `normalizeMedia`, `splitArray`;
- the message accumulation of the slug validators and the hook.

Three behaviours of the code that a reader might not expect:
- A slug with one segment, such as `/team`, puts its document into the node `team`
  (`processDocumentIntoStructure`, lines 111-113). The documents are not only counted there.
- A folder's main page is the document whose slug equals the folder's path, and a path
  never starts with `/`. So a stored slug that starts with `/` never makes a main page
  (`NestedPagesRender.RootedSlugsHaveNoMainPage`).
- When no document has a slug segment, the navigation pane ends with the divider that
  follows the all-documents entry (`NestedPagesRender.SlugPaneShape`).

## Model

| member | source | states |
|---|---|---|
| Text.Dedup | apps/studio/utils/slug-validation.ts:440-443 | `[...new Set(xs)]`: no repeats, exactly the members of the input, never longer |
| Text.DedupPrefix | apps/studio/utils/slug-validation.ts:440-443 | a set keeps first-occurrence order: the deduplication of a prefix is a prefix of the whole one |
| Text.DedupIdempotent | apps/studio/utils/slug-validation.ts:440-443 | deduplicating twice changes nothing |
| Text.DedupOfDistinct | apps/studio/utils/slug-validation.ts:440-443 | a list without repeats is unchanged |
| Text.Segments | apps/studio/components/nested-pages-structure.ts:89 | `split("/").filter(Boolean)`: every segment is non-empty and free of `/` |
| Text.SegmentsOfRootedJoin | apps/studio/components/nested-pages-structure.ts:89-123 | segments joined by `/` after a leading `/` split back into themselves |
| Text.SplitJoin | apps/studio/components/nested-pages-structure.ts:89 | splitting a join of parts free of the separator gives back the parts |
| SlugValidation.DocumentTypeConfig | apps/studio/utils/slug-validation.ts:82-208 | every type's entry names that type, requires a leading slash and has a display name and a validator list; an unknown type gets the default `Document` rules (admin and api patterns forbidden, no custom rule) |
| SlugValidation.EffectiveConfig | apps/studio/utils/slug-validation.ts:401-404 | the caller's options win over the table entry: the document type selector and any given display name are kept |
| SlugValidation.EffectiveConfigForType | apps/studio/utils/slug-validation.ts:401-404 | naming only a document type validates with exactly that type's table entry |
| SlugValidation.FormatErrorsIff | apps/studio/utils/slug-validation.ts:223-247 | each of the five format messages is present exactly when its rule is broken (bad character, space, underscore, edge hyphen, `--`) |
| SlugValidation.FormatErrorsDistinct | apps/studio/utils/slug-validation.ts:223-247 | the format messages of a segment are pairwise distinct |
| SlugValidation.FormatErrorsEmptyIff | apps/studio/utils/slug-validation.ts:223-247 | a segment has no format error exactly when it is non-empty, uses only `[a-z0-9-]`, and has no edge or doubled hyphen |
| SlugValidation.TooShortIff | apps/studio/utils/slug-validation.ts:252-285 | a segment is warned too short exactly when it is not blank and has fewer than 3 UTF-16 code units |
| SlugValidation.TooLongIff | apps/studio/utils/slug-validation.ts:252-285 | a segment is warned too long exactly when it is not blank and has more than 60 UTF-16 code units |
| SlugValidation.SegmentWarningsAreLength | apps/studio/utils/slug-validation.ts:252-285 | the only warnings a segment gets are the two length warnings |
| SlugValidation.BlankSegmentIsRequired | apps/studio/utils/slug-validation.ts:213-218 | a blank segment gets exactly the `Required` error and no warning |
| SlugValidation.MissingLeadingSlashInStructure | apps/studio/utils/slug-validation.ts:307-310 | the structure check demands a leading `/` exactly when the options require one and it is missing |
| SlugValidation.TrailingSlashInStructure | apps/studio/utils/slug-validation.ts:312-315 | a trailing `/` is an error for every type but the home page |
| SlugValidation.MultipleSlashesInStructure | apps/studio/utils/slug-validation.ts:317-320 | `//` anywhere is an error, and only then |
| SlugValidation.ForbiddenLoop | apps/studio/utils/slug-validation.ts:356-364 | every message is the forbidden-pattern message, and there is one exactly when some pattern matches |
| SlugValidation.CustomLoop | apps/studio/utils/slug-validation.ts:378-382 | a message is produced exactly when some custom rule produced it |
| SlugValidation.SegmentValidations | apps/studio/utils/slug-validation.ts:424-429 | one result per segment, each the segment's own validation |
| SlugValidation.InErrorsOf | apps/studio/utils/slug-validation.ts:424-429 | a message is among the collected segment errors exactly when some segment reported it |
| SlugValidation.InWarningsOf | apps/studio/utils/slug-validation.ts:424-429 | a warning is among the collected segment warnings exactly when some segment reported it |
| SlugValidation.ValidationOf | apps/studio/utils/slug-validation.ts:390-444 | the errors and the warnings hold no duplicates, and hold exactly the messages the checks collected |
| SlugValidation.ValidateForbiddenPatterns | apps/studio/utils/slug-validation.ts:350-367 | the loop returns `ForbiddenErrors`: one copy of the type's not-allowed message per forbidden pattern the slug matches |
| SlugValidation.ValidateCustomRules | apps/studio/utils/slug-validation.ts:372-385 | the loop returns the custom rules' messages, in order |
| SlugValidation.ValidateSlug | apps/studio/utils/slug-validation.ts:390-444 | the imperative validator, with its per-segment loop and first-occurrence dedup, returns exactly `ValidationOf` |
| SlugValidation.BlankSlugIsRequired | apps/studio/utils/slug-validation.ts:394-399 | a missing or empty slug yields exactly `[Required]` and no warnings, whatever the options |
| SlugValidation.SegmentListWarningsAreLength | apps/studio/utils/slug-validation.ts:424-429 | over any list of segments every warning is a length warning |
| SlugValidation.SegmentListTooShort | apps/studio/utils/slug-validation.ts:424-429 | the too-short warning appears exactly when some non-blank segment is under 3 code units |
| SlugValidation.SegmentListTooLong | apps/studio/utils/slug-validation.ts:424-429 | the too-long warning appears exactly when some non-blank segment is over 60 code units |
| SlugValidation.WarningsAreLengthWarnings | apps/studio/utils/slug-validation.ts:424-443 | `validateSlug` emits no warning but the two length warnings, each exactly when some checked segment breaks its bound |
| SlugValidation.StructureMessageNotCustom | apps/studio/utils/slug-validation.ts:82-185 | no custom rule of the table produces a structure message |
| SlugValidation.StructureMessageNotSegment | apps/studio/utils/slug-validation.ts:213-285 | no segment check produces a structure message |
| SlugValidation.StructureMessageNotDynamic | apps/studio/utils/slug-validation.ts:302-304 | no message built from the options (segment count, prefix, forbidden pattern) equals a structure message |
| SlugValidation.StructureMessageOrigin | apps/studio/utils/slug-validation.ts:409-438 | a structure message is among the collected errors exactly when the slug has a `/` and the structure check reported it |
| SlugValidation.ErrorMembership | apps/studio/utils/slug-validation.ts:440-443 | dropping duplicates keeps exactly the collected messages |
| SlugValidation.MultipleSlashesIff | apps/studio/utils/slug-validation.ts:317-320 | a non-empty slug gets the multiple-slashes error exactly when it contains `//` |
| SlugValidation.TrailingSlashIff | apps/studio/utils/slug-validation.ts:312-315 | a non-empty slug gets the trailing-slash error exactly when it ends with `/` and the type is not the home page |
| SlugValidation.MissingLeadingSlashIff | apps/studio/utils/slug-validation.ts:307-310 | the missing-leading-slash error appears exactly when the slug has a `/`, the effective options require a leading slash and it is missing |
| SlugValidation.SingleSegmentSkipsStructure | apps/studio/utils/slug-validation.ts:430-438 | a slug without `/` gets no structure error, yet every custom-rule message of its type |
| SlugValidation.AboutPageHasNoSlashError | apps/studio/utils/slug-validation.ts:430-438 | `about` for a page gets no missing-leading-slash error |
| SlugValidation.ValidateSanitySlug | apps/studio/utils/slug-validation.ts:450-457 | accepted exactly when `validateSlug` reports no error and no warning, otherwise rejected with every error and then every warning joined by `; `; a missing or empty slug is rejected with `Required` |
| SlugValidation.ValidateSlugForDocumentType | apps/studio/utils/slug-validation.ts:482-488 | the list is the type-configured `validateSlug` errors followed by its warnings and nothing else, so it is empty exactly when the schema rule accepts |
| SlugValidation.ValidateSlugComprehensive | apps/studio/utils/slug-validation.ts:565-590 | `validation` is `validateSlug` of the slug with the options; valid exactly when it has no error, `hasErrors` the negation, `hasWarnings` exactly when it has a warning; `segments` the non-empty `/`-parts of a truthy slug, else none; one `validateSlugSegment` result per segment, in order |
| SlugValidation.ComprehensiveSegmentsAgree | apps/studio/utils/slug-validation.ts:576-580 | every message of the per-segment breakdown is in the aggregate result |
| SlugValidation.ReplaceWhitespaceRuns | apps/studio/utils/slug-validation.ts:500 | the result holds no white space, and text without white space is unchanged |
| SlugValidation.RemoveInvalidChars | apps/studio/utils/slug-validation.ts:501 | the result holds only `[a-z0-9-]`, and such text is unchanged |
| SlugValidation.TrimLeadingHyphens | apps/studio/utils/slug-validation.ts:503 | the result is a suffix of the input that does not start with `-`, the input itself when it did not |
| SlugValidation.TrimTrailingHyphens | apps/studio/utils/slug-validation.ts:503 | the result is a prefix of the input that does not end with `-`, the input itself when it did not |
| SlugValidation.CollapseHyphenRuns | apps/studio/utils/slug-validation.ts:502 | the result has no `--`, keeps slug characters, starts with `-` only if the input did, and leaves text without `--` alone |
| SlugValidation.TrimEdgeHyphensClean | apps/studio/utils/slug-validation.ts:503 | on slug characters without `--` the edge trim yields a clean slug |
| SlugValidation.TrimEdgeHyphensIdentity | apps/studio/utils/slug-validation.ts:503 | text without an edge hyphen is unchanged by the edge trim |
| SlugValidation.CleanSlugIsClean | apps/studio/utils/slug-validation.ts:493-504 | `cleanSlug` output has only `[a-z0-9-]`, no `--` and no edge hyphen |
| SlugValidation.CleanSlugOfClean | apps/studio/utils/slug-validation.ts:493-504 | a slug already clean is returned unchanged |
| SlugValidation.CleanSlugIdempotent | apps/studio/utils/slug-validation.ts:493-504 | cleaning twice is cleaning once |
| SlugValidation.CleanSlugPassesFormat | apps/studio/utils/slug-validation.ts:493-504 | a non-empty cleaned slug has no format error |
| SlugValidation.CleanSlugOfBlank | apps/studio/utils/slug-validation.ts:493-504 | white-space-only text cleans to the empty slug |
| SlugValidation.CleanSlugWithValidation | apps/studio/utils/slug-validation.ts:595-644 | the step-by-step cleaner returns exactly the report `TrackedClean` specifies |
| SlugValidation.LowerStepText | apps/studio/utils/slug-validation.ts:614-617 | after the lowercase step the text is lowercased |
| SlugValidation.InvalidStepText | apps/studio/utils/slug-validation.ts:624-627 | after the character step the text is the filtered text |
| SlugValidation.HyphenStepText | apps/studio/utils/slug-validation.ts:629-632 | after the hyphen step the text is the collapsed text, with no `--` |
| SlugValidation.EdgeStepText | apps/studio/utils/slug-validation.ts:634-637 | after the edge step the text is edge-trimmed |
| SlugValidation.SpaceStepText | apps/studio/utils/slug-validation.ts:619-622 | when the text has a plain space or no white space, the space step leaves the hyphenated text |
| SlugValidation.TrackedCleanIsClean | apps/studio/utils/slug-validation.ts:611-643 | the tracked cleaner also produces a clean slug |
| SlugValidation.TrackedCleanAgrees | apps/studio/utils/slug-validation.ts:611-643 | when the slug has a plain space or no white space, both cleaners agree |
| SlugValidation.LaterStepsShape | apps/studio/utils/slug-validation.ts:619-637 | each step notes at most one change and only the first notes the lowercase change |
| SlugValidation.TrackedCleanReport | apps/studio/utils/slug-validation.ts:611-643 | no change noted means the slug came back unchanged; the lowercase change is noted exactly when lowercasing changes the slug |
| SlugValidation.CleanSlugAroundBreak | apps/studio/utils/slug-validation.ts:498-503 | `cleanSlug` turns white space between two letters into `-` |
| SlugValidation.TrackedCleanAroundBreak | apps/studio/utils/slug-validation.ts:619-627 | the tracked cleaner drops non-space white space between two letters instead |
| SlugValidation.TrackedCleanDropsTab | apps/studio/utils/slug-validation.ts:619-627 | `a<tab>b` cleans to `a-b` with `cleanSlug` and to `ab` with `cleanSlugWithValidation` |
| SlugValidation.SlugForType | apps/studio/utils/slug-validation.ts:526-558 | the fixed slugs of the home page and the blog index, the author and blog prefixes, the page rule, and `/<clean>` for unknown types |
| SlugValidation.DefaultSlug | apps/studio/utils/slug-validation.ts:550-557 | with a required prefix the slug starts with it and ends with the cleaned title; without one it is `/<clean>` |
| SlugValidation.GenerateSlugFromTitle | apps/studio/utils/slug-validation.ts:509-559 | a blank or uncleanable title gives `""`; otherwise the type's slug of the cleaned title |
| SlugValidation.GeneratedEmptyIff | apps/studio/utils/slug-validation.ts:514-523 | the generated slug is empty exactly when the title cleans to nothing |
| SlugValidation.GenerateForUnknownType | apps/studio/utils/slug-validation.ts:550-557 | an unknown type gets `/<clean>` |
| SlugValidation.PageSlugKeepsParents | apps/studio/utils/slug-validation.ts:539-548 | a page under a nested slug keeps every parent segment and replaces the last |
| SlugValidation.CleanSlugHasNoSlash | apps/studio/utils/slug-validation.ts:493-504 | a cleaned slug holds no `/` |
| SlugValidation.GeneratePageKeepsParents | apps/studio/utils/slug-validation.ts:539-548 | the same, through `generateSlugFromTitle` |
| SlugValidation.GeneratePageAtRoot | apps/studio/utils/slug-validation.ts:539-548 | a page without a nested current slug lands at `/<clean>` |
| SlugHook.SanityErrors | apps/studio/hooks/use-slug-validation.tsx:12-26 | nothing when disabled; otherwise exactly the messages of the entries whose path names `current` or `slug`, none of them empty, never more than there are entries |
| SlugHook.SanityErrorsAppend | apps/studio/hooks/use-slug-validation.tsx:20-25 | the extracted messages keep the order of the entries they come from |
| SlugHook.ParseSlugSegments | apps/studio/hooks/use-slug-validation.tsx:29-34 | a missing or empty slug has no segments; every segment is non-empty and holds no `/` |
| SlugHook.ParseSlugSegmentsOfPath | apps/studio/hooks/use-slug-validation.tsx:29-34 | a path written `/a/b/c` parses back to exactly its segments |
| SlugHook.ValidateSegments | apps/studio/hooks/use-slug-validation.tsx:37-39 | one result per segment, each `validateSlug` of that segment with no options |
| SlugHook.SegmentValidationHasNoStructureErrors | apps/studio/hooks/use-slug-validation.tsx:162-168 | a segment checked on its own never gets a leading-, trailing- or multiple-slash error |
| SlugHook.DocumentConfig | apps/studio/hooks/use-slug-validation.tsx:122-128 | the given document type wins over the form's, and with neither there are no options |
| SlugHook.UnifiedValidation | apps/studio/hooks/use-slug-validation.tsx:152-159 | an empty slug has no messages at all; otherwise the result is `validateSlug` with the configuration, free of duplicates |
| SlugHook.EmptySlugDiffers | apps/studio/hooks/use-slug-validation.tsx:152-159 | for `""` the hook reports no error where `validateSlug` reports `Required` |
| SlugHook.Without | apps/studio/hooks/use-slug-validation.tsx:184-186 | keeps exactly the members not excluded, without adding duplicates |
| SlugHook.Combined | apps/studio/hooks/use-slug-validation.tsx:171-192 | errors are the unified errors then the external ones, once each, first occurrence first; warnings once each and never also an error |
| SlugHook.CombinedWithoutExternal | apps/studio/hooks/use-slug-validation.tsx:171-192 | with no external messages a duplicate-free result keeps its errors |
| SlugHook.CombineValidation | apps/studio/hooks/use-slug-validation.tsx:171-192 | the push-then-dedup method returns exactly `Combined` |
| SlugHook.UseSlugValidation | apps/studio/hooks/use-slug-validation.tsx:111-216 | the flags: critical exactly when there is an error, issues exactly when there is an error or a warning; every other field is the result of its part |
| SlugHook.EmptySlugKeepsOnlyExternal | apps/studio/hooks/use-slug-validation.tsx:152-192 | for an empty slug only the form's messages remain, once each, with no warning and no segment |
| SlugHook.UseBasicSlugValidation | apps/studio/hooks/use-slug-validation.tsx:221-235 | valid exactly when there is no error; the form's messages are left out; an empty slug is valid with no message |
| Redirect.LoopQuery | apps/studio/schemaTypes/documents/redirect.ts:22-27 | the query returns exactly the redirects, other than either version of the edited one, that use the slug at some end |
| Redirect.RedirectLoop | apps/studio/schemaTypes/documents/redirect.ts:12-29 | a loop exactly when some other redirect starts or ends at the slug |
| Redirect.RedirectLoopIgnoresOwnVersions | apps/studio/schemaTypes/documents/redirect.ts:22-26 | adding the edited redirect's own published or draft version never changes the answer |
| Redirect.RedirectLoopSameForDraft | apps/studio/schemaTypes/documents/redirect.ts:22-23 | editing the draft or the published version gives the same answer |
| Redirect.PathRule | apps/studio/schemaTypes/documents/redirect.ts:59-81 | each message exactly under its condition, in early-return order: blank, no leading `/`, same as the other end, then a loop; accepted otherwise |
| Redirect.SourceRule | apps/studio/schemaTypes/documents/redirect.ts:59-81 | the source is accepted exactly when it is present, starts with `/`, differs from the destination and closes no loop |
| Redirect.DestinationRule | apps/studio/schemaTypes/documents/redirect.ts:93-114 | the same with the two ends swapped |
| Redirect.AcceptedEndsDiffer | apps/studio/schemaTypes/documents/redirect.ts:68-71 | a redirect whose source is accepted has two different ends |
| SlugUtils.DocTypePrefix | apps/studio/utils/slug.ts:52-57 | `""` exactly for `page`; every other type is its own prefix |
| SlugUtils.FixedSlug | apps/studio/utils/slug.ts:59-62 | a fixed slug exactly for the home page and the blog index, each starting with `/` |
| SlugUtils.CreateSlug | apps/studio/utils/slug.ts:64-81 | always starts with `/`; `/` for the home page and `/blog` for the blog index whatever the title; otherwise `/` and the non-empty members of prefix and slugified title joined by `/` |
| SlugUtils.CreateSlugPage | apps/studio/utils/slug.ts:73-80 | a page slug is the slugified title directly under the root |
| SlugUtils.CreateSlugOther | apps/studio/utils/slug.ts:73-80 | any other type puts its name first, alone when the title slugifies to nothing |
| SlugUtils.ConflictingDocs | apps/studio/utils/slug.ts:40-48 | the query returns exactly the documents, other than either version of the edited one, whose slug is the one checked |
| SlugUtils.IsUnique | apps/studio/utils/slug.ts:34-50 | unique exactly when no document conflicts |
| SlugUtils.IsUniqueSameForDraft | apps/studio/utils/slug.ts:40-41 | the draft and the published version get the same answer |
| SlugUtils.IsUniqueIgnoresOwnVersions | apps/studio/utils/slug.ts:40-47 | the document's own versions never make its slug taken |
| SlugUtils.DefineSlug | apps/studio/utils/slug.ts:13-32 | a field of type `slug`, named as given or `slug`, titled as given or `URL`; the schema's components copied, or none; the caller's uniqueness check wins, `isUnique` otherwise; every other slug option copied; every other schema property copied unless `defineSlug` writes that key itself |
| SlugUtils.DefineSlugDefaults | apps/studio/utils/slug.ts:13-32 | with no arguments the field is `slug`, titled `URL`, checked by `isUnique` |
| SanityIds.PublishedId | apps/studio/utils/slug.ts:40 | the id with a leading `drafts.` removed, any other id unchanged |
| SanityIds.DraftId | apps/studio/utils/slug.ts:41 | always a draft id, and a draft id is left as it is |
| SanityIds.PublishedOfDraft | apps/studio/utils/slug.ts:40-41 | the draft id of a published id strips back to it |
| SanityIds.DraftAndPublishedAgree | apps/studio/utils/slug.ts:40-41 | a draft and its published document share one published id |
| StudioHelper.IsRelativeUrlIff | apps/studio/utils/helper.ts:3-4 | a URL is relative exactly when its first character is `/`, `#` or `?` |
| StudioHelper.Capitalize | apps/studio/utils/helper.ts:15-16 | same length; only the first character is upper-cased, the rest is untouched (`""` stays `""`) |
| StudioHelper.SpaceBeforeCapitals | apps/studio/utils/helper.ts:19 | never shorter; a leading capital becomes a leading space, any other first character stays |
| StudioHelper.SpaceBeforeCapitalsRoundTrip | apps/studio/utils/helper.ts:19 | the inserted spaces can be taken out again to give back the name |
| StudioHelper.TitleCaseOfCapital | apps/studio/utils/helper.ts:18-21 | a name starting with a capital comes back with a leading space |
| StudioHelper.TitleCaseOfCamel | apps/studio/utils/helper.ts:18-21 | a camel-case pair of lower-case words becomes two capitalised words separated by a space |
| StudioHelper.CreateRadioListLayout | apps/studio/utils/helper.ts:23-41 | the keys are `layout`, `list` and the caller's options; every option given wins, an explicit `undefined` included; otherwise `layout` is `radio` and `list` holds one entry per item, in order |
| StudioHelper.RadioList | apps/studio/utils/helper.ts:27-35 | one entry per item, in order, each the item's `ToEntry` |
| StudioHelper.UndefinedLayoutErasesRadio | apps/studio/utils/helper.ts:36-40 | options with `layout: undefined` leave the layout undefined, not `radio` |
| StudioHelper.RadioEntries | apps/studio/utils/helper.ts:27-35 | a bare value is titled by `getTitleCase` of itself; a titled entry is kept |
| StudioHelper.TruthyTexts | apps/studio/utils/helper.ts:56-58 | only non-empty texts are kept, never more than there are children |
| StudioHelper.SliceTo | apps/studio/utils/helper.ts:62 | `slice(0, n)` is a prefix of length `min(n, len)`, or `len + n` clamped at zero for negative `n` |
| StudioHelper.ParseRichTextToString | apps/studio/utils/helper.ts:43-65 | `No Content` for a non-array; the whole text without a word limit; the first `maxWords` space-separated words and `...` with one |
| StudioHelper.SummaryWordCount | apps/studio/utils/helper.ts:61-63 | a summary ends with `...` and splits back into at most `maxWords` words, the first words of the text |
| StudioHelper.Chunk | apps/studio/utils/helper.ts:67-73 | a chunk never holds more elements than the array |
| StudioHelper.SplitArray | apps/studio/utils/helper.ts:67-73 | fails exactly when a non-empty array is split into zero chunks; otherwise `numChunks` chunks, chunk `j` the elements whose index is `j` modulo `numChunks` |
| StudioHelper.ChunkSize | apps/studio/utils/helper.ts:67-73 | chunk `j` has `len / n` elements, one more for the first `len % n` chunks |
| StudioHelper.ChunksBalanced | apps/studio/utils/helper.ts:67-73 | chunk sizes differ by at most one |
| StudioHelper.ChunksCoverAll | apps/studio/utils/helper.ts:67-73 | the chunk sizes add up to the array's length |
| StudioHelper.DashesToSpaces | apps/studio/utils/helper.ts:132 | same length; each `-` becomes a space, every other character stays |
| StudioHelper.PathnameToTitle | apps/studio/utils/helper.ts:124-133 | `/` is `Home` |
| StudioHelper.PathnameToTitleOfPath | apps/studio/utils/helper.ts:124-133 | the title comes from the last segment: first character upper-cased, its other hyphens spaces |
| StudioHelper.PathnameToTitleWithoutSegments | apps/studio/utils/helper.ts:128 | a path other than `/` without segments has an empty title |
| StudioHelper.TemplateName | apps/studio/utils/helper.ts:135 | the template name followed by the ten characters `-with-slug` |
| StudioHelper.TemplateValue | apps/studio/utils/helper.ts:152-154 | the initial value holds a `slug` key exactly when a non-empty slug is given, and then the slug object |
| StudioHelper.CreatePageTemplate | apps/studio/utils/helper.ts:137-162 | exactly two templates, for `page` and `blog`, titled `Page with slug` and `Blog with slug`, each with id `getTemplateName` of its type and a `slug` string parameter |
| StudioHelper.TemplateIdsDistinct | apps/studio/utils/helper.ts:137-162 | the two templates have different ids |
| TableOfContent.HeadingLevel | apps/web/src/components/elements/table-of-content.tsx:69-75 | every heading style has a level from 2 to 6 |
| TableOfContent.HeadingBlocks | apps/web/src/components/elements/table-of-content.tsx:173-183 | a missing rich text has none; otherwise exactly the heading blocks, in order, and none exactly when no block is a heading |
| TableOfContent.SpanText | apps/web/src/components/elements/table-of-content.tsx:155 | a span's text is empty exactly when it is missing or blank, and never starts with white space |
| TableOfContent.TrimmedTexts | apps/web/src/components/elements/table-of-content.tsx:154-156 | every kept text is non-empty and trimmed, and none is kept exactly when every span is blank |
| TableOfContent.ExtractTextEmptyIff | apps/web/src/components/elements/table-of-content.tsx:152-162 | the heading text is empty exactly when every span is blank |
| TableOfContent.UniqueIdCases | apps/web/src/components/elements/table-of-content.tsx:164-167 | `toc-` followed by the block key if set, else the slug of the text if any, else `heading-<index>` |
| TableOfContent.CreateSlugCases | apps/web/src/components/elements/table-of-content.tsx:137-150 | empty for blank text or text that slugifies to nothing; otherwise the slugified trimmed text |
| TableOfContent.ProcessedHeading | apps/web/src/components/elements/table-of-content.tsx:185-213 | no heading exactly when the text is empty; otherwise the text, the style's level (2 to 6), the style and key, no children, not a child |
| TableOfContent.ProcessedHeadingLinks | apps/web/src/components/elements/table-of-content.tsx:196-198 | the id is `generateUniqueId` of the text and the link `#` and its slug |
| TableOfContent.Somes | apps/web/src/components/elements/table-of-content.tsx:308-310 | keeps exactly the present values, in order, and nothing exactly when every value is missing |
| TableOfContent.Candidates | apps/web/src/components/elements/table-of-content.tsx:308-309 | one candidate per block, each the block processed at its position |
| TableOfContent.FlatHeadingsFresh | apps/web/src/components/elements/table-of-content.tsx:200-209 | every flat heading is a top-level entry of level 2 to 6 with no children yet |
| TableOfContent.FlatHeadingsEmptyIff | apps/web/src/components/elements/table-of-content.tsx:308-310 | no heading comes out exactly when no heading block has any text |
| TableOfContent.End | apps/web/src/components/elements/table-of-content.tsx:269-274 | the scan for children of `p` stops at the first later heading not deeper than `p`, or at the end |
| TableOfContent.EndNested | apps/web/src/components/elements/table-of-content.tsx:269-274 | the range of a heading inside the range of `p` ends inside it too |
| TableOfContent.KidsSound | apps/web/src/components/elements/table-of-content.tsx:269-294 | the children found from a position are placed inside the parent's range, no deeper than `maxDepth`, each once and in order |
| TableOfContent.ChildSlotsSound | apps/web/src/components/elements/table-of-content.tsx:254-297 | the same for all the children of a heading |
| TableOfContent.RootsSound | apps/web/src/components/elements/table-of-content.tsx:227-243 | the top-level entries from a position on are placed after it, each once and in order |
| TableOfContent.Render | apps/web/src/components/elements/table-of-content.tsx:239-242 | one rendered heading per entry |
| TableOfContent.CollectChildHeadings | apps/web/src/components/elements/table-of-content.tsx:254-297 | the loop returns the rendered child slots of the parent and marks as processed exactly the positions in its range no deeper than `maxDepth` |
| TableOfContent.BuildHeadingHierarchy | apps/web/src/components/elements/table-of-content.tsx:215-252 | the loop returns the rendered top-level entries with everything nested under them |
| TableOfContent.Hierarchy | apps/web/src/components/elements/table-of-content.tsx:215-252 | one top-level heading per top-level entry |
| TableOfContent.RenderKeeps | apps/web/src/components/elements/table-of-content.tsx:239-242 | each rendered heading is the flat heading with its own children nested, marked as a child below the top level |
| TableOfContent.KidsComplete | apps/web/src/components/elements/table-of-content.tsx:269-294 | every heading no deeper than `maxDepth` in the parent's range from a position on is placed under it |
| TableOfContent.RootsComplete | apps/web/src/components/elements/table-of-content.tsx:227-243 | every heading no deeper than `maxDepth` from a position on is placed somewhere |
| TableOfContent.HierarchyPlacesEachOnce | apps/web/src/components/elements/table-of-content.tsx:215-297 | the table places exactly the headings no deeper than `maxDepth`, each once, in document order |
| TableOfContent.ChildrenAreDeeper | apps/web/src/components/elements/table-of-content.tsx:260-278 | a heading at or below `maxDepth` has no children; every descendant is later, deeper, no deeper than `maxDepth`, and before the next heading not deeper than it |
| TableOfContent.KidsEntries | apps/web/src/components/elements/table-of-content.tsx:282-293 | each child entry carries its own child slots |
| TableOfContent.RootsEntries | apps/web/src/components/elements/table-of-content.tsx:232-242 | each top-level entry carries its own child slots |
| TableOfContent.HierarchyNonEmptyIff | apps/web/src/components/elements/table-of-content.tsx:227-243 | there is a top-level entry exactly when some heading is no deeper than `maxDepth` |
| TableOfContent.CandidateShown | apps/web/src/components/elements/table-of-content.tsx:185-213 | a block yields a heading no deeper than `maxDepth` exactly when it has text and its level is within `maxDepth` |
| TableOfContent.FlatHeadingsShown | apps/web/src/components/elements/table-of-content.tsx:308-310 | some flat heading is within `maxDepth` exactly when some block is shown |
| TableOfContent.ProcessHeadingBlocks | apps/web/src/components/elements/table-of-content.tsx:299-316 | the table of the processed headings of the blocks |
| TableOfContent.TableOfContentState | apps/web/src/components/elements/table-of-content.tsx:322-358 | the headings are the table of the rich text's heading blocks, shown exactly when some heading block has text within `maxDepth` (default 6), exactly when the table is non-empty |
| JsonLd.BlockTexts | apps/web/src/components/json-ld.tsx:53-61 | never more texts than blocks |
| JsonLd.PlainText | apps/web/src/components/json-ld.tsx:46-64 | empty for a non-array; otherwise trimmed at both ends |
| JsonLd.PlainTextSkips | apps/web/src/components/json-ld.tsx:54 | a block of another type, or one without children, adds nothing |
| JsonLd.SpanTextsSkips | apps/web/src/components/json-ld.tsx:58 | a span of another type, or one with no text, adds nothing |
| JsonLd.BlockTextsSeparated | apps/web/src/components/json-ld.tsx:55-62 | each further text block is joined to the text before it by one space, its spans run together |
| JsonLd.PlainTextOfOneBlock | apps/web/src/components/json-ld.tsx:46-64 | a single block reads as its spans' texts run together, trimmed |
| JsonLd.ValidFaqs | apps/web/src/components/json-ld.tsx:85-87 | keeps only entries with a title and a rich text, and none exactly when no entry has both |
| JsonLd.Questions | apps/web/src/components/json-ld.tsx:96-105 | one question per valid entry, in order |
| JsonLd.FaqJsonLd | apps/web/src/components/json-ld.tsx:80-109 | nothing exactly when the list is missing or no entry is valid; otherwise a FAQ page of the valid entries' questions |
| JsonLd.FaqQuestionsFollowEntries | apps/web/src/components/json-ld.tsx:96-105 | each question is named by its entry's title and answered by the plain text of its rich text |
| JsonLd.ValidFaqsAppend | apps/web/src/components/json-ld.tsx:85-87 | the kept entries keep their input order |
| JsonLd.TruthyValues | apps/web/src/components/json-ld.tsx:206-208 | exactly the set, non-empty social links |
| JsonLd.OrUndefined | apps/web/src/components/json-ld.tsx:214 | `x or undefined`: present exactly when the value is a non-empty string, and then that value |
| JsonLd.OrganizationJsonLd | apps/web/src/components/json-ld.tsx:199-233 | nothing exactly without settings; the site URL and title, the description when non-empty, an image object whose URL is the settings logo exactly when the logo is non-empty, a customer-service contact exactly when an email is set, and `sameAs` exactly when some social link is non-empty |
| JsonLd.SameAsListsTruthyLinks | apps/web/src/components/json-ld.tsx:206-229 | every non-empty social link is listed |
| JsonLd.SafeImageUrl | apps/web/src/components/json-ld.tsx:115-125 | a URL exactly when the image has a non-empty id, and then the image builder's URL for it |
| JsonLd.ArticleJsonLd | apps/web/src/components/json-ld.tsx:132-192 | nothing exactly without an article; its URL is the base URL and slug and names its page; at most one author, present exactly when authors are set; the image, as the one-element list of the safe URL, exactly when that URL exists and is non-empty; the headline the title and the description the non-empty description; the author's image object, built from the safe URL, exactly when the author has an image; the publisher named by the site title or `Website`, with a logo image object whose URL is the settings logo exactly when that logo is non-empty |
| MediaUtils.ParseRef | apps/web/src/components/shared/media-utils.ts:15-17 | a match is exactly `file-` + id + `-` + extension, both non-empty and alphanumeric |
| MediaUtils.AlphanumericHasNoHyphen | apps/web/src/components/shared/media-utils.ts:15 | an alphanumeric group holds no `-`, so the split point of a reference is unique |
| MediaUtils.ParseRefOfRef | apps/web/src/components/shared/media-utils.ts:15-17 | every reference of the expected form parses back to its own id and extension |
| MediaUtils.UrlFromRef | apps/web/src/components/shared/media-utils.ts:10-19 | a URL exactly when the reference is a non-empty string that matches, and then the CDN file URL of the project, dataset, id and extension |
| MediaUtils.SplitAppend | apps/web/src/components/shared/media-utils.ts:59 | splitting on a separator ends with the text after its last occurrence |
| MediaUtils.LastPartAfter | apps/web/src/components/shared/media-utils.ts:59 | `split(c).pop()` is the text after the last separator |
| MediaUtils.MimeTypeOfBuiltUrl | apps/web/src/components/shared/media-utils.ts:58-64 | the type guessed from a built URL is the one guessed from the reference's extension, lower-cased |
| MediaUtils.VideoOf | apps/web/src/components/shared/media-utils.ts:39-66 | with a direct URL: a video exactly when the type is missing or starts with `video/`, with that URL and type; without: a video exactly when the reference builds a URL, with that URL and the item's own type when given |
| MediaUtils.ImagesOf | apps/web/src/components/shared/media-utils.ts:33-36 | every image kept is an image item of the input, and there are no more than the items |
| MediaUtils.VideosOf | apps/web/src/components/shared/media-utils.ts:39-66 | no more videos than items |
| MediaUtils.NormalizeMedia | apps/web/src/components/shared/media-utils.ts:24-76 | the loop returns `Normalized`: images and videos in input order, the fallback image only when no image was found |
| MediaUtils.PushMediaItem | apps/web/src/components/shared/media-utils.ts:32-68 | one item adds itself to the images when it is an image, and adds the video `VideoOf` gives when it is a file or video item; nothing else changes |
| MediaUtils.NoMediaList | apps/web/src/components/shared/media-utils.ts:31-73 | without a media list there are no videos and the images are the fallback alone, if given |
| MediaUtils.ImagesOfAppend | apps/web/src/components/shared/media-utils.ts:32-36 | images keep their input order |
| MediaUtils.VideosOfAppend | apps/web/src/components/shared/media-utils.ts:32-65 | videos keep their input order |
| MediaUtils.AtMostOneEach | apps/web/src/components/shared/media-utils.ts:32-68 | each item contributes at most one image or one video |
| MediaUtils.NormalizedSize | apps/web/src/components/shared/media-utils.ts:71-75 | at most one entry more than the input, and the fallback is never added when an image exists |
| MediaUtils.RefVideoMimeType | apps/web/src/components/shared/media-utils.ts:57-65 | a video built from a reference with no type of its own gets the guessed type |
| MediaUtils.DirectUrlWins | apps/web/src/components/shared/media-utils.ts:44-50 | with a direct URL the reference is never consulted |
| Seo.OgQueryEntries | apps/web/src/lib/seo.ts:41-49 | one entry per set, non-empty parameter, `id` first and `type` last |
| Seo.Pairs | apps/web/src/lib/seo.ts:52 | each entry is written as key `=` value, in order |
| Seo.OgImageUrl | apps/web/src/lib/seo.ts:40-53 | the base URL, `/api/og?` and the query of the given parameters; a missing argument is `{}` |
| Seo.ParsePairOfPair | apps/web/src/lib/seo.ts:52 | a pair written without `&` or `=` in it reads back as itself |
| Seo.ParseQueryString | apps/web/src/lib/seo.ts:52 | a query string of plain entries reads back as those entries, in order |
| Seo.OgImageUrlCarriesParams | apps/web/src/lib/seo.ts:40-53 | the social-card URL's query reads back as exactly the set `id` and `type`, in that order |
| Seo.OgImageUrlDefault | apps/web/src/lib/seo.ts:40-53 | without parameters the URL ends in the bare `?` |
| Seo.PageUrl | apps/web/src/lib/seo.ts:55-64 | the base URL then the slug, with a `/` added in front exactly when the slug lacks one |
| Seo.PageUrlIsPath | apps/web/src/lib/seo.ts:62-63 | a page URL is the base URL followed by a path, and a slug with or without the leading `/` gives the same URL |
| Seo.DropLeadingSlash | apps/web/src/lib/seo.ts:79 | exactly one leading `/` is removed, and nothing else changes |
| Seo.ExtractTitle | apps/web/src/lib/seo.ts:66-82 | the page title when non-empty; else the capitalised slug without its leading `/` when the slug is neither empty nor `/`; else the site title |
| Seo.ExtractTitleNonEmpty | apps/web/src/lib/seo.ts:66-82 | the title is never empty when the site title is not |
| Seo.FullTitle | apps/web/src/lib/seo.ts:114-117 | the site title alone, or the page title, then a space, a vertical bar and a space, then the site title |
| Seo.FullTitleIs | apps/web/src/lib/seo.ts:114-117 | the full title is the site title exactly when the page title is, and always ends with it |
| Seo.Robots | apps/web/src/lib/seo.ts:92-130 | `noindex` exactly when `seoNoIndex` is true, `index` otherwise (a missing flag is false) |
| Seo.Overrides | apps/web/src/lib/seo.ts:85-95 | the rest of the page: every field the destructuring does not take out, with its value |
| Seo.DefaultsOf | apps/web/src/lib/seo.ts:85-117 | the slug defaults to `/`, keywords to none, the description to the site's when empty, the social card gets the content type and id |
| Seo.DefaultMetadata | apps/web/src/lib/seo.ts:120-157 | exactly the default keys, with the full title, the description, the site then page keywords, the robots policy and the canonical page URL |
| Seo.SeoMetadata | apps/web/src/lib/seo.ts:84-164 | the key set is the defaults' and the page's extra fields; an extra field of the page always wins, `undefined` included; a default stays where the page sets none |
| Seo.UndefinedOverrideErases | apps/web/src/lib/seo.ts:160-163 | a leftover page field set to `undefined` erases the default under its key |
| Seo.KeywordsExtendSite | apps/web/src/lib/seo.ts:107 | the site keywords always come first |
| Seo.DefaultCanonicalIsRoot | apps/web/src/lib/seo.ts:88-98 | a page without a slug is canonical at the site root |
| Seo.DefaultTitleIsSiteTitle | apps/web/src/lib/seo.ts:84-117 | `getSEOMetadata()` carries the site title alone and is indexable |
| WebUtils.AssertValue | apps/web/src/utils.ts:4-10 | fails with the given message exactly when the value is undefined, and otherwise returns it unchanged |
| WebUtils.AssertValueKeepsNull | apps/web/src/utils.ts:5 | a present `null` is passed through, not rejected |
| WebUtils.BaseUrl | apps/web/src/utils.ts:12-21 | the production URL, the preview URL or the local URL, as the deployment says |
| WebUtils.BaseUrlIsAbsolute | apps/web/src/utils.ts:12-21 | the URL is `https://` exactly on production and preview deployments, and the local URL otherwise |
| WebUtils.ConvertToSlug | apps/web/src/utils.ts:59-70 | an empty or missing text gives the fallback (by default `top-level`); any other is trimmed and then slugified |
| WebUtils.ConvertToSlugIgnoresPadding | apps/web/src/utils.ts:66 | texts that differ only in surrounding white space give the same slug |
| WebUtils.TrimPadded | apps/web/src/utils.ts:66 | trimming removes exactly the padding around the text |
| WebUtils.ConcatTexts | apps/web/src/utils.ts:76 | the children's texts in order, each missing text contributing nothing |
| WebUtils.ParseChildrenToSlug | apps/web/src/utils.ts:72-77 | empty for no children, else the slug of the joined texts |
| WebUtils.ConcatOfEmptyTexts | apps/web/src/utils.ts:76 | children without text join to the empty text |
| WebUtils.ChildrenWithoutTextAreTopLevel | apps/web/src/utils.ts:63-76 | children that carry no text give the `top-level` fallback |
| OgConfig.LeadingDigits | apps/web/src/app/api/og/og-config.ts:10-16 | the longest prefix of decimal digits: it is a prefix, all digits, and the next character is not a digit |
| OgConfig.Unsigned | apps/web/src/app/api/og/og-config.ts:10-16 | one leading sign is dropped, and only one |
| OgConfig.ParseInt | apps/web/src/app/api/og/og-config.ts:10-12 | `NaN` exactly when, after leading white space and a sign, no digit follows |
| OgConfig.DigitsOfNat | apps/web/src/app/api/og/og-config.ts:10-16 | a number written in decimal reads back as itself |
| OgConfig.LeadingDigitsOfDigits | apps/web/src/app/api/og/og-config.ts:10-16 | a run of digits is read whole |
| OgConfig.ParseIntOfIntToString | apps/web/src/app/api/og/og-config.ts:10-16 | the model's `parseInt` inverts the decimal rendering of every integer, negative ones included; the source agrees only up to magnitude 2^53 (see Left out) |
| OgConfig.ParseIntIgnoresTail | apps/web/src/app/api/og/og-config.ts:10-16 | whatever follows the digits is ignored |
| OgConfig.LeadingDigitsSplit | apps/web/src/app/api/og/og-config.ts:10-16 | the digit run stops at the first character that is not a digit |
| OgConfig.Dimension | apps/web/src/app/api/og/og-config.ts:10-16 | the parsed parameter, or the default when the parameter is missing or not a number |
| OgConfig.OgMetaData | apps/web/src/app/api/og/og-config.ts:1-19 | the width defaults to 1200 and the height to 630, each read from its own parameter |
| OgConfig.OgDimensionsUnbounded | apps/web/src/app/api/og/og-config.ts:10-16 | no bound is checked: any integer, zero and negative ones included, passes through in the model; the source's doubles keep it exact only up to magnitude 2^53 (see Left out) |
| OgConfig.OgDimensionsIndependent | apps/web/src/app/api/og/og-config.ts:10-16 | each dimension depends on its own parameter only |
| SanityCli.StudioHost | apps/studio/sanity.cli.ts:12-29 | with a production host name: the branch host joined to it by `-` unless the branch is unset or `main`, else the production host name alone; without one: the project id, or no host |
| SanityCli.StudioHostShape | apps/studio/sanity.cli.ts:12-29 | a host is never empty, and with a production host name there is always one, ending in that name |
| SanityCli.EmptyIsUnset | apps/studio/sanity.cli.ts:16-24 | an empty variable behaves as an unset one |
| SanityCli.HostIgnoredWithoutProduction | apps/studio/sanity.cli.ts:16-26 | without a production host name the branch host plays no part |
| CliAlert.ParamRun | apps/studio/scripts/cli-alert-for-data.ts:20 | the longest leading run of digits and `;`: all of it belongs and the next character does not |
| CliAlert.EscapeAt | apps/studio/scripts/cli-alert-for-data.ts:20 | the escape sequence the text starts with, when there is one, and it is the only one a match can take |
| CliAlert.StripAnsi | apps/studio/scripts/cli-alert-for-data.ts:20 | removing the escapes never lengthens the text |
| CliAlert.StripPrefix | apps/studio/scripts/cli-alert-for-data.ts:20 | text without an escape character before the rest passes through untouched |
| CliAlert.StripPlain | apps/studio/scripts/cli-alert-for-data.ts:20 | text without an escape character is unchanged |
| CliAlert.StripEscape | apps/studio/scripts/cli-alert-for-data.ts:20 | a leading escape sequence disappears whatever follows it |
| CliAlert.ParamRunAppend | apps/studio/scripts/cli-alert-for-data.ts:20 | appending characters that cannot extend a sequence leaves the parameter run unchanged |
| CliAlert.EscapeAtAppend | apps/studio/scripts/cli-alert-for-data.ts:20 | appending them leaves the leading escape unchanged |
| CliAlert.StripSuffix | apps/studio/scripts/cli-alert-for-data.ts:20 | such a suffix survives the stripping as it is |
| CliAlert.PadLineWidth | apps/studio/scripts/cli-alert-for-data.ts:18-25 | a line of at most 107 visible characters is padded to the box width plus its two borders; a longer one gets no right padding |
| CliAlert.PadLineBlank | apps/studio/scripts/cli-alert-for-data.ts:18-41 | `padLine()` is a blank line of the box's width |
| CliAlert.BorderWidth | apps/studio/scripts/cli-alert-for-data.ts:37-51 | the top and bottom borders are as wide as every padded line that fits |
| CliAlert.StyleCommandVisible | apps/studio/scripts/cli-alert-for-data.ts:30-32 | a styled command shows as the command alone |
| CliAlert.MessageVisible | apps/studio/scripts/cli-alert-for-data.ts:39-46 | a blue message shows as the message alone |
| CliAlert.CommandLineVisible | apps/studio/scripts/cli-alert-for-data.ts:43-48 | a blue styled command line shows as the command alone |
| CliAlert.StyledLinesFit | apps/studio/scripts/cli-alert-for-data.ts:38-49 | coloured message and command lines of at most 107 characters fill the box exactly |
| NestedPages.KeptDomain | apps/studio/components/nested-pages-structure.ts:60-77 | the map holds exactly the keys in the order they were first set |
| NestedPages.KeyOrderStep | apps/studio/components/nested-pages-structure.ts:69-74 | `map.set` on a new key puts it last, and on a key that is already there keeps its place |
| NestedPages.KeptIds | apps/studio/components/nested-pages-structure.ts:70-73 | each kept entry is stored under its published id, carries that id and has a slug |
| NestedPages.DeduplicatedShape | apps/studio/components/nested-pages-structure.ts:59-78 | one document per published id, in first-seen order, each with its normalised id and a slug, no id twice |
| NestedPages.DeduplicatedCovers | apps/studio/components/nested-pages-structure.ts:62-75 | an id gets an entry exactly when some document with an id and a slug has that published id |
| NestedPages.EligibleIdsIff | apps/studio/components/nested-pages-structure.ts:63-67 | the ids taking part are exactly those of documents with an id and a slug |
| NestedPages.KeptIsPreferred | apps/studio/components/nested-pages-structure.ts:68-74 | the entry kept for an id is its last published version, or its first draft when no published version exists, stored under the published id |
| NestedPages.DeduplicateDocuments | apps/studio/components/nested-pages-structure.ts:59-78 | the loop over the `Map` returns `Deduplicated`: one entry per published id in first-seen order |
| NestedPages.SlugSegments | apps/studio/components/nested-pages-structure.ts:89 | the segments are non-empty and free of `/` |
| NestedPages.NextKeysIff | apps/studio/components/nested-pages-structure.ts:121-145 | a key sits in the record at a node exactly when some document is filed below it under that key |
| NestedPages.OffPath | apps/studio/components/nested-pages-structure.ts:81-147 | filing a document not at or below a node leaves that node's count, documents and keys as they were |
| NestedPages.OnPath | apps/studio/components/nested-pages-structure.ts:108-137 | filing a document at or below a node adds one to its count, and adds the document there only at the node its slug ends on |
| NestedPages.ChildKeysStep | apps/studio/components/nested-pages-structure.ts:97-134 | a record gains the document's next segment as its last key, unless that key is already there |
| NestedPages.NoSegments | apps/studio/components/nested-pages-structure.ts:85-92 | a document without a slug, or whose slug has no segments, changes nothing |
| NestedPages.FolderStructure.constructor | apps/studio/components/nested-pages-structure.ts:153 | the empty record: no node, no top-level key, nothing filed |
| NestedPages.FolderStructure.ProcessDocument | apps/studio/components/nested-pages-structure.ts:81-147 | after filing one more document the record is exactly the tree of all documents filed so far |
| NestedPages.FolderStructure.FileNested | apps/studio/components/nested-pages-structure.ts:117-146 | the loop over the remaining segments creates, counts and fills each deeper node so that the whole tree matches the documents |
| NestedPages.BuildFolderStructure | apps/studio/components/nested-pages-structure.ts:150-160 | a new record that is the tree of exactly the given documents, in order |
| NestedPages.DocsAtIff | apps/studio/components/nested-pages-structure.ts:111-142 | a document is held at exactly the node its whole slug names |
| NestedPages.CountPositive | apps/studio/components/nested-pages-structure.ts:108-137 | a node counts every document filed at or below it |
| NestedPages.CountWitness | apps/studio/components/nested-pages-structure.ts:97-137 | a node with a positive count has a document filed at or below it |
| NestedPages.CountBounds | apps/studio/components/nested-pages-structure.ts:108-141 | a node counts at least the documents it holds and at most all documents |
| NestedPages.CountBelow | apps/studio/components/nested-pages-structure.ts:108-137 | a child never counts more than its parent |
| NestedPages.CountedHasContent | apps/studio/components/nested-pages-structure.ts:97-145 | a node that counts documents holds one or has a child |
| NestedPages.NodeShape | apps/studio/components/nested-pages-structure.ts:97-145 | each node is titled by its last segment in title case, its path joins its segments with `/` without a leading `/`, its count is the number of documents at or below it, it holds exactly the documents whose slug ends there, and its child keys are distinct and name exactly its child nodes |
| NestedPages.TopLevelShape | apps/studio/components/nested-pages-structure.ts:94-105 | the top-level keys are distinct and name exactly the first-level nodes |
| NestedPages.ChildCount | apps/studio/components/nested-pages-structure.ts:108-137 | a child node counts no more documents than its parent |
| NestedPages.FiledOnce | apps/studio/components/nested-pages-structure.ts:111-142 | a document with segments is held at the node of its full slug, and nowhere else |
| NestedPagesRender.UniqueIdParts | apps/studio/components/nested-pages-structure.ts:163-168 | an id is the kind and parent path, then the key, then `-` and the depth, each at a known place |
| NestedPagesRender.UniqueIdInjective | apps/studio/components/nested-pages-structure.ts:163-168 | under one kind, parent path and depth, different keys give different ids |
| NestedPagesRender.UniqueIdsRepeatAcrossLists | apps/studio/components/nested-pages-structure.ts:271-278 | ids are not unique across lists: `a/b-x` and `a-b/x` give the same folder id at depth 1 |
| NestedPagesRender.MainPageDocIsFirst | apps/studio/components/nested-pages-structure.ts:286 | `find` returns the first document whose slug is the folder path, and nothing exactly when no slug is |
| NestedPagesRender.OtherDocsIff | apps/studio/components/nested-pages-structure.ts:287-289 | the filter keeps exactly the documents whose id differs from the main page's, and all of them without one |
| NestedPagesRender.CombineItemsWithDividers | apps/studio/components/nested-pages-structure.ts:322-342 | the method returns `Combine`: folders, then a divider when both groups are present, then files |
| NestedPagesRender.ProcessFolderItem | apps/studio/components/nested-pages-structure.ts:261-319 | the method builds exactly `FolderEntry`, whose shape `FolderEntryShape` states |
| NestedPagesRender.CreateListItemsFromStructure | apps/studio/components/nested-pages-structure.ts:373-410 | the loop over the record's keys builds exactly `Listing`, whose shape `ListingShape` states |
| NestedPagesRender.DocumentItemsAt | apps/studio/components/nested-pages-structure.ts:171-183 | one entry per document, the `k`-th titled by its document's title or `Untitled` and numbered `k`, no divider |
| NestedPagesRender.CombineShape | apps/studio/components/nested-pages-structure.ts:322-342 | folders first, files last, and a divider exactly between them when both are present; never two dividers in a row, never one at either end |
| NestedPagesRender.FolderBodyShape | apps/studio/components/nested-pages-structure.ts:291-305 | the other documents, then a divider exactly when both they and child folders exist, then the child folders |
| NestedPagesRender.FolderContentsShape | apps/studio/components/nested-pages-structure.ts:291-316 | the other documents, the child folders, and the main page last, each group separated by one divider only when there is something on both sides |
| NestedPagesRender.FoldersAreFolders | apps/studio/components/nested-pages-structure.ts:389-401 | the folder list holds folder entries only |
| NestedPagesRender.FilesAreDocuments | apps/studio/components/nested-pages-structure.ts:403-406 | the file list holds single-document entries only |
| NestedPagesRender.ListingShape | apps/studio/components/nested-pages-structure.ts:373-410 | every list has its folders first and its files last, with a divider exactly between two non-empty groups |
| NestedPagesRender.FolderEntryShape | apps/studio/components/nested-pages-structure.ts:199-319 | a folder entry's id is `folder-<parentPath><key>-<depth>`, its title the node's title and count, its new-page prefixes `/<path>/` and `<title> > `; its list is well separated and ends with the main page when there is one |
| NestedPagesRender.Classification | apps/studio/components/nested-pages-structure.ts:383-406 | a node is a folder or a file, never both; shown exactly when it has a child or a document; a file exactly when it has no child and one document |
| NestedPagesRender.TreeNodesShown | apps/studio/components/nested-pages-structure.ts:382-407 | every node of a built tree is shown, and every key of its records names a node |
| NestedPagesRender.RootedSlugsHaveNoMainPage | apps/studio/components/nested-pages-structure.ts:286 | when every slug starts with `/`, no folder finds a main page: its path never starts with `/` |
| NestedPagesRender.ListingCoversKeys | apps/studio/components/nested-pages-structure.ts:382-407 | a record whose keys all name shown nodes yields one entry per key |
| NestedPagesRender.TopLevelIff | apps/studio/components/nested-pages-structure.ts:89-105 | the top record has a key exactly when some document's slug has a segment |
| NestedPagesRender.TreeUnique | apps/studio/components/nested-pages-structure.ts:150-160 | two trees built from the same documents are the same tree |
| NestedPagesRender.CreateSlugBasedStructure | apps/studio/components/nested-pages-structure.ts:347-445 | fails with the fixed message exactly for an empty schema type; otherwise the entry `<Type>s by Path` whose pane is the fallback when the documents cannot be fetched, and otherwise the pane of the tree built from the deduplicated documents |
| NestedPagesRender.SlugPaneShape | apps/studio/components/nested-pages-structure.ts:411-432 | the pane opens with the all-documents entry and a divider, shows every top-level key, and is well separated exactly when some document has a segment: an empty tree leaves the divider last |

## Left out

- `fetchDocuments`, the studio client and the `try`/`catch` around them in `createSlugBasedStructure`: these are network I/O. The documents arrive as an `Option` parameter. `None` stands for a missing client or a failed query and gives the fallback pane.
- The `client.fetch` queries of `isUnique` and `validateRedirectLoop`: these are network I/O. Both are predicates over a given list of stored documents.
- `friendlyWords()` in `createFolderListItem`: it is random. A folder entry carries the fixed prefixes of the new page's slug (`/<path>/`) and title (`<title> > `). The random suffix is not modelled.
- Icons, `S.document()` children, menu intents and the rest of the structure-builder objects: these are SDK calls. A list entry is a datatype that keeps the ids, titles, documents and nested items.
- The key order `Object.entries` uses for integer-like keys, and keys inherited from `Object.prototype` (`constructor`, ...): records are ordered by insertion only.
- `toLowerCase`/`toUpperCase` beyond ASCII letters. They are modelled on ASCII only, because Unicode case mapping has no counterpart here.
- `slugify`, `urlFor` and `isPortableTextTextBlock`: these are foreign libraries.
  - `slugify` is a function parameter.
  - The image URL builder is a function parameter.
  - A text block is a datatype constructor.
- `new Date(...).toISOString()` in `ArticleJsonLd`: dates are not modelled, so the publication dates are left out of the article object.
- `URLSearchParams` percent-encoding and the `URL` constructor: these belong to a foreign library. Query values are assumed to need no encoding. `isValidUrl` (studio and web) is not modelled, because it depends on the `URL` parser.
- `retryPromise` (studio helper) and `handleErrors` (web utils): these are asynchronous and use timers.
- React hooks (`useMemo`, `useFormValue`, `useState`), the environment and `console.log`: the values they read are parameters, and printing is not modelled.
- `CombinedJsonLd` and the rendered `<script>` tags: these are rendering.
- The `allowedPatterns` option of the slug rules: it is declared but never read.
- The rule table's regular expressions: each is an anchored literal prefix or a character class, and is modelled as a prefix or character-set predicate rather than by a regular-expression engine. Caller-supplied forbidden patterns and custom validators are limited to the kinds the table uses.
- SlugValidation.EffectiveConfig: the options spread over the table entry treats a key explicitly set to `undefined` as absent, because the options are typed fields, not an object.
- OgConfig.ParseInt: JavaScript numbers are IEEE doubles, so `parseInt` is exact only up to magnitude 2^53 (`9007199254740993` reads as `9007199254740992`) and gives `Infinity` past about 1.8e308; the model reads every digit run as its exact integer. OgConfig.ParseIntOfIntToString and OgConfig.OgDimensionsUnbounded hold of the source only within that range.
- SlugUtils.DefineSlug: property values that are functions or components (`validation`, a custom `isUnique`, `components.field`) are stood for by JSON values or the `UniqueCheck` tag; their behaviour is not modelled.
- `Seo.SeoMetadata`: `metadataBase` is kept as the base-URL string rather than a `URL` object, and only the title, description, keywords, robots and canonical values are stated in full.
