// The redirect document's validators: the source and the destination path each
// go through the same chain of early-return checks, ending in a lookup for an
// existing redirect that already uses the path.

module Redirect {
  import opened Text
  import opened SanityIds

  /** A stored document as the loop query sees it. */
  datatype StoredDoc = StoredDoc(id: string, docType: string, source: Option<string>, destination: Option<string>)

  /** A slug value of the form (`{ current }`). */
  datatype SlugValue = SlugValue(current: Option<string>)

  /** The redirect being edited. */
  datatype EditedRedirect = EditedRedirect(id: Option<string>, source: Option<SlugValue>, destination: Option<SlugValue>)

  /** A validator's answer: `true` or a message. */
  datatype Outcome = Valid | Invalid(message: string)

  const Blank: string := "Can't be blank"
  const MustStartWithSlash: string := "The path must start with a /"
  const SameUrl: string := "Source and destination cannot be the same URL"
  const SourceLoop: string := "This would create a redirect loop - a redirect already exists from the source"
  const DestinationLoop: string := "This would create a redirect loop - a redirect already exists from the destination"

  /** A redirect other than the edited one (in either version) that uses `slug` at either end. */
  predicate LoopsWith(d: StoredDoc, id: string, slug: string) {
    d.docType == "redirect" && d.id != PublishedId(id) && d.id != DraftId(id)
    && (d.source == Some(slug) || d.destination == Some(slug))
  }

  /** The documents the loop query returns, in order. */
  function LoopQuery(docs: seq<StoredDoc>, id: string, slug: string): (r: seq<StoredDoc>)
    ensures forall d :: d in r <==> d in docs && LoopsWith(d, id, slug)
  {
    if |docs| == 0 then []
    else
      var rest := LoopQuery(docs[1..], id, slug);
      assert forall d :: d in docs <==> d == docs[0] || d in docs[1..];
      if LoopsWith(docs[0], id, slug) then [docs[0]] + rest else rest
  }

  /** `validateRedirectLoop`: some other redirect already starts or ends at `slug`. */
  function RedirectLoop(docs: seq<StoredDoc>, id: string, slug: string): (r: bool)
    ensures r <==> exists k :: 0 <= k < |docs| && LoopsWith(docs[k], id, slug)
  {
    var found := LoopQuery(docs, id, slug);
    if |found| != 0 then
      assert found[0] in found;
      assert found[0] in docs;
      true
    else
      assert forall k :: 0 <= k < |docs| ==> docs[k] in docs;
      false
  }

  /** The edited redirect's own versions never count as a loop. */
  lemma RedirectLoopIgnoresOwnVersions(docs: seq<StoredDoc>, id: string, slug: string, own: StoredDoc)
    requires own.id == PublishedId(id) || own.id == DraftId(id)
    ensures RedirectLoop(docs + [own], id, slug) == RedirectLoop(docs, id, slug)
  {
    var all := docs + [own];
    assert forall k :: 0 <= k < |docs| ==> all[k] == docs[k];
    assert all[|docs|] == own;
  }

  /** Editing the draft or the published version gives the same answer. */
  lemma RedirectLoopSameForDraft(docs: seq<StoredDoc>, id: string, slug: string)
    requires !IsDraftId(id)
    ensures RedirectLoop(docs, DraftId(id), slug) == RedirectLoop(docs, id, slug)
  {
    PublishedOfDraft(id);
  }

  /**
   * The chain both validators share: `path` is the value being checked, `other` the
   * opposite end of the redirect, `loopMessage` what an existing redirect reports.
   */
  function PathRule(value: Option<SlugValue>, other: Option<string>, docId: Option<string>,
                    docs: seq<StoredDoc>, loopMessage: string): (r: Outcome)
    requires |loopMessage| > |SameUrl|
    ensures r == Invalid(Blank) <==> value.None? || !Truthy(value.value.current)
    ensures r == Invalid(MustStartWithSlash) <==>
      value.Some? && Truthy(value.value.current) && !StartsWith(value.value.current.value, "/")
    ensures r == Invalid(SameUrl) <==>
      value.Some? && Truthy(value.value.current) && StartsWith(value.value.current.value, "/")
      && value.value.current == other
    ensures r == Invalid(loopMessage) <==>
      value.Some? && Truthy(value.value.current) && StartsWith(value.value.current.value, "/")
      && value.value.current != other
      && RedirectLoop(docs, if docId.Some? then docId.value else "", value.value.current.value)
    ensures r.Valid? || r == Invalid(Blank) || r == Invalid(MustStartWithSlash) || r == Invalid(SameUrl)
      || r == Invalid(loopMessage)
  {
    if value.None? || !Truthy(value.value.current) then Invalid(Blank)
    else
      var path := value.value.current.value;
      if !StartsWith(path, "/") then Invalid(MustStartWithSlash)
      else if Some(path) == other then Invalid(SameUrl)
      else if RedirectLoop(docs, if docId.Some? then docId.value else "", path) then Invalid(loopMessage)
      else Valid
  }

  /** The other end of the edited redirect, if any. */
  function CurrentOf(v: Option<SlugValue>): Option<string> {
    if v.Some? then v.value.current else None
  }

  /** The `source` validator. */
  function SourceRule(value: Option<SlugValue>, document: Option<EditedRedirect>, docs: seq<StoredDoc>): (r: Outcome)
    ensures r.Valid? <==>
      value.Some? && Truthy(value.value.current) && StartsWith(value.value.current.value, "/")
      && value.value.current != (if document.Some? then CurrentOf(document.value.destination) else None)
      && !RedirectLoop(docs, if document.Some? && document.value.id.Some? then document.value.id.value else "",
           value.value.current.value)
  {
    PathRule(value, if document.Some? then CurrentOf(document.value.destination) else None,
      if document.Some? then document.value.id else None, docs, SourceLoop)
  }

  /** The `destination` validator: the same chain with the two ends swapped. */
  function DestinationRule(value: Option<SlugValue>, document: Option<EditedRedirect>, docs: seq<StoredDoc>): (r: Outcome)
    ensures r.Valid? <==>
      value.Some? && Truthy(value.value.current) && StartsWith(value.value.current.value, "/")
      && value.value.current != (if document.Some? then CurrentOf(document.value.source) else None)
      && !RedirectLoop(docs, if document.Some? && document.value.id.Some? then document.value.id.value else "",
           value.value.current.value)
  {
    PathRule(value, if document.Some? then CurrentOf(document.value.source) else None,
      if document.Some? then document.value.id else None, docs, DestinationLoop)
  }

  /** A redirect both of whose ends pass has two different ends. */
  lemma AcceptedEndsDiffer(d: EditedRedirect, docs: seq<StoredDoc>)
    requires SourceRule(d.source, Some(d), docs).Valid?
    ensures d.source.Some? && d.destination.Some? ==> d.source.value.current != d.destination.value.current
  {
  }
}
