/**
 * The document-id convention of the content store: a draft of the document `x`
 * has the id `drafts.x`; `getPublishedId` and `getDraftId` convert between the two.
 */
module SanityIds {
  import opened Text

  const DraftsPrefix: string := "drafts."

  predicate IsDraftId(id: string) {
    StartsWith(id, DraftsPrefix)
  }

  /** `getPublishedId(id)`: the id with a leading `drafts.` removed. */
  function PublishedId(id: string): (r: string)
    ensures IsDraftId(id) ==> DraftsPrefix + r == id
    ensures !IsDraftId(id) ==> r == id
  {
    if IsDraftId(id) then id[|DraftsPrefix|..] else id
  }

  /** `getDraftId(id)`: the id with a leading `drafts.`, added when missing. */
  function DraftId(id: string): (r: string)
    ensures IsDraftId(r)
    ensures IsDraftId(id) ==> r == id
  {
    if IsDraftId(id) then id else DraftsPrefix + id
  }

  /** The draft id of a published id strips back to that published id. */
  lemma PublishedOfDraft(id: string)
    requires !IsDraftId(id)
    ensures PublishedId(DraftId(id)) == id
  {
    assert (DraftsPrefix + id)[..|DraftsPrefix|] == DraftsPrefix;
    assert (DraftsPrefix + id)[|DraftsPrefix|..] == id;
  }

  /** A draft and its published document share one published id. */
  lemma DraftAndPublishedAgree(id: string)
    ensures PublishedId(DraftId(id)) == PublishedId(id)
  {
    if !IsDraftId(id) {
      PublishedOfDraft(id);
    }
  }
}
