// The studio's "pages by path" navigation: documents are deduplicated by their
// published id, filed into a tree of folders by the segments of their slugs, and
// the tree is rendered as nested lists with dividers between groups.
//
// The folder tree is a nest of records keyed by slug segment. Here it is kept as
// an arena: the node reached by the segments `p` is stored under the key `p`, and
// a node's `children` lists the keys of its own record in insertion order (the
// order `Object.entries` reports them), the child `c` of `p` being stored at `p + [c]`.

module NestedPages {
  import opened Text
  import opened SanityIds
  import opened StudioHelper

  /** A document as the query returns it; the title and the slug may be `null`. */
  datatype DocumentData = DocumentData(id: string, title: Option<string>, slug: Option<string>)

  /** One folder: `children` holds the keys of its child record, in insertion order. */
  datatype FolderNode = FolderNode(title: string, path: string, count: nat,
                                   documents: seq<DocumentData>, children: seq<string>)

  // ---------------------------------------------------------------------------
  // deduplicateDocuments
  // ---------------------------------------------------------------------------

  /** `doc._id && doc.slug`: only documents with an id and a slug take part. */
  predicate Eligible(doc: DocumentData) {
    doc.id != "" && Truthy(doc.slug)
  }

  /** The map after the documents have been seen: one entry per published id. */
  function Kept(docs: seq<DocumentData>): map<string, DocumentData> {
    if |docs| == 0 then map[]
    else
      var m := Kept(docs[..|docs| - 1]);
      var doc := docs[|docs| - 1];
      var n := PublishedId(doc.id);
      if !Eligible(doc) || (n in m && IsDraftId(doc.id)) then m else m[n := doc.(id := n)]
  }

  /** The published ids of the documents that take part, in order, repeats included. */
  function EligibleIds(docs: seq<DocumentData>): seq<string> {
    if |docs| == 0 then []
    else
      var doc := docs[|docs| - 1];
      EligibleIds(docs[..|docs| - 1]) + (if Eligible(doc) then [PublishedId(doc.id)] else [])
  }

  /** The keys of the map in the order they were first set. */
  function KeyOrder(docs: seq<DocumentData>): seq<string> {
    Dedup(EligibleIds(docs))
  }

  /** `Array.from(map.values())` for a map whose keys were first set in the order `keys`. */
  function Values(m: map<string, DocumentData>, keys: seq<string>): seq<DocumentData> {
    if |keys| == 0 then []
    else
      Values(m, keys[..|keys| - 1]) + (if keys[|keys| - 1] in m then [m[keys[|keys| - 1]]] else [])
  }

  /** What `deduplicateDocuments` returns. */
  function Deduplicated(docs: seq<DocumentData>): seq<DocumentData> {
    Values(Kept(docs), KeyOrder(docs))
  }

  /** The map holds exactly the ids in its key order. */
  lemma {:induction false} KeptDomain(docs: seq<DocumentData>)
    ensures forall n :: n in Kept(docs) <==> n in KeyOrder(docs)
    decreases |docs|
  {
    if |docs| > 0 {
      var init := docs[..|docs| - 1];
      KeptDomain(init);
      var doc := docs[|docs| - 1];
      assert forall n :: n in EligibleIds(docs) <==> n in EligibleIds(init) || (Eligible(doc) && n == PublishedId(doc.id));
    }
  }

  /** `map.set` on a new key puts it last; on a key already there it keeps its place. */
  lemma KeyOrderStep(docs: seq<DocumentData>, doc: DocumentData)
    ensures KeyOrder(docs + [doc]) ==
      KeyOrder(docs) + (if Eligible(doc) && PublishedId(doc.id) !in Kept(docs) then [PublishedId(doc.id)] else [])
  {
    assert (docs + [doc])[..|docs|] == docs;
    KeptDomain(docs);
    var xs := EligibleIds(docs);
    if Eligible(doc) {
      assert (xs + [PublishedId(doc.id)])[..|xs|] == xs;
    } else {
      assert xs + [] == xs;
    }
  }

  /** The entry kept for each key is stored under it, with the key as its id. */
  lemma {:induction false} KeptIds(docs: seq<DocumentData>, n: string)
    requires n in Kept(docs)
    ensures Kept(docs)[n].id == n && Truthy(Kept(docs)[n].slug)
    decreases |docs|
  {
    var init := docs[..|docs| - 1];
    var doc := docs[|docs| - 1];
    if n in Kept(init) && Kept(docs)[n] == Kept(init)[n] {
      KeptIds(init, n);
    }
  }

  /** Reading the values in key order gives one value per key. */
  lemma {:induction false} ValuesAt(m: map<string, DocumentData>, keys: seq<string>)
    requires forall k :: 0 <= k < |keys| ==> keys[k] in m
    ensures |Values(m, keys)| == |keys|
    ensures forall k :: 0 <= k < |keys| ==> Values(m, keys)[k] == m[keys[k]]
    decreases |keys|
  {
    if |keys| > 0 {
      ValuesAt(m, keys[..|keys| - 1]);
    }
  }

  /** Some entry of `r` is stored under `n`. */
  predicate HasEntryFor(r: seq<DocumentData>, n: string) {
    exists k :: 0 <= k < |r| && r[k].id == n
  }

  /**
   * `deduplicateDocuments`: one entry per published id, in the order the ids first
   * appear among the documents that take part, each stored under its published id.
   */
  lemma DeduplicatedShape(docs: seq<DocumentData>)
    ensures |Deduplicated(docs)| == |KeyOrder(docs)|
    ensures forall k :: 0 <= k < |Deduplicated(docs)| ==>
      Deduplicated(docs)[k].id == KeyOrder(docs)[k] && Truthy(Deduplicated(docs)[k].slug)
    ensures forall j, k :: 0 <= j < k < |Deduplicated(docs)| ==> Deduplicated(docs)[j].id != Deduplicated(docs)[k].id
  {
    var keys := KeyOrder(docs);
    var m := Kept(docs);
    KeptDomain(docs);
    assert forall k :: 0 <= k < |keys| ==> keys[k] in keys;
    ValuesAt(m, keys);
    forall k | 0 <= k < |keys| ensures m[keys[k]].id == keys[k] && Truthy(m[keys[k]].slug) {
      KeptIds(docs, keys[k]);
    }
  }

  /** Every published id of a document that takes part gets an entry, and no other id does. */
  lemma DeduplicatedCovers(docs: seq<DocumentData>, n: string)
    ensures HasEntryFor(Deduplicated(docs), n) <==> exists d :: d in docs && Eligible(d) && PublishedId(d.id) == n
  {
    var keys := KeyOrder(docs);
    DeduplicatedShape(docs);
    EligibleIdsIff(docs, n);
    if n in keys {
      var k :| 0 <= k < |keys| && keys[k] == n;
      assert Deduplicated(docs)[k].id == n;
    }
  }

  lemma {:induction false} EligibleIdsIff(docs: seq<DocumentData>, n: string)
    ensures n in EligibleIds(docs) <==> exists d :: d in docs && Eligible(d) && PublishedId(d.id) == n
    decreases |docs|
  {
    if |docs| > 0 {
      var init := docs[..|docs| - 1];
      EligibleIdsIff(init, n);
      assert docs == init + [docs[|docs| - 1]];
    }
  }

  /** The versions of the published id `n` that take part, in order. */
  function Versions(docs: seq<DocumentData>, n: string): seq<DocumentData> {
    if |docs| == 0 then []
    else
      var doc := docs[|docs| - 1];
      Versions(docs[..|docs| - 1], n) + (if Eligible(doc) && PublishedId(doc.id) == n then [doc] else [])
  }

  /** The non-draft members of a list, in order. */
  function Published(versions: seq<DocumentData>): seq<DocumentData> {
    if |versions| == 0 then []
    else
      var doc := versions[|versions| - 1];
      Published(versions[..|versions| - 1]) + (if IsDraftId(doc.id) then [] else [doc])
  }

  /**
   * The version that wins: the last published one when there is one (a published
   * version always overwrites), otherwise the first draft (a draft never replaces).
   */
  function Preferred(versions: seq<DocumentData>): DocumentData
    requires |versions| > 0
  {
    var published := Published(versions);
    if |published| > 0 then published[|published| - 1] else versions[0]
  }

  lemma PublishedSnoc(vs: seq<DocumentData>, doc: DocumentData)
    ensures Published(vs + [doc]) == Published(vs) + (if IsDraftId(doc.id) then [] else [doc])
  {
    assert (vs + [doc])[..|vs|] == vs;
  }

  /** One more version: a published one wins, a draft only when it is the first. */
  lemma PreferredSnoc(vs: seq<DocumentData>, doc: DocumentData)
    ensures Preferred(vs + [doc]) ==
      if !IsDraftId(doc.id) || |vs| == 0 then doc else Preferred(vs)
  {
    PublishedSnoc(vs, doc);
    var ps := Published(vs);
    if IsDraftId(doc.id) {
      assert ps + [] == ps;
      if |vs| == 0 {
        assert Published(vs) == [];
      }
    }
  }

  lemma VersionsSnoc(docs: seq<DocumentData>, doc: DocumentData, n: string)
    ensures Versions(docs + [doc], n) ==
      Versions(docs, n) + (if Eligible(doc) && PublishedId(doc.id) == n then [doc] else [])
  {
    assert (docs + [doc])[..|docs|] == docs;
  }

  /** The entry kept for a published id is its preferred version, stored under that id. */
  lemma {:induction false} KeptIsPreferred(docs: seq<DocumentData>, n: string)
    ensures n in Kept(docs) <==> |Versions(docs, n)| > 0
    ensures n in Kept(docs) ==> Kept(docs)[n] == Preferred(Versions(docs, n)).(id := n)
    decreases |docs|
  {
    if |docs| > 0 {
      var init := docs[..|docs| - 1];
      var doc := docs[|docs| - 1];
      assert docs == init + [doc];
      KeptIsPreferred(init, n);
      VersionsSnoc(init, doc, n);
      var vs := Versions(init, n);
      if Eligible(doc) && PublishedId(doc.id) == n {
        PreferredSnoc(vs, doc);
      } else {
        assert vs + [] == vs;
      }
    }
  }

  /** `deduplicateDocuments` as the source writes it: a `Map` filled in one pass, then its values. */
  method DeduplicateDocuments(documents: seq<DocumentData>) returns (r: seq<DocumentData>)
    ensures r == Deduplicated(documents)
  {
    var documentMap, keys := FillDocumentMap(documents);
    KeptDomain(documents);
    r := MapValues(documentMap, keys);
  }

  /** The pass of `deduplicateDocuments` that fills the map; `keys` is the map's insertion order. */
  method FillDocumentMap(documents: seq<DocumentData>) returns (documentMap: map<string, DocumentData>, keys: seq<string>)
    ensures documentMap == Kept(documents) && keys == KeyOrder(documents)
  {
    documentMap := map[];
    keys := [];
    for i := 0 to |documents|
      invariant documentMap == Kept(documents[..i]) && keys == KeyOrder(documents[..i])
    {
      var doc := documents[i];
      assert documents[..i + 1] == documents[..i] + [doc];
      KeptStep(documents[..i], doc);
      KeyOrderStep(documents[..i], doc);
      if !(doc.id != "" && Truthy(doc.slug)) {
        continue;
      }
      var normalizedId := PublishedId(doc.id);
      if !(normalizedId in documentMap && IsDraftId(doc.id)) {
        if normalizedId !in documentMap {
          keys := keys + [normalizedId];
        }
        documentMap := documentMap[normalizedId := doc.(id := normalizedId)];
      }
    }
    assert documents[..|documents|] == documents;
  }

  lemma KeptStep(docs: seq<DocumentData>, doc: DocumentData)
    ensures var m := Kept(docs);
      var n := PublishedId(doc.id);
      Kept(docs + [doc]) == if !Eligible(doc) || (n in m && IsDraftId(doc.id)) then m else m[n := doc.(id := n)]
  {
    assert (docs + [doc])[..|docs|] == docs;
  }

  /** `Array.from(map.values())`. */
  method MapValues(documentMap: map<string, DocumentData>, keys: seq<string>) returns (r: seq<DocumentData>)
    requires forall n :: n in keys ==> n in documentMap
    ensures r == Values(documentMap, keys)
  {
    r := [];
    for k := 0 to |keys|
      invariant r == Values(documentMap, keys[..k])
    {
      assert keys[..k + 1][..k] == keys[..k];
      assert keys[k] in keys;
      r := r + [documentMap[keys[k]]];
    }
    assert keys[..|keys|] == keys;
  }

  // ---------------------------------------------------------------------------
  // The folder tree as a function of the documents filed so far
  // ---------------------------------------------------------------------------

  /** `doc.slug.split("/").filter(Boolean)`, and nothing for a missing or empty slug. */
  function SlugSegments(doc: DocumentData): (segs: seq<string>)
    ensures forall k :: 0 <= k < |segs| ==> segs[k] != "" && '/' !in segs[k]
  {
    if Truthy(doc.slug) then Segments(doc.slug.value) else []
  }

  predicate IsPrefix(p: seq<string>, s: seq<string>) {
    |p| <= |s| && s[..|p|] == p
  }

  /** The document is filed at the node `p` or somewhere below it. */
  predicate Under(doc: DocumentData, p: seq<string>) {
    IsPrefix(p, SlugSegments(doc))
  }

  /** The number of documents filed at `p` or below. */
  function Count(docs: seq<DocumentData>, p: seq<string>): nat {
    if |docs| == 0 then 0
    else
      var init := docs[..|docs| - 1];
      Count(init, p) + (if Under(docs[|docs| - 1], p) then 1 else 0)
  }

  /** The documents whose slug ends exactly at `p`, in the order they were filed. */
  function DocsAt(docs: seq<DocumentData>, p: seq<string>): seq<DocumentData> {
    if |docs| == 0 then []
    else
      var init := docs[..|docs| - 1];
      var last := docs[|docs| - 1];
      DocsAt(init, p) + (if SlugSegments(last) == p then [last] else [])
  }

  /** The segment after `p` of every document filed below `p`, in filing order. */
  function NextKeys(docs: seq<DocumentData>, p: seq<string>): seq<string> {
    if |docs| == 0 then []
    else
      var last := docs[|docs| - 1];
      var s := SlugSegments(last);
      NextKeys(docs[..|docs| - 1], p) + (if Under(last, p) && |s| > |p| then [s[|p|]] else [])
  }

  /** The keys of the record at `p`, in the order they were first added. */
  function ChildKeys(docs: seq<DocumentData>, p: seq<string>): seq<string> {
    Dedup(NextKeys(docs, p))
  }

  /** The node at `p` after the documents have been filed. */
  function NodeOf(docs: seq<DocumentData>, p: seq<string>): FolderNode
    requires |p| > 0
  {
    FolderNode(TitleCase(p[|p| - 1]), Join(p, "/"), Count(docs, p), DocsAt(docs, p), ChildKeys(docs, p))
  }

  /** A node exists at `p` once some document is filed at it or below it. */
  predicate Occupied(docs: seq<DocumentData>, p: seq<string>) {
    |p| > 0 && Count(docs, p) > 0
  }

  /** `record[key]`: the node stored under `p`, if any. */
  function Lookup(nodes: map<seq<string>, FolderNode>, p: seq<string>): Option<FolderNode> {
    if p in nodes then Some(nodes[p]) else None
  }

  /** What the tree the documents determine holds at `p`. */
  function TreeAt(docs: seq<DocumentData>, p: seq<string>): Option<FolderNode> {
    if Occupied(docs, p) then Some(NodeOf(docs, p)) else None
  }

  /** `nodes` is the tree the documents determine. */
  ghost predicate Tree(nodes: map<seq<string>, FolderNode>, docs: seq<DocumentData>) {
    forall p :: Lookup(nodes, p) == TreeAt(docs, p)
  }

  // ---------------------------------------------------------------------------
  // Facts about filing one more document
  // ---------------------------------------------------------------------------

  lemma UnderExtend(doc: DocumentData, p: seq<string>, x: string)
    ensures Under(doc, p + [x]) <==>
      (Under(doc, p) && |SlugSegments(doc)| > |p| && SlugSegments(doc)[|p|] == x)
  {
    var s := SlugSegments(doc);
    if Under(doc, p + [x]) {
      assert s[..|p|] == s[..|p| + 1][..|p|];
      assert s[|p|] == s[..|p| + 1][|p|];
    }
    if Under(doc, p) && |s| > |p| && s[|p|] == x {
      assert s[..|p| + 1] == s[..|p|] + [s[|p|]];
    }
  }

  /** `x` is a key of the record at `p` exactly when the node `p + [x]` exists. */
  lemma {:induction false} NextKeysIff(docs: seq<DocumentData>, p: seq<string>, x: string)
    ensures x in NextKeys(docs, p) <==> Count(docs, p + [x]) > 0
    decreases |docs|
  {
    if |docs| > 0 {
      NextKeysIff(docs[..|docs| - 1], p, x);
      UnderExtend(docs[|docs| - 1], p, x);
    }
  }

  lemma {:induction false} AbsentIsEmpty(docs: seq<DocumentData>, p: seq<string>)
    requires Count(docs, p) == 0
    ensures DocsAt(docs, p) == [] && NextKeys(docs, p) == []
    decreases |docs|
  {
    if |docs| > 0 {
      var init := docs[..|docs| - 1];
      assert Count(init, p) == 0;
      AbsentIsEmpty(init, p);
    }
  }

  /** Filing a document that is not below `p` leaves the node `p` as it was. */
  lemma OffPath(docs: seq<DocumentData>, doc: DocumentData, p: seq<string>)
    requires !Under(doc, p)
    ensures Count(docs + [doc], p) == Count(docs, p)
    ensures DocsAt(docs + [doc], p) == DocsAt(docs, p)
    ensures NextKeys(docs + [doc], p) == NextKeys(docs, p)
  {
    assert (docs + [doc])[..|docs|] == docs;
    var s := SlugSegments(doc);
    assert s != p by {
      assert s[..|s|] == s;
    }
  }

  /** Filing a document below `p` adds one to its count, and the document itself at its own node. */
  lemma OnPath(docs: seq<DocumentData>, doc: DocumentData, p: seq<string>)
    requires Under(doc, p)
    ensures Count(docs + [doc], p) == Count(docs, p) + 1
    ensures DocsAt(docs + [doc], p) == DocsAt(docs, p) + (if SlugSegments(doc) == p then [doc] else [])
    ensures var s := SlugSegments(doc);
      NextKeys(docs + [doc], p) == NextKeys(docs, p) + (if |s| > |p| then [s[|p|]] else [])
  {
    assert (docs + [doc])[..|docs|] == docs;
  }

  /** The record at `p` gains the next segment of the document, unless the key is already there. */
  lemma ChildKeysStep(docs: seq<DocumentData>, doc: DocumentData, p: seq<string>)
    requires Under(doc, p)
    ensures var s := SlugSegments(doc);
      ChildKeys(docs + [doc], p) ==
        ChildKeys(docs, p) + (if |s| > |p| && Count(docs, p + [s[|p|]]) == 0 then [s[|p|]] else [])
  {
    var s := SlugSegments(doc);
    OnPath(docs, doc, p);
    if |s| > |p| {
      var xs := NextKeys(docs, p);
      assert NextKeys(docs + [doc], p) == xs + [s[|p|]];
      assert (xs + [s[|p|]])[..|xs|] == xs;
      NextKeysIff(docs, p, s[|p|]);
    } else {
      assert NextKeys(docs + [doc], p) == NextKeys(docs, p) + [];
      assert NextKeys(docs, p) + [] == NextKeys(docs, p);
    }
  }

  /** A document without segments changes nothing. */
  lemma NoSegments(nodes: map<seq<string>, FolderNode>, docs: seq<DocumentData>, doc: DocumentData)
    requires Tree(nodes, docs) && SlugSegments(doc) == []
    ensures Tree(nodes, docs + [doc])
    ensures ChildKeys(docs + [doc], []) == ChildKeys(docs, [])
  {
    forall p ensures TreeAt(docs + [doc], p) == TreeAt(docs, p) {
      if |p| > 0 {
        OffPath(docs, doc, p);
      }
    }
    ChildKeysStep(docs, doc, []);
  }

  // ---------------------------------------------------------------------------
  // processDocumentIntoStructure, one level at a time
  // ---------------------------------------------------------------------------

  /** The node `k` once the document has passed through it, before its own record is extended. */
  ghost function Entered(docs: seq<DocumentData>, doc: DocumentData, k: seq<string>): FolderNode
    requires |k| > 0
  {
    NodeOf(docs + [doc], k).(children := ChildKeys(docs, k))
  }

  /** `segs[..j]` for `1 <= j <= i`: a node the document has already passed through. */
  predicate Passed(p: seq<string>, segs: seq<string>, i: nat) {
    1 <= |p| <= i && IsPrefix(p, segs)
  }

  /**
   * What the map holds at `p` once the first `i` segments of `doc` have been handled:
   * the nodes passed have their new count and documents, and all but the last also
   * their new keys; every other node is as before.
   */
  ghost function MidAt(docs: seq<DocumentData>, doc: DocumentData, segs: seq<string>, i: nat, p: seq<string>)
    : Option<FolderNode>
  {
    if Passed(p, segs, i) then Some(if |p| == i then Entered(docs, doc, p) else NodeOf(docs + [doc], p))
    else TreeAt(docs, p)
  }

  ghost predicate Midway(nodes: map<seq<string>, FolderNode>, docs: seq<DocumentData>, doc: DocumentData,
                         segs: seq<string>, i: nat)
  {
    forall p :: Lookup(nodes, p) == MidAt(docs, doc, segs, i, p)
  }

  lemma SnocPrefix(segs: seq<string>, i: nat)
    requires i < |segs|
    ensures segs[..i] + [segs[i]] == segs[..i + 1]
    ensures [segs[0]] == segs[..1]
  {
  }

  lemma JoinPrefix(segs: seq<string>, i: nat)
    requires 0 < i < |segs|
    ensures Join(segs[..i + 1], "/") == Join(segs[..i], "/") + "/" + segs[i]
  {
    SnocPrefix(segs, i);
    JoinAppend(segs[..i], segs[i], "/");
  }

  lemma MidwayStart(nodes: map<seq<string>, FolderNode>, docs: seq<DocumentData>, doc: DocumentData,
                    segs: seq<string>)
    requires Tree(nodes, docs)
    ensures Midway(nodes, docs, doc, segs, 0)
  {
    forall p ensures Lookup(nodes, p) == MidAt(docs, doc, segs, 0, p) {
      assert !Passed(p, segs, 0);
    }
  }

  /** The node the document enters next is still as the earlier documents left it. */
  lemma Ahead(nodes: map<seq<string>, FolderNode>, docs: seq<DocumentData>, doc: DocumentData,
              segs: seq<string>, i: nat)
    requires segs == SlugSegments(doc) && i < |segs|
    requires Midway(nodes, docs, doc, segs, i)
    ensures Under(doc, segs[..i + 1])
    ensures Lookup(nodes, segs[..i + 1]) == TreeAt(docs, segs[..i + 1])
  {
    var k := segs[..i + 1];
    assert Lookup(nodes, k) == MidAt(docs, doc, segs, i, k);
    assert !Passed(k, segs, i);
  }

  /** The node the document has just entered. */
  lemma Behind(nodes: map<seq<string>, FolderNode>, docs: seq<DocumentData>, doc: DocumentData,
               segs: seq<string>, i: nat)
    requires 0 < i <= |segs|
    requires Midway(nodes, docs, doc, segs, i)
    ensures Lookup(nodes, segs[..i]) == Some(Entered(docs, doc, segs[..i]))
  {
    var p := segs[..i];
    assert Lookup(nodes, p) == MidAt(docs, doc, segs, i, p);
    assert Passed(p, segs, i);
  }

  /** Entering an existing node adds one to its count, and the document when it ends there. */
  lemma EnterExisting(docs: seq<DocumentData>, doc: DocumentData, k: seq<string>)
    requires |k| > 0 && Under(doc, k)
    ensures Entered(docs, doc, k) ==
      NodeOf(docs, k).(count := Count(docs, k) + 1,
                       documents := DocsAt(docs, k) + (if |SlugSegments(doc)| == |k| then [doc] else []))
  {
    OnPath(docs, doc, k);
    assert SlugSegments(doc) == k <==> |SlugSegments(doc)| == |k| by {
      assert SlugSegments(doc)[..|SlugSegments(doc)|] == SlugSegments(doc);
    }
  }

  /** Entering a node nothing was filed under before makes a fresh one with no keys. */
  lemma EnterFresh(docs: seq<DocumentData>, doc: DocumentData, k: seq<string>)
    requires |k| > 0 && Under(doc, k) && Count(docs, k) == 0
    ensures Entered(docs, doc, k) ==
      FolderNode(TitleCase(k[|k| - 1]), Join(k, "/"), 1,
                 if |SlugSegments(doc)| == |k| then [doc] else [], [])
  {
    EnterExisting(docs, doc, k);
    AbsentIsEmpty(docs, k);
  }

  /** Leaving a node for the next one records the next key, if it is new. */
  lemma Leave(docs: seq<DocumentData>, doc: DocumentData, p: seq<string>)
    requires |p| > 0 && Under(doc, p) && |SlugSegments(doc)| > |p|
    ensures var x := SlugSegments(doc)[|p|];
      NodeOf(docs + [doc], p) ==
        Entered(docs, doc, p).(children := ChildKeys(docs, p) + (if Count(docs, p + [x]) == 0 then [x] else []))
  {
    ChildKeysStep(docs, doc, p);
  }

  /** For a node other than the one entered and the one left, one more level makes no difference. */
  lemma PassedOther(p: seq<string>, segs: seq<string>, i: nat)
    requires i < |segs| && p != segs[..i + 1] && (i == 0 || p != segs[..i])
    ensures Passed(p, segs, i + 1) == Passed(p, segs, i)
    ensures Passed(p, segs, i) ==> |p| < i
  {
  }

  /**
   * The map after level `i`: the node entered is stored as `entered` and, when it is
   * new below the top level, its parent's record gains the key.
   */
  function Descend(nodes: map<seq<string>, FolderNode>, segs: seq<string>, i: nat, entered: FolderNode)
    : map<seq<string>, FolderNode>
    requires i < |segs| && (i > 0 ==> segs[..i] in nodes)
  {
    var parent := segs[..i];
    var key := segs[..i + 1];
    var m := if key !in nodes && i > 0
      then nodes[parent := nodes[parent].(children := nodes[parent].children + [segs[i]])]
      else nodes;
    m[key := entered]
  }

  /** The node entered at level `i`: the one found or a fresh one, counted once more, holding the document when it ends there. */
  function NewNode(nodes: map<seq<string>, FolderNode>, segs: seq<string>, i: nat, doc: DocumentData): FolderNode
    requires i < |segs|
  {
    var k := segs[..i + 1];
    var base := if k in nodes then nodes[k] else FolderNode(TitleCase(segs[i]), Join(k, "/"), 0, [], []);
    base.(count := base.count + 1, documents := base.documents + (if i == |segs| - 1 then [doc] else []))
  }

  /** The node passed through at level `i` before the document enters the next one. */
  lemma ParentPresent(nodes: map<seq<string>, FolderNode>, docs: seq<DocumentData>, doc: DocumentData,
                      segs: seq<string>, i: nat)
    requires 0 < i <= |segs|
    requires Midway(nodes, docs, doc, segs, i)
    ensures segs[..i] in nodes
  {
    Behind(nodes, docs, doc, segs, i);
  }

  /** What the node entered at level `i` becomes: the one found or a fresh one, counted once more. */
  lemma EnteredValue(nodes: map<seq<string>, FolderNode>, docs: seq<DocumentData>, doc: DocumentData,
                     segs: seq<string>, i: nat)
    requires segs == SlugSegments(doc) && i < |segs|
    requires Midway(nodes, docs, doc, segs, i)
    ensures Entered(docs, doc, segs[..i + 1]) == NewNode(nodes, segs, i, doc)
  {
    var k := segs[..i + 1];
    Ahead(nodes, docs, doc, segs, i);
    if k in nodes {
      EnterExisting(docs, doc, k);
    } else {
      EnterFresh(docs, doc, k);
    }
  }

  /** `Descend` changes the node entered and, below the top level, the node left; nothing else. */
  lemma DescendLookup(before: map<seq<string>, FolderNode>, segs: seq<string>, i: nat, entered: FolderNode)
    requires i < |segs| && (i > 0 ==> segs[..i] in before)
    ensures var after := Descend(before, segs, i, entered);
      && Lookup(after, segs[..i + 1]) == Some(entered)
      && (i > 0 ==>
            Lookup(after, segs[..i]) == Some(if segs[..i + 1] in before then before[segs[..i]]
                 else before[segs[..i]].(children := before[segs[..i]].children + [segs[i]])))
      && (forall p :: p != segs[..i + 1] && (i == 0 || p != segs[..i]) ==> Lookup(after, p) == Lookup(before, p))
  {
    assert i > 0 ==> segs[..i] != segs[..i + 1] by {
      assert |segs[..i]| != |segs[..i + 1]|;
    }
  }

  /** Each node other than the one entered and the one left is handled alike at both levels. */
  lemma MidwayFrame(before: map<seq<string>, FolderNode>, after: map<seq<string>, FolderNode>,
                    docs: seq<DocumentData>, doc: DocumentData, segs: seq<string>, i: nat)
    requires i < |segs|
    requires Midway(before, docs, doc, segs, i)
    requires Lookup(after, segs[..i + 1]) == Some(Entered(docs, doc, segs[..i + 1]))
    requires i > 0 ==> Lookup(after, segs[..i]) == Some(NodeOf(docs + [doc], segs[..i]))
    requires forall p :: p != segs[..i + 1] && (i == 0 || p != segs[..i]) ==> Lookup(after, p) == Lookup(before, p)
    ensures Midway(after, docs, doc, segs, i + 1)
  {
    forall p ensures Lookup(after, p) == MidAt(docs, doc, segs, i + 1, p) {
      if p == segs[..i + 1] {
        assert Passed(p, segs, i + 1);
      } else if i > 0 && p == segs[..i] {
        assert Passed(p, segs, i + 1);
      } else {
        assert Lookup(before, p) == MidAt(docs, doc, segs, i, p);
        PassedOther(p, segs, i);
      }
    }
  }

  /** The node left below the top level ends up with the keys the documents determine. */
  lemma LeftValue(before: map<seq<string>, FolderNode>, docs: seq<DocumentData>, doc: DocumentData,
                  segs: seq<string>, i: nat)
    requires segs == SlugSegments(doc) && 0 < i < |segs|
    requires Midway(before, docs, doc, segs, i)
    ensures segs[..i] in before
    ensures NodeOf(docs + [doc], segs[..i]) ==
      if segs[..i + 1] in before then before[segs[..i]]
      else before[segs[..i]].(children := before[segs[..i]].children + [segs[i]])
  {
    Ahead(before, docs, doc, segs, i);
    Behind(before, docs, doc, segs, i);
    SnocPrefix(segs, i);
    Leave(docs, doc, segs[..i]);
  }

  /** One level handled: the node entered and the node left are updated, and nothing else. */
  lemma MidwayStep(before: map<seq<string>, FolderNode>, docs: seq<DocumentData>, doc: DocumentData,
                   segs: seq<string>, i: nat)
    requires segs == SlugSegments(doc) && i < |segs|
    requires Midway(before, docs, doc, segs, i)
    requires i > 0 ==> segs[..i] in before
    ensures Midway(Descend(before, segs, i, NewNode(before, segs, i, doc)), docs, doc, segs, i + 1)
  {
    EnteredValue(before, docs, doc, segs, i);
    var after := Descend(before, segs, i, Entered(docs, doc, segs[..i + 1]));
    DescendLookup(before, segs, i, Entered(docs, doc, segs[..i + 1]));
    if i > 0 {
      LeftValue(before, docs, doc, segs, i);
    }
    MidwayFrame(before, after, docs, doc, segs, i);
  }

  /** The top-level record gains the first segment when its node is new. */
  lemma TopStep(nodes: map<seq<string>, FolderNode>, docs: seq<DocumentData>, doc: DocumentData,
                segs: seq<string>)
    requires segs == SlugSegments(doc) && 0 < |segs|
    requires Midway(nodes, docs, doc, segs, 0)
    ensures ChildKeys(docs + [doc], []) ==
      ChildKeys(docs, []) + (if [segs[0]] in nodes then [] else [segs[0]])
  {
    Ahead(nodes, docs, doc, segs, 0);
    SnocPrefix(segs, 0);
    PresentIffOccupied(nodes, docs, [segs[0]]);
    ChildKeysStep(docs, doc, []);
    assert [] + [segs[0]] == [segs[0]];
  }

  lemma PresentIffOccupied(nodes: map<seq<string>, FolderNode>, docs: seq<DocumentData>, p: seq<string>)
    requires Lookup(nodes, p) == TreeAt(docs, p)
    ensures p in nodes <==> Occupied(docs, p)
  {
  }

  /** Every level handled: the map is the tree with the document filed. */
  lemma MidwayFinish(nodes: map<seq<string>, FolderNode>, docs: seq<DocumentData>, doc: DocumentData,
                     segs: seq<string>)
    requires segs == SlugSegments(doc)
    requires Midway(nodes, docs, doc, segs, |segs|)
    ensures Tree(nodes, docs + [doc])
  {
    forall p ensures MidAt(docs, doc, segs, |segs|, p) == TreeAt(docs + [doc], p) {
      if Passed(p, segs, |segs|) {
        OnPath(docs, doc, p);
        if |p| == |segs| {
          ChildKeysStep(docs, doc, p);
          assert ChildKeys(docs, p) + [] == ChildKeys(docs, p);
        }
      } else if |p| > 0 {
        OffPath(docs, doc, p);
      }
    }
    forall p ensures Lookup(nodes, p) == TreeAt(docs + [doc], p) {
      assert Lookup(nodes, p) == MidAt(docs, doc, segs, |segs|, p);
    }
  }

  // ---------------------------------------------------------------------------
  // The folder structure object
  // ---------------------------------------------------------------------------

  class FolderStructure {
    /** Every node, under the segments that lead to it. */
    var nodes: map<seq<string>, FolderNode>
    /** The keys of the top-level record, in insertion order. */
    var topLevel: seq<string>
    /** The documents filed so far. */
    ghost var filed: seq<DocumentData>

    /** The tree is the one its documents determine. */
    ghost predicate Valid()
      reads this
    {
      Tree(nodes, filed) && topLevel == ChildKeys(filed, [])
    }

    /** `{}`. */
    constructor ()
      ensures Valid() && filed == []
    {
      nodes := map[];
      topLevel := [];
      filed := [];
    }

    /** `processDocumentIntoStructure`. */
    method ProcessDocument(doc: DocumentData)
      requires Valid()
      modifies this
      ensures Valid() && filed == old(filed) + [doc]
    {
      ghost var docs := filed;
      filed := filed + [doc];
      if !Truthy(doc.slug) {
        NoSegments(nodes, docs, doc);
        return;
      }
      var segments := Segments(doc.slug.value);
      if |segments| == 0 {
        NoSegments(nodes, docs, doc);
        return;
      }
      assert segments == SlugSegments(doc);
      MidwayStart(nodes, docs, doc, segments);
      FileFirstLevel(doc, segments, docs);
      if |segments| == 1 {
        MidwayFinish(nodes, docs, doc, segments);
        return;
      }
      FileNested(doc, segments, docs);
    }

    /** The first level of `processDocumentIntoStructure`, which lives in the top-level record. */
    method FileFirstLevel(doc: DocumentData, segments: seq<string>, ghost docs: seq<DocumentData>)
      requires segments == SlugSegments(doc) && |segments| > 0
      requires Midway(nodes, docs, doc, segments, 0)
      requires topLevel == ChildKeys(docs, []) && filed == docs + [doc]
      modifies this
      ensures Midway(nodes, docs, doc, segments, 1)
      ensures topLevel == ChildKeys(docs + [doc], []) && filed == old(filed)
    {
      var firstSegment := segments[0];
      var firstKey := [firstSegment];
      SnocPrefix(segments, 0);
      TopStep(nodes, docs, doc, segments);
      MidwayStep(nodes, docs, doc, segments, 0);
      ghost var before := nodes;
      ghost var entered := NewNode(nodes, segments, 0, doc);
      var first: FolderNode;
      if firstKey in nodes {
        first := nodes[firstKey];
      } else {
        first := FolderNode(TitleCase(firstSegment), firstSegment, 0, [], []);
        topLevel := topLevel + [firstSegment];
      }
      first := first.(count := first.count + 1);
      if |segments| == 1 {
        first := first.(documents := first.documents + [doc]);
      }
      assert first == entered;
      nodes := nodes[firstKey := first];
      assert nodes == Descend(before, segments, 0, entered);
    }

    /** The loop of `processDocumentIntoStructure` over the segments after the first. */
    method FileNested(doc: DocumentData, segments: seq<string>, ghost docs: seq<DocumentData>)
      requires segments == SlugSegments(doc) && |segments| > 1
      requires Midway(nodes, docs, doc, segments, 1)
      requires topLevel == ChildKeys(docs + [doc], []) && filed == docs + [doc]
      modifies this
      ensures Valid() && filed == old(filed)
    {
      var currentLevel := [segments[0]];
      var currentPath := segments[0];
      SnocPrefix(segments, 0);
      assert Join(currentLevel, "/") == currentPath;
      for i := 1 to |segments|
        invariant Midway(nodes, docs, doc, segments, i)
        invariant currentLevel == segments[..i] && currentPath == Join(currentLevel, "/")
        invariant topLevel == ChildKeys(docs + [doc], []) && filed == docs + [doc]
      {
        var segment := segments[i];
        currentPath := currentPath + "/" + segment;
        var key := currentLevel + [segment];
        SnocPrefix(segments, i);
        JoinPrefix(segments, i);
        ParentPresent(nodes, docs, doc, segments, i);
        MidwayStep(nodes, docs, doc, segments, i);
        ghost var before := nodes;
        ghost var entered := NewNode(nodes, segments, i, doc);
        var node: FolderNode;
        if key in nodes {
          node := nodes[key];
        } else {
          node := FolderNode(TitleCase(segment), currentPath, 0, [], []);
          nodes := nodes[currentLevel := nodes[currentLevel].(children := nodes[currentLevel].children + [segment])];
        }
        node := node.(count := node.count + 1);
        if i == |segments| - 1 {
          node := node.(documents := node.documents + [doc]);
        }
        assert node == entered;
        nodes := nodes[key := node];
        assert nodes == Descend(before, segments, i, entered);
        currentLevel := key;
      }
      MidwayFinish(nodes, docs, doc, segments);
    }
  }

  lemma PrefixSnoc(documents: seq<DocumentData>, i: nat)
    requires i < |documents|
    ensures documents[..i + 1] == documents[..i] + [documents[i]]
  {
  }

  /** `buildFolderStructure`: every document filed in order. */
  method BuildFolderStructure(documents: seq<DocumentData>) returns (s: FolderStructure)
    ensures fresh(s) && s.Valid() && s.filed == documents
  {
    s := new FolderStructure();
    for i := 0 to |documents|
      invariant s.Valid() && s.filed == documents[..i]
    {
      s.ProcessDocument(documents[i]);
      PrefixSnoc(documents, i);
    }
    assert documents[..|documents|] == documents;
  }

  // ---------------------------------------------------------------------------
  // What the tree holds
  // ---------------------------------------------------------------------------

  /** A document sits at the node its whole slug names. */
  lemma {:induction false} DocsAtIff(docs: seq<DocumentData>, p: seq<string>, d: DocumentData)
    ensures d in DocsAt(docs, p) <==> d in docs && SlugSegments(d) == p
    decreases |docs|
  {
    if |docs| > 0 {
      var init := docs[..|docs| - 1];
      DocsAtIff(init, p, d);
      assert docs == init + [docs[|docs| - 1]];
    }
  }

  /** Every document filed at or below `p` is counted there. */
  lemma {:induction false} CountPositive(docs: seq<DocumentData>, p: seq<string>, d: DocumentData)
    requires d in docs && Under(d, p)
    ensures Count(docs, p) > 0
    decreases |docs|
  {
    var init := docs[..|docs| - 1];
    assert docs == init + [docs[|docs| - 1]];
    if d != docs[|docs| - 1] {
      CountPositive(init, p, d);
    }
  }

  /** A node that counts documents has one of them from which its path is taken. */
  lemma {:induction false} CountWitness(docs: seq<DocumentData>, p: seq<string>) returns (d: DocumentData)
    requires Count(docs, p) > 0
    ensures d in docs && Under(d, p)
    decreases |docs|
  {
    var init := docs[..|docs| - 1];
    assert docs == init + [docs[|docs| - 1]];
    if Under(docs[|docs| - 1], p) {
      d := docs[|docs| - 1];
    } else {
      d := CountWitness(init, p);
    }
  }

  /** A node counts at least the documents it holds, and at most all documents. */
  lemma {:induction false} CountBounds(docs: seq<DocumentData>, p: seq<string>)
    ensures |DocsAt(docs, p)| <= Count(docs, p) <= |docs|
    decreases |docs|
  {
    if |docs| > 0 {
      CountBounds(docs[..|docs| - 1], p);
    }
  }

  /** A child never counts more than its parent. */
  lemma {:induction false} CountBelow(docs: seq<DocumentData>, p: seq<string>, x: string)
    ensures Count(docs, p + [x]) <= Count(docs, p)
    decreases |docs|
  {
    if |docs| > 0 {
      CountBelow(docs[..|docs| - 1], p, x);
      UnderExtend(docs[|docs| - 1], p, x);
    }
  }

  /** A node that counts documents holds a document or has a key. */
  lemma {:induction false} CountedHasContent(docs: seq<DocumentData>, p: seq<string>)
    requires Count(docs, p) > 0
    ensures |DocsAt(docs, p)| > 0 || |NextKeys(docs, p)| > 0
    decreases |docs|
  {
    var init := docs[..|docs| - 1];
    var last := docs[|docs| - 1];
    if Under(last, p) {
      var s := SlugSegments(last);
      if |s| == |p| {
        assert s == s[..|p|];
      }
    } else {
      CountedHasContent(init, p);
    }
  }

  /** The first character of a joined path is the first character of its first segment. */
  lemma JoinHead(p: seq<string>)
    requires |p| > 0 && p[0] != ""
    ensures |Join(p, "/")| > 0 && Join(p, "/")[0] == p[0][0]
  {
  }

  /**
   * Every node of the tree as the builder leaves it: its title is its last segment
   * title-cased, its path its segments joined with `/` and without a leading `/`,
   * its count the documents filed at or below it, its documents those whose slug ends
   * there, and its keys name exactly the nodes one level below it, each once.
   */
  lemma NodeShape(nodes: map<seq<string>, FolderNode>, docs: seq<DocumentData>, p: seq<string>)
    requires Tree(nodes, docs) && p in nodes
    ensures |p| > 0 && nodes[p].title == TitleCase(p[|p| - 1])
    ensures nodes[p].path == Join(p, "/") && |nodes[p].path| > 0 && nodes[p].path[0] != '/'
    ensures Segments("/" + nodes[p].path) == p
    ensures 0 < nodes[p].count <= |docs| && |nodes[p].documents| <= nodes[p].count
    ensures nodes[p].count == Count(docs, p)
    ensures forall d :: d in nodes[p].documents <==> d in docs && SlugSegments(d) == p
    ensures |nodes[p].documents| > 0 || |nodes[p].children| > 0
    ensures NoDuplicates(nodes[p].children)
    ensures forall c :: c in nodes[p].children <==> p + [c] in nodes
  {
    NodeNaming(nodes, docs, p);
    NodeContents(nodes, docs, p);
    NodeChildren(nodes, docs, p);
  }

  lemma NodeNaming(nodes: map<seq<string>, FolderNode>, docs: seq<DocumentData>, p: seq<string>)
    requires Tree(nodes, docs) && p in nodes
    ensures |p| > 0 && nodes[p].title == TitleCase(p[|p| - 1])
    ensures nodes[p].path == Join(p, "/") && |nodes[p].path| > 0 && nodes[p].path[0] != '/'
    ensures Segments("/" + nodes[p].path) == p
  {
    assert Lookup(nodes, p) == TreeAt(docs, p);
    var d := CountWitness(docs, p);
    var s := SlugSegments(d);
    assert p == s[..|p|];
    assert forall k :: 0 <= k < |p| ==> p[k] == s[k];
    JoinHead(p);
    SegmentsOfRootedJoin(p);
  }

  lemma NodeContents(nodes: map<seq<string>, FolderNode>, docs: seq<DocumentData>, p: seq<string>)
    requires Tree(nodes, docs) && p in nodes
    ensures 0 < nodes[p].count <= |docs| && |nodes[p].documents| <= nodes[p].count
    ensures nodes[p].count == Count(docs, p)
    ensures forall d :: d in nodes[p].documents <==> d in docs && SlugSegments(d) == p
    ensures |nodes[p].documents| > 0 || |nodes[p].children| > 0
  {
    assert Lookup(nodes, p) == TreeAt(docs, p);
    CountBounds(docs, p);
    forall x ensures x in nodes[p].documents <==> x in docs && SlugSegments(x) == p {
      DocsAtIff(docs, p, x);
    }
    CountedHasContent(docs, p);
  }

  lemma NodeChildren(nodes: map<seq<string>, FolderNode>, docs: seq<DocumentData>, p: seq<string>)
    requires Tree(nodes, docs) && p in nodes
    ensures NoDuplicates(nodes[p].children)
    ensures forall c :: c in nodes[p].children <==> p + [c] in nodes
  {
    assert Lookup(nodes, p) == TreeAt(docs, p);
    forall c ensures c in nodes[p].children <==> p + [c] in nodes {
      NextKeysIff(docs, p, c);
      assert Lookup(nodes, p + [c]) == TreeAt(docs, p + [c]);
    }
  }

  /** The top-level keys name exactly the first-level nodes, each once. */
  lemma TopLevelShape(nodes: map<seq<string>, FolderNode>, docs: seq<DocumentData>)
    requires Tree(nodes, docs)
    ensures NoDuplicates(ChildKeys(docs, []))
    ensures forall c :: c in ChildKeys(docs, []) <==> [c] in nodes
  {
    forall c ensures c in ChildKeys(docs, []) <==> [c] in nodes {
      NextKeysIff(docs, [], c);
      assert [] + [c] == [c];
      assert Lookup(nodes, [c]) == TreeAt(docs, [c]);
    }
  }

  /** A node below another counts no more documents than it. */
  lemma ChildCount(nodes: map<seq<string>, FolderNode>, docs: seq<DocumentData>, p: seq<string>, c: string)
    requires Tree(nodes, docs) && p in nodes && p + [c] in nodes
    ensures nodes[p + [c]].count <= nodes[p].count
  {
    assert Lookup(nodes, p) == TreeAt(docs, p);
    assert Lookup(nodes, p + [c]) == TreeAt(docs, p + [c]);
    CountBelow(docs, p, c);
  }

  /**
   * Each document with segments is in the documents of exactly one node, the one its
   * slug names; a document without segments is in none.
   */
  lemma FiledOnce(nodes: map<seq<string>, FolderNode>, docs: seq<DocumentData>, d: DocumentData)
    requires Tree(nodes, docs) && d in docs
    ensures |SlugSegments(d)| > 0 ==> SlugSegments(d) in nodes && d in nodes[SlugSegments(d)].documents
    ensures forall p :: p in nodes && d in nodes[p].documents ==> p == SlugSegments(d)
  {
    var s := SlugSegments(d);
    if |s| > 0 {
      assert s[..|s|] == s;
      CountPositive(docs, s, d);
      assert Lookup(nodes, s) == TreeAt(docs, s);
      DocsAtIff(docs, s, d);
    }
    forall p | p in nodes && d in nodes[p].documents ensures p == s {
      assert Lookup(nodes, p) == TreeAt(docs, p);
      DocsAtIff(docs, p, d);
    }
  }
}
