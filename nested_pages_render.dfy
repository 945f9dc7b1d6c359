// The rendering half of the studio's "pages by path" navigation: the folder tree is
// turned into nested lists of folder entries, document entries and dividers.
//
// A record of the tree is named by the segments that lead to it (`level`) and the
// keys it holds, in insertion order; the node under key `k` is `nodes[level + [k]]`.

module NestedPagesRender {
  import opened Text
  import opened StudioHelper
  import opened NestedPages

  datatype Icon = DocumentIcon | FolderIcon

  /** The list entries the structure builder is given. */
  datatype ListItem =
    | Divider
      /** A document entry opening the document `documentId`. */
    | DocumentItem(id: string, title: string, icon: Icon, documentId: string, schemaType: string)
      /**
       * A folder entry with its nested list; its "Add page" action pre-fills a slug and a
       * title, each a fixed prefix followed by a generated word.
       */
    | FolderItem(id: string, title: string, listTitle: string, items: seq<ListItem>,
                 newPageSlugPrefix: string, newPageTitlePrefix: string)
      /** The flat list of every document of a type. */
    | DocumentTypeItem(id: string, title: string, schemaType: string)

  /** The `type` argument of `createUniqueId`. */
  datatype IdKind = FolderKind | DocKind | MainKind | SingleKind

  function KindName(kind: IdKind): string {
    match kind
    case FolderKind => "folder"
    case DocKind => "doc"
    case MainKind => "main"
    case SingleKind => "single"
  }

  /** `createUniqueId`: `<type>-<parentPath><key>-<depth>`. */
  function CreateUniqueId(kind: IdKind, parentPath: string, key: string, depth: nat): string {
    KindName(kind) + "-" + parentPath + key + "-" + NatToString(depth)
  }

  /** An id splits back into its kind and parent path, its key, and its depth. */
  lemma UniqueIdParts(kind: IdKind, parentPath: string, key: string, depth: nat)
    ensures var r := CreateUniqueId(kind, parentPath, key, depth);
      var prefix := KindName(kind) + "-" + parentPath;
      && |r| == |prefix| + |key| + 1 + |NatToString(depth)|
      && r[..|prefix|] == prefix
      && r[|prefix|..|prefix| + |key|] == key
      && r[|prefix| + |key|..] == "-" + NatToString(depth)
  {
  }

  /** Under one kind, parent path and depth, different keys give different ids. */
  lemma UniqueIdInjective(kind: IdKind, parentPath: string, key1: string, key2: string, depth: nat)
    requires CreateUniqueId(kind, parentPath, key1, depth) == CreateUniqueId(kind, parentPath, key2, depth)
    ensures key1 == key2
  {
    var prefix := KindName(kind) + "-" + parentPath;
    var id := CreateUniqueId(kind, parentPath, key1, depth);
    UniqueIdParts(kind, parentPath, key1, depth);
    UniqueIdParts(kind, parentPath, key2, depth);
    assert key1 == id[|prefix|..|prefix| + |key1|];
  }

  /** Ids are not unique across lists: `a/b-x` and `a-b/x` give one folder id at depth 1. */
  lemma UniqueIdsRepeatAcrossLists()
    ensures CreateUniqueId(FolderKind, "a" + "-", "b-x", 1) == CreateUniqueId(FolderKind, "a-b" + "-", "x", 1)
  {
  }

  /** `doc.title || "Untitled"`. */
  function DisplayTitle(doc: DocumentData): string {
    OrElse(doc.title, "Untitled")
  }

  /** `createDocumentListItems`: one entry per document, numbered by position. */
  function DocumentItems(docs: seq<DocumentData>, schemaType: string, uniqueId: string): seq<ListItem> {
    seq(|docs|, k requires 0 <= k < |docs| =>
      DocumentItem("doc-" + uniqueId + "-" + NatToString(k), DisplayTitle(docs[k]), DocumentIcon, docs[k].id, schemaType))
  }

  /** `createMainPageListItem`. */
  function MainPageItem(doc: DocumentData, schemaType: string, uniqueId: string): ListItem {
    DocumentItem("main-" + uniqueId, DisplayTitle(doc), FolderIcon, doc.id, schemaType)
  }

  /** `createSingleDocumentListItem`. */
  function SingleItem(doc: DocumentData, schemaType: string): ListItem {
    DocumentItem("single-" + doc.id, DisplayTitle(doc), DocumentIcon, doc.id, schemaType)
  }

  /** `documents.find(doc => doc.slug === path)`. */
  function MainPageDoc(docs: seq<DocumentData>, path: string): Option<DocumentData> {
    if |docs| == 0 then None
    else if docs[0].slug == Some(path) then Some(docs[0])
    else MainPageDoc(docs[1..], path)
  }

  /** `find` returns the first document whose slug is the path, and nothing when there is none. */
  lemma {:induction false} MainPageDocIsFirst(docs: seq<DocumentData>, path: string)
    ensures MainPageDoc(docs, path).None? <==> forall k :: 0 <= k < |docs| ==> docs[k].slug != Some(path)
    ensures MainPageDoc(docs, path).Some? ==>
      exists k :: 0 <= k < |docs| && docs[k] == MainPageDoc(docs, path).value && docs[k].slug == Some(path) &&
        forall j :: 0 <= j < k ==> docs[j].slug != Some(path)
    decreases |docs|
  {
    if |docs| > 0 && docs[0].slug != Some(path) {
      var rest := docs[1..];
      MainPageDocIsFirst(rest, path);
      assert forall k :: 0 < k < |docs| ==> docs[k] == rest[k - 1];
      var r := MainPageDoc(rest, path);
      if r.Some? {
        var k :| 0 <= k < |rest| && rest[k] == r.value && rest[k].slug == Some(path) &&
          forall j :: 0 <= j < k ==> rest[j].slug != Some(path);
        assert docs[k + 1] == r.value;
      }
    }
  }

  /** `documents.filter(doc => doc._id !== main?._id)`: with no main page every document stays. */
  function OtherDocs(docs: seq<DocumentData>, main: Option<DocumentData>): seq<DocumentData> {
    if |docs| == 0 then []
    else
      var rest := OtherDocs(docs[1..], main);
      if main.None? || docs[0].id != main.value.id then [docs[0]] + rest else rest
  }

  /** The filter keeps exactly the documents that are not the main page, and all of them when there is none. */
  lemma {:induction false} OtherDocsIff(docs: seq<DocumentData>, main: Option<DocumentData>)
    ensures main.None? ==> OtherDocs(docs, main) == docs
    ensures forall d :: d in OtherDocs(docs, main) <==> d in docs && (main.None? || d.id != main.value.id)
    decreases |docs|
  {
    if |docs| > 0 {
      OtherDocsIff(docs[1..], main);
      assert docs == [docs[0]] + docs[1..];
    }
  }

  /**
   * The contents of a folder: the other documents, a divider when both they and child
   * folders are present, the child folders, then the main page, after a divider when
   * anything came before it.
   */
  function FolderContents(others: seq<ListItem>, children: seq<ListItem>, main: Option<ListItem>): seq<ListItem> {
    FolderBody(others, children)
    + (if main.Some? then (if |others| > 0 || |children| > 0 then [Divider] else []) + [main.value] else [])
  }

  /** The part of a folder's list before its main page. */
  function FolderBody(others: seq<ListItem>, children: seq<ListItem>): seq<ListItem> {
    others + (if |children| > 0 then (if |others| > 0 then [Divider] else []) + children else [])
  }

  /** `combineItemsWithDividers`. */
  function Combine(folders: seq<ListItem>, files: seq<ListItem>): seq<ListItem> {
    folders + (if |folders| > 0 && |files| > 0 then [Divider] else []) + files
  }

  /** A node with a child, or with more than one item in all, is shown as a folder. */
  predicate IsFolder(node: FolderNode) {
    |node.children| + |node.documents| > 1 || |node.children| > 0
  }

  /** A node with no child and exactly one document is shown as that document. */
  predicate IsFile(node: FolderNode) {
    !IsFolder(node) && |node.documents| > 0 && |node.documents| == 1
  }

  // ---------------------------------------------------------------------------
  // createListItemsFromStructure and processFolderItem, as functions
  // ---------------------------------------------------------------------------

  /** The nodes strictly below the record at `level`: what the recursion still has to visit. */
  function Below(nodes: map<seq<string>, FolderNode>, level: seq<string>): set<seq<string>> {
    set q | q in nodes && |level| < |q| && q[..|level|] == level
  }

  lemma BelowShrinks(nodes: map<seq<string>, FolderNode>, level: seq<string>, key: string)
    requires level + [key] in nodes
    ensures Below(nodes, level + [key]) < Below(nodes, level)
  {
    var k := level + [key];
    assert k[..|level|] == level;
    forall q | q in Below(nodes, k) ensures q in Below(nodes, level) {
      assert q[..|level|] == q[..|k|][..|level|];
    }
    assert k in Below(nodes, level) && k !in Below(nodes, k);
  }

  /** The entry for the node under `key`: `processFolderItem`. */
  function FolderEntry(nodes: map<seq<string>, FolderNode>, level: seq<string>, key: string, depth: nat,
                       parentPath: string, schemaType: string): ListItem
    requires level + [key] in nodes
    decreases Below(nodes, level), 0, 0
  {
    var folder := nodes[level + [key]];
    var uniqueId := CreateUniqueId(FolderKind, parentPath, key, depth);
    var children :=
      if |folder.children| > 0 then
        BelowShrinks(nodes, level, key);
        Listing(nodes, level + [key], folder.children, depth + 1, key + "-", schemaType)
      else [];
    var main := MainPageDoc(folder.documents, folder.path);
    var others := OtherDocs(folder.documents, main);
    var items := FolderContents(DocumentItems(others, schemaType, uniqueId), children,
      if main.Some? then Some(MainPageItem(main.value, schemaType, uniqueId)) else None);
    FolderItem(uniqueId, folder.title + " (" + NatToString(folder.count) + ")", folder.title, items,
               "/" + folder.path + "/", folder.title + " > ")
  }

  /** The folder entries of the keys, in order. */
  function Folders(nodes: map<seq<string>, FolderNode>, level: seq<string>, keys: seq<string>, depth: nat,
                   parentPath: string, schemaType: string): seq<ListItem>
    decreases Below(nodes, level), 1, |keys|
  {
    if |keys| == 0 then []
    else
      var key := keys[|keys| - 1];
      Folders(nodes, level, keys[..|keys| - 1], depth, parentPath, schemaType)
      + (if level + [key] in nodes && IsFolder(nodes[level + [key]])
         then [FolderEntry(nodes, level, key, depth, parentPath, schemaType)] else [])
  }

  /** The file entries of the keys, in order. */
  function Files(nodes: map<seq<string>, FolderNode>, level: seq<string>, keys: seq<string>, schemaType: string)
    : seq<ListItem>
  {
    if |keys| == 0 then []
    else
      var key := keys[|keys| - 1];
      Files(nodes, level, keys[..|keys| - 1], schemaType)
      + (if level + [key] in nodes && IsFile(nodes[level + [key]])
         then [SingleItem(nodes[level + [key]].documents[0], schemaType)] else [])
  }

  /** `createListItemsFromStructure` on the record at `level`. */
  function Listing(nodes: map<seq<string>, FolderNode>, level: seq<string>, keys: seq<string>, depth: nat,
                   parentPath: string, schemaType: string): seq<ListItem>
    decreases Below(nodes, level), 2, 0
  {
    Combine(Folders(nodes, level, keys, depth, parentPath, schemaType), Files(nodes, level, keys, schemaType))
  }

  // ---------------------------------------------------------------------------
  // The same, as the source writes it
  // ---------------------------------------------------------------------------

  /** `combineItemsWithDividers`. */
  method CombineItemsWithDividers(folders: seq<ListItem>, files: seq<ListItem>) returns (result: seq<ListItem>)
    ensures result == Combine(folders, files)
  {
    result := [];
    if |folders| > 0 {
      result := result + folders;
    }
    if |folders| > 0 && |files| > 0 {
      result := result + [Divider];
    }
    if |files| > 0 {
      result := result + files;
    }
  }

  /** `processFolderItem`. */
  method ProcessFolderItem(nodes: map<seq<string>, FolderNode>, level: seq<string>, key: string, depth: nat,
                           parentPath: string, schemaType: string) returns (item: ListItem)
    requires level + [key] in nodes
    ensures item == FolderEntry(nodes, level, key, depth, parentPath, schemaType)
    decreases Below(nodes, level), 0, 0
  {
    var folder := nodes[level + [key]];
    var uniqueId := CreateUniqueId(FolderKind, parentPath, key, depth);
    var childFolderItems: seq<ListItem> := [];
    if |folder.children| > 0 {
      BelowShrinks(nodes, level, key);
      childFolderItems := CreateListItemsFromStructure(nodes, level + [key], folder.children, depth + 1,
                                                       key + "-", schemaType);
    }
    var mainPageDoc := MainPageDoc(folder.documents, folder.path);
    var otherDocs := OtherDocs(folder.documents, mainPageDoc);
    var mainItem := if mainPageDoc.Some? then Some(MainPageItem(mainPageDoc.value, schemaType, uniqueId)) else None;
    var listItems := AssembleFolderItems(DocumentItems(otherDocs, schemaType, uniqueId), childFolderItems, mainItem);
    item := FolderItem(uniqueId, folder.title + " (" + NatToString(folder.count) + ")", folder.title, listItems,
                       "/" + folder.path + "/", folder.title + " > ");
  }

  /**
   * The pushes that fill a folder's list: the other documents, a divider and the
   * child folders, then a divider and the main page.
   */
  method AssembleFolderItems(others: seq<ListItem>, children: seq<ListItem>, main: Option<ListItem>)
    returns (listItems: seq<ListItem>)
    ensures listItems == FolderContents(others, children, main)
  {
    listItems := [];
    if |others| > 0 {
      listItems := listItems + others;
    }
    if |children| > 0 {
      if |others| > 0 {
        listItems := listItems + [Divider];
      }
      listItems := listItems + children;
    }
    assert listItems == FolderBody(others, children);
    if main.Some? {
      if |others| > 0 || |children| > 0 {
        listItems := listItems + [Divider];
      }
      listItems := listItems + [main.value];
    }
  }

  /** `createListItemsFromStructure`: one pass over the keys, sorting nodes into folders and files. */
  method CreateListItemsFromStructure(nodes: map<seq<string>, FolderNode>, level: seq<string>, keys: seq<string>,
                                      depth: nat, parentPath: string, schemaType: string)
    returns (items: seq<ListItem>)
    ensures items == Listing(nodes, level, keys, depth, parentPath, schemaType)
    decreases Below(nodes, level), 2, 0
  {
    var folders: seq<ListItem> := [];
    var files: seq<ListItem> := [];
    for i := 0 to |keys|
      invariant folders == Folders(nodes, level, keys[..i], depth, parentPath, schemaType)
      invariant files == Files(nodes, level, keys[..i], schemaType)
    {
      var key := keys[i];
      assert keys[..i + 1][..i] == keys[..i];
      if level + [key] in nodes {
        var folder := nodes[level + [key]];
        var hasChildren := |folder.children| > 0;
        var hasDocuments := |folder.documents| > 0;
        var totalItems := |folder.children| + |folder.documents|;
        if totalItems > 1 || hasChildren {
          var entry := ProcessFolderItem(nodes, level, key, depth, parentPath, schemaType);
          folders := folders + [entry];
        } else if hasDocuments && |folder.documents| == 1 {
          var doc := folder.documents[0];
          files := files + [SingleItem(doc, schemaType)];
        }
      }
    }
    assert keys[..|keys|] == keys;
    items := CombineItemsWithDividers(folders, files);
  }

  // ---------------------------------------------------------------------------
  // The order of the entries
  // ---------------------------------------------------------------------------

  predicate NoDivider(items: seq<ListItem>) {
    forall k :: 0 <= k < |items| ==> !items[k].Divider?
  }

  /** Dividers only ever separate two groups: never first, never last, never two in a row. */
  predicate WellSeparated(items: seq<ListItem>) {
    && (|items| > 0 ==> !items[0].Divider? && !items[|items| - 1].Divider?)
    && (forall k :: 0 <= k < |items| - 1 ==> !(items[k].Divider? && items[k + 1].Divider?))
  }

  lemma DocumentItemsAt(docs: seq<DocumentData>, schemaType: string, uniqueId: string)
    ensures |DocumentItems(docs, schemaType, uniqueId)| == |docs|
    ensures forall k :: 0 <= k < |docs| ==>
      DocumentItems(docs, schemaType, uniqueId)[k] ==
        DocumentItem("doc-" + uniqueId + "-" + NatToString(k), DisplayTitle(docs[k]), DocumentIcon, docs[k].id, schemaType)
    ensures NoDivider(DocumentItems(docs, schemaType, uniqueId))
  {
  }

  /**
   * At the top of every list the folders come first and the files after them, with a
   * single divider between the two, present exactly when both groups are non-empty.
   */
  lemma CombineShape(folders: seq<ListItem>, files: seq<ListItem>)
    requires NoDivider(folders) && NoDivider(files)
    ensures var r := Combine(folders, files);
      && r[..|folders|] == folders
      && r[|r| - |files|..] == files
      && (forall k :: 0 <= k < |r| ==> (r[k].Divider? <==> |folders| > 0 && |files| > 0 && k == |folders|))
      && WellSeparated(r)
  {
    var r := Combine(folders, files);
    if |folders| > 0 && |files| > 0 {
      assert r == folders + [Divider] + files;
      JoinedParts(folders, [Divider], files);
    } else {
      assert r == folders + [] + files;
      JoinedParts(folders, [], files);
    }
  }

  lemma JoinedParts(folders: seq<ListItem>, d: seq<ListItem>, files: seq<ListItem>)
    requires NoDivider(folders) && NoDivider(files) && |d| <= 1
    requires |d| == 1 ==> d[0] == Divider && |folders| > 0 && |files| > 0
    ensures var r := folders + d + files;
      && r[..|folders|] == folders
      && r[|r| - |files|..] == files
      && (forall k :: 0 <= k < |r| ==> (r[k].Divider? <==> |d| == 1 && k == |folders|))
  {
    var r := folders + d + files;
    assert r[..|folders|] == folders;
    assert r[|r| - |files|..] == files;
    forall k | 0 <= k < |r| ensures r[k].Divider? <==> |d| == 1 && k == |folders| {
      if k < |folders| {
        assert r[k] == folders[k];
      } else if k >= |folders| + |d| {
        assert r[k] == files[k - |folders| - |d|];
      }
    }
  }

  /**
   * Inside a folder the other documents come first, then a divider if both they and
   * child folders are there, then the child folders, then the main page last, after a
   * divider exactly when something came before it.
   */
  lemma FolderBodyShape(others: seq<ListItem>, children: seq<ListItem>)
    requires NoDivider(others) && WellSeparated(children)
    ensures var front := FolderBody(others, children);
      && front[..|others|] == others
      && (|others| > 0 && |children| > 0 ==> front[|others|] == Divider && front[|others| + 1..] == children)
      && (|others| == 0 ==> front == children)
      && |front| == |others| + |children| + (if |others| > 0 && |children| > 0 then 1 else 0)
      && WellSeparated(front)
  {
    var front := FolderBody(others, children);
    if |others| > 0 && |children| > 0 {
      assert front == others + [Divider] + children;
      forall k | 0 <= k < |front| - 1 ensures !(front[k].Divider? && front[k + 1].Divider?) {
        if k < |others| {
          assert front[k] == others[k];
        } else {
          assert front[k + 1] == children[k - |others|];
        }
      }
      assert front[|front| - 1] == children[|children| - 1];
    } else if |children| > 0 {
      assert front == children;
    } else {
      assert front == others;
    }
  }

  /**
   * Inside a folder the other documents come first, then a divider if both they and
   * child folders are there, then the child folders, then the main page last, after a
   * divider exactly when something came before it.
   */
  lemma FolderContentsShape(others: seq<ListItem>, children: seq<ListItem>, main: Option<ListItem>)
    requires NoDivider(others) && WellSeparated(children) && (main.Some? ==> !main.value.Divider?)
    ensures var r := FolderContents(others, children, main);
      && r[..|others|] == others
      && (|others| > 0 && |children| > 0 ==> r[|others|] == Divider && r[|others| + 1..|others| + 1 + |children|] == children)
      && (|others| == 0 ==> r[..|children|] == children)
      && (main.Some? ==> r[|r| - 1] == main.value)
      && (main.Some? ==> (|r| > 1 <==> |others| > 0 || |children| > 0))
      && (main.Some? && |r| > 1 ==> r[|r| - 2] == Divider)
      && (main.None? ==> |r| == |others| + |children| + (if |others| > 0 && |children| > 0 then 1 else 0))
      && WellSeparated(r)
  {
    var r := FolderContents(others, children, main);
    var front := FolderBody(others, children);
    FolderBodyShape(others, children);
    if main.Some? {
      assert |front| > 0 <==> |others| > 0 || |children| > 0;
      assert r == front + (if |front| > 0 then [Divider] else []) + [main.value];
      AppendMain(front, main.value);
      SliceOfPrefix(r, front, 0, |others|);
      if |others| > 0 && |children| > 0 {
        SliceOfPrefix(r, front, |others| + 1, |front|);
        assert r[|others|] == front[|others|];
      }
      if |others| == 0 {
        SliceOfPrefix(r, front, 0, |children|);
      }
    } else {
      assert r == front;
    }
  }

  /** The main page after a well-separated list, behind a divider when the list is not empty. */
  lemma AppendMain(front: seq<ListItem>, m: ListItem)
    requires WellSeparated(front) && !m.Divider?
    ensures var r := front + (if |front| > 0 then [Divider] else []) + [m];
      && r[..|front|] == front && r[|r| - 1] == m
      && (|r| > 1 <==> |front| > 0) && (|r| > 1 ==> r[|r| - 2] == Divider)
      && WellSeparated(r)
  {
    var r := front + (if |front| > 0 then [Divider] else []) + [m];
    assert r[..|front|] == front;
    forall k | 0 <= k < |r| - 1 ensures !(r[k].Divider? && r[k + 1].Divider?) {
      if k < |front| - 1 {
        assert r[k] == front[k] && r[k + 1] == front[k + 1];
      } else if k == |front| - 1 {
        assert r[k] == front[k];
      }
    }
  }

  lemma SliceOfPrefix(r: seq<ListItem>, front: seq<ListItem>, i: nat, j: nat)
    requires |front| <= |r| && r[..|front|] == front && i <= j <= |front|
    ensures r[i..j] == front[i..j]
  {
    assert forall k :: i <= k < j ==> r[k] == r[..|front|][k];
  }

  lemma {:induction false} FoldersAreFolders(nodes: map<seq<string>, FolderNode>, level: seq<string>, keys: seq<string>,
                                            depth: nat, parentPath: string, schemaType: string)
    ensures forall k :: 0 <= k < |Folders(nodes, level, keys, depth, parentPath, schemaType)| ==>
      Folders(nodes, level, keys, depth, parentPath, schemaType)[k].FolderItem?
    decreases |keys|
  {
    if |keys| > 0 {
      FoldersAreFolders(nodes, level, keys[..|keys| - 1], depth, parentPath, schemaType);
    }
  }

  lemma {:induction false} FilesAreDocuments(nodes: map<seq<string>, FolderNode>, level: seq<string>, keys: seq<string>,
                                            schemaType: string)
    ensures forall k :: 0 <= k < |Files(nodes, level, keys, schemaType)| ==>
      Files(nodes, level, keys, schemaType)[k].DocumentItem?
    decreases |keys|
  {
    if |keys| > 0 {
      FilesAreDocuments(nodes, level, keys[..|keys| - 1], schemaType);
    }
  }

  /** Every list the renderer produces has its folders first, then its files, with at most one divider between. */
  lemma ListingShape(nodes: map<seq<string>, FolderNode>, level: seq<string>, keys: seq<string>,
                     depth: nat, parentPath: string, schemaType: string)
    ensures var folders := Folders(nodes, level, keys, depth, parentPath, schemaType);
      var files := Files(nodes, level, keys, schemaType);
      var r := Listing(nodes, level, keys, depth, parentPath, schemaType);
      && r[..|folders|] == folders
      && r[|r| - |files|..] == files
      && (forall k :: 0 <= k < |r| ==> (r[k].Divider? <==> |folders| > 0 && |files| > 0 && k == |folders|))
      && WellSeparated(r)
  {
    FoldersAreFolders(nodes, level, keys, depth, parentPath, schemaType);
    FilesAreDocuments(nodes, level, keys, schemaType);
    CombineShape(Folders(nodes, level, keys, depth, parentPath, schemaType), Files(nodes, level, keys, schemaType));
  }

  /**
   * A folder entry: its id is `folder-<parentPath><key>-<depth>`, its title the node's
   * title and count, its new-page prefixes `/<path>/` and `<title> > `; its list is well
   * separated, and ends with the main page when the folder has one.
   */
  lemma FolderEntryShape(nodes: map<seq<string>, FolderNode>, level: seq<string>, key: string, depth: nat,
                         parentPath: string, schemaType: string)
    requires level + [key] in nodes
    ensures var folder := nodes[level + [key]];
      var e := FolderEntry(nodes, level, key, depth, parentPath, schemaType);
      var main := MainPageDoc(folder.documents, folder.path);
      && e.FolderItem?
      && e.id == CreateUniqueId(FolderKind, parentPath, key, depth)
      && e.title == folder.title + " (" + NatToString(folder.count) + ")"
      && e.listTitle == folder.title
      && e.newPageSlugPrefix == "/" + folder.path + "/"
      && e.newPageTitlePrefix == folder.title + " > "
      && WellSeparated(e.items)
      && (main.Some? ==> e.items[|e.items| - 1] == MainPageItem(main.value, schemaType, e.id))
      && (main.None? && |folder.children| == 0 ==> e.items == DocumentItems(folder.documents, schemaType, e.id))
  {
    var folder := nodes[level + [key]];
    var uniqueId := CreateUniqueId(FolderKind, parentPath, key, depth);
    var children :=
      if |folder.children| > 0 then
        BelowShrinks(nodes, level, key);
        Listing(nodes, level + [key], folder.children, depth + 1, key + "-", schemaType)
      else [];
    if |folder.children| > 0 {
      ListingShape(nodes, level + [key], folder.children, depth + 1, key + "-", schemaType);
    }
    var main := MainPageDoc(folder.documents, folder.path);
    var others := OtherDocs(folder.documents, main);
    OtherDocsIff(folder.documents, main);
    DocumentItemsAt(others, schemaType, uniqueId);
    FolderContentsShape(DocumentItems(others, schemaType, uniqueId), children,
      if main.Some? then Some(MainPageItem(main.value, schemaType, uniqueId)) else None);
  }

  /** A node is shown as a folder, as a file, or, when it holds nothing, not at all. */
  lemma Classification(node: FolderNode)
    ensures !(IsFolder(node) && IsFile(node))
    ensures IsFolder(node) || IsFile(node) <==> |node.children| > 0 || |node.documents| > 0
    ensures IsFile(node) <==> |node.children| == 0 && |node.documents| == 1
  {
  }

  /** Every node of a built tree is shown, and every key of its records names a node. */
  lemma TreeNodesShown(nodes: map<seq<string>, FolderNode>, docs: seq<DocumentData>, p: seq<string>)
    requires Tree(nodes, docs) && p in nodes
    ensures IsFolder(nodes[p]) || IsFile(nodes[p])
    ensures forall c :: c in nodes[p].children ==> p + [c] in nodes
  {
    NodeShape(nodes, docs, p);
  }

  /**
   * A folder's path never starts with `/`, so a document whose slug does is never its
   * main page: when every slug starts with `/`, no folder of the tree has one.
   */
  lemma RootedSlugsHaveNoMainPage(nodes: map<seq<string>, FolderNode>, docs: seq<DocumentData>, p: seq<string>)
    requires Tree(nodes, docs) && p in nodes
    requires forall d :: d in docs && d.slug.Some? ==> StartsWith(d.slug.value, "/")
    ensures MainPageDoc(nodes[p].documents, nodes[p].path).None?
  {
    NodeShape(nodes, docs, p);
    var folder := nodes[p];
    MainPageDocIsFirst(folder.documents, folder.path);
    forall k | 0 <= k < |folder.documents| ensures folder.documents[k].slug != Some(folder.path) {
      assert folder.documents[k] in folder.documents;
    }
  }

  /** A record whose keys all name nodes that are shown yields one entry per key. */
  lemma {:induction false} ListingCoversKeys(nodes: map<seq<string>, FolderNode>, level: seq<string>, keys: seq<string>,
                                            depth: nat, parentPath: string, schemaType: string)
    requires forall k :: 0 <= k < |keys| ==>
      level + [keys[k]] in nodes && (IsFolder(nodes[level + [keys[k]]]) || IsFile(nodes[level + [keys[k]]]))
    ensures |Folders(nodes, level, keys, depth, parentPath, schemaType)| + |Files(nodes, level, keys, schemaType)| == |keys|
    decreases |keys|
  {
    if |keys| > 0 {
      var init := keys[..|keys| - 1];
      assert forall k :: 0 <= k < |init| ==> init[k] == keys[k];
      ListingCoversKeys(nodes, level, init, depth, parentPath, schemaType);
      Classification(nodes[level + [keys[|keys| - 1]]]);
    }
  }

  /** The top record has a key exactly when some document's slug has a segment. */
  lemma TopLevelIff(docs: seq<DocumentData>)
    ensures |ChildKeys(docs, [])| > 0 <==> exists d :: d in docs && |SlugSegments(d)| > 0
  {
    if d :| d in docs && |SlugSegments(d)| > 0 {
      var s := SlugSegments(d);
      assert s[..|[s[0]]|] == [s[0]];
      CountPositive(docs, [s[0]], d);
      assert [] + [s[0]] == [s[0]];
      NextKeysIff(docs, [], s[0]);
    }
    if |ChildKeys(docs, [])| > 0 {
      var x := ChildKeys(docs, [])[0];
      assert x in NextKeys(docs, []);
      NextKeysIff(docs, [], x);
      assert [] + [x] == [x];
      var d := CountWitness(docs, [x]);
    }
  }

  /** Two trees the same documents determine are the same tree. */
  lemma TreeUnique(nodes1: map<seq<string>, FolderNode>, nodes2: map<seq<string>, FolderNode>, docs: seq<DocumentData>)
    requires Tree(nodes1, docs) && Tree(nodes2, docs)
    ensures nodes1 == nodes2
  {
    forall p ensures Lookup(nodes1, p) == Lookup(nodes2, p) {
      assert Lookup(nodes1, p) == TreeAt(docs, p);
      assert Lookup(nodes2, p) == TreeAt(docs, p);
    }
    assert forall p :: p in nodes1 <==> p in nodes2 by {
      forall p ensures p in nodes1 <==> p in nodes2 {
        assert Lookup(nodes1, p) == Lookup(nodes2, p);
      }
    }
    forall p | p in nodes1 ensures nodes1[p] == nodes2[p] {
      assert Lookup(nodes1, p) == Lookup(nodes2, p);
    }
  }

  // ---------------------------------------------------------------------------
  // The navigation entry
  // ---------------------------------------------------------------------------

  /** A list pane: its title and its items. */
  datatype Pane = Pane(title: string, items: seq<ListItem>)

  /** The entry `createSlugBasedStructure` builds, and the pane it opens. */
  datatype SlugStructure = SlugStructure(title: string, icon: Icon, pane: Pane)

  datatype Result<T> = Success(value: T) | Failure(error: string)

  const SchemaTypeRequired: string := "Schema type is required and must be a string"

  /** The flat list of every document of the type. */
  function AllDocumentsItem(schemaType: string, id: string): ListItem {
    DocumentTypeItem(id, "All " + TitleCase(schemaType) + "s", schemaType)
  }

  /** The pane once the documents are in: the flat list, a divider, then the tree's top record. */
  function SlugPane(schemaType: string, nodes: map<seq<string>, FolderNode>, topLevel: seq<string>): Pane {
    Pane(TitleCase(schemaType) + "s",
         [AllDocumentsItem(schemaType, "all-" + schemaType + "s-list"), Divider]
         + Listing(nodes, [], topLevel, 0, "", schemaType))
  }

  /** The pane when the documents cannot be fetched: the flat list alone. */
  function FallbackPane(schemaType: string): Pane {
    Pane(TitleCase(schemaType) + "s", [AllDocumentsItem(schemaType, "fallback-" + schemaType + "s-list")])
  }

  /**
   * `createSlugBasedStructure`. `fetched` is what the document query returned, `None`
   * when there was no client or the query failed; `tree` is the folder tree built.
   */
  method CreateSlugBasedStructure(schemaType: string, fetched: Option<seq<DocumentData>>)
    returns (r: Result<SlugStructure>, ghost tree: map<seq<string>, FolderNode>)
    ensures r.Failure? <==> schemaType == ""
    ensures r.Failure? ==> r.error == SchemaTypeRequired
    ensures r.Success? ==> r.value.title == TitleCase(schemaType) + "s by Path" && r.value.icon == FolderIcon
    ensures r.Success? && fetched.None? ==> r.value.pane == FallbackPane(schemaType)
    ensures r.Success? && fetched.Some? ==>
      && Tree(tree, Deduplicated(fetched.value))
      && r.value.pane == SlugPane(schemaType, tree, ChildKeys(Deduplicated(fetched.value), []))
  {
    tree := map[];
    if schemaType == "" {
      return Failure(SchemaTypeRequired), tree;
    }
    var title := TitleCase(schemaType);
    if fetched.None? {
      return Success(SlugStructure(title + "s by Path", FolderIcon, FallbackPane(schemaType))), tree;
    }
    var uniqueDocuments := DeduplicateDocuments(fetched.value);
    var folderStructure := BuildFolderStructure(uniqueDocuments);
    var dynamicItems := CreateListItemsFromStructure(folderStructure.nodes, [], folderStructure.topLevel, 0, "", schemaType);
    var allDocuments := DocumentTypeItem("all-" + schemaType + "s-list", "All " + title + "s", schemaType);
    var pane := Pane(title + "s", [allDocuments, Divider] + dynamicItems);
    tree := folderStructure.nodes;
    return Success(SlugStructure(title + "s by Path", FolderIcon, pane)), tree;
  }

  /**
   * The pane starts with the flat list and a divider, then every top-level node of
   * the tree once; it is well separated exactly when some document has a path, and
   * otherwise ends with that divider.
   */
  lemma SlugPaneShape(nodes: map<seq<string>, FolderNode>, docs: seq<DocumentData>, schemaType: string)
    requires Tree(nodes, docs)
    ensures var keys := ChildKeys(docs, []);
      var items := SlugPane(schemaType, nodes, keys).items;
      && items[0] == AllDocumentsItem(schemaType, "all-" + schemaType + "s-list")
      && items[1] == Divider
      && |items| >= 2 + |keys|
      && (WellSeparated(items) <==> exists d :: d in docs && |SlugSegments(d)| > 0)
  {
    var keys := ChildKeys(docs, []);
    var listing := Listing(nodes, [], keys, 0, "", schemaType);
    TopListing(nodes, docs, schemaType);
    TopLevelIff(docs);
    HeadedListing(AllDocumentsItem(schemaType, "all-" + schemaType + "s-list"), listing);
  }

  /** The top-level listing is well separated and has at least one entry per top-level key, none without. */
  lemma TopListing(nodes: map<seq<string>, FolderNode>, docs: seq<DocumentData>, schemaType: string)
    requires Tree(nodes, docs)
    ensures var keys := ChildKeys(docs, []);
      var listing := Listing(nodes, [], keys, 0, "", schemaType);
      WellSeparated(listing) && |listing| >= |keys| && (|keys| == 0 ==> listing == [])
  {
    var keys := ChildKeys(docs, []);
    TopLevelShape(nodes, docs);
    forall k | 0 <= k < |keys| ensures [] + [keys[k]] in nodes && (IsFolder(nodes[[] + [keys[k]]]) || IsFile(nodes[[] + [keys[k]]])) {
      assert [] + [keys[k]] == [keys[k]];
      assert keys[k] in keys;
      TreeNodesShown(nodes, docs, [keys[k]]);
    }
    ListingCoversKeys(nodes, [], keys, 0, "", schemaType);
    ListingShape(nodes, [], keys, 0, "", schemaType);
  }

  /** A well-separated listing behind a leading item and a divider. */
  lemma HeadedListing(first: ListItem, listing: seq<ListItem>)
    requires !first.Divider? && WellSeparated(listing)
    ensures var items := [first, Divider] + listing;
      && items[0] == first && items[1] == Divider && |items| == 2 + |listing|
      && (WellSeparated(items) <==> |listing| > 0)
  {
    var items := [first, Divider] + listing;
    if |listing| > 0 {
      assert items[2] == listing[0] && items[|items| - 1] == listing[|listing| - 1];
      forall k | 0 <= k < |items| - 1 ensures !(items[k].Divider? && items[k + 1].Divider?) {
        if k >= 2 {
          assert items[k] == listing[k - 2] && items[k + 1] == listing[k - 1];
        }
      }
    } else {
      assert items[|items| - 1] == Divider;
    }
  }
}
