// The table of contents of a rich-text article: heading blocks are picked out, turned
// into headings with an id, a link and a level, and arranged into a tree in which a
// heading's children are the later, deeper headings up to the next heading that is not
// deeper, with headings below the maximum depth left out.

module TableOfContent {
  import opened Text
  import opened PortableText

  const DefaultMaxDepth: int := 6
  const MinHeadingsToShow: int := 1

  /** `isValidHeadingStyle`: one of the five heading styles. */
  predicate IsHeadingStyle(style: string) {
    style == "h2" || style == "h3" || style == "h4" || style == "h5" || style == "h6"
  }

  /** `HEADING_LEVELS`. */
  function HeadingLevel(style: string): (level: int)
    requires IsHeadingStyle(style)
    ensures 2 <= level <= 6
  {
    if style == "h2" then 2 else if style == "h3" then 3 else if style == "h4" then 4
    else if style == "h5" then 5 else 6
  }

  /** `isValidTextChild`: a span whose text is a string. */
  predicate IsTextChild(c: Span) {
    c.spanType == Some("span") && c.text.Some?
  }

  /** `isHeadingBlock`: a block with a heading style and a non-empty list of text spans. */
  predicate IsHeadingBlock(b: Block) {
    b.blockType == "block" && b.style.Some? && IsHeadingStyle(b.style.value)
    && b.children.Some? && |b.children.value| > 0
    && forall k :: 0 <= k < |b.children.value| ==> IsTextChild(b.children.value[k])
  }

  /** `extractHeadingBlocks`: the heading blocks, in order; a non-array input has none. */
  function HeadingBlocks(richText: Option<seq<Block>>): (r: seq<Block>)
    ensures richText.None? ==> r == []
    ensures forall k :: 0 <= k < |r| ==> IsHeadingBlock(r[k])
    ensures richText.Some? ==> (r == [] <==> forall k :: 0 <= k < |richText.value| ==> !IsHeadingBlock(richText.value[k]))
    ensures forall b :: b in r <==> richText.Some? && b in richText.value && IsHeadingBlock(b)
    decreases if richText.Some? then |richText.value| else 0
  {
    if richText.None? || |richText.value| == 0 then []
    else
      var blocks := richText.value;
      var init := blocks[..|blocks| - 1];
      var last := blocks[|blocks| - 1];
      var prev := HeadingBlocks(Some(init));
      HeadingBlocksSnoc(blocks, init, last, prev);
      prev + (if IsHeadingBlock(last) then [last] else [])
  }

  /** One more block for `HeadingBlocks`, given what it promises for the blocks before it. */
  lemma HeadingBlocksSnoc(blocks: seq<Block>, init: seq<Block>, last: Block, prev: seq<Block>)
    requires |blocks| > 0 && init == blocks[..|blocks| - 1] && last == blocks[|blocks| - 1]
    requires forall k :: 0 <= k < |prev| ==> IsHeadingBlock(prev[k])
    requires prev == [] <==> forall k :: 0 <= k < |init| ==> !IsHeadingBlock(init[k])
    requires forall b :: b in prev <==> b in init && IsHeadingBlock(b)
    ensures var r := prev + (if IsHeadingBlock(last) then [last] else []);
      && (forall k :: 0 <= k < |r| ==> IsHeadingBlock(r[k]))
      && (r == [] <==> forall k :: 0 <= k < |blocks| ==> !IsHeadingBlock(blocks[k]))
      && (forall b :: b in r <==> b in blocks && IsHeadingBlock(b))
  {
    assert blocks == init + [last];
    assert forall k :: 0 <= k < |init| ==> init[k] == blocks[k];
    var r := prev + (if IsHeadingBlock(last) then [last] else []);
    if r == [] {
      forall k | 0 <= k < |blocks| ensures !IsHeadingBlock(blocks[k]) {
        if k < |init| {
          assert blocks[k] == init[k];
        }
      }
    }
  }

  /** `child.text?.trim() ?? ""`. */
  function SpanText(c: Span): (t: string)
    ensures t == "" <==> c.text.None? || AllWhitespace(c.text.value)
    ensures t != "" ==> !IsWhitespace(t[0])
  {
    if c.text.None? then ""
    else
      TrimEmptyIff(c.text.value);
      TrimStartsBlankFree(c.text.value);
      Trim(c.text.value)
  }

  /** A span whose text is missing or blank. */
  predicate BlankSpan(c: Span) {
    c.text.None? || AllWhitespace(c.text.value)
  }

  /** The trimmed texts of the spans, empty ones dropped. */
  function TrimmedTexts(children: seq<Span>): (r: seq<string>)
    ensures |r| <= |children|
    ensures forall k :: 0 <= k < |r| ==> Unblank(r[k])
    ensures r == [] <==> forall k :: 0 <= k < |children| ==> BlankSpan(children[k])
  {
    if |children| == 0 then []
    else
      var t := SpanText(children[0]);
      var rest := TrimmedTexts(children[1..]);
      AllBlankCons(children);
      if t == "" then rest else ConsUnblank(t, rest); [t] + rest
  }

  /** A text that is non-empty and does not start with white space. */
  predicate Unblank(t: string) {
    t != "" && !IsWhitespace(t[0])
  }

  lemma ConsUnblank(t: string, rest: seq<string>)
    requires Unblank(t) && forall k :: 0 <= k < |rest| ==> Unblank(rest[k])
    ensures forall k :: 0 <= k < |[t] + rest| ==> Unblank(([t] + rest)[k])
  {
  }

  lemma AllBlankCons(children: seq<Span>)
    requires |children| > 0
    ensures (forall k :: 0 <= k < |children| ==> BlankSpan(children[k])) <==>
      BlankSpan(children[0]) && forall k :: 0 <= k < |children[1..]| ==> BlankSpan(children[1..][k])
  {
    assert forall k :: 1 <= k < |children| ==> children[k] == children[1..][k - 1];
  }

  lemma TrimStartsBlankFree(s: string)
    ensures Trim(s) != "" ==> !IsWhitespace(Trim(s)[0])
  {
    var t := TrimStart(s);
    if Trim(s) != "" {
      assert Trim(s)[0] == t[0];
    }
  }

  /** `extractTextFromChildren`. */
  function ExtractText(children: seq<Span>): (r: string) {
    Trim(Join(TrimmedTexts(children), " "))
  }

  /** The heading text is empty exactly when every span is blank. */
  lemma ExtractTextEmptyIff(children: seq<Span>)
    ensures ExtractText(children) == "" <==> forall k :: 0 <= k < |children| ==> BlankSpan(children[k])
  {
    var parts := TrimmedTexts(children);
    if parts != [] {
      var s := Join(parts, " ");
      assert s[0] == parts[0][0];
      var t := TrimStart(s);
      assert t == s;
      assert TrimEnd(t) != "";
    }
  }

  /** `createSlug`, with `slugify` the external slugifier: nothing for blank text. */
  function CreateSlug(text: string, slugify: string -> string): string {
    var t := Trim(text);
    if t == "" then "" else slugify(t)
  }

  /** The part of `generateUniqueId` after the prefix: the block key, else the slug of the text, else the position. */
  function BaseId(text: string, index: int, key: Option<string>, slugify: string -> string): string {
    if Truthy(key) then key.value
    else
      var slug := CreateSlug(text, slugify);
      if slug != "" then slug else "heading-" + IntToString(index)
  }

  const IdPrefix: string := "toc-"

  /** `generateUniqueId`. */
  function UniqueId(text: string, index: int, key: Option<string>, slugify: string -> string): string {
    IdPrefix + BaseId(text, index, key, slugify)
  }

  /**
   * Every id carries the `toc-` prefix followed by the block key when it has one, else
   * by the slug of the text when that is not empty, else by `heading-` and the position.
   */
  lemma UniqueIdCases(text: string, index: int, key: Option<string>, slugify: string -> string)
    ensures var r := UniqueId(text, index, key, slugify);
      && |r| > |IdPrefix| && r[..|IdPrefix|] == IdPrefix
      && (Truthy(key) ==> r[|IdPrefix|..] == key.value)
      && (!Truthy(key) && CreateSlug(text, slugify) != "" ==> r[|IdPrefix|..] == CreateSlug(text, slugify))
      && (!Truthy(key) && CreateSlug(text, slugify) == "" ==> r[|IdPrefix|..] == "heading-" + IntToString(index))
  {
  }

  /** The slug is empty exactly for blank text; otherwise it is the slugified trimmed text. */
  lemma CreateSlugCases(text: string, slugify: string -> string)
    ensures CreateSlug(text, slugify) == "" <==> AllWhitespace(text) || slugify(Trim(text)) == ""
    ensures !AllWhitespace(text) ==> CreateSlug(text, slugify) == slugify(Trim(text))
  {
    TrimEmptyIff(text);
  }

  /** A processed heading; `children` holds the headings nested under it. */
  datatype Heading = Heading(
    id: string,
    text: string,
    href: string,
    level: int,
    style: string,
    children: seq<Heading>,
    isChild: bool,
    key: Option<string>)

  /** `createProcessedHeading`: none for a heading without text. */
  function ProcessedHeading(block: Block, index: int, slugify: string -> string): (r: Option<Heading>)
    requires IsHeadingBlock(block)
    ensures r.None? <==> ExtractText(block.children.value) == ""
    ensures r.Some? ==> var h := r.value;
      && h.text == ExtractText(block.children.value)
      && 2 <= h.level <= 6 && h.level == HeadingLevel(block.style.value)
      && h.children == [] && !h.isChild && h.key == block.key && h.style == block.style.value
  {
    var text := ExtractText(block.children.value);
    if text == "" then None
    else
      Some(Heading(UniqueId(text, index, block.key, slugify), text, "#" + CreateSlug(text, slugify),
        HeadingLevel(block.style.value), block.style.value, [], false, block.key))
  }

  /** The id and the link of a processed heading both come from its text. */
  lemma ProcessedHeadingLinks(block: Block, index: int, slugify: string -> string)
    requires IsHeadingBlock(block)
    ensures var r := ProcessedHeading(block, index, slugify);
      r.Some? ==> (r.value.id == UniqueId(r.value.text, index, block.key, slugify)
        && r.value.href == "#" + CreateSlug(r.value.text, slugify))
  {
  }

  /** A block with some non-blank text. */
  predicate HasText(b: Block) {
    b.children.Some? && ExtractText(b.children.value) != ""
  }

  /** A heading as `createProcessedHeading` makes it: level 2 to 6, top-level, no children yet. */
  predicate Fresh(h: Heading) {
    2 <= h.level <= 6 && h.children == [] && !h.isChild
  }

  /** `.filter(Boolean)` on a list of optional values. */
  function Somes<T>(xs: seq<Option<T>>): (r: seq<T>)
    ensures |r| <= |xs|
    ensures forall k :: 0 <= k < |r| ==> Some(r[k]) in xs
    ensures forall k :: 0 <= k < |xs| && xs[k].Some? ==> xs[k].value in r
    ensures r == [] <==> forall k :: 0 <= k < |xs| ==> xs[k].None?
  {
    if |xs| == 0 then []
    else
      var rest := Somes(xs[1..]);
      assert forall k :: 1 <= k < |xs| ==> xs[k] == xs[1..][k - 1];
      if xs[0].Some? then [xs[0].value] + rest else rest
  }

  /** `headingBlocks.map(createProcessedHeading)`: each block with its position. */
  function Candidates(blocks: seq<Block>, slugify: string -> string): (r: seq<Option<Heading>>)
    requires forall k :: 0 <= k < |blocks| ==> IsHeadingBlock(blocks[k])
    ensures |r| == |blocks|
    ensures forall k :: 0 <= k < |r| ==> r[k] == ProcessedHeading(blocks[k], k, slugify)
  {
    seq(|blocks|, k requires 0 <= k < |blocks| => ProcessedHeading(blocks[k], k, slugify))
  }

  /** The headings of the heading blocks that have text, in order. */
  function FlatHeadings(blocks: seq<Block>, slugify: string -> string): (r: seq<Heading>)
    requires forall k :: 0 <= k < |blocks| ==> IsHeadingBlock(blocks[k])
  {
    Somes(Candidates(blocks, slugify))
  }

  /** Every flat heading is a top-level entry of level 2 to 6 with no children yet. */
  lemma FlatHeadingsFresh(blocks: seq<Block>, slugify: string -> string)
    requires forall k :: 0 <= k < |blocks| ==> IsHeadingBlock(blocks[k])
    ensures forall k :: 0 <= k < |FlatHeadings(blocks, slugify)| ==> Fresh(FlatHeadings(blocks, slugify)[k])
  {
    var c := Candidates(blocks, slugify);
    var r := Somes(c);
    forall k | 0 <= k < |r|
      ensures Fresh(r[k])
    {
      var j :| 0 <= j < |c| && c[j] == Some(r[k]);
      assert c[j] == ProcessedHeading(blocks[j], j, slugify);
    }
  }

  /** No heading comes out exactly when no heading block has any text. */
  lemma FlatHeadingsEmptyIff(blocks: seq<Block>, slugify: string -> string)
    requires forall k :: 0 <= k < |blocks| ==> IsHeadingBlock(blocks[k])
    ensures FlatHeadings(blocks, slugify) == [] <==> forall k :: 0 <= k < |blocks| ==> !HasText(blocks[k])
  {
    var c := Candidates(blocks, slugify);
    assert forall k :: 0 <= k < |blocks| ==> (c[k].None? <==> !HasText(blocks[k]));
  }

  // ---------------------------------------------------------------------------
  // The hierarchy, described by positions in the flat list.

  /** A position in the flat list with the positions placed under it. */
  datatype Slot = Slot(index: nat, kids: seq<Slot>)

  /** The positions of a forest, parents before children, in order. */
  function Preorder(ts: seq<Slot>): seq<nat>
    decreases ts
  {
    if |ts| == 0 then [] else [ts[0].index] + Preorder(ts[0].kids) + Preorder(ts[1..])
  }

  lemma PreorderCons(t: Slot, rest: seq<Slot>)
    ensures Preorder([t] + rest) == [t.index] + Preorder(t.kids) + Preorder(rest)
  {
    assert ([t] + rest)[1..] == rest;
  }

  predicate Increasing(xs: seq<nat>) {
    forall i, j :: 0 <= i < j < |xs| ==> xs[i] < xs[j]
  }

  /** Every placed position lies in `[lo, hi)` and has a heading no deeper than `maxDepth`. */
  predicate Placed(hs: seq<Heading>, xs: seq<nat>, lo: int, hi: int, maxDepth: int)
    requires hi <= |hs|
  {
    forall x :: x in xs ==> lo <= x < hi && hs[x].level <= maxDepth
  }

  lemma IncreasingJoin(x: nat, a: seq<nat>, b: seq<nat>, hi: int)
    requires Increasing(a) && Increasing(b) && x < hi
    requires forall y :: y in a ==> x < y < hi
    requires forall y :: y in b ==> hi <= y
    ensures Increasing([x] + a + b)
  {
    var s := [x] + a + b;
    forall i, j | 0 <= i < j < |s|
      ensures s[i] < s[j]
    {
      var u := if i == 0 then x else if i <= |a| then a[i - 1] else b[i - 1 - |a|];
      var v := if j <= |a| then a[j - 1] else b[j - 1 - |a|];
      assert s[i] == u && s[j] == v;
      if i == 0 {
        if j <= |a| { assert a[j - 1] in a; } else { assert b[j - 1 - |a|] in b; }
      } else if i <= |a| {
        if j > |a| { assert a[i - 1] in a && b[j - 1 - |a|] in b; }
      }
    }
  }

  /** The first position after `j` whose heading is not deeper than the one at `p`. */
  function EndFrom(hs: seq<Heading>, p: nat, j: nat): (e: nat)
    requires p < |hs| && j <= |hs|
    ensures j <= e <= |hs|
    ensures forall k :: j <= k < e ==> hs[k].level > hs[p].level
    ensures e < |hs| ==> hs[e].level <= hs[p].level
    decreases |hs| - j
  {
    if j == |hs| || hs[j].level <= hs[p].level then j else EndFrom(hs, p, j + 1)
  }

  /** Where the headings that may nest under position `p` stop. */
  function End(hs: seq<Heading>, p: nat): (e: nat)
    requires p < |hs|
    ensures p < e <= |hs|
    ensures forall k :: p < k < e ==> hs[k].level > hs[p].level
    ensures e < |hs| ==> hs[e].level <= hs[p].level
  {
    EndFrom(hs, p, p + 1)
  }

  /** The range of a deeper heading inside the range of `p` ends inside it too. */
  lemma EndNested(hs: seq<Heading>, p: nat, s: nat)
    requires p < |hs| && p < s < End(hs, p)
    ensures End(hs, s) <= End(hs, p)
  {
  }

  /**
   * The children of position `p`, scanning from position `s`: a heading not deeper
   * than `p` stops the scan, one deeper than `maxDepth` is skipped, and any other is
   * a child, whose own range is then skipped.
   */
  function Kids(hs: seq<Heading>, p: nat, s: nat, maxDepth: int): (r: seq<Slot>)
    requires p < |hs| && p < s <= End(hs, p)
    decreases |hs| - s
  {
    if s == |hs| || hs[s].level <= hs[p].level then []
    else if hs[s].level > maxDepth then Kids(hs, p, s + 1, maxDepth)
    else
      EndNested(hs, p, s);
      [Slot(s, ChildSlotsOf(hs, s, maxDepth))] + Kids(hs, p, End(hs, s), maxDepth)
  }

  /** The children of the heading at `p`: none for a heading at or below the maximum depth. */
  function ChildSlotsOf(hs: seq<Heading>, p: nat, maxDepth: int): (r: seq<Slot>)
    requires p < |hs|
    decreases |hs| - p, 0
  {
    if hs[p].level >= maxDepth then [] else Kids(hs, p, p + 1, maxDepth)
  }

  /** The top-level entries from position `s` on. */
  function Roots(hs: seq<Heading>, s: nat, maxDepth: int): (r: seq<Slot>)
    requires s <= |hs|
    decreases |hs| - s
  {
    if s == |hs| then []
    else if hs[s].level > maxDepth then Roots(hs, s + 1, maxDepth)
    else [Slot(s, ChildSlotsOf(hs, s, maxDepth))] + Roots(hs, End(hs, s), maxDepth)
  }

  /** Placed positions in `[lo, hi)`, no deeper than `maxDepth`, each once and in order. */
  predicate Sound(hs: seq<Heading>, ts: seq<Slot>, lo: int, hi: int, maxDepth: int)
    requires hi <= |hs|
  {
    Placed(hs, Preorder(ts), lo, hi, maxDepth) && Increasing(Preorder(ts))
  }

  lemma SoundCons(hs: seq<Heading>, s: nat, sub: seq<Slot>, rest: seq<Slot>, lo: int, mid: int, hi: int, maxDepth: int)
    requires lo <= s < mid <= hi <= |hs| && hs[s].level <= maxDepth
    requires Sound(hs, sub, s + 1, mid, maxDepth) && Sound(hs, rest, mid, hi, maxDepth)
    ensures Sound(hs, [Slot(s, sub)] + rest, lo, hi, maxDepth)
  {
    PreorderCons(Slot(s, sub), rest);
    IncreasingJoin(s, Preorder(sub), Preorder(rest), mid);
  }

  /** The children found from position `s` are sound within the parent's range. */
  lemma {:induction false} KidsSound(hs: seq<Heading>, p: nat, s: nat, maxDepth: int)
    requires p < |hs| && p < s <= End(hs, p)
    ensures Sound(hs, Kids(hs, p, s, maxDepth), s, End(hs, p), maxDepth)
    decreases |hs| - s
  {
    if s == |hs| || hs[s].level <= hs[p].level {
    } else if hs[s].level > maxDepth {
      KidsSound(hs, p, s + 1, maxDepth);
    } else {
      EndNested(hs, p, s);
      ChildSlotsSound(hs, s, maxDepth);
      KidsSound(hs, p, End(hs, s), maxDepth);
      SoundCons(hs, s, ChildSlotsOf(hs, s, maxDepth), Kids(hs, p, End(hs, s), maxDepth), s, End(hs, s), End(hs, p), maxDepth);
    }
  }

  lemma {:induction false} ChildSlotsSound(hs: seq<Heading>, p: nat, maxDepth: int)
    requires p < |hs|
    ensures Sound(hs, ChildSlotsOf(hs, p, maxDepth), p + 1, End(hs, p), maxDepth)
    decreases |hs| - p, 0
  {
    if hs[p].level < maxDepth {
      KidsSound(hs, p, p + 1, maxDepth);
    }
  }

  lemma {:induction false} RootsSound(hs: seq<Heading>, s: nat, maxDepth: int)
    requires s <= |hs|
    ensures Sound(hs, Roots(hs, s, maxDepth), s, |hs|, maxDepth)
    decreases |hs| - s
  {
    if s == |hs| {
    } else if hs[s].level > maxDepth {
      RootsSound(hs, s + 1, maxDepth);
    } else {
      ChildSlotsSound(hs, s, maxDepth);
      RootsSound(hs, End(hs, s), maxDepth);
      SoundCons(hs, s, ChildSlotsOf(hs, s, maxDepth), Roots(hs, End(hs, s), maxDepth), s, End(hs, s), |hs|, maxDepth);
    }
  }

  predicate Below(ts: seq<Slot>, n: nat) {
    forall x :: x in Preorder(ts) ==> x < n
  }

  /** The headings a forest of positions stands for; nested entries are marked as children. */
  function Render(hs: seq<Heading>, ts: seq<Slot>, isChild: bool): (r: seq<Heading>)
    requires Below(ts, |hs|)
    ensures |r| == |ts|
    decreases ts
  {
    if |ts| == 0 then []
    else
      var pre := Preorder(ts);
      assert pre == [ts[0].index] + Preorder(ts[0].kids) + Preorder(ts[1..]);
      assert pre[0] == ts[0].index && pre[0] in pre;
      assert forall x :: x in Preorder(ts[0].kids) ==> x in pre;
      assert forall x :: x in Preorder(ts[1..]) ==> x in pre;
      var h := hs[ts[0].index];
      [h.(children := Render(hs, ts[0].kids, true), isChild := if isChild then true else h.isChild)]
        + Render(hs, ts[1..], isChild)
  }

  lemma RenderAppend(hs: seq<Heading>, a: seq<Slot>, t: Slot, isChild: bool)
    requires Below(a, |hs|) && Below([t], |hs|)
    ensures Below(a + [t], |hs|)
    ensures Render(hs, a + [t], isChild) == Render(hs, a, isChild) + Render(hs, [t], isChild)
    decreases |a|
  {
    PreorderAppend(a, [t]);
    if |a| > 0 {
      assert (a + [t])[0] == a[0] && (a + [t])[1..] == a[1..] + [t];
      assert Preorder(a) == [a[0].index] + Preorder(a[0].kids) + Preorder(a[1..]);
      assert forall x :: x in Preorder(a[1..]) ==> x in Preorder(a);
      RenderAppend(hs, a[1..], t, isChild);
    } else {
      assert a + [t] == [t];
    }
  }

  lemma {:induction false} PreorderAppend(a: seq<Slot>, b: seq<Slot>)
    ensures Preorder(a + b) == Preorder(a) + Preorder(b)
    decreases |a|
  {
    if |a| == 0 {
      assert a + b == b;
    } else {
      assert (a + b)[0] == a[0] && (a + b)[1..] == a[1..] + b;
      PreorderAppend(a[1..], b);
    }
  }

  // Single steps of the scans, as the two procedures take them.

  lemma KidsSkip(hs: seq<Heading>, p: nat, n: nat, maxDepth: int)
    requires p < |hs| && p < n < End(hs, p) && hs[n].level > maxDepth
    ensures Kids(hs, p, n, maxDepth) == Kids(hs, p, n + 1, maxDepth)
  {
  }

  lemma KidsTake(hs: seq<Heading>, p: nat, n: nat, maxDepth: int)
    requires p < |hs| && p < n < End(hs, p) && hs[n].level <= maxDepth
    ensures End(hs, n) <= End(hs, p)
    ensures Kids(hs, p, n, maxDepth) == [Slot(n, ChildSlotsOf(hs, n, maxDepth))] + Kids(hs, p, End(hs, n), maxDepth)
  {
    EndNested(hs, p, n);
  }

  lemma KidsStop(hs: seq<Heading>, p: nat, n: nat, maxDepth: int)
    requires p < |hs| && p < n <= End(hs, p) && (n == |hs| || hs[n].level <= hs[p].level)
    ensures Kids(hs, p, n, maxDepth) == []
  {
  }

  lemma RootsSkip(hs: seq<Heading>, n: nat, maxDepth: int)
    requires n < |hs| && hs[n].level > maxDepth
    ensures Roots(hs, n, maxDepth) == Roots(hs, n + 1, maxDepth)
  {
  }

  lemma RootsTake(hs: seq<Heading>, n: nat, maxDepth: int)
    requires n < |hs| && hs[n].level <= maxDepth
    ensures Roots(hs, n, maxDepth) == [Slot(n, ChildSlotsOf(hs, n, maxDepth))] + Roots(hs, End(hs, n), maxDepth)
  {
  }

  /** Appending one more rendered entry to a rendered prefix. */
  lemma RenderStep(hs: seq<Heading>, done: seq<Slot>, t: Slot, isChild: bool)
    requires Below(done, |hs|) && t.index < |hs| && Below(t.kids, |hs|)
    ensures Below(done + [t], |hs|)
    ensures Render(hs, done + [t], isChild) == Render(hs, done, isChild)
      + [hs[t.index].(children := Render(hs, t.kids, true), isChild := if isChild then true else hs[t.index].isChild)]
  {
    PreorderCons(t, []);
    RenderAppend(hs, done, t, isChild);
    assert [t][1..] == [];
  }

  /** The children slots of a heading lie inside its range. */
  lemma ChildSlotsBelow(hs: seq<Heading>, p: nat, maxDepth: int)
    requires p < |hs|
    ensures Below(ChildSlotsOf(hs, p, maxDepth), |hs|)
  {
    ChildSlotsSound(hs, p, maxDepth);
  }

  lemma RootsBelow(hs: seq<Heading>, maxDepth: int)
    ensures Below(Roots(hs, 0, maxDepth), |hs|)
  {
    RootsSound(hs, 0, maxDepth);
  }

  lemma Regroup(done: seq<Slot>, t: Slot, rest: seq<Slot>)
    ensures done + [t] + rest == done + ([t] + rest)
  {
  }

  /** A heading at or below the maximum depth has no children, and nothing in its range can be placed. */
  lemma NothingBelowLeaf(hs: seq<Heading>, p: nat, maxDepth: int)
    requires p < |hs| && hs[p].level >= maxDepth
    ensures ChildSlotsOf(hs, p, maxDepth) == []
    ensures forall j :: p < j < End(hs, p) ==> hs[j].level > maxDepth
  {
  }

  /** The scan over the range of `p` stops exactly at its end. */
  lemma ScanEnd(hs: seq<Heading>, p: nat, i: nat, n: nat)
    requires p < |hs| && p < i <= n <= End(hs, p)
    requires i == |hs| || hs[i].level <= hs[p].level
    ensures i == n == End(hs, p)
  {
  }

  /** A heading deeper than `p`, reached without passing the end of its range, lies inside it. */
  lemma WithinRange(hs: seq<Heading>, p: nat, i: nat)
    requires p < i < |hs| && hs[i].level > hs[p].level && i <= End(hs, p)
    ensures i < End(hs, p)
  {
  }

  /**
   * Passing over the heading at `i`, which is placed already or too deep: when it is
   * the next candidate it is skipped, otherwise nothing changes.
   */
  lemma SkipStep(hs: seq<Heading>, p: nat, i: nat, n: nat, maxDepth: int, processed: set<nat>,
                 placed: set<nat>, done: seq<Slot>)
    requires p < |hs| && p < i <= n <= End(hs, p) && i < End(hs, p)
    requires forall j :: p < j < End(hs, p) ==> j !in processed
    requires forall j :: j in placed <==> j in processed || (p < j < n && hs[j].level <= maxDepth)
    requires done + Kids(hs, p, n, maxDepth) == Kids(hs, p, p + 1, maxDepth)
    requires i in placed || hs[i].level > maxDepth
    ensures var n' := if i == n then n + 1 else n;
      && i + 1 <= n' <= End(hs, p)
      && done + Kids(hs, p, n', maxDepth) == Kids(hs, p, p + 1, maxDepth)
      && forall j :: j in placed <==> j in processed || (p < j < n' && hs[j].level <= maxDepth)
  {
    if i == n {
      assert i !in placed;
      KidsSkip(hs, p, n, maxDepth);
    }
  }

  /** Placing the child at `n`: its slot is the next of the parent's, and it renders after the others. */
  lemma ChildTaken(hs: seq<Heading>, p: nat, n: nat, maxDepth: int, done: seq<Slot>)
    requires p < |hs| && p < n < End(hs, p) && hs[n].level <= maxDepth
    requires done + Kids(hs, p, n, maxDepth) == Kids(hs, p, p + 1, maxDepth)
    requires Below(done, |hs|)
    ensures var t := Slot(n, ChildSlotsOf(hs, n, maxDepth));
      && End(hs, n) <= End(hs, p)
      && done + [t] + Kids(hs, p, End(hs, n), maxDepth) == Kids(hs, p, p + 1, maxDepth)
      && Below(done + [t], |hs|) && Below(t.kids, |hs|)
      && Render(hs, done + [t], true) == Render(hs, done, true) + [hs[n].(children := Render(hs, t.kids, true), isChild := true)]
  {
    var t := Slot(n, ChildSlotsOf(hs, n, maxDepth));
    KidsTake(hs, p, n, maxDepth);
    ChildSlotsBelow(hs, n, maxDepth);
    RenderStep(hs, done, t, true);
    Regroup(done, t, Kids(hs, p, End(hs, n), maxDepth));
  }

  /** Before descending into the child at `n`: nothing in its range has been placed yet. */
  lemma ProcessedBefore(hs: seq<Heading>, processed: set<nat>, before: set<nat>, p: nat, n: nat, maxDepth: int)
    requires p < |hs| && p < n < End(hs, p)
    requires forall j :: j in before <==> j in processed || (p < j < n && hs[j].level <= maxDepth)
    requires forall j :: p < j < End(hs, p) ==> j !in processed
    ensures forall j :: n < j < End(hs, n) ==> j !in before + {n}
  {
    EndNested(hs, p, n);
  }

  /** After the child at `n`: everything up to the end of its range has been placed. */
  lemma ProcessedAfter(hs: seq<Heading>, processed: set<nat>, before: set<nat>, after: set<nat>,
                       p: nat, n: nat, maxDepth: int)
    requires p < |hs| && p < n < |hs| && hs[n].level <= maxDepth
    requires forall j :: j in before <==> j in processed || (p < j < n && hs[j].level <= maxDepth)
    requires forall j :: j in after <==> j in before + {n} || (n < j < End(hs, n) && hs[j].level <= maxDepth)
    ensures forall j :: j in after <==> j in processed || (p < j < End(hs, n) && hs[j].level <= maxDepth)
  {
  }

  // ---------------------------------------------------------------------------
  // The two procedures that build the hierarchy, sharing the set of placed positions.

  /**
   * `collectChildHeadings`: the children of the heading at `parentIndex`; every position
   * placed under it joins `processed`.
   */
  method CollectChildHeadings(hs: seq<Heading>, parentIndex: nat, processed: set<nat>, maxDepth: int)
    returns (children: seq<Heading>, processed': set<nat>)
    requires parentIndex < |hs|
    requires forall j :: parentIndex < j < End(hs, parentIndex) ==> j !in processed
    ensures Below(ChildSlotsOf(hs, parentIndex, maxDepth), |hs|)
    ensures children == Render(hs, ChildSlotsOf(hs, parentIndex, maxDepth), true)
    ensures forall j :: j in processed' <==>
      j in processed || (parentIndex < j < End(hs, parentIndex) && hs[j].level <= maxDepth)
    decreases |hs| - parentIndex
  {
    var p := parentIndex;
    ChildSlotsBelow(hs, p, maxDepth);
    if hs[p].level >= maxDepth {
      NothingBelowLeaf(hs, p, maxDepth);
      return [], processed;
    }
    children := [];
    processed' := processed;
    ghost var done: seq<Slot> := [];
    ghost var n := p + 1;
    ghost var e := End(hs, p);
    var parentLevel := hs[p].level;
    var i := p + 1;
    while i < |hs|
      invariant p + 1 <= i <= n <= e
      invariant done + Kids(hs, p, n, maxDepth) == Kids(hs, p, p + 1, maxDepth)
      invariant Below(done, |hs|) && children == Render(hs, done, true)
      invariant forall j :: j in processed' <==> j in processed || (p < j < n && hs[j].level <= maxDepth)
      decreases |hs| - i
    {
      if hs[i].level <= parentLevel {
        break;
      }
      WithinRange(hs, p, i);
      if i in processed' || hs[i].level > maxDepth {
        SkipStep(hs, p, i, n, maxDepth, processed, processed', done);
        if i == n {
          n := n + 1;
        }
        i := i + 1;
        continue;
      }
      assert i < n ==> i in processed';
      ChildTaken(hs, p, i, maxDepth, done);
      ProcessedBefore(hs, processed, processed', p, i, maxDepth);
      var nested, processed'' := CollectChildHeadings(hs, i, processed' + {i}, maxDepth);
      ProcessedAfter(hs, processed, processed', processed'', p, i, maxDepth);
      ghost var t := Slot(i, ChildSlotsOf(hs, i, maxDepth));
      children := children + [hs[i].(children := nested, isChild := true)];
      done := done + [t];
      n := End(hs, i);
      processed' := processed'';
      i := i + 1;
    }
    ScanEnd(hs, p, i, n);
    KidsStop(hs, p, n, maxDepth);
    assert done + [] == done;
  }

  /** `buildHeadingHierarchy`: the top-level headings with everything nested under them. */
  method BuildHeadingHierarchy(hs: seq<Heading>, maxDepth: int) returns (result: seq<Heading>)
    ensures Below(Roots(hs, 0, maxDepth), |hs|)
    ensures result == Render(hs, Roots(hs, 0, maxDepth), false)
  {
    RootsBelow(hs, maxDepth);
    result := [];
    var processed: set<nat> := {};
    ghost var done: seq<Slot> := [];
    ghost var n := 0;
    for index := 0 to |hs|
      invariant index <= n <= |hs|
      invariant done + Roots(hs, n, maxDepth) == Roots(hs, 0, maxDepth)
      invariant Below(done, |hs|) && result == Render(hs, done, false)
      invariant forall j :: j in processed ==> j < n
      invariant forall j :: index <= j < n ==> j in processed || hs[j].level > maxDepth
    {
      if index in processed || hs[index].level > maxDepth {
        if index == n {
          RootsSkip(hs, n, maxDepth);
          n := n + 1;
        }
        continue;
      }
      RootsTake(hs, index, maxDepth);
      ChildSlotsBelow(hs, index, maxDepth);
      var children, processed' := CollectChildHeadings(hs, index, processed, maxDepth);
      ghost var t := Slot(index, ChildSlotsOf(hs, index, maxDepth));
      RenderStep(hs, done, t, false);
      result := result + [hs[index].(children := children)];
      Regroup(done, t, Roots(hs, End(hs, index), maxDepth));
      done := done + [t];
      n := End(hs, index);
      processed := processed';
    }
    assert done + [] == done;
  }

  // ---------------------------------------------------------------------------
  // What the hierarchy promises.

  /** The whole table: every top-level entry with everything nested under it. */
  function Hierarchy(hs: seq<Heading>, maxDepth: int): (r: seq<Heading>)
    ensures |r| == |Roots(hs, 0, maxDepth)|
  {
    RootsBelow(hs, maxDepth);
    Render(hs, Roots(hs, 0, maxDepth), false)
  }

  /**
   * Rendering keeps every field of each heading except its children and its child flag;
   * each entry's children are its own nested entries, and those are all marked as children.
   */
  lemma RenderKeeps(hs: seq<Heading>, ts: seq<Slot>, isChild: bool, k: nat)
    requires Below(ts, |hs|) && k < |ts|
    ensures ts[k].index < |hs| && Below(ts[k].kids, |hs|)
    ensures var r := Render(hs, ts, isChild)[k]; var h := hs[ts[k].index];
      && r.(children := [], isChild := false) == h.(children := [], isChild := false)
      && r.children == Render(hs, ts[k].kids, true)
      && (isChild ==> r.isChild)
      && (!isChild ==> r.isChild == h.isChild)
    decreases k
  {
    assert Preorder(ts) == [ts[0].index] + Preorder(ts[0].kids) + Preorder(ts[1..]);
    assert forall x :: x in Preorder(ts[1..]) ==> x in Preorder(ts);
    assert forall x :: x in Preorder(ts[0].kids) ==> x in Preorder(ts);
    assert ts[0].index in Preorder(ts);
    var h := hs[ts[0].index];
    var all := Render(hs, ts, isChild);
    assert all == [h.(children := Render(hs, ts[0].kids, true), isChild := if isChild then true else h.isChild)]
      + Render(hs, ts[1..], isChild);
    if k > 0 {
      RenderKeeps(hs, ts[1..], isChild, k - 1);
      assert ts[1..][k - 1] == ts[k];
      assert all[k] == Render(hs, ts[1..], isChild)[k - 1];
    }
  }

  /** Every heading no deeper than `maxDepth` among the children range of `p` is placed under it. */
  lemma {:induction false} KidsComplete(hs: seq<Heading>, p: nat, s: nat, maxDepth: int)
    requires p < |hs| && p < s <= End(hs, p) && hs[p].level < maxDepth
    ensures forall x :: s <= x < End(hs, p) && hs[x].level <= maxDepth ==> x in Preorder(Kids(hs, p, s, maxDepth))
    decreases |hs| - s
  {
    if s == |hs| || hs[s].level <= hs[p].level {
    } else if hs[s].level > maxDepth {
      KidsComplete(hs, p, s + 1, maxDepth);
    } else {
      EndNested(hs, p, s);
      var sub := ChildSlotsOf(hs, s, maxDepth);
      var rest := Kids(hs, p, End(hs, s), maxDepth);
      PreorderCons(Slot(s, sub), rest);
      if hs[s].level < maxDepth {
        KidsComplete(hs, s, s + 1, maxDepth);
      }
      KidsComplete(hs, p, End(hs, s), maxDepth);
    }
  }

  lemma {:induction false} RootsComplete(hs: seq<Heading>, s: nat, maxDepth: int)
    requires s <= |hs|
    ensures forall x :: s <= x < |hs| && hs[x].level <= maxDepth ==> x in Preorder(Roots(hs, s, maxDepth))
    decreases |hs| - s
  {
    if s == |hs| {
    } else if hs[s].level > maxDepth {
      RootsComplete(hs, s + 1, maxDepth);
    } else {
      var sub := ChildSlotsOf(hs, s, maxDepth);
      var rest := Roots(hs, End(hs, s), maxDepth);
      PreorderCons(Slot(s, sub), rest);
      if hs[s].level < maxDepth {
        KidsComplete(hs, s, s + 1, maxDepth);
      }
      RootsComplete(hs, End(hs, s), maxDepth);
    }
  }

  /**
   * The table places exactly the headings no deeper than `maxDepth`, each once, in
   * document order.
   */
  lemma HierarchyPlacesEachOnce(hs: seq<Heading>, maxDepth: int)
    ensures var placed := Preorder(Roots(hs, 0, maxDepth));
      && (forall x :: x in placed <==> 0 <= x < |hs| && hs[x].level <= maxDepth)
      && (forall i, j :: 0 <= i < j < |placed| ==> placed[i] < placed[j])
  {
    RootsSound(hs, 0, maxDepth);
    RootsComplete(hs, 0, maxDepth);
  }

  /** Every entry's children are later, deeper headings before the next heading that is not deeper. */
  lemma ChildrenAreDeeper(hs: seq<Heading>, p: nat, maxDepth: int)
    requires p < |hs|
    ensures hs[p].level >= maxDepth ==> ChildSlotsOf(hs, p, maxDepth) == []
    ensures forall x :: x in Preorder(ChildSlotsOf(hs, p, maxDepth)) ==>
      p < x < End(hs, p) && hs[x].level > hs[p].level && hs[x].level <= maxDepth
  {
    ChildSlotsSound(hs, p, maxDepth);
  }

  /** Each entry of the table, at any depth, is a position whose children are its own child slots. */
  lemma {:induction false} KidsEntries(hs: seq<Heading>, p: nat, s: nat, maxDepth: int)
    requires p < |hs| && p < s <= End(hs, p)
    ensures forall k :: 0 <= k < |Kids(hs, p, s, maxDepth)| ==>
      var t := Kids(hs, p, s, maxDepth)[k]; t.index < |hs| && t.kids == ChildSlotsOf(hs, t.index, maxDepth)
    decreases |hs| - s
  {
    if s == |hs| || hs[s].level <= hs[p].level {
    } else if hs[s].level > maxDepth {
      KidsEntries(hs, p, s + 1, maxDepth);
    } else {
      EndNested(hs, p, s);
      KidsEntries(hs, p, End(hs, s), maxDepth);
    }
  }

  lemma {:induction false} RootsEntries(hs: seq<Heading>, s: nat, maxDepth: int)
    requires s <= |hs|
    ensures forall k :: 0 <= k < |Roots(hs, s, maxDepth)| ==>
      var t := Roots(hs, s, maxDepth)[k]; t.index < |hs| && t.kids == ChildSlotsOf(hs, t.index, maxDepth)
    decreases |hs| - s
  {
    if s == |hs| {
    } else if hs[s].level > maxDepth {
      RootsEntries(hs, s + 1, maxDepth);
    } else {
      RootsEntries(hs, End(hs, s), maxDepth);
    }
  }

  /** There is a top-level entry exactly when some heading is no deeper than `maxDepth`. */
  lemma HierarchyNonEmptyIff(hs: seq<Heading>, maxDepth: int)
    ensures |Hierarchy(hs, maxDepth)| >= MinHeadingsToShow <==> AnyWithin(hs, maxDepth)
  {
    var roots := Roots(hs, 0, maxDepth);
    HierarchyPlacesEachOnce(hs, maxDepth);
    if |roots| > 0 {
      assert Preorder(roots)[0] == roots[0].index;
      assert roots[0].index in Preorder(roots);
    }
    if exists x :: 0 <= x < |hs| && hs[x].level <= maxDepth {
      var x :| 0 <= x < |hs| && hs[x].level <= maxDepth;
      assert x in Preorder(roots);
    }
  }

  /** A heading block that yields a heading no deeper than `maxDepth`. */
  predicate Shown(b: Block, maxDepth: int) {
    IsHeadingBlock(b) && HasText(b) && HeadingLevel(b.style.value) <= maxDepth
  }

  /** A block yields a heading no deeper than `maxDepth` exactly when it is shown. */
  lemma CandidateShown(b: Block, index: int, slugify: string -> string, maxDepth: int)
    requires IsHeadingBlock(b)
    ensures var h := ProcessedHeading(b, index, slugify); (h.Some? && h.value.level <= maxDepth) <==> Shown(b, maxDepth)
  {
  }

  /** Some heading no deeper than `maxDepth` among the flat headings. */
  predicate AnyWithin(flat: seq<Heading>, maxDepth: int) {
    exists x :: 0 <= x < |flat| && flat[x].level <= maxDepth
  }

  /** Some shown block. */
  predicate AnyShown(blocks: seq<Block>, maxDepth: int) {
    exists j :: 0 <= j < |blocks| && Shown(blocks[j], maxDepth)
  }

  lemma FlatHeadingFromShown(blocks: seq<Block>, slugify: string -> string, maxDepth: int, x: nat)
    requires forall k :: 0 <= k < |blocks| ==> IsHeadingBlock(blocks[k])
    requires x < |FlatHeadings(blocks, slugify)| && FlatHeadings(blocks, slugify)[x].level <= maxDepth
    ensures exists j :: 0 <= j < |blocks| && Shown(blocks[j], maxDepth)
  {
    var c := Candidates(blocks, slugify);
    var flat := FlatHeadings(blocks, slugify);
    assert Some(flat[x]) in c;
    var j :| 0 <= j < |c| && c[j] == Some(flat[x]);
    CandidateShown(blocks[j], j, slugify, maxDepth);
  }

  lemma ShownGivesFlatHeading(blocks: seq<Block>, slugify: string -> string, maxDepth: int, j: nat)
    requires forall k :: 0 <= k < |blocks| ==> IsHeadingBlock(blocks[k])
    requires j < |blocks| && Shown(blocks[j], maxDepth)
    ensures exists x :: 0 <= x < |FlatHeadings(blocks, slugify)| && FlatHeadings(blocks, slugify)[x].level <= maxDepth
  {
    var c := Candidates(blocks, slugify);
    var flat := FlatHeadings(blocks, slugify);
    CandidateShown(blocks[j], j, slugify, maxDepth);
    assert c[j].value in flat;
    var x :| 0 <= x < |flat| && flat[x] == c[j].value;
  }

  /** Some flat heading is no deeper than `maxDepth` exactly when some block is shown. */
  lemma FlatHeadingsShown(blocks: seq<Block>, slugify: string -> string, maxDepth: int)
    requires forall k :: 0 <= k < |blocks| ==> IsHeadingBlock(blocks[k])
    ensures AnyWithin(FlatHeadings(blocks, slugify), maxDepth) <==> AnyShown(blocks, maxDepth)
  {
    var flat := FlatHeadings(blocks, slugify);
    forall x | 0 <= x < |flat| && flat[x].level <= maxDepth
      ensures AnyShown(blocks, maxDepth)
    {
      FlatHeadingFromShown(blocks, slugify, maxDepth, x);
    }
    forall j | 0 <= j < |blocks| && Shown(blocks[j], maxDepth)
      ensures AnyWithin(flat, maxDepth)
    {
      ShownGivesFlatHeading(blocks, slugify, maxDepth, j);
    }
  }

  /** `processHeadingBlocks`: the heading blocks as a table. */
  method ProcessHeadingBlocks(headingBlocks: seq<Block>, maxDepth: int, slugify: string -> string)
    returns (r: seq<Heading>)
    requires forall k :: 0 <= k < |headingBlocks| ==> IsHeadingBlock(headingBlocks[k])
    ensures r == Hierarchy(FlatHeadings(headingBlocks, slugify), maxDepth)
  {
    if |headingBlocks| == 0 {
      return [];
    }
    var processedHeadings := FlatHeadings(headingBlocks, slugify);
    r := BuildHeadingHierarchy(processedHeadings, maxDepth);
  }

  /** What `useTableOfContentState` returns. */
  datatype TocState = TocState(shouldShow: bool, headings: seq<Heading>)

  /**
   * `useTableOfContentState`: the early exits for missing or heading-free rich text give
   * the same table as the general case, and the table is shown exactly when some heading
   * block with text is no deeper than `maxDepth` (6 when not given).
   */
  method TableOfContentState(richText: Option<seq<Block>>, maxDepth: Option<int>, slugify: string -> string)
    returns (st: TocState)
    ensures var md := if maxDepth.Some? then maxDepth.value else DefaultMaxDepth;
      && st.headings == Hierarchy(FlatHeadings(HeadingBlocks(richText), slugify), md)
      && (st.shouldShow <==> AnyShown(HeadingBlocks(richText), md))
      && (st.shouldShow <==> |st.headings| >= MinHeadingsToShow)
  {
    var md := if maxDepth.Some? then maxDepth.value else DefaultMaxDepth;
    var headingBlocks := HeadingBlocks(richText);
    var flat := FlatHeadings(headingBlocks, slugify);
    HierarchyNonEmptyIff(flat, md);
    FlatHeadingsShown(headingBlocks, slugify, md);
    if richText.None? || |richText.value| == 0 {
      return TocState(false, []);
    }
    if |headingBlocks| < MinHeadingsToShow {
      return TocState(false, []);
    }
    var processedHeadings := ProcessHeadingBlocks(headingBlocks, md, slugify);
    return TocState(|processedHeadings| >= MinHeadingsToShow, processedHeadings);
  }
}
