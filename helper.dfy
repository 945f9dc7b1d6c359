// Small helpers of the studio: URL and title formatting, list layouts, a rich-text
// summary, splitting a list into columns and the two page templates.

module StudioHelper {
  import opened Text
  import opened PortableText
  import opened Json

  /** `isRelativeUrl`. */
  predicate IsRelativeUrl(url: string) {
    StartsWith(url, "/") || StartsWith(url, "#") || StartsWith(url, "?")
  }

  /** A relative URL is exactly one whose first character is `/`, `#` or `?`. */
  lemma IsRelativeUrlIff(url: string)
    ensures IsRelativeUrl(url) <==> |url| > 0 && (url[0] == '/' || url[0] == '#' || url[0] == '?')
  {
    if |url| > 0 {
      assert url[..1] == [url[0]];
    }
  }

  /** `capitalize`: the first character upper-cased, the rest untouched. */
  function Capitalize(s: string): (r: string)
    ensures |r| == |s|
    ensures |s| > 0 ==> r[0] == UpperChar(s[0]) && r[1..] == s[1..]
  {
    if |s| == 0 then "" else [UpperChar(s[0])] + s[1..]
  }

  /** `name.replace(/([A-Z])/g, " $1")`. */
  function SpaceBeforeCapitals(s: string): (r: string)
    ensures |r| >= |s|
    ensures |r| > 0 ==> !IsUpperAlpha(r[0])
    ensures |s| > 0 && IsUpperAlpha(s[0]) ==> r[0] == ' '
    ensures |s| > 0 && !IsUpperAlpha(s[0]) ==> r[0] == s[0]
  {
    if |s| == 0 then ""
    else (if IsUpperAlpha(s[0]) then [' ', s[0]] else [s[0]]) + SpaceBeforeCapitals(s[1..])
  }

  /** Deletes the space in front of each capital letter: the inverse of `SpaceBeforeCapitals`. */
  function DropSpaceBeforeCapitals(t: string): string
    decreases |t|
  {
    if |t| == 0 then ""
    else if |t| >= 2 && t[0] == ' ' && IsUpperAlpha(t[1]) then [t[1]] + DropSpaceBeforeCapitals(t[2..])
    else [t[0]] + DropSpaceBeforeCapitals(t[1..])
  }

  /** Inserting the spaces loses nothing: they can be taken out again. */
  lemma {:induction false} SpaceBeforeCapitalsRoundTrip(s: string)
    ensures DropSpaceBeforeCapitals(SpaceBeforeCapitals(s)) == s
    decreases |s|
  {
    if |s| > 0 {
      var rest := SpaceBeforeCapitals(s[1..]);
      SpaceBeforeCapitalsRoundTrip(s[1..]);
      if IsUpperAlpha(s[0]) {
        var t := [' ', s[0]] + rest;
        assert t[2..] == rest;
      } else {
        var t := [s[0]] + rest;
        assert t[1..] == rest;
        assert |t| >= 2 ==> t[1] == rest[0];
      }
      assert [s[0]] + s[1..] == s;
    }
  }

  /** `getTitleCase`. */
  function TitleCase(name: string): (r: string) {
    Capitalize(SpaceBeforeCapitals(name))
  }

  /** A name that starts with a capital letter comes back with a leading space. */
  lemma TitleCaseOfCapital(name: string)
    requires |name| > 0 && IsUpperAlpha(name[0])
    ensures TitleCase(name)[0] == ' '
  {
  }

  /** A camel-case pair of lower-case words becomes two capitalised words (`blogIndex` is `Blog Index`). */
  lemma TitleCaseOfCamel(a: string, c: char, b: string)
    requires |a| > 0 && forall i :: 0 <= i < |a| ==> IsLowerAlpha(a[i])
    requires forall i :: 0 <= i < |b| ==> IsLowerAlpha(b[i])
    requires IsUpperAlpha(c)
    ensures TitleCase(a + [c] + b) == [UpperChar(a[0])] + a[1..] + " " + [c] + b
  {
    SpaceOfLower(b);
    SpaceAppend(a, [c] + b);
    SpaceOfLower(a);
    assert ([c] + b)[1..] == b;
    assert a + [c] + b == a + ([c] + b);
    var t := SpaceBeforeCapitals(a + [c] + b);
    assert t == a + ([' ', c] + b);
  }

  lemma {:induction false} SpaceOfLower(s: string)
    requires forall i :: 0 <= i < |s| ==> IsLowerAlpha(s[i])
    ensures SpaceBeforeCapitals(s) == s
    decreases |s|
  {
    if |s| > 0 {
      SpaceOfLower(s[1..]);
      assert [s[0]] + s[1..] == s;
    }
  }

  lemma {:induction false} SpaceAppend(a: string, b: string)
    ensures SpaceBeforeCapitals(a + b) == SpaceBeforeCapitals(a) + SpaceBeforeCapitals(b)
    decreases |a|
  {
    if |a| == 0 {
      assert a + b == b;
    } else {
      assert (a + b)[1..] == a[1..] + b;
      SpaceAppend(a[1..], b);
    }
  }

  /** An entry of a radio list: a bare value or a titled one. */
  datatype RadioItem = Plain(value: string) | Titled(title: string, itemValue: string)

  /** A titled entry as the list shows it. */
  datatype ListEntry = ListEntry(title: string, value: string)

  function ToEntry(item: RadioItem): ListEntry {
    match item
    case Plain(v) => ListEntry(TitleCase(v), v)
    case Titled(t, v) => ListEntry(t, v)
  }

  /** `items.map(...)`: one entry per item, in order. */
  function RadioList(items: seq<RadioItem>): (list: seq<ListEntry>)
    ensures |list| == |items|
    ensures forall k :: 0 <= k < |items| ==> list[k] == ToEntry(items[k])
  {
    seq(|items|, k requires 0 <= k < |items| => ToEntry(items[k]))
  }

  /** A list entry as an option value: `{ title, value }`. */
  function EntryJson(e: ListEntry): Json {
    JObj(map["title" := JStr(e.title), "value" := JStr(e.value)])
  }

  /** The option value of a whole list. */
  function ListJson(list: seq<ListEntry>): (r: Json)
    ensures r.JArr? && |r.items| == |list|
    ensures forall k :: 0 <= k < |list| ==> r.items[k] == EntryJson(list[k])
  {
    JArr(seq(|list|, k requires 0 <= k < |list| => EntryJson(list[k])))
  }

  /**
   * `createRadioListLayout`: `{ layout: "radio", list, ...options }`, the string-field
   * options as an object; a missing `options` spreads nothing.
   */
  function CreateRadioListLayout(items: seq<RadioItem>, options: Option<map<string, Json>>): (r: map<string, Json>)
    ensures var given := if options.Some? then options.value else map[];
      && r.Keys == {"layout", "list"} + given.Keys
      && (forall k :: k in given ==> r[k] == given[k])
      && ("layout" !in given ==> r["layout"] == JStr("radio"))
      && ("list" !in given ==> r["list"] == ListJson(RadioList(items)))
  {
    var given := if options.Some? then options.value else map[];
    Spread(map["layout" := JStr("radio"), "list" := ListJson(RadioList(items))], given)
  }

  /** An explicit `layout: undefined` among the options erases the radio layout. */
  lemma UndefinedLayoutErasesRadio(items: seq<RadioItem>, options: map<string, Json>)
    requires "layout" in options && options["layout"] == JUndefined
    ensures CreateRadioListLayout(items, Some(options))["layout"] == JUndefined
  {
  }

  /** A bare value is titled from its name; a titled entry is kept as it is. */
  lemma RadioEntries(s: string, t: string, v: string)
    ensures ToEntry(Plain(s)) == ListEntry(TitleCase(s), s)
    ensures ToEntry(Titled(t, v)) == ListEntry(t, v)
  {
  }

  /** An element of a rich-text value: a text block (as the external guard decides) or anything else. */
  datatype RichItem = TextBlock(spans: seq<Span>) | NotText

  /** The children of the texts that are set and non-empty, joined with single spaces. */
  function BlockWords(spans: seq<Span>): string {
    Join(TruthyTexts(spans), " ")
  }

  /** `children.map(c => c.text).filter(Boolean)`. */
  function TruthyTexts(spans: seq<Span>): (r: seq<string>)
    ensures forall k :: 0 <= k < |r| ==> r[k] != ""
    ensures |r| <= |spans|
  {
    if |spans| == 0 then []
    else (if Truthy(spans[0].text) then [spans[0].text.value] else []) + TruthyTexts(spans[1..])
  }

  function BlockText(item: RichItem): string {
    match item
    case TextBlock(spans) => BlockWords(spans)
    case NotText => ""
  }

  /** `array.slice(0, n)`, where a negative `n` counts from the end. */
  function SliceTo<T>(xs: seq<T>, n: int): (r: seq<T>)
    ensures |r| <= |xs| && r == xs[..|r|]
    ensures n >= 0 ==> |r| == (if n < |xs| then n else |xs|)
    ensures n < 0 ==> |r| == (if |xs| + n > 0 then |xs| + n else 0)
  {
    if n >= 0 then xs[..if n < |xs| then n else |xs|]
    else xs[..if |xs| + n > 0 then |xs| + n else 0]
  }

  /** The text of every element, joined with single spaces. */
  function AllText(items: seq<RichItem>): string {
    Join(seq(|items|, k requires 0 <= k < |items| => BlockText(items[k])), " ")
  }

  /**
   * `parseRichTextToString`: `None` is a value that is not an array. With a
   * truthy `maxWords`, the first words of the text followed by `...`.
   */
  function ParseRichTextToString(value: Option<seq<RichItem>>, maxWords: Option<int>): (r: string)
    ensures value.None? ==> r == "No Content"
    ensures value.Some? && (maxWords.None? || maxWords.value == 0) ==> r == AllText(value.value)
    ensures value.Some? && maxWords.Some? && maxWords.value != 0 ==>
      r == Join(SliceTo(Split(AllText(value.value), ' '), maxWords.value), " ") + "..."
  {
    if value.None? then "No Content"
    else
      var text := AllText(value.value);
      if maxWords.Some? && maxWords.value != 0 then
        Join(SliceTo(Split(text, ' '), maxWords.value), " ") + "..."
      else text
  }

  /** The summary keeps at most `maxWords` words: splitting it again gives that many or fewer. */
  lemma SummaryWordCount(value: seq<RichItem>, maxWords: int)
    requires maxWords > 0
    ensures var r := ParseRichTextToString(Some(value), Some(maxWords));
      var body := r[..|r| - 3];
      StartsWith(r[|r| - 3..], "...") && |Split(body, ' ')| <= maxWords
      && Split(body, ' ') == SliceTo(Split(AllText(value), ' '), maxWords)
  {
    var words := Split(AllText(value), ' ');
    var kept := SliceTo(words, maxWords);
    var body := Join(kept, " ");
    var r := body + "...";
    assert r[..|r| - 3] == body;
    assert r[|r| - 3..] == "...";
    assert |kept| >= 1;
    assert forall k :: 0 <= k < |kept| ==> ' ' !in kept[k] by {
      forall k | 0 <= k < |kept| ensures ' ' !in kept[k] {
        assert kept[k] == words[k];
      }
    }
    SplitJoin(kept, ' ');
  }

  /** The chunk `j` of `splitArray(a, n)`: every element whose index is `j` modulo `n`, in order. */
  function Chunk<T>(a: seq<T>, n: nat, j: nat): (r: seq<T>)
    requires n >= 1
    ensures |r| <= |a|
  {
    if |a| == 0 then []
    else Chunk(a[..|a| - 1], n, j) + (if (|a| - 1) % n == j then [a[|a| - 1]] else [])
  }

  /** `splitArray`. `None` stands for the error thrown when a non-empty list is split into no chunks. */
  method SplitArray<T>(a: seq<T>, numChunks: nat) returns (r: Option<seq<seq<T>>>)
    ensures r.None? <==> numChunks == 0 && |a| > 0
    ensures r.Some? ==> |r.value| == numChunks
    ensures r.Some? && numChunks >= 1 ==> forall j :: 0 <= j < numChunks ==> r.value[j] == Chunk(a, numChunks, j)
  {
    if numChunks == 0 {
      if |a| > 0 {
        return None;
      }
      return Some([]);
    }
    var result := new seq<T>[numChunks](_ => []);
    for i := 0 to |a|
      invariant forall j :: 0 <= j < numChunks ==> result[j] == Chunk(a[..i], numChunks, j)
    {
      assert a[..i + 1][..i] == a[..i];
      result[i % numChunks] := result[i % numChunks] + [a[i]];
    }
    assert a[..|a|] == a;
    r := Some(result[..]);
  }

  /** The size of chunk `j`: one more than `|a| / n` for the first `|a| % n` chunks. */
  lemma {:induction false} ChunkSize<T>(a: seq<T>, n: nat, j: nat)
    requires n >= 1 && j < n
    ensures |Chunk(a, n, j)| == |a| / n + (if j < |a| % n then 1 else 0)
    decreases |a|
  {
    if |a| > 0 {
      var m := |a| - 1;
      ChunkSize(a[..m], n, j);
      ModStep(m, n);
    }
  }

  /** Chunk sizes differ by at most one. */
  lemma ChunksBalanced<T>(a: seq<T>, n: nat, i: nat, j: nat)
    requires n >= 1 && i < n && j < n
    ensures |Chunk(a, n, i)| - |Chunk(a, n, j)| <= 1
  {
    ChunkSize(a, n, i);
    ChunkSize(a, n, j);
  }

  /** Sum of the sizes of the chunks `0 .. k-1`. */
  function SizesUpTo<T>(a: seq<T>, n: nat, k: nat): nat
    requires n >= 1
  {
    if k == 0 then 0 else SizesUpTo(a, n, k - 1) + |Chunk(a, n, k - 1)|
  }

  /** Every element lands in exactly one chunk: the chunk sizes add up to the length. */
  lemma {:induction false} ChunksCoverAll<T>(a: seq<T>, n: nat)
    requires n >= 1
    ensures SizesUpTo(a, n, n) == |a|
    decreases |a|
  {
    if |a| > 0 {
      var m := |a| - 1;
      ChunksCoverAll(a[..m], n);
      assert SizesUpTo(a[..m], n, n) == m;
      SizesStep(a, n, n);
      assert m % n < n;
      assert SizesUpTo(a, n, n) == SizesUpTo(a[..m], n, n) + 1;
    } else {
      SizesOfEmpty(a, n, n);
    }
  }

  lemma {:induction false} SizesOfEmpty<T>(a: seq<T>, n: nat, k: nat)
    requires n >= 1 && |a| == 0
    ensures SizesUpTo(a, n, k) == 0
  {
    if k > 0 {
      SizesOfEmpty(a, n, k - 1);
    }
  }

  /** Adding the last element grows the sum over the first `k` chunks iff it falls among them. */
  lemma {:induction false} SizesStep<T>(a: seq<T>, n: nat, k: nat)
    requires n >= 1 && |a| > 0 && k <= n
    ensures SizesUpTo(a, n, k) == SizesUpTo(a[..|a| - 1], n, k) + (if (|a| - 1) % n < k then 1 else 0)
    decreases k
  {
    if k > 0 {
      SizesStep(a, n, k - 1);
    }
  }

  lemma ModStep(m: nat, n: nat)
    requires n > 0
    ensures m % n < n - 1 ==> (m + 1) / n == m / n && (m + 1) % n == m % n + 1
    ensures m % n == n - 1 ==> (m + 1) / n == m / n + 1 && (m + 1) % n == 0
  {
    var q, r := m / n, m % n;
    assert m == q * n + r;
    if r < n - 1 {
      assert m + 1 == q * n + (r + 1);
      DivModUnique(m + 1, n, q, r + 1);
    } else {
      assert m + 1 == (q + 1) * n by {
        assert (q + 1) * n == q * n + n;
      }
      DivModUnique(m + 1, n, q + 1, 0);
    }
  }

  lemma {:induction false} MulAtLeast(d: int, n: int)
    requires d >= 1 && n > 0
    ensures d * n >= n
    decreases d
  {
    if d > 1 {
      MulAtLeast(d - 1, n);
      assert d * n == (d - 1) * n + n;
    }
  }

  lemma DivModUnique(x: int, n: int, q: int, r: int)
    requires n > 0 && 0 <= r < n && x == q * n + r
    ensures x / n == q && x % n == r
  {
    var q', r' := x / n, x % n;
    assert x == q' * n + r';
    var d := q - q';
    assert d * n == r' - r by {
      assert d * n == q * n - q' * n;
    }
    if d >= 1 {
      MulAtLeast(d, n);
    } else if d <= -1 {
      MulAtLeast(-d, n);
    }
  }

  /** `lastSegment.slice(1).replace(/-/g, " ")`. */
  function DashesToSpaces(s: string): (r: string)
    ensures |r| == |s|
    ensures forall i :: 0 <= i < |s| ==> r[i] == (if s[i] == '-' then ' ' else s[i])
  {
    seq(|s|, i requires 0 <= i < |s| => if s[i] == '-' then ' ' else s[i])
  }

  /** `pathnameToTitle`. */
  function PathnameToTitle(pathname: string): (r: string)
    ensures pathname == "/" ==> r == "Home"
  {
    if pathname == "/" then "Home"
    else
      var segs := Segments(pathname);
      var last := if |segs| > 0 then segs[|segs| - 1] else "";
      if |last| == 0 then "" else [UpperChar(last[0])] + DashesToSpaces(last[1..])
  }

  /** The title comes from the last segment: its first character upper-cased, its other hyphens spaces. */
  lemma PathnameToTitleOfPath(segs: seq<string>)
    requires |segs| >= 1
    requires forall k :: 0 <= k < |segs| ==> segs[k] != "" && '/' !in segs[k]
    ensures var last := segs[|segs| - 1];
      var r := PathnameToTitle("/" + Join(segs, "/"));
      |r| == |last| && r[0] == UpperChar(last[0])
      && forall i :: 1 <= i < |last| ==> r[i] == (if last[i] == '-' then ' ' else last[i])
  {
    SegmentsOfRootedJoin(segs);
    var p := "/" + Join(segs, "/");
    assert p != "/" by {
      JoinLength(segs);
      assert |p| > 1;
    }
    TitleOfLastSegment(p, segs);
  }

  lemma TitleOfLastSegment(p: string, segs: seq<string>)
    requires p != "/" && Segments(p) == segs && |segs| >= 1 && segs[|segs| - 1] != ""
    ensures var last := segs[|segs| - 1];
      PathnameToTitle(p) == [UpperChar(last[0])] + DashesToSpaces(last[1..])
  {
  }

  lemma {:induction false} JoinLength(segs: seq<string>)
    requires |segs| >= 1 && segs[0] != ""
    ensures |Join(segs, "/")| > 0
  {
  }

  /** A path without segments has an empty title. */
  lemma PathnameToTitleWithoutSegments(pathname: string)
    requires pathname != "/" && Segments(pathname) == []
    ensures PathnameToTitle(pathname) == ""
  {
  }

  /** `getTemplateName`. */
  function TemplateName(template: string): (r: string)
    ensures |r| == |template| + 10 && r[..|template|] == template
  {
    template + "-with-slug"
  }

  /** A new-document template of the studio. */
  datatype Template = Template(schemaType: string, id: string, title: string, parameterName: string, parameterType: string)

  /** The initial value a template gives: the slug field only when a slug is passed. */
  function TemplateValue(slug: Option<string>): (r: map<string, Json>)
    ensures Truthy(slug) <==> "slug" in r
    ensures Truthy(slug) ==> r["slug"] == JObj(map["current" := JStr(slug.value), "_type" := JStr("slug")])
    ensures r.Keys <= {"slug"}
  {
    if Truthy(slug) then map["slug" := JObj(map["current" := JStr(slug.value), "_type" := JStr("slug")])]
    else map[]
  }

  /** `createPageTemplate`: one template for pages and one for blog posts. */
  function CreatePageTemplate(): (r: seq<Template>)
    ensures |r| == 2 && r[0].schemaType == "page" && r[1].schemaType == "blog"
    ensures r[0].title == "Page with slug" && r[1].title == "Blog with slug"
    ensures forall k :: 0 <= k < |r| ==>
      (r[k].id == TemplateName(r[k].schemaType) && r[k].parameterName == "slug" && r[k].parameterType == "string")
  {
    var pages := [("Page", "page"), ("Blog", "blog")];
    seq(2, k requires 0 <= k < 2 =>
      Template(pages[k].1, TemplateName(pages[k].1), pages[k].0 + " with slug", "slug", "string"))
  }

  /** The two templates have different ids. */
  lemma TemplateIdsDistinct()
    ensures CreatePageTemplate()[0].id != CreatePageTemplate()[1].id
  {
    var r := CreatePageTemplate();
    assert r[0].id[0] == 'p' && r[1].id[0] == 'b';
  }
}
