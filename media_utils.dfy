// Sorting a block's media list into images and videos. A video comes either from a
// direct URL or from a file asset reference `file-<id>-<ext>`, turned into a CDN
// URL; its MIME type is the item's own or is guessed from the extension.

module MediaUtils {
  import opened Text

  /** The project and dataset the CDN URLs point into. */
  datatype CdnConfig = CdnConfig(projectId: string, dataset: string)

  datatype Asset = Asset(url: Option<string>, ref: Option<string>)

  /** One entry of the media list, with the fields the normaliser reads. */
  datatype MediaItem = MediaItem(
    itemType: Option<string>,
    url: Option<string>,
    asset: Option<Asset>,
    mimeType: Option<string>,
    ref: Option<string>)

  datatype Video = Video(url: string, mimeType: Option<string>)

  datatype NormalizedMedia = NormalizedMedia(images: seq<MediaItem>, videos: seq<Video>)

  const FilePrefix: string := "file-"
  const CdnFiles: string := "https://cdn.sanity.io/files/"

  /** `/^file-([A-Za-z0-9]+)-([A-Za-z0-9]+)$/`: the id and the extension, when the reference matches. */
  function ParseRef(ref: string): (r: Option<(string, string)>)
    ensures r.Some? ==> ref == FilePrefix + r.value.0 + "-" + r.value.1
    ensures r.Some? ==> r.value.0 != "" && r.value.1 != "" && AllAlphanumeric(r.value.0) && AllAlphanumeric(r.value.1)
  {
    if !StartsWith(ref, FilePrefix) then None
    else
      var parts := Split(ref[|FilePrefix|..], '-');
      if |parts| == 2 && parts[0] != "" && parts[1] != "" && AllAlphanumeric(parts[0]) && AllAlphanumeric(parts[1]) then
        assert Join(parts, "-") == parts[0] + "-" + parts[1] by {
          assert parts[1..] == [parts[1]];
        }
        assert ref == ref[..|FilePrefix|] + ref[|FilePrefix|..];
        Some((parts[0], parts[1]))
      else None
  }

  lemma AlphanumericHasNoHyphen(s: string)
    requires AllAlphanumeric(s)
    ensures '-' !in s
  {
  }

  /** Every reference of the expected form parses back to its id and extension. */
  lemma ParseRefOfRef(id: string, ext: string)
    requires id != "" && ext != "" && AllAlphanumeric(id) && AllAlphanumeric(ext)
    ensures ParseRef(FilePrefix + id + "-" + ext) == Some((id, ext))
  {
    var ref := FilePrefix + id + "-" + ext;
    AlphanumericHasNoHyphen(id);
    AlphanumericHasNoHyphen(ext);
    assert ref[..|FilePrefix|] == FilePrefix;
    assert ref[|FilePrefix|..] == id + "-" + ext;
    assert [id, ext][1..] == [ext];
    assert Join([id, ext], "-") == id + "-" + ext;
    SplitJoin([id, ext], '-');
  }

  /** `buildSanityFileUrlFromRef`. */
  function UrlFromRef(ref: Option<string>, cfg: CdnConfig): (r: Option<string>)
    ensures r.Some? <==> Truthy(ref) && ParseRef(ref.value).Some?
    ensures r.Some? ==> var p := ParseRef(ref.value).value;
      r.value == CdnFiles + cfg.projectId + "/" + cfg.dataset + "/" + p.0 + "." + p.1
  {
    if !Truthy(ref) then None
    else
      var p := ParseRef(ref.value);
      if p.None? then None
      else Some(CdnFiles + cfg.projectId + "/" + cfg.dataset + "/" + p.value.0 + "." + p.value.1)
  }

  /** `s.split(c).pop()`. */
  function LastPart(s: string, c: char): string {
    var parts := Split(s, c);
    parts[|parts| - 1]
  }

  lemma {:induction false} SplitAppend(a: string, b: string, c: char)
    requires c !in b
    ensures Split(a + [c] + b, c) == Split(a, c) + [b]
    decreases |a|
  {
    if |a| == 0 {
      assert a + [c] + b == [c] + b;
      assert ([c] + b)[1..] == b;
      SplitWithoutSeparator(b, c);
    } else {
      assert (a + [c] + b)[1..] == a[1..] + [c] + b;
      SplitAppend(a[1..], b, c);
    }
  }

  lemma LastPartAfter(a: string, b: string, c: char)
    requires c !in b
    ensures LastPart(a + [c] + b, c) == b
  {
    SplitAppend(a, b, c);
  }

  /** The MIME type guessed from a (lower-cased) extension. */
  function GuessMimeType(ext: string): Option<string> {
    if ext == "mp4" || ext == "mov" || ext == "webm" then
      Some("video/" + (if ext == "mov" then "quicktime" else ext))
    else None
  }

  /** `ext ? (...) : undefined`, with `ext` the lower-cased text after the last `.` of the URL. */
  function MimeTypeOfUrl(built: string): Option<string> {
    var ext := ToLower(LastPart(built, '.'));
    if ext == "" then None else GuessMimeType(ext)
  }

  /** The extension read back from a built URL is the reference's own, lower-cased. */
  lemma MimeTypeOfBuiltUrl(ref: string, cfg: CdnConfig)
    requires ParseRef(ref).Some?
    ensures MimeTypeOfUrl(UrlFromRef(Some(ref), cfg).value) == GuessMimeType(ToLower(ParseRef(ref).value.1))
  {
    var p := ParseRef(ref).value;
    var head := CdnFiles + cfg.projectId + "/" + cfg.dataset + "/" + p.0;
    assert UrlFromRef(Some(ref), cfg).value == head + ['.'] + p.1;
    assert '.' !in p.1;
    LastPartAfter(head, p.1, '.');
  }

  /** The direct URL of a file: the item's own `url`, else its asset's (`??`: only a missing one falls through). */
  function DirectUrl(m: MediaItem): Option<string> {
    if m.url.Some? then m.url
    else if m.asset.Some? then m.asset.value.url
    else None
  }

  /** The reference to build from: the asset's `_ref`, else the item's own. */
  function RefOf(m: MediaItem): Option<string> {
    var assetRef := if m.asset.Some? then m.asset.value.ref else None;
    if assetRef.Some? then assetRef else m.ref
  }

  predicate IsFileOrVideo(m: Option<MediaItem>) {
    m.Some? && (m.value.itemType == Some("file") || m.value.itemType == Some("video"))
  }

  predicate IsImage(m: Option<MediaItem>) {
    m.Some? && m.value.itemType == Some("image")
  }

  /** The video a file or video item contributes, if any. */
  function VideoOf(m: MediaItem, cfg: CdnConfig): (r: Option<Video>)
    ensures Truthy(DirectUrl(m)) ==>
      (r.Some? <==> !Truthy(m.mimeType) || StartsWith(m.mimeType.value, "video/"))
      && (r.Some? ==> r.value == Video(DirectUrl(m).value, m.mimeType))
    ensures !Truthy(DirectUrl(m)) ==>
      (r.Some? <==> UrlFromRef(RefOf(m), cfg).Some?)
      && (r.Some? ==> r.value.url == UrlFromRef(RefOf(m), cfg).value)
      && (r.Some? && m.mimeType.Some? ==> r.value.mimeType == m.mimeType)
  {
    var direct := DirectUrl(m);
    if Truthy(direct) then
      if !Truthy(m.mimeType) || StartsWith(m.mimeType.value, "video/") then Some(Video(direct.value, m.mimeType))
      else None
    else
      var built := UrlFromRef(RefOf(m), cfg);
      if built.Some? then
        Some(Video(built.value, if m.mimeType.Some? then m.mimeType else MimeTypeOfUrl(built.value)))
      else None
  }

  /** The images among the items, in order. */
  function ImagesOf(items: seq<Option<MediaItem>>): (r: seq<MediaItem>)
    ensures |r| <= |items|
    ensures forall x :: x in r ==> Some(x) in items && IsImage(Some(x))
  {
    if |items| == 0 then []
    else
      var init := items[..|items| - 1];
      var rest := ImagesOf(init);
      assert forall x :: Some(x) in init ==> Some(x) in items;
      var last := items[|items| - 1];
      if IsImage(last) then rest + [last.value] else rest
  }

  /** The videos the items contribute, in order. */
  function VideosOf(items: seq<Option<MediaItem>>, cfg: CdnConfig): (r: seq<Video>)
    ensures |r| <= |items|
  {
    if |items| == 0 then []
    else
      var rest := VideosOf(items[..|items| - 1], cfg);
      var last := items[|items| - 1];
      if !IsImage(last) && IsFileOrVideo(last) && VideoOf(last.value, cfg).Some? then
        rest + [VideoOf(last.value, cfg).value]
      else rest
  }

  /** What `normalizeMedia` returns: a non-array input contributes nothing. */
  function Normalized(rawMedia: Option<seq<Option<MediaItem>>>, fallbackImage: Option<MediaItem>,
                      cfg: CdnConfig): NormalizedMedia
  {
    var items := if rawMedia.Some? then rawMedia.value else [];
    var images := ImagesOf(items);
    NormalizedMedia(if images == [] && fallbackImage.Some? then [fallbackImage.value] else images,
      VideosOf(items, cfg))
  }

  /** `normalizeMedia`: one pass over the items, pushing images and videos. */
  method NormalizeMedia(rawMedia: Option<seq<Option<MediaItem>>>, fallbackImage: Option<MediaItem>,
                        cfg: CdnConfig) returns (r: NormalizedMedia)
    ensures r == Normalized(rawMedia, fallbackImage, cfg)
  {
    var images: seq<MediaItem> := [];
    var videos: seq<Video> := [];
    var items := if rawMedia.Some? then rawMedia.value else [];
    if rawMedia.Some? {
      for i := 0 to |items|
        invariant images == ImagesOf(items[..i])
        invariant videos == VideosOf(items[..i], cfg)
      {
        assert items[..i + 1][..i] == items[..i];
        images, videos := PushMediaItem(items[i], cfg, images, videos);
      }
      assert items[..|items|] == items;
    }
    if |images| == 0 && fallbackImage.Some? {
      images := images + [fallbackImage.value];
    }
    r := NormalizedMedia(images, videos);
  }

  /** One pass of the loop in `normalizeMedia`: an image is pushed, a file or video may push a video. */
  method PushMediaItem(m: Option<MediaItem>, cfg: CdnConfig, images: seq<MediaItem>, videos: seq<Video>)
    returns (images': seq<MediaItem>, videos': seq<Video>)
    ensures images' == images + (if IsImage(m) then [m.value] else [])
    ensures videos' == videos + (if !IsImage(m) && IsFileOrVideo(m) && VideoOf(m.value, cfg).Some?
                                 then [VideoOf(m.value, cfg).value] else [])
  {
    images', videos' := images, videos;
    if m.Some? && m.value.itemType == Some("image") {
      images' := images' + [m.value];
      return;
    }
    if m.Some? && (m.value.itemType == Some("file") || m.value.itemType == Some("video")) {
      var item := m.value;
      var mimeType := item.mimeType;
      var directUrl := if item.url.Some? then item.url else if item.asset.Some? then item.asset.value.url else None;
      if directUrl.Some? && |directUrl.value| > 0 {
        if !Truthy(mimeType) || StartsWith(mimeType.value, "video/") {
          videos' := videos' + [Video(directUrl.value, mimeType)];
        }
        return;
      }
      var ref := if item.asset.Some? then item.asset.value.ref else None;
      var built := UrlFromRef(if ref.Some? then ref else item.ref, cfg);
      if built.Some? {
        var guessed := MimeTypeOfUrl(built.value);
        videos' := videos' + [Video(built.value, if mimeType.Some? then mimeType else guessed)];
      }
    }
  }

  /** Without a media list there are no videos, and the images are the fallback alone, if given. */
  lemma NoMediaList(fallbackImage: Option<MediaItem>, cfg: CdnConfig)
    ensures var r := Normalized(None, fallbackImage, cfg);
      r.videos == [] && r.images == (if fallbackImage.Some? then [fallbackImage.value] else [])
  {
  }

  /** Images keep the input order: the images of a concatenation are the images of each part. */
  lemma {:induction false} ImagesOfAppend(a: seq<Option<MediaItem>>, b: seq<Option<MediaItem>>)
    ensures ImagesOf(a + b) == ImagesOf(a) + ImagesOf(b)
    decreases |b|
  {
    if |b| == 0 {
      assert a + b == a;
    } else {
      assert (a + b)[..|a + b| - 1] == a + b[..|b| - 1];
      ImagesOfAppend(a, b[..|b| - 1]);
    }
  }

  lemma {:induction false} VideosOfAppend(a: seq<Option<MediaItem>>, b: seq<Option<MediaItem>>, cfg: CdnConfig)
    ensures VideosOf(a + b, cfg) == VideosOf(a, cfg) + VideosOf(b, cfg)
    decreases |b|
  {
    if |b| == 0 {
      assert a + b == a;
    } else {
      assert (a + b)[..|a + b| - 1] == a + b[..|b| - 1];
      VideosOfAppend(a, b[..|b| - 1], cfg);
    }
  }

  /** An item is an image, a video or nothing: the two lists together are no longer than the input. */
  lemma {:induction false} AtMostOneEach(items: seq<Option<MediaItem>>, cfg: CdnConfig)
    ensures |ImagesOf(items)| + |VideosOf(items, cfg)| <= |items|
    decreases |items|
  {
    if |items| > 0 {
      AtMostOneEach(items[..|items| - 1], cfg);
    }
  }

  /** With the fallback, the result holds at most one entry more than the input. */
  lemma NormalizedSize(rawMedia: seq<Option<MediaItem>>, fallbackImage: Option<MediaItem>, cfg: CdnConfig)
    ensures var r := Normalized(Some(rawMedia), fallbackImage, cfg);
      |r.images| + |r.videos| <= |rawMedia| + 1
      && (ImagesOf(rawMedia) != [] ==> r.images == ImagesOf(rawMedia))
  {
    AtMostOneEach(rawMedia, cfg);
  }

  /** A video found by its reference gets the guessed type when the item has none: `.MOV` is QuickTime. */
  lemma RefVideoMimeType(m: MediaItem, cfg: CdnConfig)
    requires !Truthy(DirectUrl(m)) && m.mimeType.None?
    requires Truthy(RefOf(m)) && ParseRef(RefOf(m).value).Some?
    ensures VideoOf(m, cfg).Some?
    ensures VideoOf(m, cfg).value.mimeType == GuessMimeType(ToLower(ParseRef(RefOf(m).value).value.1))
  {
    MimeTypeOfBuiltUrl(RefOf(m).value, cfg);
  }

  /** A file with a direct URL never uses its reference, however valid. */
  lemma DirectUrlWins(m: MediaItem, cfg: CdnConfig, r: string)
    requires Truthy(DirectUrl(m))
    ensures VideoOf(m, cfg) == VideoOf(m.(ref := Some(r)), cfg)
  {
  }
}
