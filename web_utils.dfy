// Helpers of the web app: a presence assertion, the site's base URL from the
// deployment environment, and turning text into a slug through an external
// slugifier. The relative-URL test, `capitalize` and `getTitleCase` of this app are
// the same expressions as the studio's and are modelled once, in `StudioHelper`.

module WebUtils {
  import opened Text
  import opened PortableText

  datatype Result<T> = Success(value: T) | Failure(error: string)

  /** `assertValue`: only `undefined` (`None`) throws; every present value comes back as it is. */
  function AssertValue<T>(v: Option<T>, errorMessage: string): (r: Result<T>)
    ensures r.Failure? <==> v.None?
    ensures r.Failure? ==> r.error == errorMessage
    ensures r.Success? ==> r.value == v.value
  {
    if v.None? then Failure(errorMessage) else Success(v.value)
  }

  /** A present `null` is a value, not a failure. */
  lemma AssertValueKeepsNull<T>(errorMessage: string)
    ensures AssertValue<Option<T>>(Some(None), errorMessage) == Success(None)
  {
  }

  /** The deployment variables `getBaseUrl` reads. */
  datatype Environment = Environment(
    vercelEnv: Option<string>,
    productionUrl: Option<string>,
    vercelUrl: Option<string>)

  const LocalUrl: string := "http://localhost:3000"

  /** `getBaseUrl`; a missing variable renders as `undefined` inside the template. */
  function BaseUrl(env: Environment): (r: string)
    ensures env.vercelEnv == Some("production") ==> r == "https://" + Show(env.productionUrl)
    ensures env.vercelEnv == Some("preview") ==> r == "https://" + Show(env.vercelUrl)
    ensures env.vercelEnv != Some("production") && env.vercelEnv != Some("preview") ==> r == LocalUrl
  {
    if env.vercelEnv == Some("production") then "https://" + Show(env.productionUrl)
    else if env.vercelEnv == Some("preview") then "https://" + Show(env.vercelUrl)
    else LocalUrl
  }

  /** Every base URL is absolute, and only the local one uses plain HTTP. */
  lemma BaseUrlIsAbsolute(env: Environment)
    ensures StartsWith(BaseUrl(env), "https://") <==>
      env.vercelEnv == Some("production") || env.vercelEnv == Some("preview")
    ensures StartsWith(BaseUrl(env), "https://") || BaseUrl(env) == LocalUrl
  {
    var r := BaseUrl(env);
    if env.vercelEnv == Some("production") || env.vercelEnv == Some("preview") {
      assert r[..8] == "https://";
    } else {
      assert r[4] != "https://"[4];
    }
  }

  /** The second argument of `convertToSlug`: `{ fallback }`, whose own default is `top-level`. */
  datatype SlugOptions = SlugOptions(fallback: Option<string>)

  const TopLevel: string := "top-level"

  /**
   * `convertToSlug`, with `slugify` the external slugifier; the result is `undefined`
   * (`None`) when the text is empty and the options carry no fallback.
   */
  function ConvertToSlug(text: Option<string>, options: Option<SlugOptions>,
                         slugify: string -> string): (r: Option<string>)
    ensures !Truthy(text) && options.None? ==> r == Some(TopLevel)
    ensures !Truthy(text) && options.Some? ==> r == options.value.fallback
    ensures Truthy(text) ==> r == Some(slugify(Trim(text.value)))
  {
    var fallback := if options.Some? then options.value.fallback else Some(TopLevel);
    if !Truthy(text) then fallback else Some(slugify(Trim(text.value)))
  }

  /** Texts that differ only in surrounding white space give the same slug. */
  lemma ConvertToSlugIgnoresPadding(text: string, pad: string, slugify: string -> string)
    requires text != "" && AllWhitespace(pad) && !IsWhitespace(text[0]) && !IsWhitespace(text[|text| - 1])
    ensures ConvertToSlug(Some(pad + text + pad), None, slugify) == ConvertToSlug(Some(text), None, slugify)
  {
    TrimPadded(text, pad);
    TrimPadded(text, "");
    assert "" + text + "" == text;
  }

  lemma TrimPadded(text: string, pad: string)
    requires text != "" && AllWhitespace(pad) && !IsWhitespace(text[0]) && !IsWhitespace(text[|text| - 1])
    ensures Trim(pad + text + pad) == text
  {
    var s := pad + text + pad;
    var t := TrimStart(s);
    assert s[|pad|] == text[0];
    assert |t| == |s| - |pad|;
    assert t == text + pad;
    var u := TrimEnd(t);
    assert t[|text| - 1] == text[|text| - 1];
    assert |u| == |text|;
    assert u == text;
  }

  /** `child.text` inside `join("")`: an undefined text contributes nothing. */
  function ChildText(c: Span): string {
    if c.text.Some? then c.text.value else ""
  }

  function ConcatTexts(children: seq<Span>): (r: string)
    ensures |children| > 0 ==> r == ChildText(children[0]) + ConcatTexts(children[1..])
  {
    if |children| == 0 then "" else ChildText(children[0]) + ConcatTexts(children[1..])
  }

  /** `parseChildrenToSlug`: the child texts concatenated and slugified. */
  function ParseChildrenToSlug(children: Option<seq<Span>>, slugify: string -> string): (r: Option<string>)
    ensures children.None? ==> r == Some("")
    ensures children.Some? ==> r == ConvertToSlug(Some(ConcatTexts(children.value)), None, slugify)
  {
    if children.None? then Some("") else ConvertToSlug(Some(ConcatTexts(children.value)), None, slugify)
  }

  lemma {:induction false} ConcatOfEmptyTexts(children: seq<Span>)
    requires forall k :: 0 <= k < |children| ==> !Truthy(children[k].text)
    ensures ConcatTexts(children) == ""
  {
    if |children| > 0 {
      ConcatOfEmptyTexts(children[1..]);
    }
  }

  /** Children without any text, or no children at all, give the `top-level` fallback. */
  lemma ChildrenWithoutTextAreTopLevel(children: seq<Span>, slugify: string -> string)
    requires forall k :: 0 <= k < |children| ==> !Truthy(children[k].text)
    ensures ParseChildrenToSlug(Some(children), slugify) == Some(TopLevel)
  {
    ConcatOfEmptyTexts(children);
  }
}
