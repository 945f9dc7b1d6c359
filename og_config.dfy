// The size of the generated social-card image: each of `width` and `height` is the
// leading base-10 integer of its query parameter, or a default.

module OgConfig {
  import opened Text

  const DefaultWidth: int := 1200
  const DefaultHeight: int := 630

  function DigitValue(c: char): nat
    requires IsDigit(c)
  {
    c as int - '0' as int
  }

  /** The value of a run of decimal digits. */
  function DigitsValue(d: string): nat
    requires forall i :: 0 <= i < |d| ==> IsDigit(d[i])
  {
    if |d| == 0 then 0 else 10 * DigitsValue(d[..|d| - 1]) + DigitValue(d[|d| - 1])
  }

  /** The longest prefix made of decimal digits. */
  function LeadingDigits(s: string): (d: string)
    ensures |d| <= |s| && d == s[..|d|]
    ensures forall i :: 0 <= i < |d| ==> IsDigit(d[i])
    ensures |d| < |s| ==> !IsDigit(s[|d|])
    ensures |d| == 0 <==> |s| == 0 || !IsDigit(s[0])
  {
    if |s| > 0 && IsDigit(s[0]) then
      var rest := LeadingDigits(s[1..]);
      assert [s[0]] + s[1..] == s;
      [s[0]] + rest
    else ""
  }

  /** The text after one leading sign, if there is one. */
  function Unsigned(t: string): (u: string)
    ensures |t| > 0 && (t[0] == '-' || t[0] == '+') ==> u == t[1..]
    ensures |t| == 0 || (t[0] != '-' && t[0] != '+') ==> u == t
  {
    if |t| > 0 && (t[0] == '-' || t[0] == '+') then t[1..] else t
  }

  /**
   * `Number.parseInt(s, 10)`: leading white space and one sign are skipped, then
   * the longest run of digits is read; `None` is `NaN` (no digit at all).
   */
  function ParseInt(s: string): (r: Option<int>)
    ensures r.None? <==> var u := Unsigned(TrimStart(s)); |u| == 0 || !IsDigit(u[0])
  {
    ParseSigned(TrimStart(s))
  }

  /** `parseInt` once the leading white space is gone: an optional sign, then the digits. */
  function ParseSigned(t: string): (r: Option<int>)
    ensures r.None? <==> var u := Unsigned(t); |u| == 0 || !IsDigit(u[0])
  {
    var negative := |t| > 0 && t[0] == '-';
    var d := LeadingDigits(Unsigned(t));
    var v: int := DigitsValue(d);
    if |d| == 0 then None else Some(if negative then -v else v)
  }

  /** A number written in decimal reads back as itself. */
  lemma {:induction false} DigitsOfNat(n: nat)
    ensures DigitsValue(NatToString(n)) == n
    decreases n
  {
    if n >= 10 {
      DigitsOfNat(n / 10);
      var s := NatToString(n);
      assert s[..|s| - 1] == NatToString(n / 10);
    }
  }

  lemma {:induction false} LeadingDigitsOfDigits(d: string)
    requires forall i :: 0 <= i < |d| ==> IsDigit(d[i])
    ensures LeadingDigits(d) == d
    decreases |d|
  {
    if |d| > 0 {
      LeadingDigitsOfDigits(d[1..]);
      assert [d[0]] + d[1..] == d;
    }
  }

  /** `parseInt` inverts the decimal rendering of every integer, negative ones included. */
  lemma ParseIntOfIntToString(i: int)
    ensures ParseInt(IntToString(i)) == Some(i)
  {
    if i < 0 {
      var n: nat := -i;
      assert IntToString(i) == "-" + NatToString(n);
      ParseIntOfNegative(n);
    } else {
      assert IntToString(i) == NatToString(i);
      ParseIntOfNat(i);
    }
  }

  lemma ParseIntOfNat(n: nat)
    ensures ParseInt(NatToString(n)) == Some(n)
  {
    var s := NatToString(n);
    assert IsDigit(s[0]);
    UntrimmedStart(s);
    SignedOfNat(n);
  }

  lemma SignedOfNat(n: nat)
    ensures ParseSigned(NatToString(n)) == Some(n)
  {
    SignedOfDigits(NatToString(n));
    DigitsOfNat(n);
  }

  lemma ParseIntOfNegative(n: nat)
    ensures ParseInt("-" + NatToString(n)) == Some(-(n as int))
  {
    var s := "-" + NatToString(n);
    UntrimmedStart(s);
    SignedOfDigits(NatToString(n));
    DigitsOfNat(n);
  }

  /** A run of digits reads as its value, and with a leading `-` as its negation. */
  lemma SignedOfDigits(d: string)
    requires |d| > 0 && forall i :: 0 <= i < |d| ==> IsDigit(d[i])
    ensures ParseSigned(d) == Some(DigitsValue(d) as int)
    ensures ParseSigned("-" + d) == Some(-(DigitsValue(d) as int))
  {
    LeadingDigitsOfDigits(d);
    PlainDigits(d);
    var s := "-" + d;
    assert s[1..] == d;
    NegatedDigits(s, d);
  }

  lemma PlainDigits(d: string)
    requires LeadingDigits(d) == d && |d| > 0
    ensures ParseSigned(d) == Some(DigitsValue(d) as int)
  {
    assert IsDigit(d[0]);
    assert Unsigned(d) == d;
  }

  lemma NegatedDigits(s: string, d: string)
    requires |s| > 0 && s[0] == '-' && s[1..] == d
    requires LeadingDigits(d) == d && |d| > 0
    ensures ParseSigned(s) == Some(-(DigitsValue(d) as int))
  {
    assert Unsigned(s) == d;
  }

  lemma UntrimmedStart(s: string)
    requires |s| > 0 && (s[0] == '-' || IsDigit(s[0]))
    ensures TrimStart(s) == s
  {
    assert !IsWhitespace(s[0]);
  }

  /** Whatever follows the digits is ignored. */
  lemma ParseIntIgnoresTail(n: nat, tail: string)
    requires |tail| == 0 || !IsDigit(tail[0])
    ensures ParseInt(NatToString(n) + tail) == Some(n)
  {
    var digits := NatToString(n);
    var s := digits + tail;
    assert IsDigit(s[0]);
    UntrimmedStart(s);
    LeadingDigitsOfDigits(digits);
    LeadingDigitsSplit(digits, tail);
    DigitsOfNat(n);
  }

  lemma {:induction false} LeadingDigitsSplit(d: string, tail: string)
    requires forall i :: 0 <= i < |d| ==> IsDigit(d[i])
    requires |tail| == 0 || !IsDigit(tail[0])
    ensures LeadingDigits(d + tail) == d
    decreases |d|
  {
    if |d| > 0 {
      assert (d + tail)[1..] == d[1..] + tail;
      LeadingDigitsSplit(d[1..], tail);
      assert [d[0]] + d[1..] == d;
    } else {
      assert d + tail == tail;
    }
  }

  /** The image size `getOgMetaData` returns. */
  datatype Dimensions = Dimensions(width: int, height: int)

  /** One dimension: the parsed parameter, or the default when it is missing (`null`) or not a number. */
  function Dimension(param: Option<string>, default: int): (r: int)
    ensures param.None? ==> r == default
    ensures param.Some? && ParseInt(param.value).None? ==> r == default
    ensures param.Some? && ParseInt(param.value).Some? ==> r == ParseInt(param.value).value
  {
    if param.None? then default
    else
      var p := ParseInt(param.value);
      if p.None? then default else p.value
  }

  /** `getOgMetaData`. */
  function OgMetaData(width: Option<string>, height: Option<string>): (r: Dimensions)
    ensures r.width == Dimension(width, DefaultWidth)
    ensures r.height == Dimension(height, DefaultHeight)
  {
    Dimensions(Dimension(width, DefaultWidth), Dimension(height, DefaultHeight))
  }

  /** Any integer passes through unchecked, zero and negative values included. */
  lemma OgDimensionsUnbounded(w: int, h: int)
    ensures OgMetaData(Some(IntToString(w)), Some(IntToString(h))) == Dimensions(w, h)
  {
    ParseIntOfIntToString(w);
    ParseIntOfIntToString(h);
  }

  /** Each dimension depends on its own parameter only. */
  lemma OgDimensionsIndependent(w: Option<string>, h: Option<string>, h': Option<string>)
    ensures OgMetaData(w, h).width == OgMetaData(w, h').width
  {
  }
}
