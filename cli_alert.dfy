// The boxed message the studio's seed-data script prints: each line is padded to a
// fixed visible width, where the visible width ignores the colour escape sequences
// `ESC [ <digits and semicolons> m`.

module CliAlert {
  import opened Text

  const Esc: char := '\U{1B}'
  const Blue: string := [Esc] + "[34m"
  const Cyan: string := [Esc] + "[36m"
  const Reset: string := [Esc] + "[0m"

  const BoxWidth: nat := 109
  const SidePadding: nat := 2

  predicate IsParamChar(c: char) { IsDigit(c) || c == ';' }

  /** A whole match of `/\x1b\[[0-9;]*m/`. */
  predicate IsEscape(w: string) {
    |w| >= 3 && w[0] == Esc && w[1] == '[' && w[|w| - 1] == 'm'
    && forall i :: 2 <= i < |w| - 1 ==> IsParamChar(w[i])
  }

  /** The length of the leading run of digits and semicolons. */
  function ParamRun(s: string): (k: nat)
    ensures k <= |s|
    ensures forall i :: 0 <= i < k ==> IsParamChar(s[i])
    ensures k < |s| ==> !IsParamChar(s[k])
  {
    if |s| > 0 && IsParamChar(s[0]) then 1 + ParamRun(s[1..]) else 0
  }

  /** The length of the escape sequence `s` starts with, if it starts with one; it is the only one. */
  function EscapeAt(s: string): (r: Option<nat>)
    ensures r.Some? ==> r.value <= |s| && IsEscape(s[..r.value])
    ensures forall n :: 0 <= n <= |s| && IsEscape(s[..n]) ==> r == Some(n)
  {
    if |s| >= 2 && s[0] == Esc && s[1] == '[' then
      var k := ParamRun(s[2..]);
      if 2 + k < |s| && s[2 + k] == 'm' then Some(3 + k) else None
    else None
  }

  /** `text.replace(/\x1b\[[0-9;]*m/g, "")`: the escape sequences removed, scanning left to right. */
  function StripAnsi(s: string): (r: string)
    ensures |r| <= |s|
    decreases |s|
  {
    if |s| == 0 then ""
    else
      var m := EscapeAt(s);
      if m.Some? then StripAnsi(s[m.value..]) else [s[0]] + StripAnsi(s[1..])
  }

  /** The width a terminal shows: the code units left once the escapes are gone. */
  function VisibleWidth(s: string): nat {
    Utf16Length(StripAnsi(s))
  }

  /** Text without an escape character passes through untouched. */
  lemma {:induction false} StripPrefix(p: string, s: string)
    requires Esc !in p
    ensures StripAnsi(p + s) == p + StripAnsi(s)
    decreases |p|
  {
    if |p| == 0 {
      assert p + s == s;
    } else {
      assert (p + s)[1..] == p[1..] + s;
      assert EscapeAt(p + s).None?;
      StripPrefix(p[1..], s);
      assert p == [p[0]] + p[1..];
    }
  }

  lemma StripPlain(p: string)
    requires Esc !in p
    ensures StripAnsi(p) == p
  {
    StripPrefix(p, "");
    assert p + "" == p;
  }

  /** A leading escape sequence disappears whatever follows it. */
  lemma StripEscape(w: string, s: string)
    requires IsEscape(w)
    ensures StripAnsi(w + s) == StripAnsi(s)
  {
    assert (w + s)[..|w|] == w;
    assert (w + s)[|w|..] == s;
  }

  /** Characters that can take no part in an escape sequence. */
  predicate Inert(q: string) {
    forall i :: 0 <= i < |q| ==> q[i] != Esc && q[i] != '[' && q[i] != 'm' && !IsParamChar(q[i])
  }

  lemma {:induction false} ParamRunAppend(s: string, q: string)
    requires Inert(q)
    ensures ParamRun(s + q) == ParamRun(s)
    decreases |s|
  {
    if |s| == 0 {
      assert s + q == q;
    } else {
      assert (s + q)[1..] == s[1..] + q;
      ParamRunAppend(s[1..], q);
    }
  }

  lemma EscapeAtAppend(s: string, q: string)
    requires Inert(q)
    ensures EscapeAt(s) == EscapeAt(s + q)
  {
    var t := s + q;
    if |s| >= 2 && s[0] == Esc && s[1] == '[' {
      assert t[2..] == s[2..] + q;
      ParamRunAppend(s[2..], q);
    } else if |s| == 1 && s[0] == Esc && |q| > 0 {
      assert t[1] == q[0];
    } else if |s| == 0 {
      assert t == q;
    }
  }

  /** Text that can take no part in an escape sequence can be appended after the stripping. */
  lemma {:induction false} StripSuffix(s: string, q: string)
    requires Inert(q)
    ensures StripAnsi(s + q) == StripAnsi(s) + q
    decreases |s|
  {
    if |s| == 0 {
      assert s + q == q;
      StripPlain(q);
    } else {
      EscapeAtAppend(s, q);
      var m := EscapeAt(s);
      if m.Some? {
        assert (s + q)[m.value..] == s[m.value..] + q;
        StripSuffix(s[m.value..], q);
      } else {
        assert (s + q)[1..] == s[1..] + q;
        StripSuffix(s[1..], q);
      }
    }
  }

  function Max(a: int, b: int): int { if a >= b then a else b }

  /** `padLine(text = "")`. */
  function PadLine(text: Option<string>): string {
    var t := if text.Some? then text.value else "";
    var right := Max(0, BoxWidth - VisibleWidth(t) - SidePadding);
    "│" + Repeat(' ', SidePadding) + t + Repeat(' ', right) + "│"
  }

  /** `styleCommand`. */
  function StyleCommand(cmd: string): string {
    Cyan + cmd + Reset + Blue
  }

  /** The top and bottom lines of the box. */
  const TopBorder: string := "┌" + Repeat('─', BoxWidth) + "┐"
  const BottomBorder: string := "└" + Repeat('─', BoxWidth) + "┘"

  lemma InertSpaces(n: nat)
    ensures Inert(Repeat(' ', n) + "│")
  {
  }

  /**
   * A padded line shows the whole text between two borders: when the text fits, padding
   * brings it to the box's width (two side spaces, 107 columns of text); when it does
   * not, no padding is added on the right.
   */
  lemma PadLineWidth(t: string)
    ensures VisibleWidth(t) <= BoxWidth - SidePadding ==> VisibleWidth(PadLine(Some(t))) == BoxWidth + 2
    ensures VisibleWidth(t) > BoxWidth - SidePadding ==>
      PadLine(Some(t)) == "│" + Repeat(' ', SidePadding) + t + "│"
      && VisibleWidth(PadLine(Some(t))) == VisibleWidth(t) + SidePadding + 2
  {
    var right := Max(0, BoxWidth - VisibleWidth(t) - SidePadding);
    PaddedWidth(t, right);
    if right == 0 {
      assert Repeat(' ', right) + "│" == "│";
    }
  }

  /** The visible width of a padded line: the borders, the side padding, the text and the right padding. */
  lemma PaddedWidth(t: string, right: nat)
    ensures VisibleWidth("│" + Repeat(' ', SidePadding) + t + Repeat(' ', right) + "│")
      == VisibleWidth(t) + SidePadding + right + 2
  {
    var left := "│" + Repeat(' ', SidePadding);
    var tail := Repeat(' ', right) + "│";
    assert left + t + Repeat(' ', right) + "│" == left + (t + tail);
    StripPrefix(left, t + tail);
    InertSpaces(right);
    StripSuffix(t, tail);
    Utf16LengthAppend(left, StripAnsi(t) + tail);
    Utf16LengthAppend(StripAnsi(t), tail);
    Utf16LengthBmp(left);
    Utf16LengthBmp(tail);
  }

  /** `padLine()` is a blank line of the box's width. */
  lemma PadLineBlank()
    ensures PadLine(None) == "│" + Repeat(' ', BoxWidth) + "│"
  {
    StripPlain("");
    assert Repeat(' ', SidePadding) + "" + Repeat(' ', BoxWidth - SidePadding) == Repeat(' ', BoxWidth);
  }

  /** The borders are as wide as every padded line that fits. */
  lemma BorderWidth()
    ensures VisibleWidth(TopBorder) == BoxWidth + 2 && VisibleWidth(BottomBorder) == BoxWidth + 2
  {
    StripPlain(TopBorder);
    StripPlain(BottomBorder);
    Utf16LengthBmp(TopBorder);
    Utf16LengthBmp(BottomBorder);
  }

  lemma ColourCodesAreEscapes()
    ensures IsEscape(Blue) && IsEscape(Cyan) && IsEscape(Reset)
  {
  }

  /** The colour codes around a command are invisible: a terminal shows the command alone. */
  lemma StyleCommandVisible(cmd: string)
    requires Esc !in cmd
    ensures StripAnsi(StyleCommand(cmd)) == cmd
  {
    ColourCodesAreEscapes();
    assert StyleCommand(cmd) == Cyan + (cmd + (Reset + (Blue + "")));
    StripEscape(Cyan, cmd + (Reset + (Blue + "")));
    StripPrefix(cmd, Reset + (Blue + ""));
    StripEscape(Reset, Blue + "");
    StripEscape(Blue, "");
  }

  lemma MessageVisible(msg: string)
    requires Esc !in msg
    ensures StripAnsi(Blue + msg + Reset) == msg
  {
    ColourCodesAreEscapes();
    assert Blue + msg + Reset == Blue + (msg + (Reset + ""));
    StripEscape(Blue, msg + (Reset + ""));
    StripPrefix(msg, Reset + "");
    StripEscape(Reset, "");
  }

  lemma CommandLineVisible(cmd: string)
    requires Esc !in cmd
    ensures StripAnsi(Blue + StyleCommand(cmd) + Reset) == cmd
  {
    ColourCodesAreEscapes();
    assert Blue + StyleCommand(cmd) + Reset == Blue + (Cyan + (cmd + (Reset + (Blue + (Reset + "")))));
    StripEscape(Blue, Cyan + (cmd + (Reset + (Blue + (Reset + "")))));
    StripEscape(Cyan, cmd + (Reset + (Blue + (Reset + ""))));
    StripPrefix(cmd, Reset + (Blue + (Reset + "")));
    StripEscape(Reset, Blue + (Reset + ""));
    StripEscape(Blue, Reset + "");
    StripEscape(Reset, "");
  }

  /** A coloured message or command line of at most 107 characters fills the box exactly. */
  lemma StyledLinesFit(msg: string)
    requires Esc !in msg && InBmp(msg) && |msg| <= BoxWidth - SidePadding
    ensures VisibleWidth(PadLine(Some(Blue + msg + Reset))) == BoxWidth + 2
    ensures VisibleWidth(PadLine(Some(Blue + StyleCommand(msg) + Reset))) == BoxWidth + 2
  {
    Utf16LengthBmp(msg);
    MessageVisible(msg);
    PadLineWidth(Blue + msg + Reset);
    CommandLineVisible(msg);
    PadLineWidth(Blue + StyleCommand(msg) + Reset);
  }
}
