/** Licence headers: what is added to a text, and when a text counts as having one. */
module LicenseHeader {
  import opened Text

  /** A comment style; `end` is used by block comments only. */
  datatype Style = Style(start: string, end: string, block: bool)

  const SPDX_KEY := "SPDX-License-Identifier"
  const SPDX_WORD := "spdx-license-identifier"
  const LICENSE_WORD := "apache-2.0"

  function GenerateHeader(style: Style, year: string, holder: string): string {
    HeaderBefore(style, year, holder) + (SPDX_KEY + HeaderAfter(style))
  }

  function HeaderAfter(style: Style): string {
    ": Apache-2.0" + (if style.block then " " + style.end + "\n" else "\n")
  }

  /** The header up to its SPDX identifier. */
  function HeaderBefore(style: Style, year: string, holder: string): string {
    style.start + (" Copyright " + (year + (" " + (holder + ("\n" + (if style.block then "   " else style.start + " "))))))
  }

  // ----- lines -----

  /** `content.split("\n")` */
  function Split(s: string): (lines: seq<string>)
    ensures |lines| > 0
  {
    if s == "" then [""]
    else
      var rest := Split(s[1..]);
      if s[0] == '\n' then [""] + rest else [[s[0]] + rest[0]] + rest[1..]
  }

  /** `"\n".join(lines)` */
  function Join(lines: seq<string>): string
    requires |lines| > 0
  {
    if |lines| == 1 then lines[0] else lines[0] + ("\n" + Join(lines[1..]))
  }

  function Head<T>(xs: seq<T>, n: nat): seq<T> { if |xs| <= n then xs else xs[..n] }

  predicate HasHeader(content: string) {
    var area := Lower(Join(Head(Split(content), 20)));
    Contains(area, SPDX_WORD) || Contains(area, LICENSE_WORD)
  }

  // ----- adding a header -----

  predicate HasShebang(content: string) {
    "#!" <= content
  }

  function LineLength(s: string): (n: nat)
    ensures n <= |s| && '\n' !in s[..n] && (n < |s| ==> s[n] == '\n')
  {
    if s == "" || s[0] == '\n' then 0
    else
      var n := LineLength(s[1..]);
      assert s[..n + 1] == [s[0]] + s[1..][..n];
      n + 1
  }

  function FirstLine(s: string): string { s[..LineLength(s)] }

  /** What `content.split("\n", 1)` leaves after the first line, or nothing. */
  function AfterFirstLine(s: string): string { if LineLength(s) < |s| then s[LineLength(s) + 1..] else "" }

  function AddHeader(content: string, header: string): string {
    if HasShebang(content) then FirstLine(content) + ("\n" + (header + ("\n" + AfterFirstLine(content))))
    else header + ("\n" + content)
  }

  // ----- the first lines of a text -----

  function Newlines(s: string): nat {
    if s == "" then 0 else (if s[0] == '\n' then 1 else 0) + Newlines(s[1..])
  }

  /** The text before its n-th line end, or all of it. */
  function UpTo(s: string, n: nat): string
    requires n > 0
  {
    if s == "" then ""
    else if s[0] != '\n' then [s[0]] + UpTo(s[1..], n)
    else if n == 1 then ""
    else [s[0]] + UpTo(s[1..], n - 1)
  }

  lemma {:induction false} FirstLinesAreUpTo(s: string, n: nat)
    requires n > 0
    ensures Join(Head(Split(s), n)) == UpTo(s, n)
  {
    if s != "" {
      var rest := Split(s[1..]);
      if s[0] != '\n' {
        FirstLinesAreUpTo(s[1..], n);
        LongerFirstLine(s[0], Head(rest, n));
        HeadOfLonger(s[0], rest, n);
      } else if n == 1 {
        assert Head([""] + rest, 1) == [""];
      } else {
        FirstLinesAreUpTo(s[1..], n - 1);
        HeadOfMore(rest, n);
      }
    }
  }

  lemma HeadOfLonger(c: char, lines: seq<string>, n: nat)
    requires |lines| > 0 && n > 0
    ensures Head([[c] + lines[0]] + lines[1..], n) == [[c] + Head(lines, n)[0]] + Head(lines, n)[1..]
  {
  }

  lemma HeadOfMore(lines: seq<string>, n: nat)
    requires |lines| > 0 && n > 1
    ensures Join(Head([""] + lines, n)) == "\n" + Join(Head(lines, n - 1))
  {
    assert Head([""] + lines, n) == [""] + Head(lines, n - 1);
    assert ([""] + Head(lines, n - 1))[1..] == Head(lines, n - 1);
  }

  lemma LongerFirstLine(c: char, lines: seq<string>)
    requires |lines| > 0
    ensures Join([[c] + lines[0]] + lines[1..]) == [c] + Join(lines)
  {
    assert ([[c] + lines[0]] + lines[1..])[1..] == lines[1..];
  }

  lemma {:induction false} UpToKeeps(before: string, rest: string, n: nat)
    requires Newlines(before) < n
    ensures UpTo(before + rest, n) == before + UpTo(rest, n - Newlines(before))
  {
    if before == "" {
      assert before + rest == rest;
    } else {
      assert (before + rest)[1..] == before[1..] + rest;
      UpToKeeps(before[1..], rest, if before[0] == '\n' then n - 1 else n);
    }
  }

  lemma {:induction false} NewlinesAdd(a: string, b: string)
    ensures Newlines(a + b) == Newlines(a) + Newlines(b)
  {
    if a == "" {
      assert a + b == b;
    } else {
      assert (a + b)[1..] == a[1..] + b;
      NewlinesAdd(a[1..], b);
    }
  }

  lemma {:induction false} NoNewline(s: string)
    requires '\n' !in s
    ensures Newlines(s) == 0
  {
    if s != "" {
      NoNewline(s[1..]);
    }
  }

  // ----- a header is recognised -----

  /** A text counts as having a header if and only if its first twenty lines name the SPDX key
      or the licence, in capitals or not. */
  lemma HeaderIsRecognisedIff(content: string)
    ensures var area := Lower(UpTo(content, 20));
      HasHeader(content) <==> Contains(area, "spdx-license-identifier") || Contains(area, "apache-2.0")
  {
    FirstLinesAreUpTo(content, 20);
  }

  lemma LowerConcat(a: string, b: string)
    ensures Lower(a + b) == Lower(a) + Lower(b)
  {
  }

  lemma UpToAfterWord(before: string, word: string, after: string, n: nat)
    requires Newlines(before) < n && '\n' !in word
    ensures UpTo(before + (word + after), n) == before + (word + UpTo(after, n - Newlines(before)))
  {
    UpToKeeps(before, word + after, n);
    NoNewline(word);
    UpToKeeps(word, after, n - Newlines(before));
  }

  lemma WordIsFound(before: string, word: string, after: string, n: nat)
    requires Newlines(before) < n && '\n' !in word
    ensures Contains(Lower(UpTo(before + (word + after), n)), Lower(word))
  {
    UpToAfterWord(before, word, after, n);
    LoweredWord(before, word, UpTo(after, n - Newlines(before)));
  }

  lemma LoweredWord(before: string, word: string, after: string)
    ensures Contains(Lower(before + (word + after)), Lower(word))
  {
    LowerConcat(before, word + after);
    LowerConcat(word, after);
    ContainedAfter(Lower(before), Lower(word), Lower(after));
  }

  lemma ContainedAfter(before: string, word: string, after: string)
    ensures Contains(before + (word + after), word)
  {
    var all := before + (word + after);
    assert all[|before|..] == word + after;
    assert word <= all[|before|..];
  }

  lemma SpdxInLowerCase()
    ensures Lower(SPDX_KEY) == SPDX_WORD && '\n' !in SPDX_KEY
  {
  }

  /** An SPDX identifier is recognised when fewer than twenty line ends stand before it. */
  lemma SpdxIsFound(before: string, after: string)
    requires Newlines(before) < 20
    ensures HasHeader(before + (SPDX_KEY + after))
  {
    FirstLinesAreUpTo(before + (SPDX_KEY + after), 20);
    SpdxInLowerCase();
    WordIsFound(before, SPDX_KEY, after, 20);
  }

  lemma HeaderAfterShebang(first: string, before: string, key: string, close: string, rest: string)
    ensures first + ("\n" + ((before + (key + close)) + ("\n" + rest)))
         == (first + ("\n" + before)) + (key + (close + ("\n" + rest)))
  {
  }

  lemma HeaderOnTop(before: string, key: string, close: string, content: string)
    ensures (before + (key + close)) + ("\n" + content) == before + (key + (close + ("\n" + content)))
  {
  }

  lemma {:induction false} UpToStops(before: string, rest: string, n: nat)
    requires 0 < n <= Newlines(before)
    ensures UpTo(before + rest, n) == UpTo(before, n)
  {
    assert (before + rest)[1..] == before[1..] + rest;
    if before[0] != '\n' {
      UpToStops(before[1..], rest, n);
    } else if n > 1 {
      UpToStops(before[1..], rest, n - 1);
    }
  }

  lemma FoundBeforeKeyIff(before: string, after: string)
    ensures HasHeader(before + (SPDX_KEY + after)) <==> Newlines(before) < 20 || HasHeader(before)
  {
    if Newlines(before) < 20 {
      SpdxIsFound(before, after);
    } else {
      FirstLinesAreUpTo(before, 20);
      FirstLinesAreUpTo(before + (SPDX_KEY + after), 20);
      UpToStops(before, SPDX_KEY + after, 20);
    }
  }

  /** What stands before the SPDX identifier of the header, once it is added. */
  function BeforeKey(content: string, style: Style, year: string, holder: string): string {
    if HasShebang(content) then FirstLine(content) + ("\n" + HeaderBefore(style, year, holder)) else HeaderBefore(style, year, holder)
  }

  lemma LinesBeforeKey(content: string, style: Style, year: string, holder: string)
    ensures Newlines(BeforeKey(content, style, year, holder))
         == Newlines(HeaderBefore(style, year, holder)) + if HasShebang(content) then 1 else 0
  {
    if HasShebang(content) {
      var first, before := FirstLine(content), HeaderBefore(style, year, holder);
      NewlinesAdd(first, "\n" + before);
      NewlinesAdd("\n", before);
      NoNewline(first);
    }
  }

  /** Once a header is added the text counts as having one if and only if its SPDX line is one of
      the first twenty, the shebang line included, or what stands before it counts already. */
  lemma AddedHeaderIsFoundIff(content: string, style: Style, year: string, holder: string)
    ensures HasHeader(AddHeader(content, GenerateHeader(style, year, holder))) <==>
      || Newlines(HeaderBefore(style, year, holder)) + (if HasShebang(content) then 1 else 0) < 20
      || HasHeader(BeforeKey(content, style, year, holder))
  {
    var before, close := HeaderBefore(style, year, holder), HeaderAfter(style);
    LinesBeforeKey(content, style, year, holder);
    if HasShebang(content) {
      var first, rest := FirstLine(content), AfterFirstLine(content);
      HeaderAfterShebang(first, before, SPDX_KEY, close, rest);
      FoundBeforeKeyIff(first + ("\n" + before), close + ("\n" + rest));
    } else {
      HeaderOnTop(before, SPDX_KEY, close, content);
      FoundBeforeKeyIff(before, close + ("\n" + content));
    }
  }

  /** Texts without a line end make a header of two lines. */
  lemma UsualHeadersFit(style: Style, year: string, holder: string)
    requires '\n' !in style.start && '\n' !in year && '\n' !in holder
    ensures Newlines(HeaderBefore(style, year, holder)) == 1
  {
    var line := style.start + (" Copyright " + (year + (" " + holder)));
    var indent := if style.block then "   " else style.start + " ";
    assert HeaderBefore(style, year, holder) == line + ("\n" + indent);
    NewlinesAdd(line, "\n" + indent);
    NewlinesAdd("\n", indent);
    NoNewline(line);
    NoNewline(indent);
  }

  lemma {:induction false} SplitLine(line: string, rest: string)
    requires '\n' !in line
    ensures Split(line + ("\n" + rest)) == [line] + Split(rest)
  {
    var all := line + ("\n" + rest);
    if line == "" {
      assert all[0] == '\n' && all[1..] == rest;
    } else {
      assert all[0] == line[0] && all[1..] == line[1..] + ("\n" + rest);
      SplitLine(line[1..], rest);
      assert [line[0]] + line[1..] == line;
    }
  }

  /** What follows the SPDX key, the comment being closed or not. */
  lemma LicenceIsNamed(style: Style)
    ensures SPDX_KEY + HeaderAfter(style)
         == "SPDX-License-Identifier: Apache-2.0" + ((if style.block then " " + style.end else "") + ("\n" + ""))
  {
    SpdxLine();
    assert "\n" + "" == "\n";
    if style.block {
      assert SPDX_KEY + (": Apache-2.0" + (" " + style.end + "\n"))
          == SPDX_KEY + ": Apache-2.0" + (" " + style.end + "\n");
    } else {
      assert SPDX_KEY + (": Apache-2.0" + "\n") == SPDX_KEY + ": Apache-2.0" + "\n";
      assert "" + "\n" == "\n";
    }
  }

  lemma SpdxLine()
    ensures SPDX_KEY + ": Apache-2.0" == "SPDX-License-Identifier: Apache-2.0"
  {
  }

  /** The header has two lines: who holds the copyright since when, and the licence under its
      SPDX key, both as comments of the style. */
  lemma HeaderLines(style: Style, year: string, holder: string)
    requires '\n' !in style.start && '\n' !in style.end && '\n' !in year && '\n' !in holder
    ensures Split(GenerateHeader(style, year, holder)) == [
      style.start + (" Copyright " + (year + (" " + holder))),
      (if style.block then "   " else style.start + " ")
      + ("SPDX-License-Identifier: Apache-2.0" + if style.block then " " + style.end else ""),
      ""]
  {
    var first := style.start + (" Copyright " + (year + (" " + holder)));
    var indent := if style.block then "   " else style.start + " ";
    var licence := "SPDX-License-Identifier: Apache-2.0";
    var close := if style.block then " " + style.end else "";
    var second := indent + (licence + close);
    LicenceIsNamed(style);
    TwoLines(style, year, holder, first, indent, licence + close);
    NoLineEnds(licence);
    SplitLine(first, second + ("\n" + ""));
    SplitLine(second, "");
  }

  lemma NoLineEnds(licence: string)
    requires licence == "SPDX-License-Identifier: Apache-2.0"
    ensures '\n' !in licence
  {
  }

  lemma TwoLines(style: Style, year: string, holder: string, first: string, indent: string, licence: string)
    requires first == style.start + (" Copyright " + (year + (" " + holder)))
    requires indent == if style.block then "   " else style.start + " "
    requires SPDX_KEY + HeaderAfter(style) == licence + ("\n" + "")
    ensures GenerateHeader(style, year, holder) == first + ("\n" + (indent + licence + ("\n" + "")))
  {
    assert HeaderBefore(style, year, holder) == first + ("\n" + indent);
    assert first + ("\n" + indent) + (licence + ("\n" + "")) == first + ("\n" + (indent + licence + ("\n" + "")));
  }

  // ----- the text can be recovered -----

  /** A header looks like a shebang only if its comment style does. */
  lemma HeadersAreNoShebangs(style: Style, year: string, holder: string)
    ensures HasShebang(GenerateHeader(style, year, holder)) <==> HasShebang(style.start)
    ensures |GenerateHeader(style, year, holder)| >= 2
  {
    var header := GenerateHeader(style, year, holder);
    assert header[..|style.start|] == style.start && header[|style.start|] == ' ';
    if |style.start| == 1 {
      assert header[1] == ' ';
    }
  }

  lemma ShebangStaysFirst(content: string, header: string)
    requires HasShebang(content)
    ensures HasShebang(AddHeader(content, header)) && FirstLine(AddHeader(content, header)) == FirstLine(content)
  {
    var first, all := FirstLine(content), AddHeader(content, header);
    assert LineLength(content) >= 2 && "#!" <= first;
    FirstLineOf(first, header + ("\n" + AfterFirstLine(content)));
  }

  lemma {:induction false} FirstLineOf(line: string, rest: string)
    requires '\n' !in line
    ensures LineLength(line + ("\n" + rest)) == |line|
    ensures FirstLine(line + ("\n" + rest)) == line && AfterFirstLine(line + ("\n" + rest)) == rest
  {
    var all := line + ("\n" + rest);
    if line == "" {
      assert all[0] == '\n';
    } else {
      assert all[1..] == line[1..] + ("\n" + rest);
      FirstLineOf(line[1..], rest);
    }
  }

  /** Taking a known header out again. */
  function RemoveHeader(text: string, header: string): string {
    if HasShebang(text) then
      var rest := AfterFirstLine(text);
      if |header| < |rest| then FirstLine(text) + ("\n" + rest[|header| + 1..]) else text
    else if |header| < |text| then text[|header| + 1..]
    else text
  }

  /** A lone shebang line with its line end. */
  function Ended(content: string): string {
    if HasShebang(content) && LineLength(content) == |content| then content + "\n" else content
  }

  lemma RemovedFromTop(content: string, header: string)
    requires !HasShebang(content) && !HasShebang(header) && |header| >= 2
    ensures RemoveHeader(AddHeader(content, header), header) == content
  {
    var text := header + ("\n" + content);
    assert text[..2] == header[..2];
    assert text[|header| + 1..] == content;
  }

  lemma RemovedBelowShebang(content: string, header: string)
    requires HasShebang(content)
    ensures RemoveHeader(AddHeader(content, header), header) == FirstLine(content) + ("\n" + AfterFirstLine(content))
  {
    var rest := header + ("\n" + AfterFirstLine(content));
    ShebangStaysFirst(content, header);
    FirstLineOf(FirstLine(content), rest);
    assert rest[|header| + 1..] == AfterFirstLine(content);
  }

  lemma ShebangEnded(content: string)
    requires HasShebang(content)
    ensures Ended(content) == FirstLine(content) + ("\n" + AfterFirstLine(content))
  {
  }

  lemma HeaderCanBeRemoved(content: string, header: string)
    requires !HasShebang(header) && |header| >= 2
    ensures RemoveHeader(AddHeader(content, header), header) == Ended(content)
  {
    if HasShebang(content) {
      RemovedBelowShebang(content, header);
      ShebangEnded(content);
    } else {
      RemovedFromTop(content, header);
    }
  }

  /** Two texts end up the same exactly when they are, up to the line end after a lone
      shebang line: that is all the information that is lost. */
  lemma SameResultIff(c: string, d: string, header: string)
    requires !HasShebang(header) && |header| >= 2
    ensures AddHeader(c, header) == AddHeader(d, header) <==> Ended(c) == Ended(d)
  {
    HeaderCanBeRemoved(c, header);
    HeaderCanBeRemoved(d, header);
    EndedGetsTheSame(c, header);
    EndedGetsTheSame(d, header);
  }

  lemma EndedGetsTheSame(content: string, header: string)
    ensures AddHeader(Ended(content), header) == AddHeader(content, header)
  {
    if HasShebang(content) && LineLength(content) == |content| {
      assert content[..|content|] == content;
      assert content + ("\n" + "") == content + "\n";
      FirstLineOf(content, "");
    }
  }

  /** For the headers that the tool generates: a file in a comment style that is no shebang
      can be restored up to the line end after a lone shebang line, and that is all that is lost. */
  lemma GeneratedHeadersCanBeRemoved(c: string, d: string, style: Style, year: string, holder: string)
    requires !HasShebang(style.start)
    ensures var header := GenerateHeader(style, year, holder);
      && RemoveHeader(AddHeader(c, header), header) == Ended(c)
      && (AddHeader(c, header) == AddHeader(d, header) <==> Ended(c) == Ended(d))
  {
    HeadersAreNoShebangs(style, year, holder);
    HeaderCanBeRemoved(c, GenerateHeader(style, year, holder));
    SameResultIff(c, d, GenerateHeader(style, year, holder));
  }

  /** A lone shebang line with and without its line end. */
  lemma LoneShebangLosesItsEnd(header: string)
    ensures AddHeader("#!", header) == AddHeader("#!\n", header) && "#!" != "#!\n"
  {
    assert LineLength("#!") == 2 && LineLength("#!\n") == 2;
    assert FirstLine("#!") == FirstLine("#!\n") == "#!";
    assert AfterFirstLine("#!") == AfterFirstLine("#!\n") == "";
  }
}
