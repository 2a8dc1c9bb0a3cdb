/** Character data and attribute values of XML 1.0 (sections 2.2, 2.4, 2.11, 3.3.3
    and 4.1): the escaping that ElementTree applies when it prints, the global
    replacement of carriage returns in `generate`, and what a parser reads back. */
module ElementText {
  import opened Text
  import opened Wrappers

  const CR_REFERENCE := "&#13;"

  /** Section 2.2: the characters a document may hold, by code point. */
  predicate IsXmlCode(n: nat) {
    n == 0x9 || n == 0xA || n == 0xD || 0x20 <= n <= 0xD7FF || 0xE000 <= n <= 0xFFFD || 0x10000 <= n <= 0x10FFFF
  }

  predicate IsXmlChar(c: char) {
    IsXmlCode(c as nat)
  }

  predicate IsLegal(s: string) {
    forall i | 0 <= i < |s| :: IsXmlChar(s[i])
  }

  // ----- printing -----

  /** ElementTree's `_escape_cdata`: whole-string replacements, one after the other. */
  function EscapeText(s: string): string {
    ReplaceChar(ReplaceChar(ReplaceChar(s, '&', "&amp;"), '<', "&lt;"), '>', "&gt;")
  }

  /** ElementTree's `_escape_attrib`. */
  function EscapeAttribute(s: string): string {
    EscapeControls(ReplaceChar(EscapeText(s), '\"', "&quot;"))
  }

  function EscapeControls(s: string): string {
    ReplaceChar(ReplaceChar(ProtectCr(s), '\n', "&#10;"), '\t', "&#09;")
  }

  /** `.replace("\r", "&#13;")`, which `generate` applies to the whole document. */
  function ProtectCr(s: string): string {
    ReplaceChar(s, '\r', CR_REFERENCE)
  }

  /** The one-pass table that the replacements for text amount to. */
  function TextCode(c: char): string {
    match c
    case '&' => "&amp;"
    case '<' => "&lt;"
    case '>' => "&gt;"
    case '\r' => "&#13;"
    case _ => [c]
  }

  /** The one-pass table that the replacements for attribute values amount to. */
  function AttributeCode(c: char): string {
    match c
    case '\"' => "&quot;"
    case '\n' => "&#10;"
    case '\t' => "&#09;"
    case _ => TextCode(c)
  }

  function EncodeText(s: string): string {
    if s == "" then "" else TextCode(s[0]) + EncodeText(s[1..])
  }

  function EncodeAttribute(s: string): string {
    if s == "" then "" else AttributeCode(s[0]) + EncodeAttribute(s[1..])
  }

  lemma ReplaceSplit(s: string, c: char, text: string)
    requires s != ""
    ensures ReplaceChar(s, c, text) == ReplaceChar([s[0]], c, text) + ReplaceChar(s[1..], c, text)
  {
    assert s == [s[0]] + s[1..];
    ReplaceConcat([s[0]], s[1..], c, text);
  }

  lemma EscapeTextSplit(s: string)
    requires s != ""
    ensures EscapeText(s) == EscapeText([s[0]]) + EscapeText(s[1..])
  {
    var h, t := [s[0]], s[1..];
    ReplaceSplit(s, '&', "&amp;");
    var h1, t1 := ReplaceChar(h, '&', "&amp;"), ReplaceChar(t, '&', "&amp;");
    ReplaceConcat(h1, t1, '<', "&lt;");
    ReplaceConcat(ReplaceChar(h1, '<', "&lt;"), ReplaceChar(t1, '<', "&lt;"), '>', "&gt;");
  }

  lemma ReplaceOne(c: char, d: char, text: string)
    ensures ReplaceChar([c], d, text) == if c == d then text else [c]
  {
    assert [c][1..] == "";
    assert text + "" == text;
  }

  lemma EscapeTextChar(c: char)
    ensures EscapeText([c]) == if c == '\r' then "\r" else TextCode(c)
  {
    ReplaceOne(c, '&', "&amp;");
    ReplaceOne(c, '<', "&lt;");
    ReplaceOne(c, '>', "&gt;");
    if c == '&' {
      ReplaceAbsent("&amp;", '<', "&lt;");
      ReplaceAbsent("&amp;", '>', "&gt;");
    } else if c == '<' {
      ReplaceAbsent("&lt;", '>', "&gt;");
    }
  }

  lemma TextChar(c: char)
    ensures ProtectCr(EscapeText([c])) == TextCode(c)
  {
    EscapeTextChar(c);
    ReplaceOne(c, '\r', CR_REFERENCE);
    if c != '\r' {
      ReplaceAbsent(TextCode(c), '\r', CR_REFERENCE);
    }
  }

  /** The sequential replacements on text, followed by the global one, are the table:
      no replacement disturbs what an earlier one wrote. */
  lemma {:induction false} TextTable(s: string)
    ensures ProtectCr(EscapeText(s)) == EncodeText(s)
  {
    if s != "" {
      EscapeTextSplit(s);
      TextChar(s[0]);
      TextTable(s[1..]);
      ReplaceConcat(EscapeText([s[0]]), EscapeText(s[1..]), '\r', CR_REFERENCE);
    }
  }

  lemma AttributeSplit(s: string)
    requires s != ""
    ensures EscapeAttribute(s) == EscapeAttribute([s[0]]) + EscapeAttribute(s[1..])
  {
    EscapeTextSplit(s);
    var h, t := EscapeText([s[0]]), EscapeText(s[1..]);
    ReplaceConcat(h, t, '\"', "&quot;");
    var h1, t1 := ReplaceChar(h, '\"', "&quot;"), ReplaceChar(t, '\"', "&quot;");
    ReplaceConcat(h1, t1, '\r', CR_REFERENCE);
    var h2, t2 := ReplaceChar(h1, '\r', CR_REFERENCE), ReplaceChar(t1, '\r', CR_REFERENCE);
    ReplaceConcat(h2, t2, '\n', "&#10;");
    ReplaceConcat(ReplaceChar(h2, '\n', "&#10;"), ReplaceChar(t2, '\n', "&#10;"), '\t', "&#09;");
  }

  lemma QuoteStep(c: char)
    ensures ReplaceChar(EscapeText([c]), '\"', "&quot;") == if c == '\r' || c == '\n' || c == '\t' then [c] else AttributeCode(c)
  {
    EscapeTextChar(c);
    if c == '\"' {
      ReplaceOne(c, '\"', "&quot;");
    } else {
      ReplaceAbsent(EscapeText([c]), '\"', "&quot;");
    }
  }

  lemma AttributeChar(c: char)
    ensures EscapeAttribute([c]) == AttributeCode(c)
  {
    QuoteStep(c);
    if c == '\r' || c == '\n' || c == '\t' {
      ControlChar(c);
    } else {
      var code := AttributeCode(c);
      assert '\r' !in code && '\n' !in code && '\t' !in code;
      ControlsAbsent(code);
    }
  }

  lemma ControlChar(c: char)
    requires c == '\r' || c == '\n' || c == '\t'
    ensures EscapeControls([c]) == AttributeCode(c)
  {
    if c == '\r' {
      CrControl(c);
    } else {
      var n := ReplaceChar([c], '\n', "&#10;");
      ReplaceAbsent([c], '\r', CR_REFERENCE);
      ReplaceOne(c, '\n', "&#10;");
      if c == '\n' {
        ReplaceAbsent(n, '\t', "&#09;");
      } else {
        ReplaceOne(c, '\t', "&#09;");
      }
    }
  }

  lemma CrControl(c: char)
    requires c == '\r'
    ensures EscapeControls([c]) == AttributeCode(c)
  {
    ReplaceOne(c, '\r', CR_REFERENCE);
    OnlyCr([c], AttributeCode(c));
  }

  lemma OnlyCr(s: string, protected: string)
    requires ProtectCr(s) == protected && '\n' !in protected && '\t' !in protected
    ensures EscapeControls(s) == protected
  {
    ReplaceAbsent(protected, '\n', "&#10;");
    ReplaceAbsent(protected, '\t', "&#09;");
  }

  lemma ControlsAbsent(e: string)
    requires '\r' !in e && '\n' !in e && '\t' !in e
    ensures EscapeControls(e) == e
  {
    ReplaceAbsent(e, '\r', CR_REFERENCE);
    ReplaceAbsent(e, '\n', "&#10;");
    ReplaceAbsent(e, '\t', "&#09;");
  }

  lemma {:induction false} AttributeTable(s: string)
    ensures EscapeAttribute(s) == EncodeAttribute(s)
  {
    if s != "" {
      AttributeSplit(s);
      AttributeChar(s[0]);
      AttributeTable(s[1..]);
    }
  }

  lemma {:induction false} AttributeHasNoCr(s: string)
    ensures '\r' !in EncodeAttribute(s)
  {
    if s != "" {
      AttributeHasNoCr(s[1..]);
      assert '\r' !in AttributeCode(s[0]);
    }
  }

  /** Attribute values already carry no CR, so the global replacement leaves them alone. */
  lemma ProtectAttribute(s: string)
    ensures ProtectCr(EscapeAttribute(s)) == EncodeAttribute(s)
  {
    AttributeTable(s);
    AttributeHasNoCr(s);
    ReplaceAbsent(EncodeAttribute(s), '\r', CR_REFERENCE);
  }

  // ----- parsing -----

  /** What was read at the front of a string, and what is left of it. */
  type Reading<+T> = Option<(T, string)>

  /** Section 2.11: CR LF and a lone CR both become LF. */
  function NormalizeEol(s: string): string {
    if s == "" then ""
    else if s[0] == '\r' then
      "\n" + NormalizeEol(if |s| > 1 && s[1] == '\n' then s[2..] else s[1..])
    else [s[0]] + NormalizeEol(s[1..])
  }

  function DigitValue(c: char): nat {
    if '0' <= c <= '9' then c as nat - '0' as nat
    else if 'a' <= c <= 'f' then c as nat - 'a' as nat + 10
    else if 'A' <= c <= 'F' then c as nat - 'A' as nat + 10
    else 16
  }

  /** Digits up to a semicolon, at least one of them; what is left follows the semicolon. */
  function ParseNumber(s: string, base: nat, acc: nat, seen: bool): (r: Reading<nat>)
    ensures r.Some? ==> |r.value.1| < |s|
  {
    if s == "" then None
    else if s[0] == ';' then if seen then Some((acc, s[1..])) else None
    else if DigitValue(s[0]) < base then ParseNumber(s[1..], base, acc * base + DigitValue(s[0]), true)
    else None
  }

  const APOSTROPHE := 39 as char

  /** Section 4.1: a character reference or one of the five predefined entities. */
  function ParseReference(s: string): (r: Reading<char>)
    ensures r.Some? ==> |r.value.1| < |s| && IsXmlChar(r.value.0)
  {
    if "&amp;" <= s then Some(('&', s[5..]))
    else if "&lt;" <= s then Some(('<', s[4..]))
    else if "&gt;" <= s then Some(('>', s[4..]))
    else if "&quot;" <= s then Some(('\"', s[6..]))
    else if "&apos;" <= s then Some((APOSTROPHE, s[6..]))
    else if "&#" <= s then
      var (n, rest) :- if "&#x" <= s then ParseNumber(s[3..], 16, 0, false) else ParseNumber(s[2..], 10, 0, false);
      if IsXmlCode(n) then Some((n as char, rest)) else None
    else None
  }

  /** `s` starts with `]]>`. */
  predicate EndsSection(s: string) {
    |s| > 2 && s[0] == ']' && s[1] == ']' && s[2] == '>'
  }

  /** Section 2.4: character data up to the next markup; `]]>` may not occur in it. */
  function ParseText(s: string): (r: Reading<string>)
    ensures r.Some? ==> |r.value.1| <= |s| && IsLegal(r.value.0)
    ensures r.Some? && s != "" && s[0] != '<' ==> |r.value.1| < |s|
    decreases |s|
  {
    if s == "" || s[0] == '<' then Some(("", s))
    else if s[0] == '&' then
      var (c, rest) :- ParseReference(s);
      var (text, left) :- ParseText(rest);
      Some(([c] + text, left))
    else if !IsXmlChar(s[0]) || EndsSection(s) then None
    else
      var (text, left) :- ParseText(s[1..]);
      Some(([s[0]] + text, left))
  }

  /** Section 3.3.3: an attribute value up to the quote that opened it. */
  function ParseAttributeValue(s: string, quote: char): (r: Reading<string>)
    ensures r.Some? ==> |r.value.1| < |s| && IsLegal(r.value.0)
    decreases |s|
  {
    if s == "" || s[0] == '<' then None
    else if s[0] == quote then Some(("", s[1..]))
    else if s[0] == '&' then
      var (c, rest) :- ParseReference(s);
      var (value, left) :- ParseAttributeValue(rest, quote);
      Some(([c] + value, left))
    else if !IsXmlChar(s[0]) then None
    else
      var (value, left) :- ParseAttributeValue(s[1..], quote);
      Some(([if s[0] in "\t\n\r" then ' ' else s[0]] + value, left))
  }

  // ----- round trips -----

  lemma ReferenceOf(c: char, rest: string)
    requires AttributeCode(c) != [c]
    ensures ParseReference(AttributeCode(c) + rest) == Some((c, rest))
  {
    var s := AttributeCode(c) + rest;
    if c == '&' || c == '<' || c == '>' || c == '\"' {
      NamedReference(c, rest);
    } else {
      var high, low := AttributeCode(c)[2], AttributeCode(c)[3];
      assert s == "&#" + [high, low, ';'] + rest;
      assert s[2..] == [high, low, ';'] + rest;
      TwoDigits(high, low, rest);
    }
  }

  lemma NamedReference(c: char, rest: string)
    requires c == '&' || c == '<' || c == '>' || c == '\"'
    ensures ParseReference(AttributeCode(c) + rest) == Some((c, rest))
  {
    var s := AttributeCode(c) + rest;
    assert s[|AttributeCode(c)|..] == rest;
    assert AttributeCode(c) <= s;
    assert s[1] == AttributeCode(c)[1] && s[2] == AttributeCode(c)[2];
  }

  lemma TwoDigits(high: char, low: char, rest: string)
    requires IsDigit(high) && IsDigit(low)
    ensures ParseNumber([high, low, ';'] + rest, 10, 0, false)
         == Some((DigitValue(high) * 10 + DigitValue(low), rest))
  {
    var t := [high, low, ';'] + rest;
    assert t[1..] == [low, ';'] + rest;
    assert t[1..][1..] == [';'] + rest;
    assert t[1..][1..][1..] == rest;
    assert ParseNumber([';'] + rest, 10, DigitValue(high) * 10 + DigitValue(low), true)
        == Some((DigitValue(high) * 10 + DigitValue(low), rest));
    assert ParseNumber([low, ';'] + rest, 10, DigitValue(high), true)
        == Some((DigitValue(high) * 10 + DigitValue(low), rest));
  }

  lemma Head(a: string, b: string, c: string)
    requires a != ""
    ensures a + b + c == a + (b + c)
    ensures (a + b + c)[0] == a[0] && (a + b + c)[1..] == a[1..] + (b + c)
  {
  }

  lemma EncodeTextHead(s: string, rest: string)
    requires s != ""
    ensures EncodeText(s) + rest == TextCode(s[0]) + (EncodeText(s[1..]) + rest)
    ensures (EncodeText(s) + rest)[0] == TextCode(s[0])[0]
    ensures (EncodeText(s) + rest)[1..] == TextCode(s[0])[1..] + (EncodeText(s[1..]) + rest)
  {
    assert TextCode(s[0]) != "";
    Head(TextCode(s[0]), EncodeText(s[1..]), rest);
  }

  lemma NoTextEnd(s: string, rest: string)
    requires rest == "" || rest[0] != '>'
    ensures EncodeText(s) + rest == "" || (EncodeText(s) + rest)[0] != '>'
  {
    if s == "" {
      assert EncodeText(s) + rest == rest;
    } else {
      EncodeTextHead(s, rest);
    }
  }

  /** The text does not go on with `]>` either. */
  lemma NotEndAfterBracket(s: string, rest: string)
    requires rest == "" || rest[0] == '<'
    ensures var all := EncodeText(s) + rest; !(|all| > 1 && all[0] == ']' && all[1] == '>')
  {
    if s == "" {
      assert EncodeText(s) + rest == rest;
    } else {
      EncodeTextHead(s, rest);
      NoTextEnd(s[1..], rest);
    }
  }

  lemma NoSectionEnd(s: string, rest: string)
    requires rest == "" || rest[0] == '<'
    ensures !EndsSection(EncodeText(s) + rest)
  {
    if s == "" {
      assert EncodeText(s) + rest == rest;
    } else {
      EncodeTextHead(s, rest);
      NotEndAfterBracket(s[1..], rest);
    }
  }

  /** One more character at the front of what was read. */
  function Before(c: char, read: Reading<string>): Reading<string> {
    if read.Some? then Some(([c] + read.value.0, read.value.1)) else None
  }

  lemma ReferenceStep(c: char, tail: string)
    requires TextCode(c) != [c]
    ensures ParseText(TextCode(c) + tail) == Before(c, ParseText(tail))
  {
    ReferenceOf(c, tail);
    assert (TextCode(c) + tail)[0] == '&';
  }

  lemma TextStep(c: char, tail: string)
    requires IsXmlChar(c)
    requires !EndsSection(TextCode(c) + tail)
    ensures ParseText(TextCode(c) + tail) == Before(c, ParseText(tail))
  {
    if TextCode(c) != [c] {
      ReferenceStep(c, tail);
    } else {
      var all := [c] + tail;
      assert all[0] == c && all[1..] == tail;
    }
  }

  lemma TextHeadReads(s: string, rest: string)
    requires s != "" && IsLegal(s)
    requires rest == "" || rest[0] == '<'
    ensures ParseText(EncodeText(s) + rest) == Before(s[0], ParseText(EncodeText(s[1..]) + rest))
  {
    EncodeTextHead(s, rest);
    NoSectionEnd(s, rest);
    TextStep(s[0], EncodeText(s[1..]) + rest);
  }

  lemma TextEnds(rest: string)
    requires rest == "" || rest[0] == '<'
    ensures ParseText(rest) == Some(("", rest))
  {
  }

  /** Text printed by the table, up to the end or to markup, is read back exactly. */
  lemma {:induction false} TextRoundTrip(s: string, rest: string)
    requires IsLegal(s)
    requires rest == "" || rest[0] == '<'
    ensures ParseText(EncodeText(s) + rest) == Some((s, rest))
  {
    if s == "" {
      assert EncodeText(s) + rest == rest;
      TextEnds(rest);
    } else {
      TextRoundTrip(s[1..], rest);
      TextHeadReads(s, rest);
      assert [s[0]] + s[1..] == s;
    }
  }

  lemma AttributeStep(c: char, tail: string)
    requires IsXmlChar(c)
    ensures ParseAttributeValue(AttributeCode(c) + tail, '\"') == Before(c, ParseAttributeValue(tail, '\"'))
  {
    var all := AttributeCode(c) + tail;
    if AttributeCode(c) != [c] {
      ReferenceOf(c, tail);
      assert all[0] == '&';
    } else {
      assert all[0] == c && all[1..] == tail;
    }
  }

  lemma {:induction false} AttributeRoundTrip(s: string, rest: string)
    requires IsLegal(s)
    ensures ParseAttributeValue(EncodeAttribute(s) + ("\"" + rest), '\"') == Some((s, rest))
  {
    var end := "\"" + rest;
    if s == "" {
      assert EncodeAttribute(s) + end == end;
    } else {
      var tail := EncodeAttribute(s[1..]) + end;
      assert EncodeAttribute(s) + end == AttributeCode(s[0]) + tail;
      AttributeRoundTrip(s[1..], rest);
      AttributeStep(s[0], tail);
      assert [s[0]] + s[1..] == s;
    }
  }

  lemma {:induction false} NormalizeWithoutCr(s: string)
    requires '\r' !in s
    ensures NormalizeEol(s) == s
  {
    if s != "" {
      NormalizeWithoutCr(s[1..]);
    }
  }

  lemma {:induction false} ProtectedHasNoCr(s: string)
    ensures '\r' !in ProtectCr(s)
  {
    if s != "" {
      ProtectedHasNoCr(s[1..]);
    }
  }

  /** What a parser makes of a printed piece of text: end-of-line handling, then
      reference expansion, to the end of the piece. */
  function ReadBack(printed: string): Option<string> {
    var (text, rest) :- ParseText(NormalizeEol(printed));
    if rest == "" then Some(text) else None
  }

  /** Printing, the global replacement and parsing return every string a document may
      hold, and no other string. */
  lemma PrintedTextReadsBack(s: string)
    ensures ReadBack(ProtectCr(EscapeText(s))) == Some(s) <==> IsLegal(s)
  {
    ProtectedHasNoCr(EscapeText(s));
    NormalizeWithoutCr(ProtectCr(EscapeText(s)));
    TextTable(s);
    if IsLegal(s) {
      TextRoundTrip(s, "");
      assert EncodeText(s) + "" == EncodeText(s);
    }
  }

  lemma {:induction false} NormalizeFixesOnlyCrFree(s: string)
    ensures '\r' !in NormalizeEol(s)
    ensures IsLegal(s) ==> IsLegal(NormalizeEol(s))
    decreases |s|
  {
    if s != "" {
      NormalizeFixesOnlyCrFree(if s[0] == '\r' && |s| > 1 && s[1] == '\n' then s[2..] else s[1..]);
    }
  }

  /** Escaping leaves a carriage return, and whether a line feed follows it. */
  lemma CrEscaped(s: string)
    requires s != "" && s[0] == '\r'
    ensures var e := EscapeText(s);
      && e != "" && e[0] == '\r' && e[1..] == EscapeText(s[1..])
      && (|e| > 1 && e[1] == '\n' <==> |s| > 1 && s[1] == '\n')
      && (|s| > 1 && s[1] == '\n' ==> e[2..] == EscapeText(s[2..]))
  {
    var t := s[1..];
    EscapeTextSplit(s);
    EscapeTextChar(s[0]);
    if t != "" {
      EscapeTextSplit(t);
      EscapeTextChar(t[0]);
      assert s[2..] == t[1..];
    }
  }

  lemma {:induction false} EscapeThenNormalize(s: string)
    ensures NormalizeEol(EscapeText(s)) == EncodeText(NormalizeEol(s))
    decreases |s|
  {
    if s != "" {
      var c, t := s[0], s[1..];
      EscapeTextSplit(s);
      EscapeTextChar(c);
      EscapeThenNormalize(t);
      var tail := EscapeText(t);
      if c == '\r' {
        CrEscaped(s);
        if t != "" && t[0] == '\n' {
          EscapeThenNormalize(s[2..]);
        }
      } else {
        NormalizeCode(c, tail);
      }
    }
  }

  lemma NormalizeCode(c: char, tail: string)
    requires c != '\r'
    ensures NormalizeEol(TextCode(c) + tail) == TextCode(c) + NormalizeEol(tail)
  {
    NormalizePrefix(TextCode(c), tail);
  }

  lemma {:induction false} NormalizePrefix(s: string, tail: string)
    requires '\r' !in s
    ensures NormalizeEol(s + tail) == s + NormalizeEol(tail)
  {
    if s == "" {
      assert s + tail == tail;
    } else {
      assert (s + tail)[1..] == s[1..] + tail;
      NormalizePrefix(s[1..], tail);
    }
  }

  /** Why the replacement is there: ElementTree's own output loses exactly the strings
      with a carriage return, which come back with their line ends normalised. */
  lemma UnprotectedTextReadsBack(s: string)
    requires IsLegal(s)
    ensures ReadBack(EscapeText(s)) == Some(NormalizeEol(s))
    ensures ReadBack(EscapeText(s)) == Some(s) <==> '\r' !in s
  {
    var n := NormalizeEol(s);
    EscapeThenNormalize(s);
    NormalizeFixesOnlyCrFree(s);
    TextRoundTrip(n, "");
    assert EncodeText(n) + "" == EncodeText(n);
    if '\r' !in s {
      NormalizeWithoutCr(s);
    }
  }
}
