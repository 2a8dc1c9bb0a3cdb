/** Printing a tree, replacing every carriage return and reading the text gives the
    tree back. */
module ElementRoundTrip {
  import opened Text
  import opened Wrappers
  import opened ElementText
  import opened ElementTree

  // ----- the printed text after the global replacement, written before a given rest -----

  function AttributesTo(attributes: seq<Attribute>, rest: string): string {
    if attributes == [] then rest
    else
      var a := attributes[0];
      " " + (a.name + ("=\"" + (EncodeAttribute(a.value) + ("\"" + AttributesTo(attributes[1..], rest)))))
  }

  function NodeTo(n: Node, rest: string): string
    decreases n, 2
  {
    "<" + (n.tag + AttributesTo(n.attributes, ContentTo(n, rest)))
  }

  function ContentTo(n: Node, rest: string): string
    decreases n, 1
  {
    if n.text != "" || n.children != [] then
      ">" + (EncodeText(n.text) + AllTo(n.children, "</" + (n.tag + (">" + rest))))
    else " />" + rest
  }

  function AllTo(ns: seq<Node>, rest: string): string
    decreases ns, 0
  {
    if ns == [] then rest else NodeTo(ns[0], EncodeText(ns[0].tail) + AllTo(ns[1..], rest))
  }

  lemma Push(a: string, b: string, rest: string)
    ensures ProtectCr(a + b) + rest == ProtectCr(a) + (ProtectCr(b) + rest)
  {
    ReplaceConcat(a, b, '\r', CR_REFERENCE);
  }

  lemma PushPlain(a: string, b: string, rest: string)
    requires '\r' !in a
    ensures ProtectCr(a + b) + rest == a + (ProtectCr(b) + rest)
  {
    Push(a, b, rest);
    ReplaceAbsent(a, '\r', CR_REFERENCE);
  }

  lemma PlainTo(a: string, rest: string)
    requires '\r' !in a
    ensures ProtectCr(a) + rest == a + rest
  {
    ReplaceAbsent(a, '\r', CR_REFERENCE);
  }

  lemma NameHasNoCr(s: string)
    requires IsName(s)
    ensures '\r' !in s
  {
    assert !IsNameChar('\r');
  }

  lemma {:induction false} AttributesProtected(attributes: seq<Attribute>, rest: string)
    requires forall a | a in attributes :: IsName(a.name)
    ensures ProtectCr(PrintAttributes(attributes)) + rest == AttributesTo(attributes, rest)
  {
    if attributes == [] {
      PlainTo("", rest);
    } else {
      var a, others := attributes[0], attributes[1..];
      var s0 := PrintAttributes(others);
      var s1 := "\"" + s0;
      var s2 := EscapeAttribute(a.value) + s1;
      var s3 := "=\"" + s2;
      var s4 := a.name + s3;
      AttributesProtected(others, rest);
      ProtectAttribute(a.value);
      NameHasNoCr(a.name);
      PushPlain("\"", s0, rest);
      Push(EscapeAttribute(a.value), s1, rest);
      PushPlain("=\"", s2, rest);
      PushPlain(a.name, s3, rest);
      PushPlain(" ", s4, rest);
    }
  }

  lemma {:induction false} NodeProtected(n: Node, rest: string)
    requires Printable(n)
    ensures ProtectCr(Print(n)) + rest == NodeTo(n, EncodeText(n.tail) + rest)
    decreases n, 2
  {
    var s0 := EscapeText(n.tail);
    var s1 := PrintContent(n) + s0;
    var s2 := PrintAttributes(n.attributes) + s1;
    var s3 := n.tag + s2;
    TextTable(n.tail);
    NameHasNoCr(n.tag);
    Push(PrintContent(n), s0, rest);
    ContentProtected(n, EncodeText(n.tail) + rest);
    Push(PrintAttributes(n.attributes), s1, rest);
    AttributesProtected(n.attributes, ProtectCr(s1) + rest);
    PushPlain(n.tag, s2, rest);
    PushPlain("<", s3, rest);
  }

  lemma {:induction false} ContentProtected(n: Node, rest: string)
    requires Printable(n)
    ensures ProtectCr(PrintContent(n)) + rest == ContentTo(n, rest)
    decreases n, 1
  {
    if n.text != "" || n.children != [] {
      var s0 := n.tag + ">";
      var s1 := "</" + s0;
      var s2 := PrintAll(n.children) + s1;
      var s3 := EscapeText(n.text) + s2;
      NameHasNoCr(n.tag);
      TextTable(n.text);
      PlainTo(">", rest);
      PushPlain(n.tag, ">", rest);
      PushPlain("</", s0, rest);
      Push(PrintAll(n.children), s1, rest);
      AllProtected(n.children, ProtectCr(s1) + rest);
      Push(EscapeText(n.text), s2, rest);
      PushPlain(">", s3, rest);
    } else {
      PlainTo(" />", rest);
    }
  }

  lemma {:induction false} AllProtected(ns: seq<Node>, rest: string)
    requires forall c | c in ns :: Printable(c)
    ensures ProtectCr(PrintAll(ns)) + rest == AllTo(ns, rest)
    decreases ns, 0
  {
    if ns == [] {
      PlainTo("", rest);
    } else {
      AllProtected(ns[1..], rest);
      Push(Print(ns[0]), PrintAll(ns[1..]), rest);
      NodeProtected(ns[0], ProtectCr(PrintAll(ns[1..])) + rest);
    }
  }

  // ----- reading it -----

  lemma {:induction false} NameLengthOf(name: string, rest: string)
    requires forall i | 0 <= i < |name| :: IsNameChar(name[i])
    requires rest == "" || !IsNameChar(rest[0])
    ensures NameLength(name + rest) == |name|
  {
    if name == "" {
      assert name + rest == rest;
    } else {
      assert (name + rest)[1..] == name[1..] + rest;
      NameLengthOf(name[1..], rest);
    }
  }

  lemma NameReads(name: string, rest: string)
    requires IsName(name)
    requires rest == "" || !IsNameChar(rest[0])
    ensures ParseName(name + rest) == Some((name, rest))
  {
    NameLengthOf(name, rest);
    assert (name + rest)[..|name|] == name;
    assert (name + rest)[|name|..] == rest;
  }

  lemma SkipNothing(s: string)
    requires s != "" && !IsXmlSpace(s[0])
    ensures SkipSpace(s) == s
  {
  }

  lemma SkipOne(s: string)
    requires s == "" || !IsXmlSpace(s[0])
    ensures SkipSpace(" " + s) == s
  {
    assert (" " + s)[1..] == s;
  }

  lemma AttributeReads(a: Attribute, rest: string)
    requires IsName(a.name) && IsLegal(a.value)
    ensures ParseAttribute(a.name + ("=\"" + (EncodeAttribute(a.value) + ("\"" + rest)))) == Some((a, rest))
  {
    var value := EncodeAttribute(a.value) + ("\"" + rest);
    var s := "=\"" + value;
    NameReads(a.name, s);
    SkipNothing(s);
    assert s[1..] == "\"" + value;
    SkipNothing(s[1..]);
    assert s[1..][1..] == value;
    AttributeRoundTrip(a.value, rest);
  }

  lemma AttributeStep(a: Attribute, after: string)
    requires IsName(a.name) && IsLegal(a.value)
    ensures ParseAttributes(" " + (a.name + ("=\"" + (EncodeAttribute(a.value) + ("\"" + after)))))
         == match ParseAttributes(after)
            case None => None
            case Some((others, left)) => if a.name in Names(others) then None else Some(([a] + others, left))
  {
    var t := a.name + ("=\"" + (EncodeAttribute(a.value) + ("\"" + after)));
    assert t[0] == a.name[0];
    SkipOne(t);
    AttributeReads(a, after);
  }

  /** `rest` is what a printed start tag puts after its attributes. */
  lemma {:induction false} AttributesRead(attributes: seq<Attribute>, rest: string)
    requires DistinctNames(attributes)
    requires forall a | a in attributes :: IsName(a.name) && IsLegal(a.value)
    requires rest != "" && SkipSpace(rest) != "" && SkipSpace(rest)[0] in "/>"
    ensures ParseAttributes(AttributesTo(attributes, rest)) == Some((attributes, SkipSpace(rest)))
  {
    if attributes != [] {
      var a, others := attributes[0], attributes[1..];
      AttributeStep(a, AttributesTo(others, rest));
      AttributesRead(others, rest);
      assert a.name !in Names(others);
      assert [a] + others == attributes;
    }
  }

  lemma EndTagReads(tag: string, rest: string)
    ensures ParseEndTag("</" + (tag + (">" + rest)), tag) == Some(rest)
  {
    var s := "</" + (tag + (">" + rest));
    assert s[|tag| + 2..] == ">" + rest;
    assert s[..|tag| + 2] == "</" + tag;
    SkipNothing(">" + rest);
    assert (">" + rest)[1..] == rest;
  }

  lemma StartTagReads(n: Node, rest: string)
    requires Printable(n)
    requires ">" <= rest || " />" <= rest
    ensures var s := "<" + (n.tag + AttributesTo(n.attributes, rest));
      && s[0] == '<'
      && ParseName(s[1..]) == Some((n.tag, AttributesTo(n.attributes, rest)))
      && ParseAttributes(AttributesTo(n.attributes, rest)) == Some((n.attributes, SkipSpace(rest)))
  {
    var after := AttributesTo(n.attributes, rest);
    assert ("<" + (n.tag + after))[1..] == n.tag + after;
    assert after[0] == ' ' || after[0] == '>';
    NameReads(n.tag, after);
    TagEnds(rest);
    AttributesRead(n.attributes, rest);
  }

  lemma TagEnds(rest: string)
    requires ">" <= rest || " />" <= rest
    ensures SkipSpace(rest) == if ">" <= rest then rest else rest[1..]
  {
    if " />" <= rest {
      assert rest == " " + rest[1..];
      assert rest[1..][0] == '/';
      SkipOne(rest[1..]);
    } else {
      SkipNothing(rest);
    }
  }

  lemma EmptyElementReads(n: Node, rest: string)
    requires Printable(n) && n.text == "" && n.children == []
    ensures ParseElement(NodeTo(n, rest)) == Some((n.(tail := ""), rest))
  {
    StartTagReads(n, " />" + rest);
    EmptyTagEnd(rest);
    assert n.(tail := "") == Node(n.tag, n.attributes, "", [], "");
  }

  lemma EmptyTagEnd(rest: string)
    ensures SkipSpace(" />" + rest) == "/>" + rest && ("/>" + rest)[2..] == rest
  {
    assert " />" + rest == " " + ("/>" + rest);
    SkipOne("/>" + rest);
  }

  /** The start tag of an element with content is read, and its content comes next. */
  lemma ContentNext(n: Node, inner: string)
    requires Printable(n)
    ensures var s := "<" + (n.tag + AttributesTo(n.attributes, ">" + inner));
      ParseElement(s) == var (text, afterText) :- ParseText(inner);
                         var (children, afterChildren) :- ParseChildren(afterText);
                         var left :- ParseEndTag(afterChildren, n.tag);
                         Some((Node(n.tag, n.attributes, text, children, ""), left))
  {
    StartTagReads(n, ">" + inner);
    SkipNothing(">" + inner);
    assert (">" + inner)[1..] == inner;
  }

  lemma {:induction false} ElementReads(n: Node, rest: string)
    requires Printable(n)
    ensures ParseElement(NodeTo(n, rest)) == Some((n.(tail := ""), rest))
    decreases n, 1
  {
    if n.text == "" && n.children == [] {
      EmptyElementReads(n, rest);
    } else {
      var end := "</" + (n.tag + (">" + rest));
      ContentNext(n, EncodeText(n.text) + AllTo(n.children, end));
      ChildrenStart(n.children, end);
      TextRoundTrip(n.text, AllTo(n.children, end));
      ChildrenRead(n.children, end);
      EndTagReads(n.tag, rest);
    }
  }

  lemma ChildrenStart(ns: seq<Node>, end: string)
    requires "</" <= end
    ensures AllTo(ns, end) != "" && AllTo(ns, end)[0] == '<'
  {
  }

  lemma {:induction false} ChildrenRead(ns: seq<Node>, end: string)
    requires forall c | c in ns :: Printable(c)
    requires "</" <= end
    ensures ParseChildren(AllTo(ns, end)) == Some((ns, end))
    decreases ns, 0
  {
    if ns != [] {
      var c, others := ns[0], AllTo(ns[1..], end);
      var s := NodeTo(c, EncodeText(c.tail) + others);
      assert Printable(c);
      assert s[1] == c.tag[0];
      ElementReads(c, EncodeText(c.tail) + others);
      ChildrenStart(ns[1..], end);
      TextRoundTrip(c.tail, others);
      ChildrenRead(ns[1..], end);
      assert [c.(tail := "").(tail := c.tail)] + ns[1..] == ns;
    }
  }

  /** A printable tree, printed, protected and read, is the same tree. */
  lemma PrintedTreeReadsBack(n: Node)
    requires Printable(n) && n.tail == ""
    ensures ParseDocument(ProtectCr(Print(n))) == Some(n)
  {
    var s := NodeTo(n, "");
    NodeProtected(n, "");
    assert EncodeText("") + "" == "";
    assert ProtectCr(Print(n)) + "" == ProtectCr(Print(n));
    ProtectedHasNoCr(Print(n));
    NormalizeWithoutCr(s);
    SkipNothing(s);
    ElementReads(n, "");
  }
}
