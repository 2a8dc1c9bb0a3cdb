/** Element trees as `xml.etree.ElementTree` represents, indents and prints them, and a
    reader for the printed form (XML 1.0 sections 2.3, 3 and 3.1, Namespaces section 6.2). */
module ElementTree {
  import opened Text
  import opened Wrappers
  import opened ElementText

  datatype Attribute = Attribute(name: string, value: string)

  /** `text` stands before the first child and `tail` after the end tag; "" is None. */
  datatype Node = Node(tag: string, attributes: seq<Attribute>, text: string, children: seq<Node>, tail: string)

  function Lookup(attributes: seq<Attribute>, name: string): (r: Option<string>)
    ensures r.Some? <==> name in Names(attributes)
    ensures r.Some? ==> Attribute(name, r.value) in attributes
  {
    if attributes == [] then None
    else if attributes[0].name == name then Some(attributes[0].value)
    else Lookup(attributes[1..], name)
  }

  function Names(attributes: seq<Attribute>): set<string> {
    set a | a in attributes :: a.name
  }

  predicate DistinctNames(attributes: seq<Attribute>) {
    forall i, j | 0 <= i < j < |attributes| :: attributes[i].name != attributes[j].name
  }

  /** All text in the tree is made of characters a document may hold. */
  predicate LegalTree(n: Node) {
    && IsLegal(n.text) && IsLegal(n.tail)
    && (forall a | a in n.attributes :: IsLegal(a.value))
    && (forall c | c in n.children :: LegalTree(c))
  }

  /** A tree that prints as XML: simple names, distinct attribute names, legal text. */
  predicate Printable(n: Node) {
    && IsName(n.tag) && IsLegal(n.text) && IsLegal(n.tail)
    && DistinctNames(n.attributes)
    && (forall a | a in n.attributes :: IsName(a.name) && IsLegal(a.value))
    && (forall c | c in n.children :: Printable(c))
  }

  // ----- ET.tostring -----

  function PrintAttributes(attributes: seq<Attribute>): string {
    if attributes == [] then ""
    else
      var a := attributes[0];
      " " + (a.name + ("=\"" + (EscapeAttribute(a.value) + ("\"" + PrintAttributes(attributes[1..])))))
  }

  /** ElementTree's `_serialize_xml` with short empty elements. */
  function Print(n: Node): string
    decreases n, 2
  {
    "<" + (n.tag + (PrintAttributes(n.attributes) + (PrintContent(n) + EscapeText(n.tail))))
  }

  function PrintContent(n: Node): string
    decreases n, 1
  {
    if n.text != "" || n.children != [] then
      ">" + (EscapeText(n.text) + (PrintAll(n.children) + ("</" + (n.tag + ">"))))
    else " />"
  }

  function PrintAll(ns: seq<Node>): string
    decreases ns, 0
  {
    if ns == [] then "" else Print(ns[0]) + PrintAll(ns[1..])
  }

  // ----- ET.indent -----

  /** A line feed and two spaces a level. */
  function Indentation(level: nat): string {
    "\n" + seq(2 * level, _ => ' ')
  }

  /** `ET.indent(n, space="  ")`, which leaves an element without children alone. */
  function Indent(n: Node, level: nat): Node
    decreases n, 1
  {
    if n.children == [] then n
    else n.(text := if IsBlank(n.text) then Indentation(level + 1) else n.text,
            children := IndentAll(n.children, level))
  }

  /** The children of an element at `level`; the last one is followed by a dedent. */
  function IndentAll(ns: seq<Node>, level: nat): seq<Node>
    decreases ns, 0
  {
    if ns == [] then []
    else
      var after := if |ns| == 1 then level else level + 1;
      var child := Indent(ns[0], level + 1);
      [child.(tail := if IsBlank(child.tail) then Indentation(after) else child.tail)] + IndentAll(ns[1..], level)
  }

  // ----- reading -----

  predicate IsXmlSpace(c: char) {
    c == ' ' || c == '\t' || c == '\n' || c == '\r'
  }

  function SkipSpace(s: string): (r: string)
    ensures |r| <= |s|
  {
    if s != "" && IsXmlSpace(s[0]) then SkipSpace(s[1..]) else s
  }

  function NameLength(s: string): (n: nat)
    ensures n <= |s|
    ensures forall i | 0 <= i < n :: IsNameChar(s[i])
  {
    if s != "" && IsNameChar(s[0]) then 1 + NameLength(s[1..]) else 0
  }

  /** The longest simple name at the start of `s`. */
  function ParseName(s: string): (r: Reading<string>)
    ensures r.Some? ==> |r.value.1| < |s| && IsName(r.value.0)
  {
    var n := NameLength(s);
    if n > 0 && IsNameStart(s[0]) then Some((s[..n], s[n..])) else None
  }

  /** One `name = "value"`, after the white space that must come before it. */
  function ParseAttribute(s: string): (r: Reading<Attribute>)
    ensures r.Some? ==> |r.value.1| < |s| && IsName(r.value.0.name) && IsLegal(r.value.0.value)
  {
    var (name, rest) :- ParseName(s);
    var equals := SkipSpace(rest);
    if equals == "" || equals[0] != '=' then None
    else
      var quoted := SkipSpace(equals[1..]);
      if quoted == "" || quoted[0] !in "\"'" then None
      else
        var (value, left) :- ParseAttributeValue(quoted[1..], quoted[0]);
        Some((Attribute(name, value), left))
  }

  /** Attributes up to the `/` or `>` that ends a start tag; no name may occur twice. */
  function ParseAttributes(s: string): (r: Reading<seq<Attribute>>)
    ensures r.Some? ==> |r.value.1| <= |s|
    ensures r.Some? ==> DistinctNames(r.value.0) && forall a | a in r.value.0 :: IsName(a.name) && IsLegal(a.value)
    decreases |s|
  {
    var t := SkipSpace(s);
    if t == "" then None
    else if t[0] in "/>" then Some(([], t))
    else if |t| == |s| then None
    else
      var (a, rest) :- ParseAttribute(t);
      var (others, left) :- ParseAttributes(rest);
      if a.name in Names(others) then None else Some(([a] + others, left))
  }

  function ParseEndTag(s: string, tag: string): (r: Option<string>)
    ensures r.Some? ==> |r.value| < |s|
  {
    if "</" + tag <= s then
      var rest := SkipSpace(s[|tag| + 2..]);
      if rest != "" && rest[0] == '>' then Some(rest[1..]) else None
    else None
  }

  /** One element, without its tail. */
  function ParseElement(s: string): (r: Reading<Node>)
    ensures r.Some? ==> |r.value.1| < |s| && r.value.0.tail == ""
    decreases |s|, 0
  {
    if s == "" || s[0] != '<' then None
    else
      var (tag, afterTag) :- ParseName(s[1..]);
      var (attributes, rest) :- ParseAttributes(afterTag);
      if "/>" <= rest then Some((Node(tag, attributes, "", [], ""), rest[2..]))
      else if rest == "" || rest[0] != '>' then None
      else
        var (text, afterText) :- ParseText(rest[1..]);
        var (children, afterChildren) :- ParseChildren(afterText);
        var left :- ParseEndTag(afterChildren, tag);
        Some((Node(tag, attributes, text, children, ""), left))
  }

  /** Elements, each with the text that follows it, up to an end tag. */
  function ParseChildren(s: string): (r: Reading<seq<Node>>)
    ensures r.Some? ==> |r.value.1| <= |s|
    decreases |s|, 1
  {
    if "</" <= s then Some(([], s))
    else
      var (child, rest) :- ParseElement(s);
      var (tail, afterTail) :- ParseText(rest);
      var (others, left) :- ParseChildren(afterTail);
      Some(([child.(tail := tail)] + others, left))
  }

  /** A whole document, its line ends normalised first. */
  function ParseDocument(s: string): Option<Node> {
    var (root, rest) :- ParseElement(SkipSpace(NormalizeEol(s)));
    if SkipSpace(rest) == "" then Some(root) else None
  }

  /** Applies default namespace declarations: tags become `{uri}tag`, and the
      declarations are no longer attributes. */
  function Resolve(n: Node, inherited: string): Node
    decreases n, 1
  {
    var declared := Lookup(n.attributes, "xmlns");
    var uri := if declared.Some? then declared.value else inherited;
    Node(Qualify(uri, n.tag), WithoutDeclaration(n.attributes), n.text, ResolveAll(n.children, uri), n.tail)
  }

  function ResolveAll(ns: seq<Node>, uri: string): (r: seq<Node>)
    ensures |r| == |ns|
    decreases ns, 0
  {
    if ns == [] then [] else [Resolve(ns[0], uri)] + ResolveAll(ns[1..], uri)
  }

  function Qualify(uri: string, tag: string): string {
    if uri == "" then tag else "{" + uri + "}" + tag
  }

  function WithoutDeclaration(attributes: seq<Attribute>): seq<Attribute> {
    if attributes == [] then []
    else (if attributes[0].name == "xmlns" then [] else [attributes[0]]) + WithoutDeclaration(attributes[1..])
  }

  /** `ET.fromstring(s)` */
  function FromString(s: string): Option<Node> {
    var root :- ParseDocument(s);
    Some(Resolve(root, ""))
  }

  // ----- what indentation and reading keep -----

  /** The same elements with the same attributes and the same text in every leaf; only
      blank text between elements may differ. */
  predicate SameContent(n: Node, m: Node) {
    && n.tag == m.tag && n.attributes == m.attributes && |n.children| == |m.children|
    && (n.text == m.text || (n.children != [] && IsBlank(n.text) && IsBlank(m.text)))
    && (n.tail == m.tail || (IsBlank(n.tail) && IsBlank(m.tail)))
    && (forall i | 0 <= i < |n.children| :: SameContent(n.children[i], m.children[i]))
  }

  /** Indenting keeps the content of a tree, whatever the level. */
  lemma {:induction false} IndentKeepsContent(n: Node, level: nat)
    ensures SameContent(n, Indent(n, level)) && Indent(n, level).tail == n.tail
    decreases n, 1
  {
    IndentAllKeepsContent(n.children, level);
    SameAsItself(n);
  }

  lemma {:induction false} IndentAllKeepsContent(ns: seq<Node>, level: nat)
    ensures |IndentAll(ns, level)| == |ns|
    ensures forall i | 0 <= i < |ns| :: SameContent(ns[i], IndentAll(ns, level)[i])
    decreases ns, 0
  {
    if ns != [] {
      IndentKeepsContent(ns[0], level + 1);
      IndentAllKeepsContent(ns[1..], level);
      forall i | 0 <= i < |ns| ensures SameContent(ns[i], IndentAll(ns, level)[i]) {
        if i > 0 {
          assert ns[i] == ns[1..][i - 1];
        } else {
          RetailKeepsContent(ns[0], Indent(ns[0], level + 1), IndentAll(ns, level)[0]);
        }
      }
    }
  }

  lemma RetailKeepsContent(n: Node, m: Node, changed: Node)
    requires SameContent(n, m) && m.tail == n.tail
    requires changed == m.(tail := changed.tail)
    requires changed.tail == m.tail || (IsBlank(m.tail) && IsBlank(changed.tail))
    ensures SameContent(n, changed)
  {
  }

  lemma {:induction false} IndentStaysPrintable(n: Node, level: nat)
    requires Printable(n)
    ensures Printable(Indent(n, level))
    decreases n, 1
  {
    IndentAllStaysPrintable(n.children, level);
  }

  lemma {:induction false} IndentAllStaysPrintable(ns: seq<Node>, level: nat)
    requires forall n | n in ns :: Printable(n)
    ensures forall m | m in IndentAll(ns, level) :: Printable(m)
    decreases ns, 0
  {
    if ns != [] {
      IndentStaysPrintable(ns[0], level + 1);
      IndentAllStaysPrintable(ns[1..], level);
    }
  }

  lemma {:induction false} SameAsItself(n: Node)
    ensures SameContent(n, n)
    decreases n
  {
    forall i | 0 <= i < |n.children| ensures SameContent(n.children[i], n.children[i]) {
      SameAsItself(n.children[i]);
    }
  }

  /** Whatever the reader accepts holds only characters that a document may hold. */
  lemma {:induction false} ElementIsLegal(s: string)
    ensures ParseElement(s).Some? ==> LegalTree(ParseElement(s).value.0)
    decreases |s|, 0
  {
    if s != "" && s[0] == '<' && ParseName(s[1..]).Some? {
      var attributes := ParseAttributes(ParseName(s[1..]).value.1);
      if attributes.Some? {
        var rest := attributes.value.1;
        if rest != "" && rest[0] == '>' && ParseText(rest[1..]).Some? {
          ChildrenAreLegal(ParseText(rest[1..]).value.1);
        }
      }
    }
  }

  lemma {:induction false} ChildrenAreLegal(s: string)
    ensures ParseChildren(s).Some? ==> forall c | c in ParseChildren(s).value.0 :: LegalTree(c)
    decreases |s|, 1
  {
    if !("</" <= s) {
      ElementIsLegal(s);
      if ParseElement(s).Some? && ParseText(ParseElement(s).value.1).Some? {
        ChildrenAreLegal(ParseText(ParseElement(s).value.1).value.1);
      }
    }
  }

  lemma {:induction false} ResolveKeepsLegal(n: Node, uri: string)
    requires LegalTree(n)
    ensures LegalTree(Resolve(n, uri))
    decreases n, 1
  {
    WithoutDeclarationKeeps(n.attributes);
    var declared := Lookup(n.attributes, "xmlns");
    ResolveAllKeepsLegal(n.children, if declared.Some? then declared.value else uri);
  }

  lemma {:induction false} ResolveAllKeepsLegal(ns: seq<Node>, uri: string)
    requires forall c | c in ns :: LegalTree(c)
    ensures forall c | c in ResolveAll(ns, uri) :: LegalTree(c)
    decreases ns, 0
  {
    if ns != [] {
      ResolveKeepsLegal(ns[0], uri);
      ResolveAllKeepsLegal(ns[1..], uri);
    }
  }

  lemma {:induction false} WithoutDeclarationKeeps(attributes: seq<Attribute>)
    ensures forall a | a in WithoutDeclaration(attributes) :: a in attributes
  {
    if attributes != [] {
      WithoutDeclarationKeeps(attributes[1..]);
    }
  }

  lemma FromStringIsLegal(s: string)
    ensures FromString(s).Some? ==> LegalTree(FromString(s).value)
  {
    ElementIsLegal(SkipSpace(NormalizeEol(s)));
    if ParseDocument(s).Some? {
      ResolveKeepsLegal(ParseDocument(s).value, "");
    }
  }
}
