/** The documented profile of flows, spelled out, and what a refusal says about the document. */
module FlowProfile {
  import opened Text
  import opened Wrappers
  import opened ElementTree
  import opened MigrationCamel

  // ----- the profile -----

  /** An element of this tag with these attributes, and nothing but white space around its children. */
  ghost predicate IsBare(n: Node, tag: string, names: set<string>) {
    && n.tag == tag
    && (forall name :: name in names <==> exists a | a in n.attributes :: a.name == name)
    && (forall c | c in n.text :: IsSpace(c)) && (forall c | c in n.tail :: IsSpace(c))
  }

  /** A letter or an underscore, and then letters, digits, underscores, dots and hyphens. */
  predicate IsNameText(s: string) {
    && s != "" && ('a' <= s[0] <= 'z' || 'A' <= s[0] <= 'Z' || s[0] == '_')
    && forall c | c in s :: 'a' <= c <= 'z' || 'A' <= c <= 'Z' || '0' <= c <= '9' || c == '_' || c == '.' || c == '-'
  }

  ghost predicate IsFieldText(field: string) {
    field == "body" || exists name :: field == "header." + name && IsNameText(name)
  }

  /** No placeholder of Camel in it, and no resource. */
  predicate IsValueText(value: string) {
    && (forall i | 0 <= i < |value| - 1 :: !(value[i] == '{' && value[i + 1] == '{'))
    && !("resource:" <= value)
  }

  ghost predicate IsAssignment(n: Node) {
    && IsBare(n, "MAPSET", {"FIELD", "VALUE"}) && n.children == []
    && exists a, b | a in n.attributes && b in n.attributes ::
         && a.name == "FIELD" && Lookup(n.attributes, "FIELD") == Some(a.value) && IsFieldText(a.value)
         && b.name == "VALUE" && Lookup(n.attributes, "VALUE") == Some(b.value) && IsValueText(b.value)
  }

  ghost predicate IsMapping(n: Node) {
    IsBare(n, "MAP", {}) && n.children != [] && forall c | c in n.children :: IsAssignment(c)
  }

  ghost predicate IsDocumented(root: Node) {
    && IsBare(root, "FLOW", {"NAME"}) && Lookup(root.attributes, "NAME").Some?
    && IsNameText(Lookup(root.attributes, "NAME").value)
    && |root.children| == 1 && IsBare(root.children[0], "SEQUENCE", {})
    && root.children[0].children != [] && forall m | m in root.children[0].children :: IsMapping(m)
  }

  lemma BareIff(n: Node, tag: string, names: set<string>)
    ensures HasShape(n, tag, names) <==> IsBare(n, tag, names)
  {
    BlankIff(n.text);
    BlankIff(n.tail);
    if IsBare(n, tag, names) {
      forall name ensures name in Names(n.attributes) <==> name in names {
      }
    }
  }

  lemma BlankIff(s: string)
    ensures IsBlank(s) <==> forall c | c in s :: IsSpace(c)
  {
    if forall c | c in s :: IsSpace(c) {
      forall i | 0 <= i < |s| ensures IsSpace(s[i]) {
        assert s[i] in s;
      }
    }
  }

  lemma NameIff(s: string)
    ensures IsName(s) <==> IsNameText(s)
  {
    if IsNameText(s) {
      forall i | 0 <= i < |s| ensures IsNameChar(s[i]) {
        assert s[i] in s;
      }
    }
  }

  lemma FieldIff(field: string)
    ensures SupportedField(field) <==> IsFieldText(field)
  {
    if "header." <= field {
      assert field == "header." + field[7..];
      NameIff(field[7..]);
    }
    if name :| field == "header." + name && IsNameText(name) {
      assert field[7..] == name;
    }
  }

  lemma ValueIff(value: string)
    ensures SupportedValue(value) <==> IsValueText(value)
  {
    if Contains(value, "{{") {
      var i :| 0 <= i <= |value| && "{{" <= value[i..];
      assert value[i] == value[i..][0] == '{' && value[i + 1] == value[i..][1] == '{';
    }
    if i :| 0 <= i < |value| - 1 && value[i] == '{' && value[i + 1] == '{' {
      assert value[i..][0] == '{' && value[i..][1] == '{';
      assert "{{" <= value[i..];
    }
  }

  lemma AssignmentIff(n: Node)
    ensures IsMapset(n) <==> IsAssignment(n)
  {
    BareIff(n, "MAPSET", {"FIELD", "VALUE"});
    if HasShape(n, "MAPSET", {"FIELD", "VALUE"}) {
      var field, value := Lookup(n.attributes, "FIELD").value, Lookup(n.attributes, "VALUE").value;
      assert Attribute("FIELD", field) in n.attributes && Attribute("VALUE", value) in n.attributes;
      FieldIff(field);
      ValueIff(value);
    }
  }

  lemma MappingIff(n: Node)
    ensures IsMap(n) <==> IsMapping(n)
  {
    BareIff(n, "MAP", {});
    forall c | c in n.children ensures IsMapset(c) <==> IsAssignment(c) {
      AssignmentIff(c);
    }
  }

  /** A document is accepted if and only if it is in the profile as documented. */
  lemma AcceptedIffDocumented(root: Node)
    ensures FlowOf(root).Ok? <==> IsDocumented(root)
  {
    AcceptsExactlyTheProfile(root);
    BareIff(root, "FLOW", {"NAME"});
    if HasShape(root, "FLOW", {"NAME"}) {
      NameIff(Lookup(root.attributes, "NAME").value);
    }
    if |root.children| == 1 {
      BareIff(root.children[0], "SEQUENCE", {});
      forall m | m in root.children[0].children ensures IsMap(m) <==> IsMapping(m) {
        MappingIff(m);
      }
    }
  }

  // ----- refusals -----

  /** An element of the document, down to the level of MAPSETs. */
  predicate InDocument(n: Node, root: Node) {
    || n == root || n in root.children
    || (exists s | s in root.children :: n in s.children || exists m | m in s.children :: n in m.children)
  }

  function ExpectedAttributes(tag: string): set<string> {
    if tag == "FLOW" then {"NAME"} else if tag == "MAPSET" then {"FIELD", "VALUE"} else {}
  }

  /** The element is wrong in the way that the error says. */
  ghost predicate IsWrong(n: Node, e: FlowError) {
    match e
    case UnsupportedElement(tag, expected) => n.tag == tag && (tag != expected || Names(n.attributes) != ExpectedAttributes(expected))
    case MixedContent => (exists c | c in n.text :: !IsSpace(c)) || exists c | c in n.tail :: !IsSpace(c)
    case InvalidName => n.tag == "FLOW" && Lookup(n.attributes, "NAME").Some? && !IsNameText(Lookup(n.attributes, "NAME").value)
    case NotOneSequence => n.tag == "FLOW" && |n.children| != 1
    case EmptySequence => n.tag == "SEQUENCE" && n.children == []
    case EmptyMap => n.tag == "MAP" && n.children == []
    case NestedMapset => n.tag == "MAPSET" && n.children != []
    case UnsupportedField(field) => n.tag == "MAPSET" && Lookup(n.attributes, "FIELD") == Some(field) && !IsFieldText(field)
    case Placeholder => n.tag == "MAPSET" && Lookup(n.attributes, "VALUE").Some? && !IsValueText(Lookup(n.attributes, "VALUE").value)
  }

  lemma ShapeIsWrong(n: Node, tag: string)
    requires Shape(n, tag, ExpectedAttributes(tag)).Some?
    ensures IsWrong(n, Shape(n, tag, ExpectedAttributes(tag)).value)
  {
    BlankIff(n.text);
    BlankIff(n.tail);
  }

  lemma MapsetIsWrong(n: Node)
    requires MapsetProblem(n).Some?
    ensures IsWrong(n, MapsetProblem(n).value)
  {
    FieldIff(AssignmentOf(n).field);
    ValueIff(AssignmentOf(n).value);
    if Shape(n, "MAPSET", {"FIELD", "VALUE"}).Some? {
      ShapeIsWrong(n, "MAPSET");
    }
  }

  lemma {:induction false} WrongMapset(ns: seq<Node>) returns (n: Node)
    requires ReadMapsets(ns).Err?
    ensures n in ns && IsWrong(n, ReadMapsets(ns).error)
  {
    if MapsetProblem(ns[0]).Some? {
      n := ns[0];
      MapsetIsWrong(n);
    } else {
      n := WrongMapset(ns[1..]);
    }
  }

  lemma {:induction false} WrongMap(ns: seq<Node>) returns (n: Node)
    requires ReadMaps(ns).Err?
    ensures n in ns || exists m | m in ns :: n in m.children
    ensures IsWrong(n, ReadMaps(ns).error)
  {
    if Shape(ns[0], "MAP", {}).Some? {
      n := ns[0];
      ShapeIsWrong(n, "MAP");
    } else if ns[0].children == [] {
      n := ns[0];
    } else if ReadMapsets(ns[0].children).Err? {
      n := WrongMapset(ns[0].children);
      assert ns[0] in ns;
    } else {
      n := WrongMap(ns[1..]);
      assert forall m | m in ns[1..] :: m in ns;
    }
  }

  /** A refusal points to an element of the document that is wrong in just that way. */
  lemma RefusalIsJustified(root: Node)
    requires FlowOf(root).Err?
    ensures exists n: Node :: InDocument(n, root) && IsWrong(n, FlowOf(root).error)
  {
    var e := FlowOf(root).error;
    if Shape(root, "FLOW", {"NAME"}).Some? {
      ShapeIsWrong(root, "FLOW");
      assert InDocument(root, root) && IsWrong(root, e);
    } else {
      NameIff(Lookup(root.attributes, "NAME").value);
      if !IsName(Lookup(root.attributes, "NAME").value) || |root.children| != 1 {
        assert InDocument(root, root) && IsWrong(root, e);
      } else {
        SequenceIsWrong(root);
      }
    }
  }

  lemma SequenceIsWrong(root: Node)
    requires FlowOf(root).Err? && HasShape(root, "FLOW", {"NAME"}) && |root.children| == 1
    requires IsName(Lookup(root.attributes, "NAME").value)
    ensures exists n: Node :: InDocument(n, root) && IsWrong(n, FlowOf(root).error)
  {
    var e, steps := FlowOf(root).error, root.children[0];
    assert steps in root.children && InDocument(steps, root);
    if Shape(steps, "SEQUENCE", {}).Some? {
      ShapeIsWrong(steps, "SEQUENCE");
      assert IsWrong(steps, e);
    } else if ReadMaps(steps.children).Err? {
      var n := WrongMap(steps.children);
      assert InDocument(n, root) && IsWrong(n, e);
    } else {
      NoAssignmentNoMap(steps.children);
      assert IsWrong(steps, e);
    }
  }

  lemma NoAssignmentNoMap(ns: seq<Node>)
    requires ReadMaps(ns) == Ok([])
    ensures ns == []
  {
    ReadMapsAccepts(ns);
    ReadMapsValue(ns);
  }
}
