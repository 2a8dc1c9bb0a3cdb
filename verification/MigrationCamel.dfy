/** The FLOW to Camel translator: the strict reader of flows and the generator of routes. */
module MigrationCamel {
  import opened Text
  import opened Wrappers
  import opened ElementText
  import opened ElementTree

  datatype Assignment = Assignment(field: string, value: string)
  datatype Flow = Flow(name: string, assignments: seq<Assignment>)

  datatype FlowError =
    | UnsupportedElement(tag: string, expected: string)
    | MixedContent
    | InvalidName
    | NotOneSequence
    | EmptyMap
    | NestedMapset
    | UnsupportedField(field: string)
    | Placeholder
    | EmptySequence

  const NAMESPACE := "http://camel.apache.org/schema/spring"

  type Read = Result<seq<Assignment>, FlowError>

  // ----- the documented profile -----

  predicate HasShape(node: Node, tag: string, attributes: set<string>) {
    node.tag == tag && Names(node.attributes) == attributes && IsBlank(node.text) && IsBlank(node.tail)
  }

  predicate SupportedField(field: string) {
    field == "body" || ("header." <= field && IsName(field[7..]))
  }

  predicate SupportedValue(value: string) {
    !Contains(value, "{{") && !("resource:" <= value)
  }

  /** The assignment that a MAPSET stands for. */
  function AssignmentOf(mapset: Node): Assignment {
    Assignment(Lookup(mapset.attributes, "FIELD").GetOr(""), Lookup(mapset.attributes, "VALUE").GetOr(""))
  }

  predicate IsMapset(n: Node) {
    && HasShape(n, "MAPSET", {"FIELD", "VALUE"}) && n.children == []
    && SupportedField(AssignmentOf(n).field) && SupportedValue(AssignmentOf(n).value)
  }

  predicate IsMap(n: Node) {
    HasShape(n, "MAP", {}) && n.children != [] && forall c | c in n.children :: IsMapset(c)
  }

  /** FLOW with a name, one SEQUENCE, one or more MAPs, each of one or more leaf MAPSETs. */
  predicate InProfile(root: Node) {
    && HasShape(root, "FLOW", {"NAME"}) && IsName(Lookup(root.attributes, "NAME").value)
    && |root.children| == 1 && HasShape(root.children[0], "SEQUENCE", {})
    && root.children[0].children != [] && forall m | m in root.children[0].children :: IsMap(m)
  }

  /** Every MAPSET element of a tree, in document order, at whatever depth. */
  function Mapsets(n: Node): seq<Node>
    decreases n, 1
  {
    (if n.tag == "MAPSET" then [n] else []) + AllMapsets(n.children)
  }

  function AllMapsets(ns: seq<Node>): seq<Node>
    decreases ns, 0
  {
    if ns == [] then [] else Mapsets(ns[0]) + AllMapsets(ns[1..])
  }

  // ----- read_flow -----

  function Shape(node: Node, tag: string, attributes: set<string>): (r: Option<FlowError>)
    ensures r == None <==> HasShape(node, tag, attributes)
  {
    if node.tag != tag || Names(node.attributes) != attributes then Some(UnsupportedElement(node.tag, tag))
    else if !IsBlank(node.text) || !IsBlank(node.tail) then Some(MixedContent)
    else None
  }

  /** Puts what was read before in front of what is read next. */
  function After(before: seq<Assignment>, r: Read): Read {
    match r
    case Ok(more) => Ok(before + more)
    case Err(e) => Err(e)
  }

  function Then(first: Read, second: Read): Read {
    match first
    case Ok(before) => After(before, second)
    case Err(e) => Err(e)
  }

  /** The first reason to refuse a MAPSET. */
  function MapsetProblem(n: Node): (r: Option<FlowError>)
    ensures r == None <==> IsMapset(n)
  {
    var bad := Shape(n, "MAPSET", {"FIELD", "VALUE"});
    var a := AssignmentOf(n);
    if bad.Some? then bad
    else if n.children != [] then Some(NestedMapset)
    else if !SupportedField(a.field) then Some(UnsupportedField(a.field))
    else if !SupportedValue(a.value) then Some(Placeholder)
    else None
  }

  function ReadMapsets(ns: seq<Node>): Read {
    if ns == [] then Ok([])
    else
      var bad := MapsetProblem(ns[0]);
      if bad.Some? then Err(bad.value) else After([AssignmentOf(ns[0])], ReadMapsets(ns[1..]))
  }

  function ReadMaps(ns: seq<Node>): Read {
    if ns == [] then Ok([])
    else
      var bad := Shape(ns[0], "MAP", {});
      if bad.Some? then Err(bad.value)
      else if ns[0].children == [] then Err(EmptyMap)
      else Then(ReadMapsets(ns[0].children), ReadMaps(ns[1..]))
  }

  /** The flow in a tree, or the first error in document order. */
  function FlowOf(root: Node): Result<Flow, FlowError> {
    var bad := Shape(root, "FLOW", {"NAME"});
    if bad.Some? then Err(bad.value)
    else
      var name := Lookup(root.attributes, "NAME").value;
      if !IsName(name) then Err(InvalidName)
      else if |root.children| != 1 then Err(NotOneSequence)
      else
        var steps := root.children[0];
        var badSteps := Shape(steps, "SEQUENCE", {});
        if badSteps.Some? then Err(badSteps.value)
        else
          var assignments :- ReadMaps(steps.children);
          if assignments == [] then Err(EmptySequence) else Ok(Flow(name, assignments))
  }

  lemma AfterNothing(r: Read)
    ensures After([], r) == r
  {
    if r.Ok? {
      assert [] + r.value == r.value;
    }
  }

  lemma AfterAfter(a: seq<Assignment>, b: seq<Assignment>, r: Read)
    ensures After(a, After(b, r)) == After(a + b, r)
  {
    if r.Ok? {
      assert a + (b + r.value) == a + b + r.value;
    }
  }

  lemma AfterThen(a: seq<Assignment>, first: Read, second: Read)
    ensures Then(After(a, first), second) == After(a, Then(first, second))
  {
    if first.Ok? {
      AfterAfter(a, first.value, second);
    }
  }

  /** `read_flow` from the parsed document on: two nested loops append to one list. */
  method ReadFlow(root: Node) returns (r: Result<Flow, FlowError>)
    ensures r == FlowOf(root)
  {
    var bad := Shape(root, "FLOW", {"NAME"});
    if bad.Some? { return Err(bad.value); }
    var name := Lookup(root.attributes, "NAME").value;
    if !IsName(name) { return Err(InvalidName); }
    if |root.children| != 1 { return Err(NotOneSequence); }
    var maps := root.children[0].children;
    bad := Shape(root.children[0], "SEQUENCE", {});
    if bad.Some? { return Err(bad.value); }
    var assignments: seq<Assignment> := [];
    AfterNothing(ReadMaps(maps));
    for i := 0 to |maps|
      invariant ReadMaps(maps) == After(assignments, ReadMaps(maps[i..]))
    {
      bad := Shape(maps[i], "MAP", {});
      if bad.Some? { return Err(bad.value); }
      var mapsets := maps[i].children;
      if |mapsets| == 0 { return Err(EmptyMap); }
      ghost var rest := ReadMaps(maps[i + 1..]);
      assert maps[i..][1..] == maps[i + 1..];
      for j := 0 to |mapsets|
        invariant ReadMaps(maps) == After(assignments, Then(ReadMapsets(mapsets[j..]), rest))
      {
        assert mapsets[j..][1..] == mapsets[j + 1..];
        bad := Shape(mapsets[j], "MAPSET", {"FIELD", "VALUE"});
        if bad.Some? { return Err(bad.value); }
        if |mapsets[j].children| != 0 { return Err(NestedMapset); }
        var a := AssignmentOf(mapsets[j]);
        if !SupportedField(a.field) { return Err(UnsupportedField(a.field)); }
        if !SupportedValue(a.value) { return Err(Placeholder); }
        AfterThen([a], ReadMapsets(mapsets[j + 1..]), rest);
        AfterAfter(assignments, [a], Then(ReadMapsets(mapsets[j + 1..]), rest));
        assignments := assignments + [a];
      }
      AfterNothing(rest);
    }
    assert assignments + [] == assignments;
    if |assignments| == 0 { return Err(EmptySequence); }
    return Ok(Flow(name, assignments));
  }

  // ----- acceptance and flattening -----

  function AssignmentsOf(mapsets: seq<Node>): (r: seq<Assignment>)
    ensures |r| == |mapsets|
    ensures forall i | 0 <= i < |r| :: r[i] == AssignmentOf(mapsets[i])
  {
    if mapsets == [] then [] else [AssignmentOf(mapsets[0])] + AssignmentsOf(mapsets[1..])
  }

  lemma {:induction false} ReadMapsetsAccepts(ns: seq<Node>)
    ensures ReadMapsets(ns).Ok? <==> forall n | n in ns :: IsMapset(n)
  {
    if ns != [] {
      HeadOrTail(ns);
      ReadMapsetsAccepts(ns[1..]);
    }
  }

  lemma HeadOrTail(ns: seq<Node>)
    requires ns != []
    ensures forall n :: n in ns <==> n == ns[0] || n in ns[1..]
  {
    assert ns == [ns[0]] + ns[1..];
  }

  lemma {:induction false} ReadMapsetsValue(ns: seq<Node>)
    requires forall n | n in ns :: IsMapset(n)
    ensures ReadMapsets(ns) == Ok(AssignmentsOf(ns))
  {
    if ns != [] {
      ReadMapsetsValue(ns[1..]);
    }
  }

  lemma {:induction false} MapsetsOfOneMap(ns: seq<Node>)
    requires forall n | n in ns :: IsMapset(n)
    ensures AllMapsets(ns) == ns
  {
    if ns != [] {
      MapsetsOfOneMap(ns[1..]);
      LeafMapset(ns[0]);
      assert [ns[0]] + ns[1..] == ns;
    }
  }

  lemma LeafMapset(n: Node)
    requires IsMapset(n)
    ensures Mapsets(n) == [n]
  {
    assert AllMapsets(n.children) == [];
  }

  lemma MapIsRead(n: Node)
    ensures IsMap(n) <==> Shape(n, "MAP", {}) == None && n.children != [] && ReadMapsets(n.children).Ok?
  {
    ReadMapsetsAccepts(n.children);
  }

  lemma {:induction false} ReadMapsAccepts(ns: seq<Node>)
    ensures ReadMaps(ns).Ok? <==> forall n | n in ns :: IsMap(n)
  {
    if ns != [] {
      HeadOrTail(ns);
      MapIsRead(ns[0]);
      ReadMapsAccepts(ns[1..]);
    }
  }

  lemma AssignmentsConcat(a: seq<Node>, b: seq<Node>)
    ensures AssignmentsOf(a + b) == AssignmentsOf(a) + AssignmentsOf(b)
  {
  }

  lemma {:induction false} ReadMapsValue(ns: seq<Node>)
    requires forall n | n in ns :: IsMap(n)
    ensures ReadMaps(ns) == Ok(AssignmentsOf(AllMapsets(ns)))
    ensures |AllMapsets(ns)| >= |ns|
  {
    if ns != [] {
      var here, rest := ns[0].children, AllMapsets(ns[1..]);
      MapIsRead(ns[0]);
      MapsetsOfMap(ns[0]);
      ReadMapsetsValue(here);
      ReadMapsValue(ns[1..]);
      AssignmentsConcat(here, rest);
    }
  }

  lemma MapsetsOfMap(n: Node)
    requires IsMap(n)
    ensures Mapsets(n) == n.children
  {
    MapsetsOfOneMap(n.children);
  }

  lemma {:induction false} MapsetsOfMaps(ns: seq<Node>)
    requires forall n | n in ns :: IsMap(n)
    ensures forall n | n in AllMapsets(ns) :: IsMapset(n)
  {
    if ns != [] {
      assert IsMap(ns[0]);
      MapsetsOfMap(ns[0]);
      MapsetsOfMaps(ns[1..]);
    }
  }

  /** A tree is accepted exactly when it lies in the documented profile. */
  lemma AcceptsExactlyTheProfile(root: Node)
    ensures FlowOf(root).Ok? <==> InProfile(root)
  {
    if |root.children| == 1 {
      var maps := root.children[0].children;
      ReadMapsAccepts(maps);
      if forall m | m in maps :: IsMap(m) {
        ReadMapsValue(maps);
      }
    }
  }

  /** Of an accepted tree, every MAPSET at any depth becomes one assignment, in document
      order, and there is no other assignment. */
  lemma NothingDroppedOrInvented(root: Node)
    requires FlowOf(root).Ok?
    ensures forall n | n in Mapsets(root) :: IsMapset(n)
    ensures FlowOf(root).value == Flow(Lookup(root.attributes, "NAME").value, AssignmentsOf(Mapsets(root)))
  {
    var maps := root.children[0].children;
    AcceptsExactlyTheProfile(root);
    ReadMapsValue(maps);
    MapsetsOfMaps(maps);
    assert root.children == [root.children[0]];
    assert AllMapsets(root.children) == Mapsets(root.children[0]) + [];
    assert Mapsets(root) == AllMapsets(maps);
  }

  /** What the reader promises about an accepted flow. */
  predicate ValidFlow(flow: Flow) {
    && IsName(flow.name) && flow.assignments != []
    && forall a | a in flow.assignments :: SupportedField(a.field) && SupportedValue(a.value)
  }

  predicate LegalFlow(flow: Flow) {
    forall a | a in flow.assignments :: IsLegal(a.value)
  }

  lemma AcceptedFlowIsValid(root: Node)
    requires FlowOf(root).Ok?
    ensures ValidFlow(FlowOf(root).value)
    ensures LegalTree(root) ==> LegalFlow(FlowOf(root).value)
  {
    NothingDroppedOrInvented(root);
    var flow := FlowOf(root).value;
    forall a | a in flow.assignments ensures SupportedField(a.field) && SupportedValue(a.value) {
      var i :| 0 <= i < |flow.assignments| && flow.assignments[i] == a;
      assert IsMapset(Mapsets(root)[i]);
    }
    if LegalTree(root) {
      AcceptedFlowIsLegal(root);
    }
  }

  lemma AcceptedFlowIsLegal(root: Node)
    requires FlowOf(root).Ok? && LegalTree(root)
    ensures LegalFlow(FlowOf(root).value)
  {
    var assignments := FlowOf(root).value.assignments;
    NothingDroppedOrInvented(root);
    MapsetsAreLegal(root);
    forall a | a in assignments ensures IsLegal(a.value) {
      var i :| 0 <= i < |assignments| && assignments[i] == a;
      assert LegalTree(Mapsets(root)[i]);
    }
  }

  lemma {:induction false} MapsetsAreLegal(n: Node)
    requires LegalTree(n)
    ensures forall m | m in Mapsets(n) :: LegalTree(m)
    decreases n, 1
  {
    AllMapsetsAreLegal(n.children);
  }

  lemma {:induction false} AllMapsetsAreLegal(ns: seq<Node>)
    requires forall n | n in ns :: LegalTree(n)
    ensures forall m | m in AllMapsets(ns) :: LegalTree(m)
    decreases ns, 0
  {
    if ns != [] {
      MapsetsAreLegal(ns[0]);
      AllMapsetsAreLegal(ns[1..]);
    }
  }

  // ----- every valid flow can be written -----

  function MapsetOf(a: Assignment): Node {
    Node("MAPSET", [Attribute("FIELD", a.field), Attribute("VALUE", a.value)], "", [], "")
  }

  /** A source document for a flow: all its assignments in one MAP. */
  function SourceOf(flow: Flow): Node {
    var mapsets := seq(|flow.assignments|, i requires 0 <= i < |flow.assignments| => MapsetOf(flow.assignments[i]));
    Node("FLOW", [Attribute("NAME", flow.name)], "", [Node("SEQUENCE", [], "", [Node("MAP", [], "", mapsets, "")], "")], "")
  }

  lemma MapsetOfReads(a: Assignment)
    ensures var n := MapsetOf(a);
      HasShape(n, "MAPSET", {"FIELD", "VALUE"}) && n.children == [] && AssignmentOf(n) == a
  {
    var n := MapsetOf(a);
    assert n.attributes[0].name == "FIELD" && n.attributes[1].name == "VALUE";
    assert n.attributes[1..][0] == n.attributes[1];
  }

  lemma SourceIsInProfile(flow: Flow)
    requires ValidFlow(flow)
    ensures InProfile(SourceOf(flow))
  {
    var root := SourceOf(flow);
    var mapping := root.children[0].children[0];
    assert root.attributes[0].name == "NAME";
    assert Names(root.attributes) == {"NAME"};
    forall c | c in mapping.children ensures IsMapset(c) {
      var i :| 0 <= i < |mapping.children| && mapping.children[i] == c;
      MapsetOfReads(flow.assignments[i]);
    }
    assert IsMap(mapping);
  }

  lemma SourceReads(flow: Flow)
    requires ValidFlow(flow)
    ensures FlowOf(SourceOf(flow)) == Ok(flow)
  {
    var root := SourceOf(flow);
    var mapsets := root.children[0].children[0].children;
    SourceIsInProfile(flow);
    AcceptsExactlyTheProfile(root);
    assert IsMap(root.children[0].children[0]);
    ReadMapsetsValue(mapsets);
    assert ReadMaps(root.children[0].children) == Then(ReadMapsets(mapsets), Ok([]));
    forall i | 0 <= i < |flow.assignments| ensures AssignmentsOf(mapsets)[i] == flow.assignments[i] {
      MapsetOfReads(flow.assignments[i]);
    }
    assert AssignmentsOf(mapsets) == flow.assignments;
    assert flow.assignments + [] == flow.assignments;
    assert root.attributes[0].name == "NAME";
  }

  /** Exactly the valid flows are the result of reading some document. */
  lemma ValidFlowsAreReadable(flow: Flow)
    ensures ValidFlow(flow) <==> exists root: Node :: FlowOf(root) == Ok(flow)
  {
    if ValidFlow(flow) {
      SourceReads(flow);
    }
    forall root: Node | FlowOf(root) == Ok(flow) ensures ValidFlow(flow) {
      AcceptedFlowIsValid(root);
    }
  }

  // ----- generate -----

  /** `field[7:]` */
  function AfterPrefix(field: string): string {
    if |field| >= 7 then field[7..] else ""
  }

  function Element(tag: string, attributes: seq<Attribute>, text: string, children: seq<Node>): Node {
    Node(tag, attributes, text, children, "")
  }

  function StepOf(a: Assignment): Node {
    var constant := Element("constant", [Attribute("trim", "false")], a.value, []);
    if a.field == "body" then Element("setBody", [], "", [constant])
    else Element("setHeader", [Attribute("name", AfterPrefix(a.field))], "", [constant])
  }

  function StepsOf(assignments: seq<Assignment>): (r: seq<Node>) {
    if assignments == [] then [] else [StepOf(assignments[0])] + StepsOf(assignments[1..])
  }

  function FromOf(name: string): Node {
    Element("from", [Attribute("uri", "direct:" + name)], "", [])
  }

  function RoutesOf(flow: Flow): Node {
    Element("routes", [Attribute("xmlns", NAMESPACE)], "",
            [Element("route", [Attribute("id", flow.name)], "", [FromOf(flow.name)] + StepsOf(flow.assignments))])
  }

  function CamelXml(flow: Flow): string {
    ProtectCr(Print(Indent(RoutesOf(flow), 0)))
  }

  lemma {:induction false} StepsSnoc(assignments: seq<Assignment>, a: Assignment)
    ensures StepsOf(assignments + [a]) == StepsOf(assignments) + [StepOf(a)]
  {
    if assignments == [] {
      assert StepsOf([a]) == [StepOf(a)] + StepsOf([]);
      assert assignments + [a] == [a];
    } else {
      assert (assignments + [a])[1..] == assignments[1..] + [a];
      StepsSnoc(assignments[1..], a);
    }
  }

  /** `generate`: the route grows one step at a time, then the tree is indented and printed. */
  method Generate(flow: Flow) returns (xml: string)
    ensures xml == CamelXml(flow)
  {
    var route := Element("route", [Attribute("id", flow.name)], "", []);
    route := route.(children := route.children + [FromOf(flow.name)]);
    for i := 0 to |flow.assignments|
      invariant route == Element("route", [Attribute("id", flow.name)], "", [FromOf(flow.name)] + StepsOf(flow.assignments[..i]))
    {
      var a := flow.assignments[i];
      var step := if a.field == "body" then Element("setBody", [], "", [])
                  else Element("setHeader", [Attribute("name", AfterPrefix(a.field))], "", []);
      step := step.(children := step.children + [Element("constant", [Attribute("trim", "false")], a.value, [])]);
      assert step == StepOf(a);
      route := route.(children := route.children + [step]);
      StepsSnoc(flow.assignments[..i], a);
      assert flow.assignments[..i + 1] == flow.assignments[..i] + [a];
    }
    assert flow.assignments[..|flow.assignments|] == flow.assignments;
    xml := ProtectCr(Print(Indent(Element("routes", [Attribute("xmlns", NAMESPACE)], "", [route]), 0)));
  }
}
