/** The offline campaign: the meaning of assignments, the independent reader of generated
    routes, and the verdict on every flow. */
module MigrationCampaign {
  import opened Text
  import opened Wrappers
  import opened ElementText
  import opened ElementTree
  import opened Dicts
  import opened MigrationCamel
  import opened MigrationDifferential
  import Json
  import ElementRoundTrip

  // ----- capture -----

  function BodyAfter(assignments: seq<Assignment>): string {
    if assignments == [] then ""
    else
      var last := assignments[|assignments| - 1];
      if last.field == "body" then last.value else BodyAfter(assignments[..|assignments| - 1])
  }

  function HeadersAfter(assignments: seq<Assignment>): Headers {
    if assignments == [] then []
    else
      var before, last := HeadersAfter(assignments[..|assignments| - 1]), assignments[|assignments| - 1];
      if last.field == "body" then before else Put(before, AfterPrefix(last.field), Json.String(last.value))
  }

  function Captured(assignments: seq<Assignment>): Json.Json {
    Envelope(Json.Object([]), Response(Json.String(BodyAfter(assignments)), Json.Int(200), HeadersAfter(assignments)),
             Json.Array([]), Json.Object([]))
  }

  method Capture(assignments: seq<Assignment>) returns (record: Json.Json)
    ensures record == Captured(assignments)
  {
    var body := "";
    var headers: Headers := [];
    for i := 0 to |assignments|
      invariant body == BodyAfter(assignments[..i])
      invariant headers == HeadersAfter(assignments[..i])
    {
      assert assignments[..i + 1][..i] == assignments[..i];
      if assignments[i].field == "body" {
        body := assignments[i].value;
      } else {
        headers := Put(headers, AfterPrefix(assignments[i].field), Json.String(assignments[i].value));
      }
    }
    assert assignments[..|assignments|] == assignments;
    record := Envelope(Json.Object([]), Response(Json.String(body), Json.Int(200), headers), Json.Array([]), Json.Object([]));
  }

  // ----- candidate_assignments -----

  datatype CandidateError = NotXml | MissingRoute | UnsupportedStep | NotUntrimmed | MissingName

  type Candidate = Result<seq<Assignment>, CandidateError>

  const ROUTE := Qualify(NAMESPACE, "route")
  const SET_BODY := Qualify(NAMESPACE, "setBody")
  const SET_HEADER := Qualify(NAMESPACE, "setHeader")
  const CONSTANT := Qualify(NAMESPACE, "constant")

  /** `element.find(tag)` */
  function Find(ns: seq<Node>, tag: string): Option<Node> {
    if ns == [] then None else if ns[0].tag == tag then Some(ns[0]) else Find(ns[1..], tag)
  }

  function ReadStep(step: Node): Result<Assignment, CandidateError> {
    var constant := Find(step.children, CONSTANT);
    if step.tag != SET_BODY && step.tag != SET_HEADER then Err(UnsupportedStep)
    else if constant == None || Lookup(constant.value.attributes, "trim") != Some("false") then Err(NotUntrimmed)
    else if step.tag == SET_BODY then Ok(Assignment("body", constant.value.text))
    else if Lookup(step.attributes, "name") == None then Err(MissingName)
    else Ok(Assignment("header." + Lookup(step.attributes, "name").value, constant.value.text))
  }

  function ReadSteps(steps: seq<Node>): Candidate {
    if steps == [] then Ok([])
    else
      var a :- ReadStep(steps[0]);
      var others :- ReadSteps(steps[1..]);
      Ok([a] + others)
  }

  function CandidateOf(xml: string): Candidate {
    match FromString(xml)
    case None => Err(NotXml)
    case Some(root) =>
      var route := Find(root.children, ROUTE);
      if route == None then Err(MissingRoute)
      else ReadSteps(if route.value.children == [] then [] else route.value.children[1..])
  }

  function Prefixed(first: seq<Assignment>, r: Candidate): Candidate {
    if r.Ok? then Ok(first + r.value) else r
  }

  /** The body of the loop, up to its `yield`. */
  method ReadOne(step: Node) returns (r: Result<Assignment, CandidateError>)
    ensures r == ReadStep(step)
  {
    if step.tag != SET_BODY && step.tag != SET_HEADER { return Err(UnsupportedStep); }
    var constant := Find(step.children, CONSTANT);
    if constant.None? { return Err(NotUntrimmed); }
    if Lookup(constant.value.attributes, "trim") != Some("false") { return Err(NotUntrimmed); }
    var field := "body";
    if step.tag != SET_BODY {
      var name := Lookup(step.attributes, "name");
      if name.None? { return Err(MissingName); }
      field := "header." + name.value;
    }
    return Ok(Assignment(field, constant.value.text));
  }

  lemma PrefixedOneMore(read: seq<Assignment>, a: Assignment, others: Candidate)
    ensures Prefixed(read, Prefixed([a], others)) == Prefixed(read + [a], others)
  {
    if others.Ok? {
      assert read + ([a] + others.value) == read + [a] + others.value;
    }
  }

  /** What the generator yields; its consumer reads it to the end. */
  method CandidateAssignments(xml: string) returns (r: Candidate)
    ensures r == CandidateOf(xml)
  {
    var root := FromString(xml);
    if root.None? { return Err(NotXml); }
    var route := Find(root.value.children, ROUTE);
    if route.None? { return Err(MissingRoute); }
    var steps := if |route.value.children| == 0 then [] else route.value.children[1..];
    r := ReadAll(steps);
  }

  method ReadAll(steps: seq<Node>) returns (r: Candidate)
    ensures r == ReadSteps(steps)
  {
    var read: seq<Assignment> := [];
    if ReadSteps(steps).Ok? {
      assert [] + ReadSteps(steps).value == ReadSteps(steps).value;
    }
    for i := 0 to |steps|
      invariant ReadSteps(steps) == Prefixed(read, ReadSteps(steps[i..]))
    {
      assert steps[i..][1..] == steps[i + 1..];
      var one := ReadOne(steps[i]);
      if one.Err? { return Err(one.error); }
      PrefixedOneMore(read, one.value, ReadSteps(steps[i + 1..]));
      read := read + [one.value];
    }
    assert read + [] == read;
    return Ok(read);
  }

  // ----- generated routes are read back -----

  /** What generation needs of a flow: text that XML can hold, and fields with a meaning. */
  predicate Translatable(flow: Flow) {
    && IsLegal(flow.name)
    && forall a | a in flow.assignments :: TranslatableAssignment(a)
  }

  predicate TranslatableAssignment(a: Assignment) {
    IsLegal(a.value) && (a.field == "body" || ("header." <= a.field && IsLegal(a.field[7..])))
  }

  lemma TagsAreNames()
    ensures IsName("routes") && IsName("route") && IsName("from")
    ensures IsName("setBody") && IsName("setHeader") && IsName("constant")
    ensures IsName("xmlns") && IsName("id") && IsName("uri") && IsName("name") && IsName("trim")
  {
  }

  lemma TextsAreLegal(name: string)
    requires IsLegal(name)
    ensures IsLegal(NAMESPACE) && IsLegal("direct:" + name) && IsLegal("false")
  {
  }

  lemma StepIsPrintable(a: Assignment)
    requires TranslatableAssignment(a)
    ensures Printable(StepOf(a))
  {
    TagsAreNames();
    TextsAreLegal("");
    var constant := Element("constant", [Attribute("trim", "false")], a.value, []);
    assert Printable(constant);
  }

  lemma {:induction false} StepsArePrintable(assignments: seq<Assignment>)
    requires forall a | a in assignments :: TranslatableAssignment(a)
    ensures forall n | n in StepsOf(assignments) :: Printable(n)
  {
    if assignments != [] {
      StepIsPrintable(assignments[0]);
      StepsArePrintable(assignments[1..]);
    }
  }

  lemma RoutesArePrintable(flow: Flow)
    requires Translatable(flow)
    ensures Printable(RoutesOf(flow))
  {
    TagsAreNames();
    TextsAreLegal(flow.name);
    StepsArePrintable(flow.assignments);
    var steps := StepsOf(flow.assignments);
    var children := [FromOf(flow.name)] + steps;
    assert Printable(FromOf(flow.name));
    forall c | c in children ensures Printable(c) {
      assert c == FromOf(flow.name) || c in steps;
    }
    var route := Element("route", [Attribute("id", flow.name)], "", children);
    assert Printable(route);
    assert RoutesOf(flow).children == [route];
  }

  lemma GeneratedTextParses(flow: Flow)
    requires Translatable(flow)
    ensures FromString(CamelXml(flow)) == Some(Resolve(Indent(RoutesOf(flow), 0), ""))
  {
    RoutesArePrintable(flow);
    IndentStaysPrintable(RoutesOf(flow), 0);
    IndentKeepsContent(RoutesOf(flow), 0);
    ElementRoundTrip.PrintedTreeReadsBack(Indent(RoutesOf(flow), 0));
  }

  lemma QualifiedTagsDiffer()
    ensures SET_BODY != SET_HEADER && ROUTE != "" && NAMESPACE != ""
  {
    assert |SET_BODY| != |SET_HEADER|;
  }

  /** Without declarations of its own, an element only has its tag qualified. */
  lemma ResolvePlain(n: Node, uri: string)
    requires |n.attributes| == 0 || (|n.attributes| == 1 && n.attributes[0].name != "xmlns")
    ensures Resolve(n, uri) == n.(tag := Qualify(uri, n.tag), children := ResolveAll(n.children, uri))
  {
    if |n.attributes| == 0 {
      assert n.attributes == [];
    } else {
      assert n.attributes == [n.attributes[0]];
      OneAttribute(n.attributes[0]);
    }
  }

  lemma OneAttribute(a: Attribute)
    requires a.name != "xmlns"
    ensures Lookup([a], "xmlns") == None && WithoutDeclaration([a]) == [a]
  {
    assert [a][1..] == [];
    assert [a] + [] == [a];
  }

  lemma StepReads(a: Assignment, tail: string, uri: string)
    requires TranslatableAssignment(a) && uri == NAMESPACE
    ensures ReadStep(Resolve(Indent(StepOf(a), 2).(tail := tail), uri)) == Ok(a)
  {
    var step := Indent(StepOf(a), 2).(tail := tail);
    var constant := StepOf(a).children[0];
    var indented := constant.(tail := Indentation(2));
    assert StepOf(a).children == [constant];
    assert [constant][1..] == [];
    assert Indent(constant, 3) == constant && IsBlank("");
    assert IndentAll([constant], 2) == [indented];
    assert step.children == [indented];
    ResolvePlain(step, uri);
    ResolvePlain(indented, uri);
    assert ResolveAll(step.children, uri) == [Resolve(indented, uri)];
    QualifiedTagsDiffer();
    if a.field != "body" {
      assert a.field == "header." + a.field[7..];
    }
  }

  lemma {:induction false} StepsRead(assignments: seq<Assignment>)
    requires forall a | a in assignments :: TranslatableAssignment(a)
    ensures ReadSteps(ResolveAll(IndentAll(StepsOf(assignments), 1), NAMESPACE)) == Ok(assignments)
  {
    if assignments != [] {
      var steps := StepsOf(assignments);
      assert steps[0] == StepOf(assignments[0]) && steps[1..] == StepsOf(assignments[1..]);
      var first := IndentAll(steps, 1)[0];
      assert first == Indent(steps[0], 2).(tail := first.tail);
      StepReads(assignments[0], first.tail, NAMESPACE);
      StepsRead(assignments[1..]);
      assert [assignments[0]] + assignments[1..] == assignments;
    }
  }

  /** The indented route, without the element around it, still yields its steps. */
  lemma RouteReads(flow: Flow, indented: Node)
    requires Translatable(flow)
    requires indented.tag == "route" && indented.attributes == [Attribute("id", flow.name)]
    requires indented.children == IndentAll([FromOf(flow.name)] + StepsOf(flow.assignments), 1)
    ensures var route := Resolve(indented, NAMESPACE);
      route.tag == ROUTE && route.children != [] && ReadSteps(route.children[1..]) == Ok(flow.assignments)
  {
    var steps := StepsOf(flow.assignments);
    var children := [FromOf(flow.name)] + steps;
    assert children[1..] == steps;
    assert indented.children[1..] == IndentAll(steps, 1);
    ResolvePlain(indented, NAMESPACE);
    assert ResolveAll(indented.children, NAMESPACE)[1..] == ResolveAll(IndentAll(steps, 1), NAMESPACE);
    StepsRead(flow.assignments);
  }

  /** The root declares the namespace, which the route inherits. */
  lemma RootReads(routes: Node, route: Node)
    requires routes.attributes == [Attribute("xmlns", NAMESPACE)] && routes.children == [route]
    ensures Resolve(routes, "").children == [Resolve(route, NAMESPACE)]
  {
    assert routes.attributes[0] == Attribute("xmlns", NAMESPACE);
    assert [route][1..] == [];
  }

  lemma IndentOnlyChild(root: Node, route: Node)
    requires root.children == [route] && route.children != []
    ensures var tree := Indent(root, 0);
      && tree.attributes == root.attributes && tree.children != []
      && tree.children == [tree.children[0]]
      && tree.children[0] == Indent(route, 1).(tail := tree.children[0].tail)
  {
    assert [route][1..] == [];
    assert |IndentAll([route], 0)| == 1;
  }

  lemma CandidateOfTree(xml: string, root: Node, assignments: seq<Assignment>)
    requires FromString(xml) == Some(root)
    requires |root.children| == 1 && root.children[0].tag == ROUTE && root.children[0].children != []
    requires ReadSteps(root.children[0].children[1..]) == Ok(assignments)
    ensures CandidateOf(xml) == Ok(assignments)
  {
  }

  /** Translation preserves meaning: the generated text is read back as exactly the
      original assignments, in order, with duplicates, empty values and white space. */
  lemma TranslationIsFaithful(flow: Flow)
    requires Translatable(flow)
    ensures CandidateOf(CamelXml(flow)) == Ok(flow.assignments)
  {
    var root := RoutesOf(flow);
    var tree := Indent(root, 0);
    GeneratedTextParses(flow);
    IndentOnlyChild(root, root.children[0]);
    RootReads(tree, tree.children[0]);
    RouteReads(flow, tree.children[0]);
    CandidateOfTree(CamelXml(flow), Resolve(tree, ""), flow.assignments);
  }

  // ----- run -----

  /** A fixture file: its path, and its element tree unless it cannot be read or parsed. */
  datatype Fixture = Fixture(path: string, document: Option<Node>)

  datatype Outcome = PASS | FAIL | ERROR

  datatype Problem =
    | Unreadable
    | BadFlow(flow: FlowError)
    | BadCandidate(candidate: CandidateError)
    | BadCapture(capture: CaptureError)
    | NoProblem

  datatype Row = Row(path: string, outcome: Outcome, diff: Comparison, routeXml: string, problem: Problem)

  /** `record["response"]["headers"]` */
  function HeaderItems(record: Json.Json): Headers {
    var headers := Field(Field(record, "response"), "headers");
    if headers.Object? then headers.members else []
  }

  /** `sorted(set(a) | set(b))` over the header names of two captures. */
  function SortedNames(headers: Headers): seq<string> {
    if headers == [] then [] else InsertName(headers[0].key, SortedNames(headers[1..]))
  }

  function NameArray(names: seq<string>): (r: Json.Json)
    ensures r.Array? && |r.items| == |names|
    ensures forall i | 0 <= i < |names| :: r.items[i] == Json.String(names[i])
  {
    Json.Array(seq(|names|, i requires 0 <= i < |names| => Json.String(names[i])))
  }

  /** The row of a flow that was read. */
  function FlowRow(path: string, flow: Flow): Row {
    var xml := CamelXml(flow);
    match CandidateOf(xml)
    case Err(e) => Row(path, ERROR, Same, xml, BadCandidate(e))
    case Ok(assignments) =>
      var reference, candidate := Captured(flow.assignments), Captured(assignments);
      match Compared(reference, candidate, SortedNames(HeaderItems(reference) + HeaderItems(candidate)))
      case Err(e) => Row(path, ERROR, Same, xml, BadCapture(e))
      case Ok(diff) => Row(path, if diff == Same then PASS else FAIL, diff, xml, NoProblem)
  }

  function RowOf(fixture: Fixture): Row {
    match fixture.document
    case None => Row(fixture.path, ERROR, Same, "", Unreadable)
    case Some(root) =>
      match FlowOf(root)
      case Err(e) => Row(fixture.path, ERROR, Same, "", BadFlow(e))
      case Ok(flow) => FlowRow(fixture.path, flow)
  }

  lemma {:induction false} NamesInArray(names: seq<string>)
    ensures forall x | x in NameArray(names).items :: IsText(x)
    ensures NamesIn(NameArray(names).items) == names
  {
    if names != [] {
      NamesInArray(names[1..]);
      assert NameArray(names).items[1..] == NameArray(names[1..]).items;
    }
  }

  /** `run` over the sorted list of fixtures; None is its error for an empty list. */
  method Run(fixtures: seq<Fixture>) returns (rows: Option<seq<Row>>)
    ensures rows == None <==> fixtures == []
    ensures rows.Some? ==> |rows.value| == |fixtures| && forall i | 0 <= i < |fixtures| :: rows.value[i] == RowOf(fixtures[i])
  {
    if |fixtures| == 0 { return None; }
    var done: seq<Row> := [];
    ghost var all := seq(|fixtures|, i requires 0 <= i < |fixtures| => RowOf(fixtures[i]));
    for i := 0 to |fixtures|
      invariant done == all[..i]
    {
      var row := RunFixture(fixtures[i]);
      assert row == all[i];
      done := done + [row];
    }
    return Some(done);
  }

  /** One turn of the loop of `run`. */
  method RunFixture(fixture: Fixture) returns (row: Row)
    ensures row == RowOf(fixture)
  {
    row := Row(fixture.path, ERROR, Same, "", Unreadable);
    if fixture.document == None { return; }
    var flow := ReadFlow(fixture.document.value);
    if flow.Err? { return row.(problem := BadFlow(flow.error)); }
    var xml := Generate(flow.value);
    row := row.(routeXml := xml);
    var reference := Capture(flow.value.assignments);
    var assignments := CandidateAssignments(xml);
    if assignments.Err? { return row.(problem := BadCandidate(assignments.error)); }
    var candidate := Capture(assignments.value);
    var names := SortedNames(HeaderItems(reference) + HeaderItems(candidate));
    NamesInArray(names);
    var diff := Compare(reference, candidate, NameArray(names));
    if diff.Err? { return row.(problem := BadCapture(diff.error)); }
    row := row.(diff := diff.value, outcome := if diff.value == Same then PASS else FAIL, problem := NoProblem);
  }
}
