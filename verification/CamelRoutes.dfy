/** What a generated route says, element by element, and that it says all of the flow. */
module CamelRoutes {
  import opened Text
  import opened Wrappers
  import opened ElementTree
  import opened MigrationCamel
  import opened MigrationCampaign

  // ----- the parsed route -----

  /** A tag of Camel's Spring schema, as a parser reports it. */
  function Camel(tag: string): string {
    "{http://camel.apache.org/schema/spring}" + tag
  }

  /** The step sets the body, or the header of that name, to the untrimmed constant. */
  predicate StepSays(step: Node, a: Assignment) {
    && (if a.field == "body" then step.tag == Camel("setBody") && step.attributes == []
        else step.tag == Camel("setHeader") && |step.attributes| == 1 && step.attributes[0].name == "name"
             && "header." + step.attributes[0].value == a.field)
    && |step.children| == 1
    && step.children[0].tag == Camel("constant") && step.children[0].attributes == [Attribute("trim", "false")]
    && step.children[0].text == a.value && step.children[0].children == []
  }

  predicate FromSays(from: Node, name: string) {
    && from.tag == Camel("from") && from.attributes == [Attribute("uri", "direct:" + name)]
    && from.text == "" && from.children == []
  }

  /** One route under the root: its id, the endpoint it starts from, and one step for each
      assignment, in order. */
  predicate RootSays(root: Node, flow: Flow) {
    && root.tag == Camel("routes") && root.attributes == [] && |root.children| == 1
    && var route := root.children[0];
    && route.tag == Camel("route") && route.attributes == [Attribute("id", flow.name)]
    && |route.children| == 1 + |flow.assignments|
    && FromSays(route.children[0], flow.name)
    && forall i | 0 <= i < |flow.assignments| :: StepSays(route.children[i + 1], flow.assignments[i])
  }

  lemma CamelTags(tag: string)
    ensures Qualify(NAMESPACE, tag) == Camel(tag)
  {
    assert "{" + "http://camel.apache.org/schema/spring" + "}" == "{http://camel.apache.org/schema/spring}";
  }

  /** A printed step, indented and read again. */
  lemma StepIsSaid(a: Assignment, tail: string)
    requires TranslatableAssignment(a)
    ensures StepSays(Resolve(Indent(StepOf(a), 2).(tail := tail), NAMESPACE), a)
  {
    var step := Indent(StepOf(a), 2).(tail := tail);
    var constant := StepOf(a).children[0];
    var indented := constant.(tail := Indentation(2));
    assert StepOf(a).children == [constant] && [constant][1..] == [];
    assert Indent(constant, 3) == constant && IsBlank("");
    assert step.children == IndentAll([constant], 2) == [indented];
    ResolvePlain(step, NAMESPACE);
    ResolvePlain(indented, NAMESPACE);
    assert ResolveAll(step.children, NAMESPACE) == [Resolve(indented, NAMESPACE)];
    CamelTags(step.tag);
    CamelTags("constant");
    if a.field != "body" {
      assert a.field == "header." + a.field[7..];
    }
  }

  lemma {:induction false} StepsAreSaid(assignments: seq<Assignment>, i: nat)
    requires i < |assignments| && forall a | a in assignments :: TranslatableAssignment(a)
    ensures |ResolveAll(IndentAll(StepsOf(assignments), 1), NAMESPACE)| == |assignments|
    ensures StepSays(ResolveAll(IndentAll(StepsOf(assignments), 1), NAMESPACE)[i], assignments[i])
  {
    var steps := StepsOf(assignments);
    assert steps[0] == StepOf(assignments[0]) && steps[1..] == StepsOf(assignments[1..]);
    StepCount(assignments);
    if i == 0 {
      var first := IndentAll(steps, 1)[0];
      assert first == Indent(steps[0], 2).(tail := first.tail);
      StepIsSaid(assignments[0], first.tail);
    } else {
      StepsAreSaid(assignments[1..], i - 1);
    }
  }

  lemma {:induction false} StepCount(assignments: seq<Assignment>)
    ensures |IndentAll(StepsOf(assignments), 1)| == |assignments|
  {
    if assignments != [] {
      assert StepsOf(assignments)[1..] == StepsOf(assignments[1..]);
      StepCount(assignments[1..]);
    }
  }

  lemma FromIsSaid(name: string, tail: string)
    ensures FromSays(Resolve(FromOf(name).(tail := tail), NAMESPACE), name)
  {
    ResolvePlain(FromOf(name).(tail := tail), NAMESPACE);
    CamelTags("from");
  }

  lemma RouteIsSaid(flow: Flow, indented: Node)
    requires Translatable(flow)
    requires indented.tag == "route" && indented.attributes == [Attribute("id", flow.name)]
    requires indented.children == IndentAll([FromOf(flow.name)] + StepsOf(flow.assignments), 1)
    ensures var route := Resolve(indented, NAMESPACE);
      && route.tag == Camel("route") && route.attributes == [Attribute("id", flow.name)]
      && |route.children| == 1 + |flow.assignments|
      && FromSays(route.children[0], flow.name)
      && forall i | 0 <= i < |flow.assignments| :: StepSays(route.children[i + 1], flow.assignments[i])
  {
    var first, later := indented.children[0], IndentAll(StepsOf(flow.assignments), 1);
    FirstChild(flow, indented.children);
    ResolvePlain(indented, NAMESPACE);
    CamelTags("route");
    FromIsSaid(flow.name, first.tail);
    StepCount(flow.assignments);
    forall i | 0 <= i < |flow.assignments| ensures StepSays(ResolveAll(indented.children, NAMESPACE)[i + 1], flow.assignments[i]) {
      StepsAreSaid(flow.assignments, i);
    }
  }

  lemma FirstChild(flow: Flow, children: seq<Node>)
    requires children == IndentAll([FromOf(flow.name)] + StepsOf(flow.assignments), 1)
    ensures children != [] && children[0] == FromOf(flow.name).(tail := children[0].tail)
    ensures children[1..] == IndentAll(StepsOf(flow.assignments), 1)
    ensures ResolveAll(children, NAMESPACE)
         == [Resolve(children[0], NAMESPACE)] + ResolveAll(IndentAll(StepsOf(flow.assignments), 1), NAMESPACE)
  {
    var steps := StepsOf(flow.assignments);
    var all := [FromOf(flow.name)] + steps;
    assert all[0] == FromOf(flow.name) && all[1..] == steps;
  }

  /** The generated text is well-formed, and says the name of the flow, its endpoint and its
      assignments, and no more. */
  lemma GeneratedRoute(flow: Flow)
    requires Translatable(flow)
    ensures FromString(CamelXml(flow)).Some? && RootSays(FromString(CamelXml(flow)).value, flow)
  {
    var root := RoutesOf(flow);
    var tree := Indent(root, 0);
    GeneratedTextParses(flow);
    IndentOnlyChild(root, root.children[0]);
    RootReads(tree, tree.children[0]);
    RouteIsSaid(flow, tree.children[0]);
    RootTag(tree);
  }

  lemma RootTag(routes: Node)
    requires routes.tag == "routes" && routes.attributes == [Attribute("xmlns", NAMESPACE)]
    ensures Resolve(routes, "").tag == Camel("routes") && Resolve(routes, "").attributes == []
  {
    CamelTags("routes");
    OnlyDeclaration(Attribute("xmlns", NAMESPACE));
  }

  lemma OnlyDeclaration(a: Attribute)
    requires a.name == "xmlns"
    ensures Lookup([a], "xmlns") == Some(a.value) && WithoutDeclaration([a]) == []
  {
    assert [a][1..] == [];
    assert WithoutDeclaration([a]) == [] + WithoutDeclaration([]);
  }

  lemma SaidOnce(step: Node, a: Assignment, b: Assignment)
    requires StepSays(step, a) && StepSays(step, b)
    ensures a == b
  {
    assert Camel("setBody")[|Camel("")| + 3] == 'B' && Camel("setHeader")[|Camel("")| + 3] == 'H';
  }

  /** Two flows have the same route if and only if they have the same name and the same
      assignments in the same order. */
  lemma TextDeterminesFlow(flow: Flow, other: Flow)
    requires Translatable(flow) && Translatable(other)
    ensures CamelXml(flow) == CamelXml(other) <==> flow == other
  {
    if CamelXml(flow) == CamelXml(other) {
      GeneratedRoute(flow);
      GeneratedRoute(other);
      SaysOneFlow(FromString(CamelXml(flow)).value, flow, other);
    }
  }

  lemma SaysOneFlow(root: Node, flow: Flow, other: Flow)
    requires RootSays(root, flow) && RootSays(root, other)
    ensures flow == other
  {
    var route := root.children[0];
    assert route.attributes[0] == Attribute("id", flow.name) == Attribute("id", other.name);
    forall i | 0 <= i < |flow.assignments| ensures flow.assignments[i] == other.assignments[i] {
      SaidOnce(route.children[i + 1], flow.assignments[i], other.assignments[i]);
    }
  }

  // ----- layout -----

  /** A line feed and two spaces for each level. */
  function Margin(level: nat): string {
    if level == 0 then "\n" else Margin(level - 1) + "  "
  }

  /** Every child stands on a line of its own, two spaces further in than its parent, and so
      does the end tag of the parent at the level of its start tag. */
  predicate LaidOut(n: Node, level: nat) {
    n.children != [] ==>
      && n.text == Margin(level + 1)
      && forall i | 0 <= i < |n.children| ::
           && LaidOut(n.children[i], level + 1)
           && n.children[i].tail == Margin(if i == |n.children| - 1 then level else level + 1)
  }

  /** There is no text but in leaves. */
  predicate OnlyLeavesHaveText(n: Node) {
    && n.tail == "" && (n.children != [] ==> n.text == "")
    && forall c | c in n.children :: OnlyLeavesHaveText(c)
  }

  lemma {:induction false} MarginIs(level: nat)
    ensures Margin(level) == Indentation(level)
  {
    if level > 0 {
      MarginIs(level - 1);
      assert Indentation(level) == Indentation(level - 1) + "  ";
    }
  }

  lemma {:induction false} IndentLaysOut(n: Node, level: nat, tail: string)
    requires OnlyLeavesHaveText(n)
    ensures LaidOut(Indent(n, level).(tail := tail), level)
    decreases n, 1
  {
    if n.children != [] {
      MarginIs(level + 1);
      assert IsBlank("");
      var children := IndentAll(n.children, level);
      AllLaidOut(n.children, level);
    }
  }

  lemma {:induction false} AllLaidOut(ns: seq<Node>, level: nat)
    requires forall c | c in ns :: OnlyLeavesHaveText(c)
    ensures |IndentAll(ns, level)| == |ns|
    ensures forall i | 0 <= i < |ns| ::
      && LaidOut(IndentAll(ns, level)[i], level + 1)
      && IndentAll(ns, level)[i].tail == Margin(if i == |ns| - 1 then level else level + 1)
    decreases ns, 0
  {
    if ns != [] {
      var first := IndentAll(ns, level)[0];
      FirstLine(ns, level);
      IndentLaysOut(ns[0], level + 1, first.tail);
      AllLaidOut(ns[1..], level);
    }
  }

  lemma FirstLine(ns: seq<Node>, level: nat)
    requires ns != [] && OnlyLeavesHaveText(ns[0])
    ensures var first := IndentAll(ns, level)[0];
      first == Indent(ns[0], level + 1).(tail := first.tail) && first.tail == Margin(if |ns| == 1 then level else level + 1)
    ensures IndentAll(ns, level)[1..] == IndentAll(ns[1..], level)
  {
    MarginIs(level);
    MarginIs(level + 1);
    assert IsBlank("");
    assert Indent(ns[0], level + 1).tail == "";
  }

  lemma {:induction false} ResolveLaysOut(n: Node, uri: string, level: nat)
    requires LaidOut(n, level)
    ensures LaidOut(Resolve(n, uri), level)
    decreases n, 1
  {
    var declared := Lookup(n.attributes, "xmlns");
    ResolvedLaidOut(n.children, if declared.Some? then declared.value else uri, level);
  }

  lemma {:induction false} ResolvedLaidOut(ns: seq<Node>, uri: string, level: nat)
    ensures forall i | 0 <= i < |ns| ::
      && ResolveAll(ns, uri)[i].tail == ns[i].tail
      && (LaidOut(ns[i], level + 1) ==> LaidOut(ResolveAll(ns, uri)[i], level + 1))
    decreases ns, 0
  {
    if ns != [] {
      if LaidOut(ns[0], level + 1) {
        ResolveLaysOut(ns[0], uri, level + 1);
      }
      ResolvedLaidOut(ns[1..], uri, level);
    }
  }

  lemma {:induction false} StepsHaveNoText(assignments: seq<Assignment>)
    ensures forall c | c in StepsOf(assignments) :: OnlyLeavesHaveText(c)
  {
    if assignments != [] {
      StepsHaveNoText(assignments[1..]);
    }
  }

  /** The text of a route is laid out by two spaces a level. */
  lemma GeneratedLayout(flow: Flow)
    requires Translatable(flow)
    ensures FromString(CamelXml(flow)).Some? && LaidOut(FromString(CamelXml(flow)).value, 0)
  {
    var root := RoutesOf(flow);
    StepsHaveNoText(flow.assignments);
    assert OnlyLeavesHaveText(FromOf(flow.name));
    assert OnlyLeavesHaveText(root.children[0]);
    IndentLaysOut(root, 0, "");
    assert Indent(root, 0).tail == "";
    GeneratedTextParses(flow);
    ResolveLaysOut(Indent(root, 0), "", 0);
  }
}
