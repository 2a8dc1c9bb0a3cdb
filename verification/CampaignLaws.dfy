/** What a capture of assignments means, and what the campaign reports. */
module CampaignLaws {
  import opened Text
  import opened Wrappers
  import opened ElementText
  import opened ElementTree
  import opened Dicts
  import opened MigrationCamel
  import opened MigrationDifferential
  import opened MigrationCampaign
  import opened DifferentialLaws
  import opened HeaderSelection
  import opened CaptureLaws
  import Json

  // ----- last write wins -----

  /** What an assignment writes to. */
  datatype Slot = Body | Header(name: string)

  function SlotOf(a: Assignment): Slot {
    if a.field == "body" then Body else Header(AfterPrefix(a.field))
  }

  /** The value of the last assignment to a slot. */
  function LastWrite(assignments: seq<Assignment>, slot: Slot): Option<string> {
    if assignments == [] then None
    else
      var last := assignments[|assignments| - 1];
      if SlotOf(last) == slot then Some(last.value) else LastWrite(assignments[..|assignments| - 1], slot)
  }

  lemma {:induction false} BodyIsLastWrite(assignments: seq<Assignment>)
    ensures BodyAfter(assignments) == LastWrite(assignments, Body).GetOr("")
  {
    if assignments != [] {
      BodyIsLastWrite(assignments[..|assignments| - 1]);
    }
  }

  lemma {:induction false} HeaderIsLastWrite(assignments: seq<Assignment>, name: string)
    ensures var written := LastWrite(assignments, Header(name));
      Get(HeadersAfter(assignments), name) == if written.Some? then Some(Json.String(written.value)) else None
  {
    if assignments != [] {
      var before, last := assignments[..|assignments| - 1], assignments[|assignments| - 1];
      HeaderIsLastWrite(before, name);
      GetPut(HeadersAfter(before), AfterPrefix(last.field), Json.String(last.value), name);
    }
  }

  lemma {:induction false} CapturedHeadersAreGood(assignments: seq<Assignment>)
    ensures GoodHeaders(HeadersAfter(assignments))
    ensures forall m | m in HeadersAfter(assignments) :: m.value.String?
  {
    if assignments != [] {
      var before, last := assignments[..|assignments| - 1], assignments[|assignments| - 1];
      CapturedHeadersAreGood(before);
      PutHeader(HeadersAfter(before), AfterPrefix(last.field), Json.String(last.value));
      PutValues(HeadersAfter(before), AfterPrefix(last.field), Json.String(last.value));
    }
  }

  lemma SyntheticEnvelopesEqual(body: string, h: Headers, other: string, k: Headers)
    ensures Json.Equal(Envelope(Json.Object([]), Response(Json.String(body), Json.Int(200), h), Json.Array([]), Json.Object([])),
                       Envelope(Json.Object([]), Response(Json.String(other), Json.Int(200), k), Json.Array([]), Json.Object([])))
       <==> body == other && Json.Equal(Json.Object(h), Json.Object(k))
  {
    EqualEnvelopes(Json.Object([]), Response(Json.String(body), Json.Int(200), h), Json.Array([]), Json.Object([]),
                   Json.Object([]), Response(Json.String(other), Json.Int(200), k), Json.Array([]), Json.Object([]));
    EqualResponses(Json.String(body), Json.Int(200), h, Json.String(other), Json.Int(200), k);
  }

  /** Two captures are the same JSON value exactly when every slot ends with the same
      value, an unwritten body counting as empty. */
  lemma CapturesEqualIffSameWrites(p: seq<Assignment>, q: seq<Assignment>)
    ensures Json.Equal(Captured(p), Captured(q)) <==>
      && LastWrite(p, Body).GetOr("") == LastWrite(q, Body).GetOr("")
      && forall name :: LastWrite(p, Header(name)) == LastWrite(q, Header(name))
  {
    var h, k := HeadersAfter(p), HeadersAfter(q);
    CapturedHeadersAreGood(p);
    CapturedHeadersAreGood(q);
    BodyIsLastWrite(p);
    BodyIsLastWrite(q);
    SyntheticEnvelopesEqual(BodyAfter(p), h, BodyAfter(q), k);
    EqualObjectsByKey(h, k);
    forall name ensures EqualAt(h, k, name) <==> LastWrite(p, Header(name)) == LastWrite(q, Header(name)) {
      HeaderIsLastWrite(p, name);
      HeaderIsLastWrite(q, name);
    }
  }

  lemma {:induction false} LastWriteConcat(p: seq<Assignment>, q: seq<Assignment>, slot: Slot)
    ensures LastWrite(p + q, slot) == if LastWrite(q, slot).Some? then LastWrite(q, slot) else LastWrite(p, slot)
  {
    if q == [] {
      assert p + q == p;
    } else {
      assert (p + q)[..|p + q| - 1] == p + q[..|q| - 1];
      LastWriteConcat(p, q[..|q| - 1], slot);
    }
  }

  lemma {:induction false} Written(q: seq<Assignment>, b: Assignment)
    requires b in q
    ensures LastWrite(q, SlotOf(b)).Some?
  {
    var before, last := q[..|q| - 1], q[|q| - 1];
    if SlotOf(last) != SlotOf(b) {
      assert q == before + [last];
      Written(before, b);
    }
  }

  /** An assignment that is overwritten later can be deleted. */
  lemma OverwrittenCanBeDeleted(p: seq<Assignment>, a: Assignment, q: seq<Assignment>, b: Assignment)
    requires b in q && SlotOf(b) == SlotOf(a)
    ensures Json.Equal(Captured(p + [a] + q), Captured(p + q))
  {
    forall slot ensures LastWrite(p + [a] + q, slot) == LastWrite(p + q, slot) {
      LastWriteConcat(p + [a], q, slot);
      LastWriteConcat(p, q, slot);
      LastWriteConcat(p, [a], slot);
      Written(q, b);
      assert LastWrite([a], slot).Some? ==> slot == SlotOf(a);
    }
    CapturesEqualIffSameWrites(p + [a] + q, p + q);
  }

  /** Neighbours that write to different slots can be exchanged. */
  lemma DifferentSlotsCommute(p: seq<Assignment>, a: Assignment, b: Assignment, q: seq<Assignment>)
    requires SlotOf(a) != SlotOf(b)
    ensures Json.Equal(Captured(p + [a, b] + q), Captured(p + [b, a] + q))
  {
    forall slot ensures LastWrite(p + [a, b] + q, slot) == LastWrite(p + [b, a] + q, slot) {
      LastWriteConcat(p + [a, b], q, slot);
      LastWriteConcat(p + [b, a], q, slot);
      LastWriteConcat(p, [a, b], slot);
      LastWriteConcat(p, [b, a], slot);
      assert [a, b] == [a] + [b] && [b, a] == [b] + [a];
      LastWriteConcat([a], [b], slot);
      LastWriteConcat([b], [a], slot);
      assert LastWrite([a], slot) == if SlotOf(a) == slot then Some(a.value) else None;
      assert LastWrite([b], slot) == if SlotOf(b) == slot then Some(b.value) else None;
    }
    CapturesEqualIffSameWrites(p + [a, b] + q, p + [b, a] + q);
  }

  // ----- the verdict on a flow -----

  /** Two assigned header names differ, but only in case. */
  predicate NameClash(assignments: seq<Assignment>) {
    exists a, b | a in assignments && b in assignments ::
      && a.field != "body" && b.field != "body"
      && AfterPrefix(a.field) != AfterPrefix(b.field)
      && Lower(AfterPrefix(a.field)) == Lower(AfterPrefix(b.field))
  }

  lemma {:induction false} CapturedNames(assignments: seq<Assignment>, name: string)
    ensures name in Keys(HeadersAfter(assignments)) <==>
      exists a | a in assignments :: a.field != "body" && AfterPrefix(a.field) == name
  {
    if assignments != [] {
      var before, last := assignments[..|assignments| - 1], assignments[|assignments| - 1];
      CapturedNames(before, name);
      assert assignments == before + [last];
      if last.field != "body" {
        PutKeys(HeadersAfter(before), AfterPrefix(last.field), Json.String(last.value));
      }
    }
  }

  lemma ClashIffNotDistinct(assignments: seq<Assignment>)
    ensures NameClash(assignments) <==> !DistinctLower(HeadersAfter(assignments))
  {
    var h := HeadersAfter(assignments);
    CapturedHeadersAreGood(assignments);
    if NameClash(assignments) {
      var a, b :| a in assignments && b in assignments && a.field != "body" && b.field != "body"
        && AfterPrefix(a.field) != AfterPrefix(b.field) && Lower(AfterPrefix(a.field)) == Lower(AfterPrefix(b.field));
      CapturedNames(assignments, AfterPrefix(a.field));
      CapturedNames(assignments, AfterPrefix(b.field));
      var i :| 0 <= i < |h| && h[i].key == AfterPrefix(a.field);
      var j :| 0 <= j < |h| && h[j].key == AfterPrefix(b.field);
      assert i != j;
    }
    if !DistinctLower(h) {
      var i, j :| 0 <= i < j < |h| && Lower(h[i].key) == Lower(h[j].key);
      CapturedNames(assignments, h[i].key);
      CapturedNames(assignments, h[j].key);
      assert h[i].key in Keys(h) && h[j].key in Keys(h);
      var a :| a in assignments && a.field != "body" && AfterPrefix(a.field) == h[i].key;
      var b :| b in assignments && b.field != "body" && AfterPrefix(b.field) == h[j].key;
    }
  }

  lemma NamesAreLegal(s: string)
    requires IsName(s)
    ensures IsLegal(s)
  {
    forall i | 0 <= i < |s| ensures IsXmlChar(s[i]) {
      assert IsNameChar(s[i]);
    }
  }

  lemma AcceptedFlowIsTranslatable(root: Node)
    requires LegalTree(root) && FlowOf(root).Ok?
    ensures Translatable(FlowOf(root).value)
  {
    AcceptedFlowIsValid(root);
    var flow := FlowOf(root).value;
    NamesAreLegal(flow.name);
    forall a | a in flow.assignments ensures TranslatableAssignment(a) {
      assert SupportedField(a.field);
      if a.field != "body" {
        NamesAreLegal(a.field[7..]);
      }
    }
  }

  lemma ProjectedCapture(assignments: seq<Assignment>, names: seq<string>)
    ensures var captured := Captured(assignments);
      Projected(captured, names) == var normalized :- Normalize(HeadersAfter(assignments), []);
                                    Ok(Projection(captured, Select(names, normalized)))
  {
    CapturedParts(assignments);
  }

  lemma ProjectionOfCapture(assignments: seq<Assignment>, headers: Headers)
    ensures Projection(Captured(assignments), headers)
         == Envelope(Json.Object([]), Response(Json.String(BodyAfter(assignments)), Json.Int(200), headers),
                     Json.Array([]), Json.Object([]))
  {
    CapturedParts(assignments);
  }

  lemma FiniteEnvelope(body: string, headers: Headers)
    requires GoodHeaders(headers)
    ensures Json.Finite(Envelope(Json.Object([]), Response(Json.String(body), Json.Int(200), headers),
                                 Json.Array([]), Json.Object([])))
  {
    ResponseIsProper(Json.String(body), Json.Int(200), headers);
    EnvelopeIsProper(Json.Object([]), Response(Json.String(body), Json.Int(200), headers), Json.Array([]), Json.Object([]));
  }

  /** A capture of assignments is accepted unless two of its header names clash. */
  lemma CaptureAccepted(assignments: seq<Assignment>, names: seq<string>)
    ensures Accepted(Captured(assignments), names) <==> !NameClash(assignments)
    ensures NameClash(assignments) ==> Projected(Captured(assignments), Selected(names)) == Err(DuplicateHeader)
  {
    if NameClash(assignments) {
      ClashIsRefused(assignments, names);
    } else {
      NoClashIsAccepted(assignments, names);
    }
  }

  lemma ClashIsRefused(assignments: seq<Assignment>, names: seq<string>)
    requires NameClash(assignments)
    ensures Projected(Captured(assignments), Selected(names)) == Err(DuplicateHeader)
  {
    NormalizedIffNoClash(assignments);
    ProjectedCapture(assignments, Selected(names));
  }

  lemma NoClashIsAccepted(assignments: seq<Assignment>, names: seq<string>)
    requires !NameClash(assignments)
    ensures Accepted(Captured(assignments), names)
  {
    NormalizedIffNoClash(assignments);
    ProjectedCapture(assignments, Selected(names));
    ProjectionIsFinite(assignments, Selected(names));
  }

  lemma NormalizedIffNoClash(assignments: seq<Assignment>)
    ensures NameClash(assignments) ==> Normalize(HeadersAfter(assignments), []) == Err(DuplicateHeader)
    ensures !NameClash(assignments) ==> Normalize(HeadersAfter(assignments), []).Ok?
  {
    ClashIffNotDistinct(assignments);
    CapturedHeadersAreGood(assignments);
    NormalizeAccepts(HeadersAfter(assignments), []);
  }

  lemma ProjectionIsFinite(assignments: seq<Assignment>, names: seq<string>)
    requires Normalize(HeadersAfter(assignments), []).Ok?
    ensures Json.Finite(Projection(Captured(assignments), Select(names, Normalize(HeadersAfter(assignments), []).value)))
  {
    var normalized := Normalize(HeadersAfter(assignments), []).value;
    NormalizeGood(HeadersAfter(assignments), []);
    SelectGood(names, normalized);
    ProjectionOfCapture(assignments, Select(names, normalized));
    FiniteEnvelope(BodyAfter(assignments), Select(names, normalized));
  }

  lemma CapturedParts(assignments: seq<Assignment>)
    ensures var r := Captured(assignments);
      && HasKeys(r, {"input", "response", "messages", "files"})
      && Field(r, "input") == Json.Object([]) && Field(r, "messages") == Json.Array([]) && Field(r, "files") == Json.Object([])
      && Field(r, "response") == Response(Json.String(BodyAfter(assignments)), Json.Int(200), HeadersAfter(assignments))
      && HasKeys(Field(r, "response"), {"body", "status", "headers"})
      && Field(Field(r, "response"), "body") == Json.String(BodyAfter(assignments))
      && Field(Field(r, "response"), "status") == Json.Int(200)
      && Field(Field(r, "response"), "headers") == Json.Object(HeadersAfter(assignments))
  {
    var response := Response(Json.String(BodyAfter(assignments)), Json.Int(200), HeadersAfter(assignments));
    EnvelopeFields(Json.Object([]), response, Json.Array([]), Json.Object([]));
    ResponseFields(Json.String(BodyAfter(assignments)), Json.Int(200), HeadersAfter(assignments));
  }

  /** Why a fixture ends in an error. */
  predicate EndsInError(fixture: Fixture) {
    fixture.document == None || FlowOf(fixture.document.value).Err?
    || NameClash(FlowOf(fixture.document.value).value.assignments)
  }

  /** The campaign never reports FAIL: a flow that is read ends PASS, unless two assigned
      header names coincide after lower-casing, and then it ends ERROR. Its generated
      route is in the row and reads back as the flow. */
  lemma CampaignNeverFails(fixture: Fixture)
    requires fixture.document.Some? ==> LegalTree(fixture.document.value)
    ensures RowOf(fixture).outcome == if EndsInError(fixture) then ERROR else PASS
    ensures fixture.document.Some? && FlowOf(fixture.document.value).Ok? ==>
      var flow := FlowOf(fixture.document.value).value;
      RowOf(fixture).routeXml == CamelXml(flow) && CandidateOf(RowOf(fixture).routeXml) == Ok(flow.assignments)
    ensures RowOf(fixture).path == fixture.path && RowOf(fixture).diff == Same
    ensures RowOf(fixture).problem ==
      if fixture.document == None then Unreadable
      else if FlowOf(fixture.document.value).Err? then BadFlow(FlowOf(fixture.document.value).error)
      else if EndsInError(fixture) then BadCapture(DuplicateHeader) else NoProblem
    ensures RowOf(fixture).problem == Unreadable || RowOf(fixture).problem.BadFlow? ==> RowOf(fixture).routeXml == ""
  {
    if fixture.document.Some? && FlowOf(fixture.document.value).Ok? {
      AcceptedFlowIsTranslatable(fixture.document.value);
      RowOfFlow(fixture.path, FlowOf(fixture.document.value).value);
    }
  }

  lemma RowOfFlow(path: string, flow: Flow)
    requires Translatable(flow)
    ensures CandidateOf(CamelXml(flow)) == Ok(flow.assignments)
    ensures FlowRow(path, flow) ==
      if NameClash(flow.assignments) then Row(path, ERROR, Same, CamelXml(flow), BadCapture(DuplicateHeader))
      else Row(path, PASS, Same, CamelXml(flow), NoProblem)
  {
    var record := Captured(flow.assignments);
    var names := SortedNames(HeaderItems(record) + HeaderItems(record));
    TranslationIsFaithful(flow);
    CaptureAccepted(flow.assignments, names);
    SelfCompared(record, names, NameClash(flow.assignments));
  }

  lemma SelfCompared(record: Json.Json, names: seq<string>, clash: bool)
    requires clash ==> Projected(record, Selected(names)) == Err(DuplicateHeader)
    requires !clash ==> Accepted(record, names)
    ensures Compared(record, record, names) == if clash then Err(DuplicateHeader) else Ok(Same)
  {
  }
}
