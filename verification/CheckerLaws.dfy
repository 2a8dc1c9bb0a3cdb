/** The comparison inside the campaign misses nothing: whatever route stood in for the
    generated one, there is no diff exactly when it has the same effect. */
module CheckerLaws {
  import opened Text
  import opened Wrappers
  import opened Dicts
  import opened MigrationCamel
  import opened MigrationDifferential
  import opened MigrationCampaign
  import opened DifferentialLaws
  import opened HeaderSelection
  import opened CaptureLaws
  import opened CampaignLaws
  import Json

  predicate WritesLower(a: Assignment, key: string) {
    a.field != "body" && Lower(AfterPrefix(a.field)) == key
  }

  /** The value of the last assignment to a header, whatever the case of its name. */
  function CaseBlindWrite(assignments: seq<Assignment>, key: string): Option<string> {
    if assignments == [] then None
    else
      var last := assignments[|assignments| - 1];
      if WritesLower(last, key) then Some(last.value) else CaseBlindWrite(assignments[..|assignments| - 1], key)
  }

  lemma {:induction false} OneSpelling(assignments: seq<Assignment>, name: string)
    requires forall a | a in assignments && WritesLower(a, Lower(name)) :: AfterPrefix(a.field) == name
    ensures CaseBlindWrite(assignments, Lower(name)) == LastWrite(assignments, Header(name))
  {
    if assignments != [] {
      OneSpelling(assignments[..|assignments| - 1], name);
    }
  }

  lemma {:induction false} NoSpelling(assignments: seq<Assignment>, key: string)
    requires forall a | a in assignments :: !WritesLower(a, key)
    ensures CaseBlindWrite(assignments, key) == None
  {
    if assignments != [] {
      NoSpelling(assignments[..|assignments| - 1], key);
    }
  }

  /** Without a clash, the captured headers hold the last write under each lower-case name. */
  lemma CapturedLower(assignments: seq<Assignment>, key: string)
    requires !NameClash(assignments)
    ensures var written := CaseBlindWrite(assignments, key);
      FindLower(HeadersAfter(assignments), key) == if written.Some? then Some(Json.String(written.value)) else None
  {
    var h := HeadersAfter(assignments);
    CapturedHeadersAreGood(assignments);
    if FindLower(h, key).Some? {
      var i :| 0 <= i < |h| && Lower(h[i].key) == key && h[i].value == FindLower(h, key).value;
      var name := h[i].key;
      assert name in Keys(h);
      CapturedNames(assignments, name);
      var a :| a in assignments && a.field != "body" && AfterPrefix(a.field) == name;
      OneSpelling(assignments, name);
      HeaderIsLastWrite(assignments, name);
      GetMember(h, i);
    } else {
      forall a | a in assignments ensures !WritesLower(a, key) {
        if a.field != "body" {
          CapturedNames(assignments, AfterPrefix(a.field));
          assert AfterPrefix(a.field) in Keys(h);
        }
      }
      NoSpelling(assignments, key);
    }
  }

  lemma {:induction false} SortedNamesHold(headers: Headers)
    ensures Ascending(SortedNames(headers))
    ensures forall n :: n in SortedNames(headers) <==> n in Keys(headers)
  {
    if headers != [] {
      SortedNamesHold(headers[1..]);
      InsertNameKeeps(headers[0].key, SortedNames(headers[1..]));
      assert Keys(headers) == {headers[0].key} + Keys(headers[1..]);
    }
  }

  lemma EveryNameIsSelected(headers: Headers, key: string)
    requires FindLower(headers, key).Some?
    ensures key in LowerSet(SortedNames(headers))
  {
    SortedNamesHold(headers);
    var i :| 0 <= i < |headers| && Lower(headers[i].key) == key;
    assert headers[i].key in Keys(headers);
    assert headers[i].key in SortedNames(headers);
  }

  lemma SelectedLower(assignments: seq<Assignment>, names: seq<string>, key: string)
    requires !NameClash(assignments)
    requires FindLower(HeadersAfter(assignments), key).Some? ==> key in Selected(names)
    ensures Normalize(HeadersAfter(assignments), []).Ok?
    ensures var written := CaseBlindWrite(assignments, key);
      Get(Select(Selected(names), Normalize(HeadersAfter(assignments), []).value), key)
        == if written.Some? then Some(Json.String(written.value)) else None
  {
    var h := HeadersAfter(assignments);
    CapturedHeadersAreGood(assignments);
    ClashIffNotDistinct(assignments);
    NormalizeAccepts(h, []);
    NormalizeGet(h, [], key);
    CapturedLower(assignments, key);
    GetSelect(Selected(names), Normalize(h, []).value, key);
  }

  lemma SelectsAllOf(h: Headers, k: Headers, key: string)
    requires FindLower(h, key).Some? || FindLower(k, key).Some?
    ensures key in Selected(SortedNames(h + k))
  {
    var both := h + k;
    if FindLower(h, key).Some? {
      var i :| 0 <= i < |h| && Lower(h[i].key) == key;
      assert both[i] == h[i];
    } else {
      var i :| 0 <= i < |k| && Lower(k[i].key) == key;
      assert both[|h| + i] == k[i];
    }
    EveryNameIsSelected(both, key);
    SelectedNames(SortedNames(both));
  }

  /** The campaign's comparison of any two assignment lists without clashing names finds no
      difference exactly when they leave the same body and, up to the case of names, the
      same headers. */
  lemma NoDiffIffSameEffect(p: seq<Assignment>, q: seq<Assignment>)
    requires !NameClash(p) && !NameClash(q)
    ensures var names := SortedNames(HeaderItems(Captured(p)) + HeaderItems(Captured(q)));
      Compared(Captured(p), Captured(q), names) == Ok(Same) <==>
      && LastWrite(p, Body).GetOr("") == LastWrite(q, Body).GetOr("")
      && forall key :: CaseBlindWrite(p, key) == CaseBlindWrite(q, key)
  {
    var names := SortedNames(HeadersAfter(p) + HeadersAfter(q));
    CapturedParts(p);
    CapturedParts(q);
    assert HeaderItems(Captured(p)) == HeadersAfter(p) && HeaderItems(Captured(q)) == HeadersAfter(q);
    SameEffect(p, q, names);
  }

  lemma SameEffect(p: seq<Assignment>, q: seq<Assignment>, names: seq<string>)
    requires !NameClash(p) && !NameClash(q) && names == SortedNames(HeadersAfter(p) + HeadersAfter(q))
    ensures Compared(Captured(p), Captured(q), names) == Ok(Same) <==>
      && LastWrite(p, Body).GetOr("") == LastWrite(q, Body).GetOr("")
      && forall key :: CaseBlindWrite(p, key) == CaseBlindWrite(q, key)
  {
    CaptureAccepted(p, names);
    CaptureAccepted(q, names);
    ProjectedCapture(p, Selected(names));
    ProjectedCapture(q, Selected(names));
    CaptureIsWellFormed(p);
    CaptureIsWellFormed(q);
    NoDiffIffSameValue(Captured(p), Captured(q), names);
    SelectedEqual(p, q, names);
  }

  lemma CaptureIsWellFormed(assignments: seq<Assignment>)
    ensures Json.WellFormed(Captured(assignments))
  {
    CapturedHeadersAreGood(assignments);
    ResponseIsProper(Json.String(BodyAfter(assignments)), Json.Int(200), HeadersAfter(assignments));
    EnvelopeIsProper(Json.Object([]), Response(Json.String(BodyAfter(assignments)), Json.Int(200), HeadersAfter(assignments)),
                     Json.Array([]), Json.Object([]));
  }

  lemma Normalizes(assignments: seq<Assignment>)
    requires !NameClash(assignments)
    ensures Normalize(HeadersAfter(assignments), []).Ok? && GoodHeaders(Normalize(HeadersAfter(assignments), []).value)
  {
    CapturedHeadersAreGood(assignments);
    ClashIffNotDistinct(assignments);
    NormalizeAccepts(HeadersAfter(assignments), []);
    NormalizeGood(HeadersAfter(assignments), []);
  }

  /** The headers that `project` selects from a capture. */
  function SelectedOf(assignments: seq<Assignment>, names: seq<string>): (r: Headers)
    requires !NameClash(assignments)
    ensures GoodHeaders(r)
  {
    Normalizes(assignments);
    SelectGood(Selected(names), Normalize(HeadersAfter(assignments), []).value);
    Select(Selected(names), Normalize(HeadersAfter(assignments), []).value)
  }

  lemma ProjectedCapturesEqual(p: seq<Assignment>, q: seq<Assignment>, h: Headers, k: Headers)
    ensures Json.Equal(Projection(Captured(p), h), Projection(Captured(q), k))
       <==> BodyAfter(p) == BodyAfter(q) && Json.Equal(Json.Object(h), Json.Object(k))
  {
    ProjectionOfCapture(p, h);
    ProjectionOfCapture(q, k);
    SyntheticEnvelopesEqual(BodyAfter(p), h, BodyAfter(q), k);
  }

  lemma SelectedHeadersEqual(p: seq<Assignment>, q: seq<Assignment>, h: Headers, k: Headers)
    requires GoodHeaders(h) && GoodHeaders(k)
    requires forall key :: EqualAt(h, k, key) <==> CaseBlindWrite(p, key) == CaseBlindWrite(q, key)
    ensures Json.Equal(Json.Object(h), Json.Object(k)) <==> forall key :: CaseBlindWrite(p, key) == CaseBlindWrite(q, key)
  {
    EqualObjectsByKey(h, k);
    if Json.Equal(Json.Object(h), Json.Object(k)) {
      forall key ensures CaseBlindWrite(p, key) == CaseBlindWrite(q, key) {
        assert EqualAt(h, k, key);
      }
    } else {
      var key :| !EqualAt(h, k, key);
      assert CaseBlindWrite(p, key) != CaseBlindWrite(q, key);
    }
  }

  lemma SelectedEqual(p: seq<Assignment>, q: seq<Assignment>, names: seq<string>)
    requires !NameClash(p) && !NameClash(q)
    requires names == SortedNames(HeadersAfter(p) + HeadersAfter(q))
    ensures Json.Equal(Projection(Captured(p), SelectedOf(p, names)), Projection(Captured(q), SelectedOf(q, names))) <==>
      && LastWrite(p, Body).GetOr("") == LastWrite(q, Body).GetOr("")
      && forall key :: CaseBlindWrite(p, key) == CaseBlindWrite(q, key)
  {
    ProjectedCapturesEqual(p, q, SelectedOf(p, names), SelectedOf(q, names));
    forall key
      ensures EqualAt(SelectedOf(p, names), SelectedOf(q, names), key) <==> CaseBlindWrite(p, key) == CaseBlindWrite(q, key)
    {
      SameKeyWrites(p, q, names, key);
    }
    SelectedHeadersEqual(p, q, SelectedOf(p, names), SelectedOf(q, names));
    BodyIsLastWrite(p);
    BodyIsLastWrite(q);
  }

  lemma SameKeyWrites(p: seq<Assignment>, q: seq<Assignment>, names: seq<string>, key: string)
    requires !NameClash(p) && !NameClash(q)
    requires names == SortedNames(HeadersAfter(p) + HeadersAfter(q))
    ensures EqualAt(SelectedOf(p, names), SelectedOf(q, names), key) <==> CaseBlindWrite(p, key) == CaseBlindWrite(q, key)
  {
    if FindLower(HeadersAfter(p), key).Some? || FindLower(HeadersAfter(q), key).Some? {
      SelectsAllOf(HeadersAfter(p), HeadersAfter(q), key);
    }
    SelectedLower(p, names, key);
    SelectedLower(q, names, key);
  }
}
