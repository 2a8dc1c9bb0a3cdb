/** Which captures the comparator accepts, and when it finds no difference, field by field. */
module CaptureLaws {
  import opened Text
  import opened Wrappers
  import opened Dicts
  import opened Json
  import opened MigrationDifferential
  import opened DifferentialLaws
  import opened HeaderSelection

  // ----- acceptance -----

  predicate DistinctLower(headers: Headers) {
    forall i, j | 0 <= i < j < |headers| :: Lower(headers[i].key) != Lower(headers[j].key)
  }

  /** A text, or a list of texts. */
  predicate HasTexts(v: Json) {
    v.String? || (v.Array? && forall x | x in v.items :: x.String?)
  }

  /** The response has a body, an HTTP status, and headers of texts under names that differ. */
  predicate AcceptableResponse(response: Json) {
    && response.Object? && "body" in Keys(response.members) && "status" in Keys(response.members)
    && "headers" in Keys(response.members)
    && Field(response, "status").Int? && 100 <= Field(response, "status").n < 600
    && Field(response, "headers").Object?
    && (forall m | m in Field(response, "headers").members :: HasTexts(m.value))
    && DistinctLower(Field(response, "headers").members)
  }

  /** A capture with an input, such a response, a list of messages and an object of files, all
      of them finite. */
  predicate Acceptable(record: Json) {
    && record.Object? && "input" in Keys(record.members) && "response" in Keys(record.members)
    && "messages" in Keys(record.members) && "files" in Keys(record.members)
    && AcceptableResponse(Field(record, "response"))
    && Field(record, "messages").Array? && Field(record, "files").Object?
    && Finite(Field(record, "input")) && Finite(Field(Field(record, "response"), "body"))
    && Finite(Field(record, "messages")) && Finite(Field(record, "files"))
  }

  lemma {:induction false} NormalizeAccepts(headers: Headers, normalized: Headers)
    ensures Normalize(headers, normalized).Ok? <==>
      && (forall m | m in headers :: HasTexts(m.value)) && DistinctLower(headers)
      && forall i | 0 <= i < |headers| :: Lower(headers[i].key) !in Keys(normalized)
    ensures Normalize(headers, normalized).Err? && (forall m | m in headers :: HasTexts(m.value)) ==>
      Normalize(headers, normalized).error == DuplicateHeader
  {
    if headers != [] {
      var key, rest := Lower(headers[0].key), headers[1..];
      assert headers == [headers[0]] + rest;
      assert IsHeaderValue(headers[0].value) <==> HasTexts(headers[0].value);
      if IsHeaderValue(headers[0].value) && key !in Keys(normalized) {
        NormalizeAccepts(rest, Put(normalized, key, headers[0].value));
        PutKeys(normalized, key, headers[0].value);
        FirstNameDiffers(headers, normalized);
      }
    }
  }

  lemma FirstNameDiffers(headers: Headers, normalized: Headers)
    requires headers != [] && Lower(headers[0].key) !in Keys(normalized)
    ensures var key, rest := Lower(headers[0].key), headers[1..];
      DistinctLower(headers) && (forall i | 0 <= i < |headers| :: Lower(headers[i].key) !in Keys(normalized)) <==>
      DistinctLower(rest) && forall i | 0 <= i < |rest| :: Lower(rest[i].key) !in Keys(normalized) + {key}
  {
    var key, rest := Lower(headers[0].key), headers[1..];
    assert forall i | 0 <= i < |rest| :: rest[i] == headers[i + 1];
    if DistinctLower(rest) && forall i | 0 <= i < |rest| :: Lower(rest[i].key) !in Keys(normalized) + {key} {
      forall i, j | 0 <= i < j < |headers| ensures Lower(headers[i].key) != Lower(headers[j].key) {
        assert headers[j] == rest[j - 1] && (i > 0 ==> headers[i] == rest[i - 1]);
      }
      forall i | 0 <= i < |headers| ensures Lower(headers[i].key) !in Keys(normalized) {
        assert i > 0 ==> headers[i] == rest[i - 1];
      }
    }
  }

  lemma CheckedIff(status: Json, headers: Json, messages: Json, files: Json, names: seq<string>)
    ensures Checked(status, headers, messages, files, names).Ok? <==>
      && status.Int? && 100 <= status.n < 600 && messages.Array? && files.Object?
      && headers.Object? && (forall m | m in headers.members :: HasTexts(m.value)) && DistinctLower(headers.members)
    ensures Checked(status, headers, messages, files, names).Ok? ==>
      && Normalize(headers.members, []).Ok?
      && Checked(status, headers, messages, files, names) == Ok(Select(names, Normalize(headers.members, []).value))
  {
    if headers.Object? {
      NormalizeAccepts(headers.members, []);
    }
  }

  lemma ProjectionIsFiniteIff(record: Json, names: seq<string>, normalized: Headers)
    requires GoodHeaders(normalized)
    requires Field(Field(record, "response"), "status").Int?
    ensures Finite(Projection(record, Select(names, normalized))) <==>
      && Finite(Field(record, "input")) && Finite(Field(Field(record, "response"), "body"))
      && Finite(Field(record, "messages")) && Finite(Field(record, "files"))
  {
    var response, selected := Field(record, "response"), Select(names, normalized);
    SelectGood(names, normalized);
    ResponseIsProper(Field(response, "body"), Field(response, "status"), selected);
    EnvelopeIsProper(Field(record, "input"), Response(Field(response, "body"), Field(response, "status"), selected),
                     Field(record, "messages"), Field(record, "files"));
  }

  /** A capture is accepted, under whatever selection, if and only if its fields are in order. */
  lemma AcceptedIff(record: Json, names: seq<string>)
    ensures Accepted(record, names) <==> Acceptable(record)
  {
    ProjectedIff(record, Selected(names));
    if Projected(record, Selected(names)).Ok? {
      var headers := Field(Field(record, "response"), "headers").members;
      NormalizeGood(headers, []);
      ProjectionIsFiniteIff(record, Selected(names), Normalize(headers, []).value);
    }
  }

  lemma ProjectedIff(record: Json, names: seq<string>)
    ensures Projected(record, names).Ok? <==>
      && record.Object? && "input" in Keys(record.members) && "response" in Keys(record.members)
      && "messages" in Keys(record.members) && "files" in Keys(record.members)
      && AcceptableResponse(Field(record, "response"))
      && Field(record, "messages").Array? && Field(record, "files").Object?
    ensures Projected(record, names).Ok? ==>
      && Field(Field(record, "response"), "headers").Object?
      && Normalize(Field(Field(record, "response"), "headers").members, []).Ok?
      && Projected(record, names)
         == Ok(Projection(record, Select(names, Normalize(Field(Field(record, "response"), "headers").members, []).value)))
  {
    var response := Field(record, "response");
    CheckedIff(Field(response, "status"), Field(response, "headers"), Field(record, "messages"), Field(record, "files"), names);
  }

  // ----- the verdict -----

  /** The header of a lower-case name, however it is spelled. */
  function FindLower(headers: Headers, key: string): (r: Option<Json>)
    ensures r.Some? <==> exists i | 0 <= i < |headers| :: Lower(headers[i].key) == key
    ensures r.Some? ==> exists i | 0 <= i < |headers| :: Lower(headers[i].key) == key && headers[i].value == r.value
  {
    if headers == [] then None
    else if Lower(headers[0].key) == key then Some(headers[0].value)
    else FindLower(headers[1..], key)
  }

  lemma {:induction false} NormalizeGet(headers: Headers, normalized: Headers, key: string)
    requires Normalize(headers, normalized).Ok?
    ensures Get(Normalize(headers, normalized).value, key)
         == if key in Keys(normalized) then Get(normalized, key) else FindLower(headers, key)
  {
    if headers != [] {
      var lower, value := Lower(headers[0].key), headers[0].value;
      NormalizeGet(headers[1..], Put(normalized, lower, value), key);
      GetPut(normalized, lower, value, key);
      PutKeys(normalized, lower, value);
    }
  }

  /** Both captures have the header with equal values, or neither has it. */
  predicate SameHeader(a: Json, b: Json, name: string) {
    var h := FindLower(Members(Field(Field(a, "response"), "headers")), Lower(name));
    var k := FindLower(Members(Field(Field(b, "response"), "headers")), Lower(name));
    h.Some? == k.Some? && (h.Some? ==> Equal(h.value, k.value))
  }

  function Members(v: Json): Headers { if v.Object? then v.members else [] }

  lemma SelectedHeader(record: Json, names: seq<string>, name: string)
    requires HeadersOf(record).Ok?
    ensures Get(Select(Selected(names), HeadersOf(record).value), Lower(name))
         == if Lower(name) in LowerSet(names) then FindLower(Members(Field(Field(record, "response"), "headers")), Lower(name)) else None
  {
    var headers := Members(Field(Field(record, "response"), "headers"));
    SelectedNames(names);
    GetSelect(Selected(names), HeadersOf(record).value, Lower(name));
    NormalizeGet(headers, [], Lower(name));
  }

  lemma SelectedAreLower(record: Json, names: seq<string>, key: string)
    requires HeadersOf(record).Ok? && key !in LowerSet(names)
    ensures Get(Select(Selected(names), HeadersOf(record).value), key) == None
  {
    SelectedNames(names);
    GetSelect(Selected(names), HeadersOf(record).value, key);
  }

  lemma EqualAtName(a: Json, b: Json, names: seq<string>, name: string)
    requires HeadersOf(a).Ok? && HeadersOf(b).Ok? && name in names
    ensures EqualAt(Select(Selected(names), HeadersOf(a).value), Select(Selected(names), HeadersOf(b).value), Lower(name))
       <==> SameHeader(a, b, name)
  {
    SelectedHeader(a, names, name);
    SelectedHeader(b, names, name);
  }

  lemma SelectionsEqualIff(a: Json, b: Json, names: seq<string>, h: Headers, k: Headers)
    requires HeadersOf(a).Ok? && HeadersOf(b).Ok?
    requires h == Select(Selected(names), HeadersOf(a).value) && k == Select(Selected(names), HeadersOf(b).value)
    ensures (forall key :: EqualAt(h, k, key)) <==> forall name | name in names :: SameHeader(a, b, name)
  {
    if forall key :: EqualAt(h, k, key) {
      forall name | name in names ensures SameHeader(a, b, name) {
        assert EqualAt(h, k, Lower(name));
        EqualAtName(a, b, names, name);
      }
    } else {
      var key :| !EqualAt(h, k, key);
      if key !in LowerSet(names) {
        SelectedAreLower(a, names, key);
        SelectedAreLower(b, names, key);
      } else {
        var name :| name in names && Lower(name) == key;
        EqualAtName(a, b, names, name);
      }
    }
  }

  lemma ProjectionsEqualIff(a: Json, b: Json, names: seq<string>)
    requires Projected(a, Selected(names)).Ok? && Projected(b, Selected(names)).Ok?
    ensures Equal(Projected(a, Selected(names)).value, Projected(b, Selected(names)).value) <==>
      SameOutsideHeaders(a, b) && forall name | name in names :: SameHeader(a, b, name)
  {
    ProjectedUnderAnySelection(a, Selected(names), Selected(names));
    ProjectedUnderAnySelection(b, Selected(names), Selected(names));
    var h, k := Select(Selected(names), HeadersOf(a).value), Select(Selected(names), HeadersOf(b).value);
    SelectGood(Selected(names), HeadersOf(a).value);
    SelectGood(Selected(names), HeadersOf(b).value);
    EqualProjections(a, b, h, k);
    EqualObjectsByKey(h, k);
    SelectionsEqualIff(a, b, names, h, k);
  }

  /** There is no diff if and only if both captures are in order, agree in input, status, body,
      messages and files, and in every selected header, whatever its capitals. */
  lemma NoDiffIffSameFields(a: Json, b: Json, names: seq<string>)
    requires WellFormed(a) && WellFormed(b)
    ensures Compared(a, b, names) == Ok(Same) <==>
      && Acceptable(a) && Acceptable(b)
      && Equal(Field(a, "input"), Field(b, "input"))
      && Equal(Field(Field(a, "response"), "body"), Field(Field(b, "response"), "body"))
      && Equal(Field(Field(a, "response"), "status"), Field(Field(b, "response"), "status"))
      && Equal(Field(a, "messages"), Field(b, "messages")) && Equal(Field(a, "files"), Field(b, "files"))
      && forall name | name in names :: SameHeader(a, b, name)
  {
    NoDiffIffSameValue(a, b, names);
    AcceptedIff(a, names);
    AcceptedIff(b, names);
    if Accepted(a, names) && Accepted(b, names) {
      ProjectionsEqualIff(a, b, names);
    }
  }

  /** A diff is of the lines that make up the whole texts of the two projections, the reference
      first, and they differ. */
  lemma DiffShowsBoth(a: Json, b: Json, names: seq<string>, p: seq<string>, q: seq<string>)
    requires Compared(a, b, names) == Ok(Differs(p, q))
    ensures Projected(a, Selected(names)).Ok? && Dumps(Projected(a, Selected(names)).value) == Some(Concatenated(p))
    ensures Projected(b, Selected(names)).Ok? && Dumps(Projected(b, Selected(names)).value) == Some(Concatenated(q))
    ensures p != q
  {
    LinesAreText(a, names);
    LinesAreText(b, names);
  }

  /** The error of a comparison is that of the first capture that is not accepted. */
  lemma FirstErrorIsReported(a: Json, b: Json, names: seq<string>, e: CaptureError)
    requires Compared(a, b, names) == Err(e)
    ensures !Acceptable(a) || !Acceptable(b)
    ensures var first := Projected(if Acceptable(a) then b else a, Selected(names));
      if first.Err? then e == first.error else e == NotFinite
  {
    AcceptedIff(a, names);
    AcceptedIff(b, names);
    RenderedIff(a, names);
    RenderedIff(b, names);
  }

  lemma RenderedIff(record: Json, names: seq<string>)
    ensures var projected, lines := Projected(record, Selected(names)), RenderedLines(record, Selected(names));
      lines.Err? ==> if projected.Err? then lines.error == projected.error else lines.error == NotFinite
  {
  }

  lemma LinesAreText(record: Json, names: seq<string>)
    requires Accepted(record, names)
    ensures Projected(record, Selected(names)).Ok?
    ensures Dumps(Projected(record, Selected(names)).value)
         == Some(Concatenated(RenderedLines(record, Selected(names)).value))
  {
    JoinSplitLines(Dumps(Projected(record, Selected(names)).value).value);
  }
}
