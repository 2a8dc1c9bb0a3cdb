/** What a comparison of two captures means. */
module DifferentialLaws {
  import opened Text
  import opened Wrappers
  import opened Dicts
  import opened Json
  import opened JsonText
  import opened MigrationDifferential

  // ----- projections are proper values -----

  predicate GoodHeaders(headers: Headers) {
    Distinct(headers) && forall m | m in headers :: IsHeaderValue(m.value)
  }

  lemma PutHeader(headers: Headers, key: string, value: Json)
    requires GoodHeaders(headers) && IsHeaderValue(value)
    ensures GoodHeaders(Put(headers, key, value))
  {
    PutDistinct(headers, key, value);
    PutValues(headers, key, value);
  }

  lemma {:induction false} PutValues(headers: Headers, key: string, value: Json)
    ensures forall m | m in Put(headers, key, value) :: m.value == value || m in headers
  {
    if headers != [] && headers[0].key != key {
      PutValues(headers[1..], key, value);
    }
  }

  lemma {:induction false} NormalizeGood(members: Headers, normalized: Headers)
    requires GoodHeaders(normalized)
    ensures Normalize(members, normalized).Ok? ==> GoodHeaders(Normalize(members, normalized).value)
  {
    if members != [] && IsHeaderValue(members[0].value) && Lower(members[0].key) !in Keys(normalized) {
      PutHeader(normalized, Lower(members[0].key), members[0].value);
      NormalizeGood(members[1..], Put(normalized, Lower(members[0].key), members[0].value));
    }
  }

  lemma {:induction false} SelectGood(names: seq<string>, normalized: Headers)
    requires GoodHeaders(normalized)
    ensures GoodHeaders(Select(names, normalized))
  {
    if names != [] {
      var before, name := names[..|names| - 1], names[|names| - 1];
      SelectGood(before, normalized);
      if name in Keys(normalized) {
        assert Item(name, Get(normalized, name).value) in normalized;
        PutHeader(Select(before, normalized), name, Get(normalized, name).value);
      }
    }
  }

  lemma HeaderValueIsProper(v: Json)
    requires IsHeaderValue(v)
    ensures Proper(v)
  {
    if v.Array? {
      forall x | x in v.items ensures Proper(x) {
        assert IsText(x);
      }
    }
  }

  lemma FieldIsWellFormed(v: Json, key: string)
    requires WellFormed(v)
    ensures WellFormed(Field(v, key))
  {
    if v.Object? && key in Keys(v.members) {
      assert Item(key, Field(v, key)) in v.members;
    }
  }

  lemma EnvelopeIsProper(input: Json, response: Json, messages: Json, files: Json)
    ensures WellFormed(Envelope(input, response, messages, files))
       <==> WellFormed(input) && WellFormed(response) && WellFormed(messages) && WellFormed(files)
    ensures Finite(Envelope(input, response, messages, files))
       <==> Finite(input) && Finite(response) && Finite(messages) && Finite(files)
  {
    EnvelopeKeysDiffer(input, response, messages, files);
    var ms := Envelope(input, response, messages, files).members;
    assert ms[0] in ms && ms[1] in ms && ms[2] in ms && ms[3] in ms;
  }

  lemma EnvelopeKeysDiffer(input: Json, response: Json, messages: Json, files: Json)
    ensures Distinct(Envelope(input, response, messages, files).members)
  {
    var ms := Envelope(input, response, messages, files).members;
    assert ms[0].key == "input" && ms[1].key == "response" && ms[2].key == "messages" && ms[3].key == "files";
  }

  lemma ResponseIsProper(body: Json, status: Json, headers: Headers)
    requires GoodHeaders(headers)
    ensures WellFormed(Response(body, status, headers)) <==> WellFormed(body) && WellFormed(status)
    ensures Finite(Response(body, status, headers)) <==> Finite(body) && Finite(status)
  {
    var ms := Response(body, status, headers).members;
    forall m | m in headers ensures Proper(m.value) {
      HeaderValueIsProper(m.value);
    }
    assert ms[0].key == "body" && ms[1].key == "status" && ms[2].key == "headers";
    assert ms[0] in ms && ms[1] in ms && ms[2] in ms;
  }

  lemma ProjectionIsWellFormed(record: Json, headers: Headers)
    requires WellFormed(record) && GoodHeaders(headers)
    ensures WellFormed(Projection(record, headers))
  {
    var response := Field(record, "response");
    FieldIsWellFormed(record, "input");
    FieldIsWellFormed(record, "messages");
    FieldIsWellFormed(record, "files");
    FieldIsWellFormed(record, "response");
    FieldIsWellFormed(response, "body");
    FieldIsWellFormed(response, "status");
    ResponseIsProper(Field(response, "body"), Field(response, "status"), headers);
    EnvelopeIsProper(Field(record, "input"), Response(Field(response, "body"), Field(response, "status"), headers),
                     Field(record, "messages"), Field(record, "files"));
  }

  lemma ProjectedIsWellFormed(record: Json, names: seq<string>)
    requires WellFormed(record) && Projected(record, names).Ok?
    ensures WellFormed(Projected(record, names).value)
  {
    var headers := Field(Field(record, "response"), "headers").members;
    NormalizeGood(headers, []);
    SelectGood(names, Normalize(headers, []).value);
    ProjectionIsWellFormed(record, Select(names, Normalize(headers, []).value));
  }

  lemma EnvelopeFields(input: Json, response: Json, messages: Json, files: Json)
    ensures var e := Envelope(input, response, messages, files);
      && HasKeys(e, {"input", "response", "messages", "files"})
      && Field(e, "input") == input && Field(e, "response") == response
      && Field(e, "messages") == messages && Field(e, "files") == files
  {
    var ms := Envelope(input, response, messages, files).members;
    assert ms[0].key == "input" && ms[1].key == "response" && ms[2].key == "messages" && ms[3].key == "files";
    GetMember(ms, 0);
    GetMember(ms, 1);
    GetMember(ms, 2);
    GetMember(ms, 3);
  }

  lemma ResponseFields(body: Json, status: Json, headers: Headers)
    ensures var r := Response(body, status, headers);
      && HasKeys(r, {"body", "status", "headers"})
      && Field(r, "body") == body && Field(r, "status") == status && Field(r, "headers") == Object(headers)
  {
    var ms := Response(body, status, headers).members;
    assert ms[0].key == "body" && ms[1].key == "status" && ms[2].key == "headers";
    GetMember(ms, 0);
    GetMember(ms, 1);
    GetMember(ms, 2);
  }

  // ----- the verdict -----

  /** A capture that the comparator accepts under a selection of headers. */
  predicate Accepted(record: Json, names: seq<string>) {
    RenderedLines(record, Selected(names)).Ok?
  }

  lemma RenderedSame(reference: Json, candidate: Json, names: seq<string>)
    requires WellFormed(reference) && WellFormed(candidate)
    requires RenderedLines(reference, names).Ok? && RenderedLines(candidate, names).Ok?
    ensures RenderedLines(reference, names) == RenderedLines(candidate, names)
       <==> Equal(Projected(reference, names).value, Projected(candidate, names).value)
  {
    var v, w := Projected(reference, names).value, Projected(candidate, names).value;
    ProjectedIsWellFormed(reference, names);
    ProjectedIsWellFormed(candidate, names);
    SameTextIffEqual(v, w);
    if SplitLines(Dumps(v).value) == SplitLines(Dumps(w).value) {
      SameLinesSameText(Dumps(v).value, Dumps(w).value);
    }
  }

  /** There is no diff exactly when both captures are accepted and their projections are
      the same JSON value: key order is ignored, array order and types are kept. */
  lemma NoDiffIffSameValue(reference: Json, candidate: Json, names: seq<string>)
    requires WellFormed(reference) && WellFormed(candidate)
    ensures Compared(reference, candidate, names) == Ok(Same) <==>
      && Accepted(reference, names) && Accepted(candidate, names)
      && Equal(Projected(reference, Selected(names)).value, Projected(candidate, Selected(names)).value)
  {
    if Accepted(reference, names) && Accepted(candidate, names) {
      RenderedSame(reference, candidate, Selected(names));
    }
  }

  lemma NoDiffIffSameLines(a: Json, b: Json, names: seq<string>)
    ensures Compared(a, b, names) == Ok(Same) <==>
      && Accepted(a, names) && Accepted(b, names)
      && RenderedLines(a, Selected(names)).value == RenderedLines(b, Selected(names)).value
  {
  }

  /** For one selection, "no diff" is an equivalence relation on the accepted captures. */
  lemma NoDiffIsAnEquivalence(a: Json, b: Json, c: Json, names: seq<string>)
    ensures Compared(a, a, names) == Ok(Same) <==> Accepted(a, names)
    ensures Compared(a, b, names) == Ok(Same) <==> Compared(b, a, names) == Ok(Same)
    ensures Compared(a, b, names) == Ok(Same) && Compared(b, c, names) == Ok(Same) ==> Compared(a, c, names) == Ok(Same)
  {
    NoDiffIffSameLines(a, a, names);
    NoDiffIffSameLines(a, b, names);
    NoDiffIffSameLines(b, a, names);
    NoDiffIffSameLines(b, c, names);
    NoDiffIffSameLines(a, c, names);
  }
}
