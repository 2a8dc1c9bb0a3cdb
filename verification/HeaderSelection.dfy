/** How the verdict of a comparison depends on the selection of headers and on the
    spelling of header names. */
module HeaderSelection {
  import opened Text
  import opened Wrappers
  import opened Dicts
  import opened Json
  import opened JsonOrder
  import opened JsonText
  import opened MigrationDifferential
  import opened DifferentialLaws

  // ----- the selected names -----

  function LowerSet(names: seq<string>): set<string> {
    set n | n in names :: Lower(n)
  }

  predicate Ascending(names: seq<string>) {
    forall i, j | 0 <= i < j < |names| :: Before(names[i], names[j])
  }

  lemma {:induction false} InsertNameKeeps(name: string, sorted: seq<string>)
    requires Ascending(sorted)
    ensures Ascending(InsertName(name, sorted))
    ensures forall n :: n in InsertName(name, sorted) <==> n == name || n in sorted
  {
    if sorted != [] {
      BeforeTotal(name, sorted[0]);
      if Before(name, sorted[0]) {
        forall j | 0 < j < |sorted| ensures Before(name, sorted[j]) {
          BeforeTransitive(name, sorted[0], sorted[j]);
        }
      } else if name != sorted[0] {
        var rest := InsertName(name, sorted[1..]);
        InsertNameKeeps(name, sorted[1..]);
        forall j | 0 <= j < |rest| ensures Before(sorted[0], rest[j]) {
          assert rest[j] in rest;
        }
        assert sorted == [sorted[0]] + sorted[1..];
      }
    }
  }

  lemma {:induction false} SelectedNames(names: seq<string>)
    ensures Ascending(Selected(names))
    ensures forall n :: n in Selected(names) <==> n in LowerSet(names)
  {
    if names != [] {
      SelectedNames(names[1..]);
      InsertNameKeeps(Lower(names[0]), Selected(names[1..]));
      assert names == [names[0]] + names[1..];
      assert LowerSet(names) == {Lower(names[0])} + LowerSet(names[1..]);
    }
  }

  lemma AscendingTail(p: seq<string>)
    requires p != [] && Ascending(p)
    ensures forall n :: n in p[1..] <==> n in p && n != p[0]
  {
    assert p == [p[0]] + p[1..];
    forall n | n in p[1..] ensures n != p[0] {
      var i :| 0 <= i < |p[1..]| && p[1..][i] == n;
      assert p[i + 1] == n && Before(p[0], p[i + 1]);
      BeforeTotal(p[0], p[0]);
    }
  }

  lemma {:induction false} AscendingUnique(p: seq<string>, q: seq<string>)
    requires Ascending(p) && Ascending(q)
    requires forall n :: n in p <==> n in q
    ensures p == q
  {
    assert p != [] ==> p[0] in q;
    assert q != [] ==> q[0] in p;
    if p != [] && q != [] {
      BeforeTotal(p[0], q[0]);
      AscendingTail(p);
      AscendingTail(q);
      assert p == [p[0]] + p[1..] && q == [q[0]] + q[1..];
      AscendingUnique(p[1..], q[1..]);
    }
  }

  /** Only the set of lower-cased selected names matters: not their case, their order or
      how often they are listed. */
  lemma OnlyLowerCasedNamesMatter(reference: Json, candidate: Json, names: seq<string>, others: seq<string>)
    requires LowerSet(names) == LowerSet(others)
    ensures Compared(reference, candidate, names) == Compared(reference, candidate, others)
  {
    SelectedNames(names);
    SelectedNames(others);
    AscendingUnique(Selected(names), Selected(others));
  }

  // ----- the case of captured names -----

  /** The same headers in the same order, up to the case of their names. */
  predicate CaseVariants(members: Headers, others: Headers) {
    |members| == |others|
    && forall i | 0 <= i < |members| :: Lower(members[i].key) == Lower(others[i].key) && members[i].value == others[i].value
  }

  lemma {:induction false} NormalizeIgnoresCase(members: Headers, others: Headers, normalized: Headers)
    requires CaseVariants(members, others)
    ensures Normalize(members, normalized) == Normalize(others, normalized)
  {
    if members != [] && IsHeaderValue(members[0].value) && Lower(members[0].key) !in Keys(normalized) {
      NormalizeIgnoresCase(members[1..], others[1..], Put(normalized, Lower(members[0].key), members[0].value));
    }
  }

  /** A capture with its headers replaced. */
  function WithHeaders(record: Json, headers: Headers): Json
    requires record.Object? && Field(record, "response").Object?
  {
    Object(Put(record.members, "response",
               Object(Put(Field(record, "response").members, "headers", Object(headers)))))
  }

  lemma FieldOfPut(members: Headers, key: string, value: Json, other: string)
    ensures Field(Object(Put(members, key, value)), other) == if other == key then value else Field(Object(members), other)
    ensures Keys(Put(members, key, value)) == Keys(members) + {key}
  {
    GetPut(members, key, value, other);
    PutKeys(members, key, value);
  }

  lemma FieldsWithHeaders(record: Json, headers: Headers)
    requires record.Object? && Field(record, "response").Object?
    ensures var r := WithHeaders(record, headers);
      && r.Object? && Keys(r.members) == Keys(record.members) + {"response"}
      && Field(r, "input") == Field(record, "input")
      && Field(r, "messages") == Field(record, "messages") && Field(r, "files") == Field(record, "files")
      && Field(r, "response") == Object(Put(Field(record, "response").members, "headers", Object(headers)))
  {
    var inner := Object(Put(Field(record, "response").members, "headers", Object(headers)));
    FieldOfPut(record.members, "response", inner, "response");
    FieldOfPut(record.members, "response", inner, "input");
    FieldOfPut(record.members, "response", inner, "messages");
    FieldOfPut(record.members, "response", inner, "files");
  }

  lemma ProjectedWithHeaders(record: Json, headers: Headers, names: seq<string>)
    requires HasKeys(record, {"input", "response", "messages", "files"})
    requires HasKeys(Field(record, "response"), {"body", "status", "headers"})
    ensures Projected(WithHeaders(record, headers), names)
         == var selected :- Checked(Field(Field(record, "response"), "status"), Object(headers),
                                    Field(record, "messages"), Field(record, "files"), names);
            Ok(Projection(record, selected))
  {
    var response := Field(record, "response").members;
    var r := WithHeaders(record, headers);
    FieldsWithHeaders(record, headers);
    FieldOfPut(response, "headers", Object(headers), "headers");
    FieldOfPut(response, "headers", Object(headers), "body");
    FieldOfPut(response, "headers", Object(headers), "status");
    assert Keys(record.members) <= Keys(r.members);
    assert HasKeys(r, {"input", "response", "messages", "files"});
    forall selected ensures Projection(r, selected) == Projection(record, selected) {}
  }

  /** Respelling the captured header names changes neither the verdict nor the diff. */
  lemma CapturedCaseIsIgnored(record: Json, headers: Headers, respelled: Headers, candidate: Json, names: seq<string>)
    requires HasKeys(record, {"input", "response", "messages", "files"})
    requires HasKeys(Field(record, "response"), {"body", "status", "headers"})
    requires CaseVariants(headers, respelled)
    ensures Compared(WithHeaders(record, headers), candidate, names) == Compared(WithHeaders(record, respelled), candidate, names)
    ensures Compared(candidate, WithHeaders(record, headers), names) == Compared(candidate, WithHeaders(record, respelled), names)
  {
    RespelledProjection(record, headers, respelled, Selected(names));
    SameProjectionSameVerdict(WithHeaders(record, headers), WithHeaders(record, respelled), candidate, names);
  }

  lemma SameProjectionSameVerdict(a: Json, b: Json, c: Json, names: seq<string>)
    requires Projected(a, Selected(names)) == Projected(b, Selected(names))
    ensures Compared(a, c, names) == Compared(b, c, names) && Compared(c, a, names) == Compared(c, b, names)
  {
    SameLinesSameVerdict(a, b, c, names);
  }

  lemma SameLinesSameVerdict(a: Json, b: Json, c: Json, names: seq<string>)
    requires RenderedLines(a, Selected(names)) == RenderedLines(b, Selected(names))
    ensures Compared(a, c, names) == Compared(b, c, names) && Compared(c, a, names) == Compared(c, b, names)
  {
  }

  lemma RespelledProjection(record: Json, headers: Headers, respelled: Headers, names: seq<string>)
    requires HasKeys(record, {"input", "response", "messages", "files"})
    requires HasKeys(Field(record, "response"), {"body", "status", "headers"})
    requires CaseVariants(headers, respelled)
    ensures Projected(WithHeaders(record, headers), names) == Projected(WithHeaders(record, respelled), names)
  {
    NormalizeIgnoresCase(headers, respelled, []);
    ProjectedWithHeaders(record, headers, names);
    ProjectedWithHeaders(record, respelled, names);
    var status, messages, files := Field(Field(record, "response"), "status"), Field(record, "messages"), Field(record, "files");
    assert Checked(status, Object(headers), messages, files, names) == Checked(status, Object(respelled), messages, files, names);
  }

  // ----- fewer headers -----

  lemma {:induction false} GetSelect(names: seq<string>, normalized: Headers, key: string)
    ensures Get(Select(names, normalized), key) == if key in names then Get(normalized, key) else None
  {
    if names != [] {
      var before, name := names[..|names| - 1], names[|names| - 1];
      GetSelect(before, normalized, key);
      assert names == before + [name];
      if name in Keys(normalized) {
        GetPut(Select(before, normalized), name, Get(normalized, name).value, key);
      }
    }
  }

  predicate EqualAt(ms: Headers, ns: Headers, key: string) {
    Get(ms, key).Some? == Get(ns, key).Some? && (Get(ms, key).Some? ==> Equal(Get(ms, key).value, Get(ns, key).value))
  }

  /** Objects are equal exactly when they have equal values under the same keys. */
  lemma EqualObjectsByKey(ms: Headers, ns: Headers)
    requires Distinct(ms) && Distinct(ns)
    ensures Equal(Object(ms), Object(ns)) <==> forall key :: EqualAt(ms, ns, key)
  {
    if Equal(Object(ms), Object(ns)) {
      EqualObjects(ms, ns);
      forall key ensures EqualAt(ms, ns, key) {
        if Get(ms, key).Some? {
          var m := Item(key, Get(ms, key).value);
          var n :| n in ns && Partner(m, n);
          GetInMember(ns, n);
        }
        if Get(ns, key).Some? {
          var n := Item(key, Get(ns, key).value);
          var m :| m in ms && Partner(m, n);
          GetInMember(ms, m);
        }
      }
    }
    if forall key :: EqualAt(ms, ns, key) {
      forall m | m in ms ensures exists n | n in ns :: Partner(m, n) {
        GetInMember(ms, m);
        assert EqualAt(ms, ns, m.key);
        assert Partner(m, Item(m.key, Get(ns, m.key).value));
      }
      forall n | n in ns ensures exists m | m in ms :: Partner(m, n) {
        GetInMember(ns, n);
        assert EqualAt(ms, ns, n.key);
        assert Partner(Item(n.key, Get(ms, n.key).value), n);
      }
      PartnersMakeEqual(ms, ns);
    }
  }

  lemma PartnersMakeEqual(ms: Headers, ns: Headers)
    requires forall m | m in ms :: exists n | n in ns :: Partner(m, n)
    requires forall n | n in ns :: exists m | m in ms :: Partner(m, n)
    ensures Equal(Object(ms), Object(ns))
  {
  }

  lemma GetInMember(ms: Headers, m: Item<Json>)
    requires Distinct(ms) && m in ms
    ensures Get(ms, m.key) == Some(m.value)
  {
    var i :| 0 <= i < |ms| && ms[i] == m;
    GetMember(ms, i);
  }

  lemma EqualSelections(h: Headers, k: Headers, small: seq<string>, large: seq<string>)
    requires GoodHeaders(h) && GoodHeaders(k)
    requires forall n | n in small :: n in large
    requires Equal(Object(Select(large, h)), Object(Select(large, k)))
    ensures Equal(Object(Select(small, h)), Object(Select(small, k)))
  {
    SelectGood(small, h);
    SelectGood(small, k);
    SelectGood(large, h);
    SelectGood(large, k);
    EqualObjectsByKey(Select(large, h), Select(large, k));
    forall key ensures EqualAt(Select(small, h), Select(small, k), key) {
      assert EqualAt(Select(large, h), Select(large, k), key);
      EqualSelectionsAt(h, k, small, large, key);
    }
    EqualObjectsByKey(Select(small, h), Select(small, k));
  }

  lemma EqualSelectionsAt(h: Headers, k: Headers, small: seq<string>, large: seq<string>, key: string)
    requires key in small ==> key in large
    requires EqualAt(Select(large, h), Select(large, k), key)
    ensures EqualAt(Select(small, h), Select(small, k), key)
  {
    GetSelect(small, h, key);
    GetSelect(small, k, key);
    GetSelect(large, h, key);
    GetSelect(large, k, key);
  }

  predicate SameKeys(p: Headers, q: Headers) {
    Distinct(p) && Distinct(q) && |p| == |q| && forall i | 0 <= i < |p| :: p[i].key == q[i].key
  }

  lemma EqualAtIndex(p: Headers, q: Headers, i: nat)
    requires SameKeys(p, q) && i < |p|
    ensures EqualAt(p, q, p[i].key) <==> Equal(p[i].value, q[i].value)
  {
    GetMember(p, i);
    GetMember(q, i);
  }

  /** Objects with the same keys in the same order are compared value by value. */
  lemma EqualSameKeys(p: Headers, q: Headers)
    requires SameKeys(p, q)
    ensures (forall key :: EqualAt(p, q, key)) <==> forall i | 0 <= i < |p| :: EqualAt(p, q, p[i].key)
  {
    if forall i | 0 <= i < |p| :: EqualAt(p, q, p[i].key) {
      forall key ensures EqualAt(p, q, key) {
        assert Keys(p) == Keys(q);
        if key in Keys(p) {
          var i :| 0 <= i < |p| && p[i].key == key;
        }
      }
    }
  }

  lemma EnvelopeKeys(i: Json, r: Json, m: Json, f: Json, i': Json, r': Json, m': Json, f': Json)
    ensures SameKeys(Envelope(i, r, m, f).members, Envelope(i', r', m', f').members)
  {
    var p := Envelope(i, r, m, f).members;
    assert p[0].key == "input" && p[1].key == "response" && p[2].key == "messages" && p[3].key == "files";
  }

  lemma EqualByIndex(p: Headers, q: Headers)
    requires SameKeys(p, q)
    ensures Equal(Object(p), Object(q)) <==> forall i | 0 <= i < |p| :: Equal(p[i].value, q[i].value)
  {
    EqualObjectsByKey(p, q);
    EqualSameKeys(p, q);
    forall i | 0 <= i < |p| ensures EqualAt(p, q, p[i].key) <==> Equal(p[i].value, q[i].value) {
      EqualAtIndex(p, q, i);
    }
  }

  predicate EqualFromOn(p: Headers, q: Headers, start: nat)
    requires |p| == |q|
  {
    forall i | start <= i < |p| :: Equal(p[i].value, q[i].value)
  }

  lemma EqualFrom(p: Headers, q: Headers, start: nat)
    requires |p| == |q| && start < |p|
    ensures EqualFromOn(p, q, start) <==> Equal(p[start].value, q[start].value) && EqualFromOn(p, q, start + 1)
  {
  }

  lemma EqualFour(p: Headers, q: Headers)
    requires SameKeys(p, q) && |p| == 4
    ensures Equal(Object(p), Object(q)) <==>
      && Equal(p[0].value, q[0].value) && Equal(p[1].value, q[1].value)
      && Equal(p[2].value, q[2].value) && Equal(p[3].value, q[3].value)
  {
    EqualByIndex(p, q);
    EqualFrom(p, q, 0);
    EqualFrom(p, q, 1);
    EqualFrom(p, q, 2);
    EqualFrom(p, q, 3);
  }

  lemma EqualEnvelopes(i: Json, r: Json, m: Json, f: Json, i': Json, r': Json, m': Json, f': Json)
    ensures Equal(Envelope(i, r, m, f), Envelope(i', r', m', f'))
       <==> Equal(i, i') && Equal(r, r') && Equal(m, m') && Equal(f, f')
  {
    EnvelopeKeys(i, r, m, f, i', r', m', f');
    EqualFour(Envelope(i, r, m, f).members, Envelope(i', r', m', f').members);
  }

  lemma ResponseKeys(b: Json, s: Json, h: Headers, b': Json, s': Json, h': Headers)
    ensures SameKeys(Response(b, s, h).members, Response(b', s', h').members)
  {
    var p := Response(b, s, h).members;
    assert p[0].key == "body" && p[1].key == "status" && p[2].key == "headers";
  }

  lemma EqualThree(p: Headers, q: Headers)
    requires SameKeys(p, q) && |p| == 3
    ensures Equal(Object(p), Object(q)) <==>
      Equal(p[0].value, q[0].value) && Equal(p[1].value, q[1].value) && Equal(p[2].value, q[2].value)
  {
    EqualByIndex(p, q);
    EqualFrom(p, q, 0);
    EqualFrom(p, q, 1);
    EqualFrom(p, q, 2);
  }

  lemma EqualResponses(b: Json, s: Json, h: Headers, b': Json, s': Json, h': Headers)
    ensures Equal(Response(b, s, h), Response(b', s', h')) <==> Equal(b, b') && Equal(s, s') && Equal(Object(h), Object(h'))
  {
    ResponseKeys(b, s, h, b', s', h');
    EqualThree(Response(b, s, h).members, Response(b', s', h').members);
  }

  lemma EqualParts(i: Json, b: Json, s: Json, m: Json, f: Json, i': Json, b': Json, s': Json, m': Json, f': Json,
                   h: Headers, k: Headers)
    ensures Equal(Envelope(i, Response(b, s, h), m, f), Envelope(i', Response(b', s', k), m', f'))
       <==> Equal(i, i') && Equal(b, b') && Equal(s, s') && Equal(m, m') && Equal(f, f') && Equal(Object(h), Object(k))
  {
    EqualResponses(b, s, h, b', s', k);
    EqualEnvelopes(i, Response(b, s, h), m, f, i', Response(b', s', k), m', f');
  }

  /** What two captures have outside their headers is the same. */
  predicate SameOutsideHeaders(r: Json, c: Json) {
    && Equal(Field(r, "input"), Field(c, "input"))
    && Equal(Field(Field(r, "response"), "body"), Field(Field(c, "response"), "body"))
    && Equal(Field(Field(r, "response"), "status"), Field(Field(c, "response"), "status"))
    && Equal(Field(r, "messages"), Field(c, "messages"))
    && Equal(Field(r, "files"), Field(c, "files"))
  }

  /** Two projections agree exactly when their headers do and the rest does. */
  lemma EqualProjections(r: Json, c: Json, h: Headers, k: Headers)
    ensures Equal(Projection(r, h), Projection(c, k)) <==> SameOutsideHeaders(r, c) && Equal(Object(h), Object(k))
  {
    EqualParts(Field(r, "input"), Field(Field(r, "response"), "body"), Field(Field(r, "response"), "status"),
               Field(r, "messages"), Field(r, "files"),
               Field(c, "input"), Field(Field(c, "response"), "body"), Field(Field(c, "response"), "status"),
               Field(c, "messages"), Field(c, "files"), h, k);
  }

  lemma FiniteProjection(r: Json, h: Headers, k: Headers)
    requires GoodHeaders(h) && GoodHeaders(k)
    ensures Finite(Projection(r, h)) == Finite(Projection(r, k))
  {
    var body, status := Field(Field(r, "response"), "body"), Field(Field(r, "response"), "status");
    ResponseIsProper(body, status, h);
    ResponseIsProper(body, status, k);
    EnvelopeIsProper(Field(r, "input"), Response(body, status, h), Field(r, "messages"), Field(r, "files"));
    EnvelopeIsProper(Field(r, "input"), Response(body, status, k), Field(r, "messages"), Field(r, "files"));
  }

  /** The headers of a capture under lower-case names. */
  function HeadersOf(record: Json): Result<Headers, CaptureError> {
    var headers := Field(Field(record, "response"), "headers");
    if headers.Object? then Normalize(headers.members, []) else Err(HeadersNotObject)
  }

  lemma ProjectedUnderAnySelection(record: Json, names: seq<string>, others: seq<string>)
    ensures Projected(record, names).Ok? == Projected(record, others).Ok?
    ensures Projected(record, names).Ok? ==>
      && HeadersOf(record).Ok? && GoodHeaders(HeadersOf(record).value)
      && Projected(record, names) == Ok(Projection(record, Select(names, HeadersOf(record).value)))
      && Projected(record, others) == Ok(Projection(record, Select(others, HeadersOf(record).value)))
  {
    var headers := Field(Field(record, "response"), "headers");
    if headers.Object? {
      NormalizeGood(headers.members, []);
    }
  }

  /** Whether a capture is accepted does not depend on the selection. */
  lemma AcceptedUnderAnySelection(record: Json, names: seq<string>, others: seq<string>)
    ensures Accepted(record, names) == Accepted(record, others)
  {
    var few, many := Selected(names), Selected(others);
    ProjectedUnderAnySelection(record, few, many);
    if Projected(record, few).Ok? {
      var h := HeadersOf(record).value;
      SelectGood(few, h);
      SelectGood(many, h);
      FiniteProjection(record, Select(few, h), Select(many, h));
    }
  }

  /** No difference under a selection means none under a smaller one. */
  lemma SmallerSelectionStillAgrees(reference: Json, candidate: Json, small: seq<string>, large: seq<string>)
    requires WellFormed(reference) && WellFormed(candidate)
    requires LowerSet(small) <= LowerSet(large)
    requires Compared(reference, candidate, large) == Ok(Same)
    ensures Compared(reference, candidate, small) == Ok(Same)
  {
    var few, many := Selected(small), Selected(large);
    SelectedNames(small);
    SelectedNames(large);
    NoDiffIffSameValue(reference, candidate, large);
    AcceptedUnderAnySelection(reference, small, large);
    AcceptedUnderAnySelection(candidate, small, large);
    ProjectedUnderAnySelection(reference, few, many);
    ProjectedUnderAnySelection(candidate, few, many);
    var h, k := HeadersOf(reference).value, HeadersOf(candidate).value;
    EqualProjections(reference, candidate, Select(many, h), Select(many, k));
    EqualSelections(h, k, few, many);
    EqualProjections(reference, candidate, Select(few, h), Select(few, k));
    NoDiffIffSameValue(reference, candidate, small);
  }
}
