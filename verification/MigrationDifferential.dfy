/** The differential comparator: validation and projection of a capture, and the verdict
    on two of them. */
module MigrationDifferential {
  import opened Text
  import opened Wrappers
  import opened Dicts
  import opened Json

  datatype CaptureError =
    | MissingKeys | MissingResponseKeys | BadStatus | HeadersNotObject
    | BadHeaderValue | DuplicateHeader | BadMessagesOrFiles | BadSelection | NotFinite

  type Headers = seq<Item<Json>>

  // ----- project -----

  predicate IsText(v: Json) {
    v.String?
  }

  /** A string or a list of strings. */
  predicate IsHeaderValue(v: Json) {
    v.String? || (v.Array? && forall x | x in v.items :: IsText(x))
  }

  predicate HasKeys(v: Json, keys: set<string>) {
    v.Object? && keys <= Keys(v.members)
  }

  function Field(v: Json, key: string): Json {
    if v.Object? then Get(v.members, key).GetOr(Null) else Null
  }

  predicate IsStatus(v: Json) {
    v.Int? && 100 <= v.n <= 599
  }

  /** The headers under lower-case names, or the first reason to refuse them. */
  function Normalize(members: Headers, normalized: Headers): Result<Headers, CaptureError> {
    if members == [] then Ok(normalized)
    else
      var m := members[0];
      if !IsHeaderValue(m.value) then Err(BadHeaderValue)
      else if Lower(m.key) in Keys(normalized) then Err(DuplicateHeader)
      else Normalize(members[1..], Put(normalized, Lower(m.key), m.value))
  }

  /** `{key: normalized[key] for key in names if key in normalized}` */
  function Select(names: seq<string>, normalized: Headers): Headers {
    if names == [] then []
    else
      var before, name := Select(names[..|names| - 1], normalized), names[|names| - 1];
      if name in Keys(normalized) then Put(before, name, Get(normalized, name).value) else before
  }

  function Envelope(input: Json, response: Json, messages: Json, files: Json): Json {
    Object([Item("input", input), Item("response", response), Item("messages", messages), Item("files", files)])
  }

  function Response(body: Json, status: Json, headers: Headers): Json {
    Object([Item("body", body), Item("status", status), Item("headers", Object(headers))])
  }

  function Projection(record: Json, headers: Headers): Json {
    var response := Field(record, "response");
    Envelope(Field(record, "input"), Response(Field(response, "body"), Field(response, "status"), headers),
             Field(record, "messages"), Field(record, "files"))
  }

  /** The selected headers of a capture whose parts are the given ones. */
  function Checked(status: Json, headers: Json, messages: Json, files: Json, names: seq<string>): Result<Headers, CaptureError> {
    if !IsStatus(status) then Err(BadStatus)
    else if !headers.Object? then Err(HeadersNotObject)
    else
      var normalized :- Normalize(headers.members, []);
      if !messages.Array? || !files.Object? then Err(BadMessagesOrFiles) else Ok(Select(names, normalized))
  }

  function Projected(record: Json, names: seq<string>): Result<Json, CaptureError> {
    var response := Field(record, "response");
    if !HasKeys(record, {"input", "response", "messages", "files"}) then Err(MissingKeys)
    else if !HasKeys(response, {"body", "status", "headers"}) then Err(MissingResponseKeys)
    else
      var selected :- Checked(Field(response, "status"), Field(response, "headers"),
                              Field(record, "messages"), Field(record, "files"), names);
      Ok(Projection(record, selected))
  }

  method Project(record: Json, names: seq<string>) returns (r: Result<Json, CaptureError>)
    ensures r == Projected(record, names)
  {
    if !HasKeys(record, {"input", "response", "messages", "files"}) { return Err(MissingKeys); }
    var response := Field(record, "response");
    if !HasKeys(response, {"body", "status", "headers"}) { return Err(MissingResponseKeys); }
    if !IsStatus(Field(response, "status")) { return Err(BadStatus); }
    if !Field(response, "headers").Object? { return Err(HeadersNotObject); }
    var headers := Field(response, "headers").members;
    var normalized: Headers := [];
    for i := 0 to |headers|
      invariant Normalize(headers, []) == Normalize(headers[i..], normalized)
    {
      var key, value := headers[i].key, headers[i].value;
      assert headers[i..][1..] == headers[i + 1..];
      if !IsHeaderValue(value) { return Err(BadHeaderValue); }
      if Lower(key) in Keys(normalized) { return Err(DuplicateHeader); }
      normalized := Put(normalized, Lower(key), value);
    }
    if !Field(record, "messages").Array? || !Field(record, "files").Object? { return Err(BadMessagesOrFiles); }
    var selected: Headers := [];
    for i := 0 to |names|
      invariant selected == Select(names[..i], normalized)
    {
      assert names[..i + 1][..i] == names[..i];
      if names[i] in Keys(normalized) {
        selected := Put(selected, names[i], Get(normalized, names[i]).value);
      }
    }
    assert names[..|names|] == names;
    return Ok(Projection(record, selected));
  }

  // ----- compare -----

  function InsertName(name: string, sorted: seq<string>): seq<string> {
    if sorted == [] || Before(name, sorted[0]) then [name] + sorted
    else if name == sorted[0] then sorted
    else [sorted[0]] + InsertName(name, sorted[1..])
  }

  /** `sorted({key.lower() for key in names})` */
  function Selected(names: seq<string>): seq<string> {
    if names == [] then [] else InsertName(Lower(names[0]), Selected(names[1..]))
  }

  function NamesIn(texts: seq<Json>): seq<string>
    requires forall x | x in texts :: IsText(x)
  {
    if texts == [] then []
    else
      assert IsText(texts[0]);
      [texts[0].s] + NamesIn(texts[1..])
  }

  predicate IsLineEnd(c: char) {
    var n := c as int;
    10 <= n <= 13 || 0x1C <= n <= 0x1E || n == 0x85 || n == 0x2028 || n == 0x2029
  }

  /** The length of the first line of `s`, its end included; CR LF is one line end. */
  function FirstLineLength(s: string): (n: nat)
    ensures n <= |s| && (s != "" ==> n > 0)
  {
    if s == "" then 0
    else if "\r\n" <= s then 2
    else if IsLineEnd(s[0]) then 1
    else 1 + FirstLineLength(s[1..])
  }

  /** `s.splitlines(True)` */
  function SplitLines(s: string): seq<string>
    decreases |s|
  {
    if s == "" then [] else [s[..FirstLineLength(s)]] + SplitLines(s[FirstLineLength(s)..])
  }

  /** What `compare` returns: the empty string, or a diff of two lists of lines. */
  datatype Comparison = Same | Differs(reference: seq<string>, candidate: seq<string>)

  /** One side of a comparison. */
  function RenderedLines(record: Json, names: seq<string>): Result<seq<string>, CaptureError> {
    var projected :- Projected(record, names);
    match Dumps(projected)
    case Some(text) => Ok(SplitLines(text))
    case None => Err(NotFinite)
  }

  function Compared(reference: Json, candidate: Json, names: seq<string>): Result<Comparison, CaptureError> {
    var left :- RenderedLines(reference, Selected(names));
    var right :- RenderedLines(candidate, Selected(names));
    Ok(if left == right then Same else Differs(left, right))
  }

  /** `compare`, where the selection comes from JSON too. */
  method Compare(reference: Json, candidate: Json, headers: Json) returns (r: Result<Comparison, CaptureError>)
    ensures !(headers.Array? && forall x | x in headers.items :: IsText(x)) ==> r == Err(BadSelection)
    ensures headers.Array? && (forall x | x in headers.items :: IsText(x)) ==>
      r == Compared(reference, candidate, NamesIn(headers.items))
  {
    if !headers.Array? || !(forall x | x in headers.items :: IsText(x)) { return Err(BadSelection); }
    var selected := Selected(NamesIn(headers.items));
    var left := Project(reference, selected);
    if left.Err? { return Err(left.error); }
    var leftText := Dumps(left.value);
    if leftText.None? { return Err(NotFinite); }
    var right := Project(candidate, selected);
    if right.Err? { return Err(right.error); }
    var rightText := Dumps(right.value);
    if rightText.None? { return Err(NotFinite); }
    var p, q := SplitLines(leftText.value), SplitLines(rightText.value);
    return Ok(if p == q then Same else Differs(p, q));
  }

  // ----- the verdict is equality of the projected captures -----

  function Concatenated(lines: seq<string>): string {
    if lines == [] then "" else lines[0] + Concatenated(lines[1..])
  }

  lemma {:induction false} JoinSplitLines(s: string)
    ensures Concatenated(SplitLines(s)) == s
    decreases |s|
  {
    if s != "" {
      JoinSplitLines(s[FirstLineLength(s)..]);
    }
  }

  lemma SameLinesSameText(s: string, t: string)
    requires SplitLines(s) == SplitLines(t)
    ensures s == t
  {
    JoinSplitLines(s);
    JoinSplitLines(t);
  }
}
