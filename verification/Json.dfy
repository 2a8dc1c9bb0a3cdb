/** JSON values as Python loads them, and `json.dumps` with sorted keys, an indent of two
    and ASCII output (RFC 8259 sections 3 to 8). */
module Json {
  import opened Wrappers
  import opened Dicts

  /** A float is known by its shortest text; infinities and NaN are one value. */
  datatype Json =
    | Null
    | Bool(b: bool)
    | Int(n: int)
    | Float(text: string)
    | NonFinite
    | String(s: string)
    | Array(items: seq<Json>)
    | Object(members: seq<Item<Json>>)

  predicate IsNumberChar(c: char) {
    '0' <= c <= '9' || c == '-' || c == '+' || c == '.' || c == 'e'
  }

  /** The text of a finite float: digits and signs, with a point or an exponent. */
  predicate IsFloatText(s: string) {
    && s != "" && ('0' <= s[0] <= '9' || s[0] == '-')
    && (forall i | 0 <= i < |s| :: IsNumberChar(s[i]))
    && ('.' in s || 'e' in s)
  }

  /** Keys are distinct and float texts are float texts, as `json.load` delivers them. */
  predicate WellFormed(v: Json) {
    match v
    case Float(text) => IsFloatText(text)
    case Array(items) => forall x | x in items :: WellFormed(x)
    case Object(members) => Distinct(members) && forall m | m in members :: WellFormed(m.value)
    case _ => true
  }

  /** No infinity and no NaN anywhere, which `allow_nan=False` insists on. */
  predicate Finite(v: Json) {
    match v
    case NonFinite => false
    case Array(items) => forall x | x in items :: Finite(x)
    case Object(members) => forall m | m in members :: Finite(m.value)
    case _ => true
  }

  /** The same JSON value: types and array order count, the order of keys does not. */
  predicate Equal(v: Json, w: Json)
    decreases v
  {
    match (v, w)
    case (Array(xs), Array(ys)) => |xs| == |ys| && forall i | 0 <= i < |xs| :: Equal(xs[i], ys[i])
    case (Object(ms), Object(ns)) =>
      (forall m | m in ms :: exists n | n in ns :: Partner(m, n)) && (forall n | n in ns :: exists m | m in ms :: Partner(m, n))
    case _ => v == w
  }

  /** The two members stand for each other. */
  predicate Partner(m: Item<Json>, n: Item<Json>)
    decreases m
  {
    m.key == n.key && Equal(m.value, n.value)
  }

  // ----- strings and numbers -----

  function HexDigit(n: nat): char
    requires n < 16
  {
    if n < 10 then ('0' as int + n) as char else ('a' as int + n - 10) as char
  }

  /** `\uXXXX` */
  function UnicodeEscape(n: nat): string
    requires n < 0x10000
  {
    ['\\', 'u', HexDigit(n / 4096), HexDigit(n / 256 % 16), HexDigit(n / 16 % 16), HexDigit(n % 16)]
  }

  /** One character inside a string; a character beyond the basic plane is a surrogate pair. */
  function CharCode(c: char): string {
    var n := c as nat;
    if c == '\"' then "\\\""
    else if c == '\\' then "\\\\"
    else if n == 10 then "\\n"
    else if n == 13 then "\\r"
    else if n == 9 then "\\t"
    else if n == 12 then "\\f"
    else if n == 8 then "\\b"
    else if 32 <= n <= 126 then [c]
    else if n < 0x10000 then UnicodeEscape(n)
    else UnicodeEscape(0xD800 + (n - 0x10000) / 0x400) + UnicodeEscape(0xDC00 + (n - 0x10000) % 0x400)
  }

  function Escape(s: string): string {
    if s == "" then "" else CharCode(s[0]) + Escape(s[1..])
  }

  function Quote(s: string): string {
    "\"" + (Escape(s) + "\"")
  }

  function Digit(n: nat): char
    requires n < 10
  {
    ('0' as int + n) as char
  }

  function NatText(n: nat): string {
    if n < 10 then [Digit(n)] else NatText(n / 10) + [Digit(n % 10)]
  }

  function IntText(n: int): string {
    if n < 0 then "-" + NatText(-n) else NatText(n)
  }

  // ----- sorting by key -----

  /** Python's order on strings: by code point, a prefix first. */
  predicate Before(a: string, b: string) {
    if a == "" || b == "" then b != ""
    else a[0] < b[0] || (a[0] == b[0] && Before(a[1..], b[1..]))
  }

  function Insert<T>(m: Item<T>, sorted: seq<Item<T>>): seq<Item<T>> {
    if sorted == [] || Before(m.key, sorted[0].key) then [m] + sorted
    else [sorted[0]] + Insert(m, sorted[1..])
  }

  function SortItems<T>(ms: seq<Item<T>>): seq<Item<T>> {
    if ms == [] then [] else Insert(ms[0], SortItems(ms[1..]))
  }

  // ----- json.dumps -----

  function NewLine(level: nat): string {
    "\n" + seq(2 * level, _ => ' ')
  }

  function Render(v: Json, level: nat): string
    decreases v, 0
  {
    match v
    case Null => "null"
    case Bool(b) => if b then "true" else "false"
    case Int(n) => IntText(n)
    case Float(text) => text
    case NonFinite => "NaN"
    case String(s) => Quote(s)
    case Array(items) =>
      if items == [] then "[]" else "[" + (NewLine(level + 1) + Elements(RenderItems(items, level + 1), level, ']'))
    case Object(members) =>
      if members == [] then "{}"
      else "{" + (NewLine(level + 1) + Elements(Pairs(SortItems(RenderMembers(members, level + 1))), level, '}'))
  }

  function RenderItems(items: seq<Json>, level: nat): seq<string>
    decreases items, 1
  {
    if items == [] then [] else [Render(items[0], level)] + RenderItems(items[1..], level)
  }

  function RenderMembers(members: seq<Item<Json>>, level: nat): seq<Item<string>>
    decreases members, 1
  {
    if members == [] then []
    else [Item(members[0].key, Render(members[0].value, level))] + RenderMembers(members[1..], level)
  }

  function Pairs(rendered: seq<Item<string>>): seq<string> {
    if rendered == [] then [] else [Quote(rendered[0].key) + (": " + rendered[0].value)] + Pairs(rendered[1..])
  }

  /** The elements of an array or object, one a line, and the closing bracket. */
  function Elements(texts: seq<string>, level: nat, close: char): string
    decreases |texts|, 1
  {
    if texts == [] then "" else texts[0] + Rest(texts, level, close)
  }

  function Rest(texts: seq<string>, level: nat, close: char): string
    requires texts != []
    decreases |texts|, 0
  {
    if |texts| == 1 then NewLine(level) + [close]
    else "," + (NewLine(level + 1) + Elements(texts[1..], level, close))
  }

  /** `json.dumps(v, sort_keys=True, indent=2, allow_nan=False)`; None is its ValueError. */
  function Dumps(v: Json): Option<string> {
    if Finite(v) then Some(Render(v, 0)) else None
  }
}
