/** JSON values, their two serializations, and the parser as a function of the
    text and the cursor. */
module Json {
  import opened Wrappers

  /** A number is finite, known by an abstract identity, or infinite or not-a-number. */
  datatype Number = Finite(id: int) | NotFinite

  /** A value. An object is its key-sorted association list, as its ordered map iterates. */
  datatype Json =
    | Null
    | Bool(b: bool)
    | Num(n: Number)
    | Str(s: string)
    | Arr(a: seq<Json>)
    | Obj(fields: seq<Field>)

  datatype Field = Field(key: string, value: Json)

  /** How the standard library prints and parses finite numbers. */
  datatype NumFormat = NumFormat(print_: int -> string, parse: string -> Option<int>)

  const MAX_DEPTH := 128

  // ---- ordered keys ----

  predicate Less(a: string, b: string) {
    b != "" && (a == "" || a[0] < b[0] || (a[0] == b[0] && Less(a[1..], b[1..])))
  }

  lemma {:induction false} LessTotal(a: string, b: string)
    ensures !(Less(a, b) && Less(b, a)) && (a == b ==> !Less(a, b)) && (a != b ==> Less(a, b) || Less(b, a))
  {
    if a != "" && b != "" {
      LessTotal(a[1..], b[1..]);
      assert a == [a[0]] + a[1..] && b == [b[0]] + b[1..];
    }
  }

  lemma {:induction false} LessTransitive(a: string, b: string, c: string)
    requires Less(a, b) && Less(b, c)
    ensures Less(a, c)
  {
    if a != "" && a[0] == b[0] == c[0] {
      LessTransitive(a[1..], b[1..], c[1..]);
    }
  }

  ghost predicate Sorted(fields: seq<Field>) {
    forall i, j :: 0 <= i < j < |fields| ==> Less(fields[i].key, fields[j].key)
  }

  /** `BTreeMap::insert`: in key order, replacing an equal key. */
  function Insert(fields: seq<Field>, key: string, v: Json): seq<Field> {
    if fields == [] then [Field(key, v)]
    else if fields[0].key == key then [Field(key, v)] + fields[1..]
    else if Less(key, fields[0].key) then [Field(key, v)] + fields
    else [fields[0]] + Insert(fields[1..], key, v)
  }

  // ---- serialization ----

  const HEX: string := "0123456789abcdef"

  /** `escape_into`, one character. */
  function EscapeChar(c: char): (s: string)
    ensures s != "" && (c >= ' ' && c != '"' && c != '\\' ==> s == [c])
    ensures c < ' ' || c == '"' || c == '\\' ==> |s| > 1 && s[0] == '\\'
  {
    if c == '"' then "\\\""
    else if c == '\\' then "\\\\"
    else if c == '\n' then "\\n"
    else if c == '\r' then "\\r"
    else if c == '\t' then "\\t"
    else if c == '\U{8}' then "\\b"
    else if c == '\U{C}' then "\\f"
    else if c < ' ' then "\\u00" + [HEX[c as int / 16], HEX[c as int % 16]]
    else [c]
  }

  function Escape(s: string): string {
    if s == "" then "" else EscapeChar(s[0]) + Escape(s[1..])
  }

  function Quoted(s: string): string {
    "\"" + Escape(s) + "\""
  }

  function Pad(n: nat): (s: string)
    ensures |s| == 2 * n && forall i :: 0 <= i < |s| ==> s[i] == ' '
  {
    if n == 0 then "" else "  " + Pad(n - 1)
  }

  /** Pretty output puts a line break and two spaces a level; compact output nothing. */
  function Break(pretty: bool, depth: nat): string {
    if pretty then "\n" + Pad(depth) else ""
  }

  /** `write_to` and `write_pretty`. */
  function Render(f: NumFormat, pretty: bool, v: Json, depth: nat): string
    decreases v, 0
  {
    match v
    case Null => "null"
    case Bool(b) => if b then "true" else "false"
    case Num(Finite(id)) => (f.print_)(id)
    case Num(NotFinite) => "null"
    case Str(s) => Quoted(s)
    case Arr(a) => if a == [] then "[]" else "[" + Items(f, pretty, a, depth) + Break(pretty, depth) + "]"
    case Obj(fields) => if fields == [] then "{}"
      else "{" + Members(f, pretty, fields, depth) + Break(pretty, depth) + "}"
  }

  function Items(f: NumFormat, pretty: bool, a: seq<Json>, depth: nat): string
    requires a != []
    decreases a, 2
  {
    Break(pretty, depth + 1) + Render(f, pretty, a[0], depth + 1) + MoreItems(f, pretty, a, depth)
  }

  function MoreItems(f: NumFormat, pretty: bool, a: seq<Json>, depth: nat): string
    requires a != []
    decreases a, 1
  {
    if |a| == 1 then "" else "," + Items(f, pretty, a[1..], depth)
  }

  function Colon(pretty: bool): string {
    if pretty then ": " else ":"
  }

  function Members(f: NumFormat, pretty: bool, fields: seq<Field>, depth: nat): string
    requires fields != []
    decreases fields, 2
  {
    Break(pretty, depth + 1) + Quoted(fields[0].key) + Colon(pretty) + Render(f, pretty, fields[0].value, depth + 1)
    + MoreMembers(f, pretty, fields, depth)
  }

  function MoreMembers(f: NumFormat, pretty: bool, fields: seq<Field>, depth: nat): string
    requires fields != []
    decreases fields, 1
  {
    if |fields| == 1 then "" else "," + Members(f, pretty, fields[1..], depth)
  }

  // ---- the parser as a function ----

  /** What parsing from a cursor gives: a value and the cursor behind it, or an error. */
  datatype Parsed<+T> = Error | Ok(value: T, pos: nat)

  predicate At(src: string, pos: nat, c: char) {
    pos < |src| && src[pos] == c
  }

  predicate IsJsonSpace(c: char) {
    c == ' ' || c == '\t' || c == '\n' || c == '\r'
  }

  function SkipWs(src: string, pos: nat): (p: nat)
    requires pos <= |src|
    ensures pos <= p <= |src|
    decreases |src| - pos
  {
    if pos < |src| && IsJsonSpace(src[pos]) then SkipWs(src, pos + 1) else pos
  }

  function HexValue(c: char): (v: int)
    ensures -1 <= v < 16
  {
    if '0' <= c <= '9' then c as int - '0' as int
    else if 'a' <= c <= 'f' then c as int - 'a' as int + 10
    else if 'A' <= c <= 'F' then c as int - 'A' as int + 10
    else -1
  }

  /** `hex4`: `n` more hexadecimal digits on top of `code`. */
  function Hex(src: string, pos: nat, n: nat, code: nat): (r: Parsed<nat>)
    ensures r.Ok? ==> r.pos == pos + n && r.pos <= |src|
    ensures n == 0 ==> (r.Ok? <==> pos <= |src|)
    decreases n
  {
    if n == 0 then (if pos <= |src| then Ok(code, pos) else Error)
    else if pos < |src| && HexValue(src[pos]) >= 0 then Hex(src, pos + 1, n - 1, code * 16 + HexValue(src[pos]))
    else Error
  }

  lemma {:induction false} HexBelow(src: string, pos: nat, n: nat, code: nat)
    ensures Hex(src, pos, n, code).Ok? ==> Hex(src, pos, n, code).value < Power16(n) * (code + 1)
    decreases n
  {
    if n > 0 && pos < |src| && HexValue(src[pos]) >= 0 {
      HexBelow(src, pos + 1, n - 1, code * 16 + HexValue(src[pos]));
      HexBound(Power16(n - 1), code, HexValue(src[pos]));
    }
  }

  lemma HexBound(p: nat, code: nat, d: int)
    requires 0 <= d < 16
    ensures p * (code * 16 + d + 1) <= 16 * p * (code + 1)
  {
    assert 16 * p * (code + 1) == p * (16 * code + 16);
  }

  function Power16(n: nat): nat {
    if n == 0 then 1 else 16 * Power16(n - 1)
  }

  function Hex4(src: string, pos: nat): (r: Parsed<nat>)
    ensures r.Ok? ==> r.pos == pos + 4 && r.pos <= |src| && r.value < 0x1_0000
  {
    assert Power16(4) == 0x1_0000;
    HexBelow(src, pos, 4, 0);
    Hex(src, pos, 4, 0)
  }

  const REPLACEMENT: char := '\U{FFFD}'

  function CharOf(code: nat): char
    requires code < 0x11_0000
  {
    if 0xD800 <= code <= 0xDFFF then REPLACEMENT else code as char
  }

  /** After `\u`: one character, and the cursor, which a high surrogate without its
      partner rewinds to just behind its own four digits. */
  function UnicodeEscape(src: string, pos: nat): (r: Parsed<char>)
    ensures r.Ok? ==> pos + 4 <= r.pos <= |src|
  {
    match Hex4(src, pos)
    case Error => Error
    case Ok(hi, p) =>
      if 0xD800 <= hi <= 0xDBFF then
        if At(src, p, '\\') && At(src, p + 1, 'u') then
          match Hex4(src, p + 2)
          case Error => Error
          case Ok(lo, q) =>
            if 0xDC00 <= lo <= 0xDFFF then Ok(CharOf(0x1_0000 + (hi - 0xD800) * 0x400 + (lo - 0xDC00)), q)
            else Ok(REPLACEMENT, p)
        else Ok(REPLACEMENT, p)
      else Ok(CharOf(hi), p)
  }

  /** The character of a one-letter escape. */
  function SimpleEscape(c: char): Option<char> {
    if c == '"' then Some('"') else if c == '\\' then Some('\\') else if c == '/' then Some('/')
    else if c == 'n' then Some('\n') else if c == 't' then Some('\t') else if c == 'r' then Some('\r')
    else if c == 'b' then Some('\U{8}') else if c == 'f' then Some('\U{C}') else None
  }

  /** The rest of a string, the opening quote and `acc` being behind the cursor. */
  function StringBody(src: string, pos: nat, acc: string): (r: Parsed<string>)
    requires pos <= |src|
    ensures r.Ok? ==> pos < r.pos <= |src|
    decreases |src| - pos
  {
    if pos == |src| then Error
    else if src[pos] == '"' then Ok(acc, pos + 1)
    else if src[pos] != '\\' then StringBody(src, pos + 1, acc + [src[pos]])
    else if pos + 1 == |src| then Error
    else if src[pos + 1] == 'u' then
      match UnicodeEscape(src, pos + 2)
      case Error => Error
      case Ok(c, p) => StringBody(src, p, acc + [c])
    else
      match SimpleEscape(src[pos + 1])
      case None => Error
      case Some(c) => StringBody(src, pos + 2, acc + [c])
  }

  predicate IsNumberChar(c: char) {
    '0' <= c <= '9' || c == '-' || c == '+' || c == '.' || c == 'e' || c == 'E'
  }

  function NumberEnd(src: string, pos: nat): (p: nat)
    requires pos <= |src|
    ensures pos <= p <= |src|
    decreases |src| - pos
  {
    if pos < |src| && IsNumberChar(src[pos]) then NumberEnd(src, pos + 1) else pos
  }

  predicate Literal(src: string, pos: nat, lit: string) {
    pos + |lit| <= |src| && src[pos..pos + |lit|] == lit
  }

  /** `value`, at a container nesting of `depth`. */
  function Value(f: NumFormat, src: string, start: nat, depth: nat): (r: Parsed<Json>)
    requires start <= |src|
    ensures r.Ok? ==> start < r.pos <= |src|
    decreases |src| - start, 1
  {
    var pos := SkipWs(src, start);
    if pos == |src| then Error
    else if src[pos] == '{' then (if depth + 1 > MAX_DEPTH then Error else Object(f, src, pos, depth + 1))
    else if src[pos] == '[' then (if depth + 1 > MAX_DEPTH then Error else Array(f, src, pos, depth + 1))
    else if src[pos] == '"' then
      match StringBody(src, pos + 1, "")
      case Error => Error
      case Ok(s, p) => Ok(Str(s), p)
    else if src[pos] == 't' || src[pos] == 'f' then
      if Literal(src, pos, "true") then Ok(Bool(true), pos + 4)
      else if Literal(src, pos, "false") then Ok(Bool(false), pos + 5)
      else Error
    else if src[pos] == 'n' then (if Literal(src, pos, "null") then Ok(Null, pos + 4) else Error)
    else if src[pos] == '-' || '0' <= src[pos] <= '9' then
      var end := NumberEnd(src, pos + 1);
      match (f.parse)(src[pos..end])
      case None => Error
      case Some(id) => Ok(Num(Finite(id)), end)
    else Error
  }

  function Array(f: NumFormat, src: string, pos: nat, depth: nat): (r: Parsed<Json>)
    requires pos < |src|
    ensures r.Ok? ==> pos < r.pos <= |src|
    decreases |src| - pos, 0
  {
    var p := SkipWs(src, pos + 1);
    if At(src, p, ']') then Ok(Arr([]), p + 1) else Elements(f, src, p, depth, [])
  }

  /** The elements from the cursor on; `acc` are those before it. */
  function Elements(f: NumFormat, src: string, pos: nat, depth: nat, acc: seq<Json>): (r: Parsed<Json>)
    requires pos <= |src|
    ensures r.Ok? ==> pos < r.pos <= |src|
    decreases |src| - pos, 2
  {
    match Value(f, src, pos, depth)
    case Error => Error
    case Ok(v, p) =>
      var q := SkipWs(src, p);
      if At(src, q, ',') then Elements(f, src, q + 1, depth, acc + [v])
      else if At(src, q, ']') then Ok(Arr(acc + [v]), q + 1)
      else Error
  }

  function Object(f: NumFormat, src: string, pos: nat, depth: nat): (r: Parsed<Json>)
    requires pos < |src|
    ensures r.Ok? ==> pos < r.pos <= |src|
    decreases |src| - pos, 0
  {
    var p := SkipWs(src, pos + 1);
    if At(src, p, '}') then Ok(Obj([]), p + 1) else Pairs(f, src, p, depth, [])
  }

  /** One `"key": value`. */
  function Member(f: NumFormat, src: string, start: nat, depth: nat): (r: Parsed<Field>)
    requires start <= |src|
    ensures r.Ok? ==> start < r.pos <= |src|
    decreases |src| - start, 2
  {
    var pos := SkipWs(src, start);
    if !At(src, pos, '"') then Error
    else
      match StringBody(src, pos + 1, "")
      case Error => Error
      case Ok(key, k) =>
        var colon := SkipWs(src, k);
        if !At(src, colon, ':') then Error
        else
          match Value(f, src, colon + 1, depth)
          case Error => Error
          case Ok(v, p) => Ok(Field(key, v), p)
  }

  /** The members from the cursor on; `acc` holds those before it. */
  function Pairs(f: NumFormat, src: string, start: nat, depth: nat, acc: seq<Field>): (r: Parsed<Json>)
    requires start <= |src|
    ensures r.Ok? ==> start < r.pos <= |src|
    decreases |src| - start, 3
  {
    match Member(f, src, start, depth)
    case Error => Error
    case Ok(m, p) =>
      var q := SkipWs(src, p);
      var acc' := Insert(acc, m.key, m.value);
      if At(src, q, ',') then Pairs(f, src, q + 1, depth, acc')
      else if At(src, q, '}') then Ok(Obj(acc'), q + 1)
      else Error
  }

  /** `Json::parse`: one value and nothing but white space around it. */
  function Parse(f: NumFormat, src: string): Option<Json> {
    match Value(f, src, SkipWs(src, 0), 0)
    case Error => None
    case Ok(v, p) => if SkipWs(src, p) == |src| then Some(v) else None
  }
}
