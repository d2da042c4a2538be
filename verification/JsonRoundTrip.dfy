/** Printing a value, compactly or prettily, and parsing it gives the value back;
    and what the parser returns can always be printed and parsed again. */
module JsonRoundTrip {
  import opened Json
  import opened Wrappers

  /** What is assumed of the standard library: a printed finite number is made of
      number characters, starts like a number, and parses to the number. */
  ghost predicate Faithful(f: NumFormat) {
    forall id :: var t := (f.print_)(id);
      && t != "" && (t[0] == '-' || '0' <= t[0] <= '9')
      && (forall i :: 0 <= i < |t| ==> IsNumberChar(t[i]))
      && (f.parse)(t) == Some(id)
  }

  /** Finite numbers and ordered keys, all the way down. */
  ghost predicate Good(v: Json) {
    match v
    case Num(n) => n.Finite?
    case Arr(a) => forall i :: 0 <= i < |a| ==> Good(a[i])
    case Obj(fields) => Sorted(fields) && forall i :: 0 <= i < |fields| ==> Good(fields[i].value)
    case _ => true
  }

  /** What a written value is read as: every object in key order and each of its keys once,
      and null for a number that is not finite. */
  ghost function ReadAs(v: Json): Json
    decreases v, 0
  {
    match v
    case Arr(a) => Arr(ReadAll(a))
    case Obj(fields) => Obj(Gathered([], fields))
    case Num(NotFinite) => Null
    case _ => v
  }

  ghost function ReadAll(a: seq<Json>): seq<Json>
    decreases a, 1
  {
    if a == [] then [] else [ReadAs(a[0])] + ReadAll(a[1..])
  }

  ghost function Gathered(acc: seq<Field>, fields: seq<Field>): seq<Field>
    decreases fields, 1
  {
    if fields == [] then acc else Gathered(Insert(acc, fields[0].key, ReadAs(fields[0].value)), fields[1..])
  }

  /** Containers nested at most `d` deep. */
  ghost predicate Nested(v: Json, d: int) {
    match v
    case Arr(a) => d >= 1 && forall i :: 0 <= i < |a| ==> Nested(a[i], d - 1)
    case Obj(fields) => d >= 1 && forall i :: 0 <= i < |fields| ==> Nested(fields[i].value, d - 1)
    case _ => d >= 0
  }

  // ---- pieces of text ----

  lemma Pieces(src: string, pos: nat, a: string, b: string)
    requires Literal(src, pos, a + b)
    ensures Literal(src, pos, a) && Literal(src, pos + |a|, b) && pos + |a| + |b| <= |src|
  {
    assert src[pos..pos + |a|] == (a + b)[..|a|] == a;
    assert src[pos + |a|..pos + |a + b|] == (a + b)[|a|..] == b;
  }

  lemma Pieces3(src: string, pos: nat, a: string, b: string, c: string)
    requires Literal(src, pos, a + b + c)
    ensures Literal(src, pos, a) && Literal(src, pos + |a|, b) && Literal(src, pos + |a| + |b|, c)
    ensures pos + |a| + |b| + |c| <= |src|
  {
    hide Literal;
    Pieces(src, pos, a + b, c);
    Pieces(src, pos, a, b);
  }

  lemma Pieces4(src: string, pos: nat, a: string, b: string, c: string, d: string)
    requires Literal(src, pos, a + b + c + d)
    ensures Literal(src, pos, a) && Literal(src, pos + |a|, b) && Literal(src, pos + |a| + |b|, c)
    ensures Literal(src, pos + |a| + |b| + |c|, d) && pos + |a| + |b| + |c| + |d| <= |src|
  {
    hide Literal;
    Pieces(src, pos, a + b + c, d);
    Pieces3(src, pos, a, b, c);
  }

  lemma Pieces5(src: string, pos: nat, a: string, b: string, c: string, d: string, e: string)
    requires Literal(src, pos, a + b + c + d + e)
    ensures Literal(src, pos, a) && Literal(src, pos + |a|, b) && Literal(src, pos + |a| + |b|, c)
    ensures Literal(src, pos + |a| + |b| + |c|, d) && Literal(src, pos + |a| + |b| + |c| + |d|, e)
    ensures pos + |a| + |b| + |c| + |d| + |e| <= |src|
  {
    hide Literal;
    Pieces(src, pos, a + b + c + d, e);
    Pieces4(src, pos, a, b, c, d);
  }

  lemma FirstChar(src: string, pos: nat, t: string)
    requires Literal(src, pos, t) && t != ""
    ensures At(src, pos, t[0])
  {
  }

  ghost predicate AllSpace(t: string) {
    forall i :: 0 <= i < |t| ==> IsJsonSpace(t[i])
  }

  lemma {:induction false} SkipOver(src: string, pos: nat, t: string)
    requires Literal(src, pos, t) && AllSpace(t)
    ensures SkipWs(src, pos) == SkipWs(src, pos + |t|)
    decreases |t|
  {
    if t != "" {
      assert t == [t[0]] + t[1..];
      Pieces(src, pos, [t[0]], t[1..]);
      FirstChar(src, pos, [t[0]]);
      SkipOver(src, pos + 1, t[1..]);
    }
  }

  lemma {:induction false} PadIsSpace(n: nat)
    ensures AllSpace(Pad(n))
  {
    if n > 0 { PadIsSpace(n - 1); }
  }

  lemma BreakIsSpace(pretty: bool, depth: nat)
    ensures AllSpace(Break(pretty, depth))
  {
    PadIsSpace(depth);
  }

  /** White space before a character that is none is skipped exactly. */
  lemma SkipTo(src: string, pos: nat, t: string, c: char)
    requires Literal(src, pos, t) && AllSpace(t) && At(src, pos + |t|, c) && !IsJsonSpace(c)
    ensures SkipWs(src, pos) == pos + |t| == SkipWs(src, pos + |t|)
  {
    SkipOver(src, pos, t);
  }

  /** White space is blanks, tabs and line ends, and all of it before the next character is
      skipped. */
  lemma {:induction false} SkipsSpace(src: string, pos: nat)
    requires pos <= |src|
    ensures forall i :: pos <= i < SkipWs(src, pos) ==> src[i] in {' ', '\t', '\n', '\r'}
    ensures SkipWs(src, pos) < |src| ==> src[SkipWs(src, pos)] !in {' ', '\t', '\n', '\r'}
    decreases |src| - pos
  {
    if pos < |src| && IsJsonSpace(src[pos]) {
      SkipsSpace(src, pos + 1);
    }
  }

  // ---- strings ----

  const ESCAPES: string := "\"\\/bfnrt"
  const ESCAPED: string := ['"', '\\', '/', '\U{8}', '\U{C}', '\n', '\r', '\t']

  /** Each of the eight one-letter escapes is read as its character, and no other letter
      but `u` may follow a backslash. */
  lemma OneLetterEscape(src: string, pos: nat, acc: string)
    requires pos + 1 < |src| && src[pos] == '\\'
    ensures forall i :: 0 <= i < 8 && src[pos + 1] == ESCAPES[i] ==>
      StringBody(src, pos, acc) == StringBody(src, pos + 2, acc + [ESCAPED[i]])
    ensures src[pos + 1] !in ESCAPES && src[pos + 1] != 'u' ==> StringBody(src, pos, acc) == Error
  {
    var c := src[pos + 1];
    assert forall i :: 0 <= i < 8 && c == ESCAPES[i] ==> SimpleEscape(c) == Some(ESCAPED[i]);
    assert ESCAPES[0] == '"' && ESCAPES[1] == '\\' && ESCAPES[2] == '/' && ESCAPES[3] == 'b';
    assert ESCAPES[4] == 'f' && ESCAPES[5] == 'n' && ESCAPES[6] == 'r' && ESCAPES[7] == 't';
    hide UnicodeEscape;
  }

  const UPPER_HEX: string := "0123456789ABCDEF"

  /** Hexadecimal digits of both cases, and nothing else, have their value. */
  lemma HexValueIs(c: char, v: nat)
    requires v < 16
    ensures HexValue(c) == v <==> c == HEX[v] || c == UPPER_HEX[v]
    ensures HexValue(c) < 0 <==> c !in HEX && c !in UPPER_HEX
  {
    var d := c as int - '0' as int;
    if 0 <= d < 10 {
      assert HEX[d] == c;
    } else if 'a' <= c <= 'f' {
      assert HEX[c as int - 'a' as int + 10] == c;
    } else if 'A' <= c <= 'F' {
      assert UPPER_HEX[c as int - 'A' as int + 10] == c;
    }
  }

  function FourDigits(a: nat, b: nat, c: nat, d: nat): (t: string)
    requires a < 16 && b < 16 && c < 16 && d < 16
    ensures |t| == 4
  {
    [HEX[a], HEX[b], HEX[c], HEX[d]]
  }

  lemma FourDigitsBack(src: string, pos: nat, a: nat, b: nat, c: nat, d: nat)
    requires a < 16 && b < 16 && c < 16 && d < 16 && Literal(src, pos, FourDigits(a, b, c, d))
    ensures Hex4(src, pos) == Ok(((a * 16 + b) * 16 + c) * 16 + d, pos + 4)
  {
    FourCharacters(src, pos, FourDigits(a, b, c, d));
    HexValueIs(HEX[a], a);
    HexValueIs(HEX[b], b);
    HexValueIs(HEX[c], c);
    HexValueIs(HEX[d], d);
    hide Literal, HexValue, Hex4;
    FourSteps(src, pos, a, b, c, d);
  }

  lemma FourCharacters(src: string, pos: nat, t: string)
    requires |t| == 4 && Literal(src, pos, t)
    ensures pos + 4 <= |src| && src[pos] == t[0] && src[pos + 1] == t[1] && src[pos + 2] == t[2] && src[pos + 3] == t[3]
  {
  }

  lemma FourSteps(src: string, pos: nat, a: nat, b: nat, c: nat, d: nat)
    requires pos + 4 <= |src| && HexValue(src[pos]) == a && HexValue(src[pos + 1]) == b
    requires HexValue(src[pos + 2]) == c && HexValue(src[pos + 3]) == d
    ensures Hex4(src, pos) == Ok(((a * 16 + b) * 16 + c) * 16 + d, pos + 4)
  {
    hide HexValue;
    var n := ((a * 16 + b) * 16 + c) * 16 + d;
    assert Hex(src, pos + 4, 0, n) == Ok(n, pos + 4);
    hide Hex;
    HexStep(src, pos, 4, 0, a);
    HexStep(src, pos + 1, 3, a, b);
    HexStep(src, pos + 2, 2, a * 16 + b, c);
    HexStep(src, pos + 3, 1, (a * 16 + b) * 16 + c, d);
  }

  /** The four hexadecimal digits of a 16-bit code unit. */
  function CodeUnit(n: nat): (t: string)
    requires n < 0x1_0000
    ensures |t| == 4
  {
    FourDigits(n / 0x1000, n / 0x100 % 16, n / 16 % 16, n % 16)
  }

  lemma CodeUnitBack(src: string, pos: nat, n: nat)
    requires n < 0x1_0000 && Literal(src, pos, CodeUnit(n))
    ensures Hex4(src, pos) == Ok(n, pos + 4)
  {
    hide FourDigits, Hex4, Literal;
    FourDigitsBack(src, pos, n / 0x1000, n / 0x100 % 16, n / 16 % 16, n % 16);
    Nibbles(n);
  }

  lemma Nibbles(n: nat)
    requires n < 0x1_0000
    ensures n == ((n / 0x1000 * 16 + n / 0x100 % 16) * 16 + n / 16 % 16) * 16 + n % 16
  {
  }

  lemma HexStep(src: string, pos: nat, k: nat, code: nat, d: nat)
    requires k > 0 && pos < |src| && HexValue(src[pos]) == d
    ensures Hex(src, pos, k, code) == Hex(src, pos + 1, k - 1, code * 16 + d)
  {
    hide HexValue;
  }

  /** A code unit outside the surrogates is read as its character. */
  lemma BasicCharacter(src: string, pos: nat, n: nat)
    requires n < 0x1_0000 && !(0xD800 <= n < 0xE000) && Literal(src, pos, CodeUnit(n))
    ensures UnicodeEscape(src, pos) == Ok(n as char, pos + 4)
  {
    CodeUnitBack(src, pos, n);
    hide Hex4;
  }

  /** The surrogate pair of a code point beyond the basic plane is read as its character,
      both halves of it. */
  lemma SurrogatePair(src: string, pos: nat, code: nat)
    requires 0x1_0000 <= code < 0x11_0000
    requires Literal(src, pos, CodeUnit(0xD800 + (code - 0x1_0000) / 0x400)
      + ("\\u" + CodeUnit(0xDC00 + (code - 0x1_0000) % 0x400)))
    ensures UnicodeEscape(src, pos) == Ok(code as char, pos + 10)
  {
    hide *;
    var hi, lo := 0xD800 + (code - 0x1_0000) / 0x400, 0xDC00 + (code - 0x1_0000) % 0x400;
    Halves(code);
    PairLaid(src, pos, hi, lo);
    CodeUnitBack(src, pos, hi);
    CodeUnitBack(src, pos + 6, lo);
    PairRead(src, pos, hi, lo);
  }

  lemma PairLaid(src: string, pos: nat, hi: nat, lo: nat)
    requires hi < 0x1_0000 && lo < 0x1_0000 && Literal(src, pos, CodeUnit(hi) + ("\\u" + CodeUnit(lo)))
    ensures Literal(src, pos, CodeUnit(hi)) && Literal(src, pos + 6, CodeUnit(lo))
    ensures At(src, pos + 4, '\\') && At(src, pos + 5, 'u')
  {
    assert |CodeUnit(hi)| == 4;
    hide CodeUnit;
    Pieces(src, pos, CodeUnit(hi), "\\u" + CodeUnit(lo));
    Pieces(src, pos + 4, "\\u", CodeUnit(lo));
    assert src[pos + 4..pos + 6] == "\\u";
  }

  lemma Halves(code: nat)
    requires 0x1_0000 <= code < 0x11_0000
    ensures var hi, lo := 0xD800 + (code - 0x1_0000) / 0x400, 0xDC00 + (code - 0x1_0000) % 0x400;
      0xD800 <= hi < 0xDC00 <= lo < 0xE000 && 0x1_0000 + (hi - 0xD800) * 0x400 + (lo - 0xDC00) == code
  {
  }

  lemma PairRead(src: string, pos: nat, hi: nat, lo: nat)
    requires 0xD800 <= hi < 0xDC00 <= lo < 0xE000 && Hex4(src, pos) == Ok(hi, pos + 4)
      && Hex4(src, pos + 6) == Ok(lo, pos + 10)
    requires At(src, pos + 4, '\\') && At(src, pos + 5, 'u')
    ensures UnicodeEscape(src, pos) == Ok((0x1_0000 + (hi - 0xD800) * 0x400 + (lo - 0xDC00)) as char, pos + 10)
  {
    hide Hex4, At;
  }

  /** A surrogate without its partner is read as the replacement character, and the cursor
      stays right behind it. */
  lemma LoneSurrogate(src: string, pos: nat, n: nat)
    requires 0xD800 <= n < 0xE000 && Literal(src, pos, CodeUnit(n))
    requires n < 0xDC00 ==>
      !(At(src, pos + 4, '\\') && At(src, pos + 5, 'u'))
      || (Hex4(src, pos + 6).Ok? && !(0xDC00 <= Hex4(src, pos + 6).value < 0xE000))
    ensures UnicodeEscape(src, pos) == Ok('\U{FFFD}', pos + 4)
  {
    CodeUnitBack(src, pos, n);
    hide Hex4;
  }

  /** One escaped character is read back as itself. */
  lemma CharStep(src: string, pos: nat, c: char, acc: string)
    requires Literal(src, pos, EscapeChar(c))
    ensures StringBody(src, pos, acc) == StringBody(src, pos + |EscapeChar(c)|, acc + [c])
  {
    var e := EscapeChar(c);
    assert src[pos] == e[0];
    if |e| == 2 {
      assert src[pos + 1] == e[1];
    } else if |e| == 6 {
      UnicodeStep(src, pos, c, acc);
    }
  }

  lemma UnicodeStep(src: string, pos: nat, c: char, acc: string)
    requires |EscapeChar(c)| == 6 && Literal(src, pos, EscapeChar(c))
    ensures StringBody(src, pos, acc) == StringBody(src, pos + 6, acc + [c])
  {
    var e, hi, lo := EscapeChar(c), HEX[c as int / 16], HEX[c as int % 16];
    assert e == "\\u" + ['0', '0', hi, lo];
    assert src[pos] == '\\' && src[pos + 1] == 'u';
    Pieces(src, pos, "\\u", ['0', '0', hi, lo]);
    FourDigitsBack(src, pos + 2, 0, 0, c as int / 16, c as int % 16);
    hide EscapeChar, Literal;
  }

  lemma StringEnd(src: string, pos: nat, acc: string)
    requires At(src, pos, '"')
    ensures StringBody(src, pos, acc) == Ok(acc, pos + 1)
  {
  }

  lemma EscapeCons(s: string)
    ensures Escape(s) == if s == "" then "" else EscapeChar(s[0]) + Escape(s[1..])
  {
  }

  lemma {:induction false} StringBack(src: string, pos: nat, s: string, acc: string)
    requires Literal(src, pos, Escape(s)) && At(src, pos + |Escape(s)|, '"')
    ensures pos <= |src| && StringBody(src, pos, acc) == Ok(acc + s, pos + |Escape(s)| + 1)
    decreases |s|
  {
    hide StringBody, Escape, EscapeChar, Literal;
    EscapeCons(s);
    if s == "" {
      StringEnd(src, pos, acc);
      assert acc + s == acc;
    } else {
      var e := EscapeChar(s[0]);
      Pieces(src, pos, e, Escape(s[1..]));
      CharStep(src, pos, s[0], acc);
      StringBack(src, pos + |e|, s[1..], acc + [s[0]]);
      assert acc + [s[0]] + s[1..] == acc + s;
    }
  }

  lemma QuotedBack(src: string, pos: nat, s: string)
    requires Literal(src, pos, Quoted(s))
    ensures At(src, pos, '"') && StringBody(src, pos + 1, "") == Ok(s, pos + |Quoted(s)|)
  {
    hide Escape, StringBody;
    Pieces3(src, pos, "\"", Escape(s), "\"");
    FirstChar(src, pos, "\"");
    FirstChar(src, pos + 1 + |Escape(s)|, "\"");
    StringBack(src, pos + 1, s, "");
    assert "" + s == s;
  }

  // ---- numbers ----

  /** A number token ends where no number character follows. */
  ghost predicate Ends(src: string, pos: nat) {
    pos <= |src| && (pos < |src| ==> !IsNumberChar(src[pos]))
  }

  lemma {:induction false} NumberSpan(src: string, pos: nat, t: string)
    requires Literal(src, pos, t) && (forall i :: 0 <= i < |t| ==> IsNumberChar(t[i])) && Ends(src, pos + |t|)
    ensures NumberEnd(src, pos) == pos + |t|
    decreases |t|
  {
    if t != "" {
      assert t == [t[0]] + t[1..];
      Pieces(src, pos, [t[0]], t[1..]);
      FirstChar(src, pos, [t[0]]);
      NumberSpan(src, pos + 1, t[1..]);
    }
  }

  lemma NumberBack(f: NumFormat, src: string, start: nat, pos: nat, id: int, depth: nat)
    requires Faithful(f) && start <= pos && start <= |src| && SkipWs(src, start) == pos
    requires Literal(src, pos, (f.print_)(id)) && Ends(src, pos + |(f.print_)(id)|)
    ensures Value(f, src, start, depth) == Ok(Num(Finite(id)), pos + |(f.print_)(id)|)
  {
    var t := (f.print_)(id);
    assert src[pos] == t[0];
    assert t == [t[0]] + t[1..];
    Pieces(src, pos, [t[0]], t[1..]);
    NumberSpan(src, pos + 1, t[1..]);
  }

  // ---- objects ----

  lemma {:induction false} InsertLast(fields: seq<Field>, key: string, v: Json)
    requires forall i :: 0 <= i < |fields| ==> Less(fields[i].key, key)
    ensures Insert(fields, key, v) == fields + [Field(key, v)]
  {
    if fields != [] {
      LessTotal(fields[0].key, key);
      InsertLast(fields[1..], key, v);
    }
  }

  // ---- values ----

  /** No value starts like white space or like what may follow a value. */
  lemma RenderStart(f: NumFormat, pretty: bool, v: Json, d: nat)
    requires Faithful(f)
    ensures var t := Render(f, pretty, v, d); t != "" && !IsJsonSpace(t[0]) && t[0] != ']' && t[0] != '}'
  {
  }

  lemma ShallowerBy1(v: Json, depth: nat)
    requires Nested(v, MAX_DEPTH - depth)
    ensures v.Arr? ==> depth + 1 <= MAX_DEPTH && forall i :: 0 <= i < |v.a| ==> Nested(v.a[i], MAX_DEPTH - (depth + 1))
    ensures v.Obj? ==> depth + 1 <= MAX_DEPTH && forall i :: 0 <= i < |v.fields| ==>
      Nested(v.fields[i].value, MAX_DEPTH - (depth + 1))
  {
  }

  /** Parsing at the start of a printed value gives the value and the cursor behind it. */
  lemma {:induction false} ValueBack(f: NumFormat, pretty: bool, v: Json, d: nat, src: string, start: nat, pos: nat,
                                     depth: nat)
    requires Faithful(f) && Nested(v, MAX_DEPTH - depth)
    requires start <= |src| && SkipWs(src, start) == pos && Literal(src, pos, Render(f, pretty, v, d))
    requires Ends(src, pos + |Render(f, pretty, v, d)|)
    ensures Value(f, src, start, depth) == Ok(ReadAs(v), pos + |Render(f, pretty, v, d)|)
    decreases v, 0
  {
    hide Array, Object, StringBody, Items, Members, Nested;
    ShallowerBy1(v, depth);
    var t := Render(f, pretty, v, d);
    assert src[pos] == t[0] by { RenderStart(f, pretty, v, d); }
    match v {
      case Null =>
      case Bool(b) =>
      case Num(Finite(id)) => NumberBack(f, src, start, pos, id, depth);
      case Num(NotFinite) =>
      case Str(s) => QuotedBack(src, pos, s);
      case Arr(a) => ArrayBack(f, pretty, a, d, src, pos, depth + 1);
      case Obj(fields) => ObjectBack(f, pretty, fields, d, src, pos, depth + 1);
    }
  }

  /** White space and a closing bracket. */
  ghost predicate Closes(src: string, pos: nat, br: string, close: char) {
    AllSpace(br) && Literal(src, pos, br) && At(src, pos + |br|, close) && (close == ']' || close == '}')
  }

  lemma ClosesSkipped(src: string, pos: nat, br: string, close: char)
    requires Closes(src, pos, br, close)
    ensures Ends(src, pos) && SkipWs(src, pos) == pos + |br|
  {
    SkipTo(src, pos, br, close);
    if br != "" {
      assert src[pos] == br[0];
    }
  }

  lemma CommaSkipped(src: string, pos: nat, m: string)
    requires Literal(src, pos, "," + m)
    ensures Ends(src, pos) && SkipWs(src, pos) == pos && At(src, pos, ',') && Literal(src, pos + 1, m)
  {
    Pieces(src, pos, ",", m);
    FirstChar(src, pos, ",");
  }

  // ---- arrays ----

  /** White space, then a text that starts with something else, then more. */
  ghost predicate Laid(src: string, pos: nat, br: string, r: string, more: string) {
    && pos + |br| + |r| + |more| <= |src| && r != ""
    && SkipWs(src, pos) == pos + |br| == SkipWs(src, pos + |br|) && At(src, pos + |br|, r[0])
    && Literal(src, pos + |br|, r) && Literal(src, pos + |br| + |r|, more)
  }

  lemma LayOut(src: string, pos: nat, br: string, r: string, more: string)
    requires Literal(src, pos, br + r + more) && AllSpace(br) && r != "" && !IsJsonSpace(r[0])
    ensures Laid(src, pos, br, r, more)
  {
    hide Literal, SkipWs, AllSpace, IsJsonSpace;
    Pieces3(src, pos, br, r, more);
    FirstChar(src, pos + |br|, r);
    SkipTo(src, pos, br, r[0]);
  }

  /** An item is a line break and a value, in this order. */
  lemma ItemPieces(f: NumFormat, pretty: bool, a: seq<Json>, d: nat, src: string, pos: nat)
    requires Faithful(f) && a != [] && Literal(src, pos, Items(f, pretty, a, d))
    ensures Laid(src, pos, Break(pretty, d + 1), Render(f, pretty, a[0], d + 1), MoreItems(f, pretty, a, d))
    ensures Render(f, pretty, a[0], d + 1)[0] != ']'
    ensures |Items(f, pretty, a, d)|
      == |Break(pretty, d + 1)| + |Render(f, pretty, a[0], d + 1)| + |MoreItems(f, pretty, a, d)|
  {
    RenderStart(f, pretty, a[0], d + 1);
    BreakIsSpace(pretty, d + 1);
    hide Render, Break, MoreItems, Literal, Laid, Faithful, AllSpace, IsJsonSpace;
    LayOut(src, pos, Break(pretty, d + 1), Render(f, pretty, a[0], d + 1), MoreItems(f, pretty, a, d));
  }

  lemma {:induction false} ArrayBack(f: NumFormat, pretty: bool, a: seq<Json>, d: nat, src: string, pos: nat,
                                     depth: nat)
    requires Faithful(f) && forall i :: 0 <= i < |a| ==> Nested(a[i], MAX_DEPTH - depth)
    requires Literal(src, pos, Render(f, pretty, Arr(a), d))
    ensures At(src, pos, '[') && Array(f, src, pos, depth) == Ok(Arr(ReadAll(a)), pos + |Render(f, pretty, Arr(a), d)|)
    decreases a, 3
  {
    hide *;
    if a == [] {
      EmptyArrayBack(f, pretty, d, src, pos, depth);
    } else {
      ArrayPieces(f, pretty, a, d, src, pos);
      ItemPieces(f, pretty, a, d, src, pos + 1);
      ClosesAt(pretty, d, src, pos + 1 + |Items(f, pretty, a, d)|, ']');
      AfterBracket(src, pos + 1, Break(pretty, d + 1), Render(f, pretty, a[0], d + 1), MoreItems(f, pretty, a, d), ']');
      ElementsBack(f, pretty, a, d, src, SkipWs(src, pos + 1), pos + 1, depth, []);
      ArrayStep(f, src, pos, depth);
      NothingBefore(ReadAll(a));
    }
  }

  lemma EmptyArrayBack(f: NumFormat, pretty: bool, d: nat, src: string, pos: nat, depth: nat)
    requires Literal(src, pos, Render(f, pretty, Arr([]), d))
    ensures At(src, pos, '[') && Array(f, src, pos, depth) == Ok(Arr([]), pos + |Render(f, pretty, Arr([]), d)|)
    ensures ReadAll([]) == []
  {
    hide Literal, Elements;
    assert "[]" == "[" + "]";
    Pieces(src, pos, "[", "]");
    FirstChar(src, pos, "[");
    FirstChar(src, pos + 1, "]");
  }

  lemma ArrayPieces(f: NumFormat, pretty: bool, a: seq<Json>, d: nat, src: string, pos: nat)
    requires a != [] && Literal(src, pos, Render(f, pretty, Arr(a), d))
    ensures var items, br := Items(f, pretty, a, d), Break(pretty, d);
      && pos < |src| && At(src, pos, '[') && Literal(src, pos + 1, items) && Literal(src, pos + 1 + |items|, br)
      && At(src, pos + 1 + |items| + |br|, ']') && |Render(f, pretty, Arr(a), d)| == 1 + |items| + |br| + 1
  {
    hide Items, Break, Literal;
    InBrackets(src, pos, "[", Items(f, pretty, a, d), Break(pretty, d), "]");
  }

  lemma ReadAllFrom(acc: seq<Json>, a: seq<Json>)
    requires a != []
    ensures acc + [ReadAs(a[0])] + ReadAll(a[1..]) == acc + ReadAll(a)
    ensures |a| == 1 ==> acc + [ReadAs(a[0])] == acc + ReadAll(a)
  {
    hide *;
    ReadAllCons(a);
    Enclosed(acc, [ReadAs(a[0])], ReadAll(a[1..]), []);
  }

  lemma ReadAllCons(a: seq<Json>)
    requires a != []
    ensures ReadAll(a) == [ReadAs(a[0])] + ReadAll(a[1..]) && (|a| == 1 ==> ReadAll(a) == [ReadAs(a[0])])
  {
    hide ReadAs;
    if |a| == 1 {
      assert a[1..] == [] && ReadAll([]) == [];
    }
  }

  lemma NothingBefore<T>(a: seq<T>)
    ensures [] + a == a
  {
  }

  lemma ClosesAt(pretty: bool, d: nat, src: string, pos: nat, close: char)
    requires Literal(src, pos, Break(pretty, d)) && At(src, pos + |Break(pretty, d)|, close)
    requires close == ']' || close == '}'
    ensures Closes(src, pos, Break(pretty, d), close)
  {
    hide Break, Literal;
    BreakIsSpace(pretty, d);
  }

  lemma AfterBracket(src: string, pos: nat, br: string, r: string, more: string, close: char)
    requires Laid(src, pos, br, r, more) && (r != "" ==> r[0] != close)
    ensures pos <= |src| && !At(src, SkipWs(src, pos), close) && SkipWs(src, SkipWs(src, pos)) == SkipWs(src, pos)
  {
    hide SkipWs;
  }

  lemma ArrayStep(f: NumFormat, src: string, pos: nat, depth: nat)
    requires pos < |src| && !At(src, SkipWs(src, pos + 1), ']')
    ensures Array(f, src, pos, depth) == Elements(f, src, SkipWs(src, pos + 1), depth, [])
  {
    hide Elements;
  }

  lemma InBrackets(src: string, pos: nat, open: string, items: string, br: string, close: string)
    requires |open| == 1 && |close| == 1 && Literal(src, pos, open + items + br + close)
    ensures At(src, pos, open[0]) && Literal(src, pos + 1, items) && Literal(src, pos + 1 + |items|, br)
    ensures At(src, pos + 1 + |items| + |br|, close[0]) && |open + items + br + close| == 1 + |items| + |br| + 1
  {
    Pieces4(src, pos, open, items, br, close);
    FirstChar(src, pos, open);
    FirstChar(src, pos + 1 + |items| + |br|, close);
  }

  lemma ElementsStep(f: NumFormat, src: string, start: nat, depth: nat, acc: seq<Json>, v: Json, p: nat)
    requires start <= |src| && Value(f, src, start, depth) == Ok(v, p)
    ensures p <= |src| && Elements(f, src, start, depth, acc) == AfterElement(f, src, p, depth, acc + [v])
  {
    hide Value, SkipWs;
  }

  /** Behind an element the loop looks for a comma or the closing bracket. */
  function AfterElement(f: NumFormat, src: string, p: nat, depth: nat, acc: seq<Json>): Parsed<Json>
    requires p <= |src|
  {
    var q := SkipWs(src, p);
    if At(src, q, ',') then Elements(f, src, q + 1, depth, acc)
    else if At(src, q, ']') then Ok(Arr(acc), q + 1)
    else Error
  }

  lemma {:induction false} ElementsBack(f: NumFormat, pretty: bool, a: seq<Json>, d: nat, src: string, start: nat,
                                        pos: nat, depth: nat, acc: seq<Json>)
    requires Faithful(f) && a != [] && forall i :: 0 <= i < |a| ==> Nested(a[i], MAX_DEPTH - depth)
    requires start <= |src| && pos <= |src| && SkipWs(src, start) == SkipWs(src, pos)
    requires Literal(src, pos, Items(f, pretty, a, d))
    requires Closes(src, pos + |Items(f, pretty, a, d)|, Break(pretty, d), ']')
    ensures Elements(f, src, start, depth, acc)
      == Ok(Arr(acc + ReadAll(a)), pos + |Items(f, pretty, a, d)| + |Break(pretty, d)| + 1)
    decreases a, 2
  {
    hide Value, Render, SkipWs, Literal, Nested, Faithful, Break, Items, Elements, AllSpace, ReadAll, ReadAs;
    ItemPieces(f, pretty, a, d, src, pos);
    var at := pos + |Break(pretty, d + 1)|;
    var p := at + |Render(f, pretty, a[0], d + 1)|;
    if |a| == 1 {
      ClosesSkipped(src, p, Break(pretty, d), ']');
      ValueBack(f, pretty, a[0], d + 1, src, start, at, depth);
      ElementsStep(f, src, start, depth, acc, ReadAs(a[0]), p);
      ReadAllFrom(acc, a);
    } else {
      CommaSkipped(src, p, Items(f, pretty, a[1..], d));
      ValueBack(f, pretty, a[0], d + 1, src, start, at, depth);
      ElementsStep(f, src, start, depth, acc, ReadAs(a[0]), p);
      ElementsBack(f, pretty, a[1..], d, src, p + 1, p + 1, depth, acc + [ReadAs(a[0])]);
      ReadAllFrom(acc, a);
    }
  }

  // ---- objects ----

  /** A member is a line break, a quoted key, a colon and a value, in this order. */
  ghost predicate MemberLaid(src: string, pos: nat, br: string, q: string, c: string, r: string, more: string) {
    && pos + |br| + |q| + |c| + |r| + |more| <= |src|
    && SkipWs(src, pos) == pos + |br| == SkipWs(src, pos + |br|) && At(src, pos + |br|, '"')
    && Literal(src, pos + |br|, q) && Literal(src, pos + |br| + |q|, c) && Literal(src, pos + |br| + |q| + |c|, r)
    && Literal(src, pos + |br| + |q| + |c| + |r|, more)
  }

  lemma LayOutMember(src: string, pos: nat, br: string, key: string, c: string, r: string, more: string)
    requires Literal(src, pos, br + Quoted(key) + c + r + more) && AllSpace(br)
    ensures MemberLaid(src, pos, br, Quoted(key), c, r, more)
  {
    hide Literal, SkipWs, AllSpace, Quoted, StringBody;
    Pieces5(src, pos, br, Quoted(key), c, r, more);
    QuotedBack(src, pos + |br|, key);
    SkipTo(src, pos, br, '"');
  }

  lemma MemberPieces(f: NumFormat, pretty: bool, fields: seq<Field>, d: nat, src: string, pos: nat)
    requires fields != [] && Literal(src, pos, Members(f, pretty, fields, d))
    ensures MemberLaid(src, pos, Break(pretty, d + 1), Quoted(fields[0].key), Colon(pretty),
      Render(f, pretty, fields[0].value, d + 1),
                       MoreMembers(f, pretty, fields, d))
    ensures |Members(f, pretty, fields, d)| == |Break(pretty, d + 1)| + |Quoted(fields[0].key)| + |Colon(pretty)|
      + |Render(f, pretty, fields[0].value, d + 1)| + |MoreMembers(f, pretty, fields, d)|
  {
    BreakIsSpace(pretty, d + 1);
    hide Render, Break, Quoted, Colon, MoreMembers, Literal, MemberLaid, AllSpace;
    LayOutMember(src, pos, Break(pretty, d + 1), fields[0].key, Colon(pretty),
      Render(f, pretty, fields[0].value, d + 1),
                 MoreMembers(f, pretty, fields, d));
  }

  lemma ColonSkipped(f: NumFormat, pretty: bool, v: Json, d: nat, src: string, k: nat)
    requires Faithful(f) && Literal(src, k, Colon(pretty))
      && Literal(src, k + |Colon(pretty)|, Render(f, pretty, v, d))
    ensures k + 1 <= |src| && SkipWs(src, k) == k && At(src, k, ':') && SkipWs(src, k + 1) == k + |Colon(pretty)|
  {
    RenderStart(f, pretty, v, d);
    var r := Render(f, pretty, v, d);
    FirstChar(src, k + |Colon(pretty)|, r);
    FirstChar(src, k, Colon(pretty));
    if pretty {
      assert ": " == ":" + " ";
      Pieces(src, k, ":", " ");
      SkipTo(src, k + 1, " ", r[0]);
    }
  }

  lemma {:induction false} ObjectBack(f: NumFormat, pretty: bool, fields: seq<Field>, d: nat, src: string, pos: nat,
                                      depth: nat)
    requires Faithful(f) && forall i :: 0 <= i < |fields| ==>
      Nested(fields[i].value, MAX_DEPTH - depth)
    requires Literal(src, pos, Render(f, pretty, Obj(fields), d))
    ensures At(src, pos, '{') && Object(f, src, pos, depth)
      == Ok(Obj(Gathered([], fields)), pos + |Render(f, pretty, Obj(fields), d)|)
    decreases fields, 3
  {
    hide Value, Pairs, Members, Break, Nested, Literal, Faithful, Sorted, Quoted, Colon, Insert;
    if fields == [] {
      assert "{}" == "{" + "}";
      Pieces(src, pos, "{", "}");
      FirstChar(src, pos, "{");
      FirstChar(src, pos + 1, "}");
    } else {
      var members, br := Members(f, pretty, fields, d), Break(pretty, d);
      assert Render(f, pretty, Obj(fields), d) == "{" + members + br + "}";
      hide Render;
      InBrackets(src, pos, "{", members, br, "}");
      BreakIsSpace(pretty, d);
      MemberPieces(f, pretty, fields, d, src, pos + 1);
      PairsBack(f, pretty, fields, d, src, SkipWs(src, pos + 1), pos + 1, depth, []);
    }
  }

  /** In key order, every member is inserted last. */
  lemma InsertNext(acc: seq<Field>, fields: seq<Field>)
    requires fields != [] && Sorted(acc + fields)
    ensures Insert(acc, fields[0].key, fields[0].value) == acc + [fields[0]]
  {
    forall i | 0 <= i < |acc|
      ensures Less(acc[i].key, fields[0].key)
    {
      assert (acc + fields)[i] == acc[i] && (acc + fields)[|acc|] == fields[0];
    }
    InsertLast(acc, fields[0].key, fields[0].value);
  }

  /** Behind a member the loop looks for a comma or the closing brace. */
  function AfterMember(f: NumFormat, src: string, p: nat, depth: nat, acc: seq<Field>): Parsed<Json>
    requires p <= |src|
  {
    var q := SkipWs(src, p);
    if At(src, q, ',') then Pairs(f, src, q + 1, depth, acc)
    else if At(src, q, '}') then Ok(Obj(acc), q + 1)
    else Error
  }

  lemma PairsStep(f: NumFormat, src: string, start: nat, depth: nat, acc: seq<Field>, key: string, k: nat, v: Json,
                  p: nat)
    requires start <= |src| && At(src, SkipWs(src, start), '"')
      && StringBody(src, SkipWs(src, start) + 1, "") == Ok(key, k)
    requires k <= |src| && SkipWs(src, k) == k && At(src, k, ':') && Value(f, src, k + 1, depth) == Ok(v, p)
    ensures p <= |src| && Pairs(f, src, start, depth, acc) == AfterMember(f, src, p, depth, Insert(acc, key, v))
  {
    hide StringBody, Value, Insert, SkipWs;
  }

  /** One member: its key and value are read and inserted last. */
  lemma MemberBack(f: NumFormat, pretty: bool, fields: seq<Field>, d: nat, src: string, start: nat, pos: nat,
                   depth: nat,
                   acc: seq<Field>, p: nat)
    requires Faithful(f) && fields != []
    requires start <= |src| && pos <= |src| && SkipWs(src, start) == SkipWs(src, pos)
    requires Literal(src, pos, Members(f, pretty, fields, d))
    requires Nested(fields[0].value, MAX_DEPTH - depth)
    requires p + |MoreMembers(f, pretty, fields, d)| == pos + |Members(f, pretty, fields, d)| && Ends(src, p)
    ensures p <= |src| && Pairs(f, src, start, depth, acc)
      == AfterMember(f, src, p, depth, Insert(acc, fields[0].key, ReadAs(fields[0].value)))
    decreases fields, 1
  {
    hide *;
    MemberPieces(f, pretty, fields, d, src, pos);
    MemberBackAux(f, pretty, fields[0], d, src, start, pos, depth, acc, p, MoreMembers(f, pretty, fields, d));
  }

  lemma MemberBackAux(f: NumFormat, pretty: bool, field: Field, d: nat, src: string, start: nat, pos: nat, depth: nat,
                      acc: seq<Field>, p: nat, more: string)
    requires Faithful(f) && Nested(field.value, MAX_DEPTH - depth)
    requires start <= |src| && pos <= |src| && SkipWs(src, start) == SkipWs(src, pos)
    requires MemberLaid(src, pos, Break(pretty, d + 1), Quoted(field.key), Colon(pretty),
      Render(f, pretty, field.value, d + 1), more)
    requires p == pos + |Break(pretty, d + 1)| + |Quoted(field.key)| + |Colon(pretty)|
      + |Render(f, pretty, field.value, d + 1)|
    requires Ends(src, p)
    ensures p <= |src| && Pairs(f, src, start, depth, acc)
      == AfterMember(f, src, p, depth, Insert(acc, field.key, ReadAs(field.value)))
    decreases field, 0
  {
    hide Value, Render, SkipWs, Literal, Nested, Faithful, Quoted, Insert, StringBody, Break, Pairs,
      AfterMember,
      Colon;
    var p0 := pos + |Break(pretty, d + 1)|;
    var k := p0 + |Quoted(field.key)|;
    QuotedBack(src, p0, field.key);
    ColonSkipped(f, pretty, field.value, d + 1, src, k);
    ValueBack(f, pretty, field.value, d + 1, src, k + 1, k + |Colon(pretty)|, depth);
    PairsStep(f, src, start, depth, acc, field.key, k, ReadAs(field.value), p);
  }

  lemma {:induction false} PairsBack(f: NumFormat, pretty: bool, fields: seq<Field>, d: nat, src: string, start: nat,
                                     pos: nat, depth: nat, acc: seq<Field>)
    requires Faithful(f) && fields != []
    requires forall i :: 0 <= i < |fields| ==> Nested(fields[i].value, MAX_DEPTH - depth)
    requires start <= |src| && pos <= |src| && SkipWs(src, start) == SkipWs(src, pos)
    requires Literal(src, pos, Members(f, pretty, fields, d))
    requires Closes(src, pos + |Members(f, pretty, fields, d)|, Break(pretty, d), '}')
    ensures Pairs(f, src, start, depth, acc)
      == Ok(Obj(Gathered(acc, fields)), pos + |Members(f, pretty, fields, d)| + |Break(pretty, d)| + 1)
    decreases fields, 2
  {
    hide Value, Render, SkipWs, Literal, Nested, Faithful, Break, Members, Pairs, Sorted, Quoted, Colon,
      AllSpace;
    MemberPieces(f, pretty, fields, d, src, pos);
    var end := pos + |Members(f, pretty, fields, d)|;
    var p := end - |MoreMembers(f, pretty, fields, d)|;
    if |fields| == 1 {
      ClosesSkipped(src, end, Break(pretty, d), '}');
      MemberBack(f, pretty, fields, d, src, start, pos, depth, acc, p);
    } else {
      var rest := fields[1..];
      CommaSkipped(src, p, Members(f, pretty, rest, d));
      MemberBack(f, pretty, fields, d, src, start, pos, depth, acc, p);
      PairsBack(f, pretty, rest, d, src, p + 1, p + 1, depth, Insert(acc, fields[0].key, ReadAs(fields[0].value)));
    }
  }

  // ---- the law ----

  /** For every value with at most 128 nested containers, whatever the order of its keys and
      however often each is there, parsing its compact and its pretty form gives it with
      every object gathered and null for each number that is not finite. */
  lemma WrittenParse(f: NumFormat, pretty: bool, v: Json)
    requires Faithful(f) && Nested(v, MAX_DEPTH)
    ensures Parse(f, Render(f, pretty, v, 0)) == Some(ReadAs(v))
  {
    var src := Render(f, pretty, v, 0);
    RenderStart(f, pretty, v, 0);
    hide Render;
    assert SkipWs(src, 0) == 0;
    assert Literal(src, 0, src);
    ValueBack(f, pretty, v, 0, src, 0, 0, 0);
  }

  lemma {:induction false} SpaceToTheEnd(src: string, pos: nat)
    requires pos <= |src|
    ensures SkipWs(src, pos) == |src| <==> forall i :: pos <= i < |src| ==> src[i] in {' ', '\t', '\n', '\r'}
    decreases |src| - pos
  {
    if pos < |src| && IsJsonSpace(src[pos]) { SpaceToTheEnd(src, pos + 1); }
  }

  /** Nothing but white space may follow a value. */
  lemma OnlySpaceFollows(f: NumFormat, pretty: bool, v: Json, tail: string)
    requires Faithful(f) && Nested(v, MAX_DEPTH) && (tail == "" || !IsNumberChar(tail[0]))
    ensures Parse(f, Render(f, pretty, v, 0) + tail)
      == if forall i :: 0 <= i < |tail| ==> tail[i] in {' ', '\t', '\n', '\r'} then Some(ReadAs(v)) else None
  {
    hide *;
    var t := Render(f, pretty, v, 0);
    RenderStart(f, pretty, v, 0);
    TailLaid(t, tail);
    ValueBack(f, pretty, v, 0, t + tail, 0, 0, 0);
    SpaceToTheEnd(t + tail, |t|);
    ParseIs(f, t + tail, ReadAs(v), |t|);
  }

  lemma TailLaid(t: string, tail: string)
    requires t != "" && !IsJsonSpace(t[0]) && (tail == "" || !IsNumberChar(tail[0]))
    ensures var src := t + tail;
      && SkipWs(src, 0) == 0 && Literal(src, 0, t) && Ends(src, |t|)
      && ((forall i :: |t| <= i < |src| ==> src[i] in {' ', '\t', '\n', '\r'})
          <==> forall i :: 0 <= i < |tail| ==> tail[i] in {' ', '\t', '\n', '\r'})
  {
    var src := t + tail;
    assert src[0] == t[0];
    hide IsJsonSpace, IsNumberChar;
    assert tail != "" ==> src[|t|] == tail[0];
    assert forall i :: 0 <= i < |tail| ==> tail[i] == src[|t| + i];
    assert forall i :: |t| <= i < |src| ==> src[i] == tail[i - |t|];
  }

  lemma ParseIs(f: NumFormat, src: string, v: Json, p: nat)
    requires SkipWs(src, 0) == 0 && Value(f, src, 0, 0) == Ok(v, p)
    ensures p <= |src| && Parse(f, src) == if SkipWs(src, p) == |src| then Some(v) else None
  {
    hide Value;
  }

  /** The characters of a number. */
  lemma NumberCharIs(c: char)
    ensures IsNumberChar(c) <==> c in "0123456789-+.eE"
  {
    var s := "0123456789-+.eE";
    if '0' <= c <= '9' {
      assert s[c as int - '0' as int] == c;
    } else {
      assert s[10] == '-' && s[11] == '+' && s[12] == '.' && s[13] == 'e' && s[14] == 'E';
    }
  }

  lemma {:induction false} GoodReadsAsItself(v: Json)
    requires Good(v)
    ensures ReadAs(v) == v
    decreases v, 0
  {
    match v
    case Arr(a) => AllReadAsThemselves(a);
    case Obj(fields) =>
      assert [] + fields == fields;
      GatheredInOrder([], fields);
    case _ =>
  }

  lemma {:induction false} AllReadAsThemselves(a: seq<Json>)
    requires forall i :: 0 <= i < |a| ==> Good(a[i])
    ensures ReadAll(a) == a
    decreases a, 1
  {
    if a != [] {
      GoodReadsAsItself(a[0]);
      AllReadAsThemselves(a[1..]);
    }
  }

  lemma {:induction false} GatheredInOrder(acc: seq<Field>, fields: seq<Field>)
    requires Sorted(acc + fields) && forall i :: 0 <= i < |fields| ==> Good(fields[i].value)
    ensures Gathered(acc, fields) == acc + fields
    decreases fields, 1
  {
    if fields == [] {
      assert acc + fields == acc;
    } else {
      GoodReadsAsItself(fields[0].value);
      InsertNext(acc, fields);
      assert acc + [fields[0]] + fields[1..] == acc + fields;
      GatheredInOrder(acc + [fields[0]], fields[1..]);
    }
  }

  /** For every value with finite numbers, ordered keys and at most 128 nested containers,
      parsing its compact and its pretty form gives it back. */
  lemma PrintParse(f: NumFormat, pretty: bool, v: Json)
    requires Faithful(f) && Good(v) && Nested(v, MAX_DEPTH)
    ensures Parse(f, Render(f, pretty, v, 0)) == Some(v)
  {
    GoodReadsAsItself(v);
    WrittenParse(f, pretty, v);
  }

  // ---- repeated keys ----

  /** The value of the last member with the key. */
  ghost function LastValue(fields: seq<Field>, key: string): Option<Json> {
    if fields == [] then None
    else
      var last := fields[|fields| - 1];
      if last.key == key then Some(last.value) else LastValue(fields[..|fields| - 1], key)
  }

  lemma {:induction false} LastValueSplit(a: seq<Field>, b: seq<Field>, key: string)
    ensures LastValue(a + b, key) == if LastValue(b, key).Some? then LastValue(b, key) else LastValue(a, key)
    decreases |b|
  {
    if b == [] {
      assert a + b == a;
    } else {
      assert (a + b)[..|a + b| - 1] == a + b[..|b| - 1];
      LastValueSplit(a, b[..|b| - 1], key);
    }
  }

  lemma {:induction false} NoLaterValue(fields: seq<Field>, key: string)
    requires forall i :: 0 <= i < |fields| ==> fields[i].key != key
    ensures LastValue(fields, key) == None
    decreases |fields|
  {
    if fields != [] {
      NoLaterValue(fields[..|fields| - 1], key);
    }
  }

  lemma HeadValue(field: Field, rest: seq<Field>, key: string)
    ensures LastValue([field] + rest, key) ==
      if LastValue(rest, key).Some? then LastValue(rest, key) else if field.key == key then Some(field.value) else None
  {
    LastValueSplit([field], rest, key);
    assert [field][..0] == [];
  }

  /** An insertion into an object gives the key the new value, whether or not it had one,
      and leaves every other key its own. */
  lemma {:induction false} InsertSets(fields: seq<Field>, key: string, v: Json, k: string)
    requires Sorted(fields)
    ensures LastValue(Insert(fields, key, v), k) == if k == key then Some(v) else LastValue(fields, k)
    decreases |fields|
  {
    if fields == [] {
      HeadValue(Field(key, v), [], k);
      assert [Field(key, v)] + [] == [Field(key, v)];
    } else {
      var first, rest := fields[0], fields[1..];
      assert fields == [first] + rest;
      HeadValue(first, rest, k);
      LessTotal(key, first.key);
      if first.key == key {
        SmallerThanAll(fields, key);
        NoLaterValue(rest, key);
        HeadValue(Field(key, v), rest, k);
      } else if Less(key, first.key) {
        SmallerThanAll(fields, key);
        NoLaterValue(fields, key);
        HeadValue(Field(key, v), fields, k);
      } else {
        InsertSets(rest, key, v, k);
        HeadValue(first, Insert(rest, key, v), k);
        SmallerThanAll(fields, first.key);
        NoLaterValue(rest, first.key);
      }
      hide LastValue;
    }
  }

  /** A key no larger than the first is not among the later ones. */
  lemma SmallerThanAll(fields: seq<Field>, key: string)
    requires Sorted(fields) && fields != [] && (key == fields[0].key || Less(key, fields[0].key))
    ensures forall i :: 0 <= i < |fields[1..]| ==> fields[1..][i].key != key
    ensures key != fields[0].key ==> forall i :: 0 <= i < |fields| ==> fields[i].key != key
  {
    forall i | 1 <= i < |fields|
      ensures fields[i].key != key
    {
      if key != fields[0].key { LessTransitive(key, fields[0].key, fields[i].key); }
      LessTotal(key, fields[i].key);
    }
  }

  ghost function ReadValue(v: Option<Json>): Option<Json> {
    if v.Some? then Some(ReadAs(v.value)) else None
  }

  /** An object is read with its keys in order, each once, and each with the value of its
      last member, however the members were written. */
  lemma {:induction false} LastMemberWins(acc: seq<Field>, fields: seq<Field>, key: string)
    requires Sorted(acc)
    ensures Sorted(Gathered(acc, fields))
    ensures LastValue(Gathered(acc, fields), key) ==
      if LastValue(fields, key).Some? then ReadValue(LastValue(fields, key)) else LastValue(acc, key)
    decreases |fields|
  {
    if fields != [] {
      var first, rest := fields[0], fields[1..];
      var v := ReadAs(first.value);
      InsertKeepsGood(acc, first.key, v);
      InsertSets(acc, first.key, v, key);
      LastMemberWins(Insert(acc, first.key, v), rest, key);
      assert fields == [first] + rest;
      HeadValue(first, rest, key);
      hide LastValue, Insert, ReadAs;
    }
  }

  /** So the text of an object, compact or pretty, parses to the object in which each key
      written has the value of its last member, and no other key is. */
  lemma ObjectsParse(f: NumFormat, pretty: bool, fields: seq<Field>, key: string)
    requires Faithful(f) && Nested(Obj(fields), MAX_DEPTH)
    ensures var r := Parse(f, Render(f, pretty, Obj(fields), 0));
      && r.Some? && r.value.Obj? && Sorted(r.value.fields)
      && LastValue(r.value.fields, key) == ReadValue(LastValue(fields, key))
  {
    WrittenParse(f, pretty, Obj(fields));
    LastMemberWins([], fields, key);
    hide Render;
  }

  // ---- what the parser returns ----

  lemma {:induction false} InsertKeepsGood(fields: seq<Field>, key: string, v: Json)
    requires Sorted(fields)
    ensures Sorted(Insert(fields, key, v))
    ensures forall x :: x in Insert(fields, key, v) ==> x == Field(key, v) || x in fields
    decreases |fields|
  {
    if fields != [] {
      LessTotal(key, fields[0].key);
      var rest := fields[1..];
      InsertKeepsGood(rest, key, v);
      var r := Insert(fields, key, v);
      if fields[0].key == key {
      } else if Less(key, fields[0].key) {
        forall i | 0 <= i < |fields|
          ensures Less(key, fields[i].key)
        {
          if i > 0 { LessTransitive(key, fields[0].key, fields[i].key); }
        }
      } else {
        forall j | 1 <= j < |r|
          ensures Less(fields[0].key, r[j].key)
        {
          assert r[j] == Insert(rest, key, v)[j - 1];
          assert r[j] in Insert(rest, key, v);
        }
      }
    }
  }

  ghost predicate GoodAt(v: Json, depth: nat) {
    Good(v) && Nested(v, MAX_DEPTH - depth)
  }

  /** Whatever the text, a parsed value has finite numbers, ordered keys and bounded nesting. */
  lemma {:induction false} ValueGood(f: NumFormat, src: string, start: nat, depth: nat)
    requires start <= |src| && depth <= MAX_DEPTH
    ensures var r := Value(f, src, start, depth); r.Ok? ==> GoodAt(r.value, depth)
    decreases |src| - start, 1
  {
    hide StringBody, Array, Object, Literal;
    var pos := SkipWs(src, start);
    if pos < |src| && depth < MAX_DEPTH {
      if src[pos] == '[' {
        ArrayGood(f, src, pos, depth + 1);
      } else if src[pos] == '{' {
        ObjectGood(f, src, pos, depth + 1);
      }
    }
  }

  lemma {:induction false} ArrayGood(f: NumFormat, src: string, pos: nat, depth: nat)
    requires pos < |src| && 1 <= depth <= MAX_DEPTH
    ensures var r := Array(f, src, pos, depth); r.Ok? ==> GoodAt(r.value, depth - 1)
    decreases |src| - pos, 0
  {
    hide Elements;
    var p := SkipWs(src, pos + 1);
    if !At(src, p, ']') {
      ElementsGood(f, src, p, depth, []);
    }
  }

  lemma {:induction false} ElementsGood(f: NumFormat, src: string, pos: nat, depth: nat, acc: seq<Json>)
    requires pos <= |src| && 1 <= depth <= MAX_DEPTH && forall i :: 0 <= i < |acc| ==> GoodAt(acc[i], depth)
    ensures var r := Elements(f, src, pos, depth, acc); r.Ok? ==> GoodAt(r.value, depth - 1)
    decreases |src| - pos, 2
  {
    hide Value, Good, Nested;
    var r := Value(f, src, pos, depth);
    if r.Ok? {
      ValueGood(f, src, pos, depth);
      ArrGood(acc + [r.value], depth);
      var q := SkipWs(src, r.pos);
      if At(src, q, ',') {
        ElementsGood(f, src, q + 1, depth, acc + [r.value]);
      }
    }
  }

  lemma ArrGood(a: seq<Json>, depth: nat)
    requires 1 <= depth <= MAX_DEPTH && forall i :: 0 <= i < |a| ==> GoodAt(a[i], depth)
    ensures GoodAt(Arr(a), depth - 1)
  {
  }

  lemma {:induction false} ObjectGood(f: NumFormat, src: string, pos: nat, depth: nat)
    requires pos < |src| && 1 <= depth <= MAX_DEPTH
    ensures var r := Object(f, src, pos, depth); r.Ok? ==> GoodAt(r.value, depth - 1)
    decreases |src| - pos, 0
  {
    hide Pairs;
    var p := SkipWs(src, pos + 1);
    if !At(src, p, '}') {
      PairsGood(f, src, p, depth, []);
    }
  }

  lemma {:induction false} PairsGood(f: NumFormat, src: string, start: nat, depth: nat, acc: seq<Field>)
    requires start <= |src| && 1 <= depth <= MAX_DEPTH && Sorted(acc) && forall x :: x in acc ==> GoodAt(x.value, depth)
    ensures var r := Pairs(f, src, start, depth, acc); r.Ok? ==> GoodAt(r.value, depth - 1)
    decreases |src| - start, 3
  {
    hide Member, Insert, Good, Nested, Sorted;
    var r := Member(f, src, start, depth);
    if r.Ok? {
      MemberGood(f, src, start, depth);
      InsertKeepsGood(acc, r.value.key, r.value.value);
      var acc' := Insert(acc, r.value.key, r.value.value);
      ObjGood(acc', depth);
      var q := SkipWs(src, r.pos);
      if At(src, q, ',') {
        PairsGood(f, src, q + 1, depth, acc');
      }
    }
  }

  lemma {:induction false} MemberGood(f: NumFormat, src: string, start: nat, depth: nat)
    requires start <= |src| && depth <= MAX_DEPTH
    ensures var r := Member(f, src, start, depth); r.Ok? ==> GoodAt(r.value.value, depth)
    decreases |src| - start, 2
  {
    hide Value, StringBody, GoodAt;
    var pos := SkipWs(src, start);
    if At(src, pos, '"') {
      var k := StringBody(src, pos + 1, "");
      if k.Ok? && At(src, SkipWs(src, k.pos), ':') {
        ValueGood(f, src, SkipWs(src, k.pos) + 1, depth);
      }
    }
  }

  lemma ObjGood(fields: seq<Field>, depth: nat)
    requires 1 <= depth <= MAX_DEPTH && Sorted(fields) && forall x :: x in fields ==> GoodAt(x.value, depth)
    ensures GoodAt(Obj(fields), depth - 1)
  {
  }

  /** Whatever text the parser accepts, printing its value and parsing that gives the value again. */
  lemma ParsePrintParse(f: NumFormat, pretty: bool, src: string)
    requires Faithful(f) && Parse(f, src).Some?
    ensures Parse(f, Render(f, pretty, Parse(f, src).value, 0)) == Parse(f, src)
  {
    hide Value, Render;
    ValueGood(f, src, SkipWs(src, 0), 0);
    PrintParse(f, pretty, Parse(f, src).value);
  }

  /** The round trip holds for exactly the values with finite numbers, ordered keys and
      at most 128 nested containers; the others come back as something else or not at all. */
  lemma RoundTripExactly(f: NumFormat, pretty: bool, v: Json)
    requires Faithful(f)
    ensures Parse(f, Render(f, pretty, v, 0)) == Some(v) <==> Good(v) && Nested(v, MAX_DEPTH)
  {
    hide Value, Render;
    var src := Render(f, pretty, v, 0);
    ValueGood(f, src, SkipWs(src, 0), 0);
    if Good(v) && Nested(v, MAX_DEPTH) {
      PrintParse(f, pretty, v);
    }
  }
}
