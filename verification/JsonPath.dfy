/** The JSON path subset: `$`, keys and indexes; parsed, and printed for each engine. */
module JsonPath {
  import opened Wrappers
  import opened Decimals
  import opened Sql
  import opened Identifiers

  datatype Seg = Key(name: string) | Index(n: nat)

  // ---- printing ----

  function ShowSeg(s: Seg): string {
    if s.Key? then "." + s.name else "[" + (Decimal(s.n) + "]")
  }

  function ShowSegs(segs: seq<Seg>): string {
    if segs == [] then "" else ShowSeg(segs[0]) + ShowSegs(segs[1..])
  }

  /** `sqlite_json_path` */
  function SqlitePath(segs: seq<Seg>): string {
    "$" + ShowSegs(segs)
  }

  /** The same, written segment by segment. */
  method PrintPath(segs: seq<Seg>) returns (out: string)
    ensures out == SqlitePath(segs)
  {
    hide ShowSeg;
    out := "$";
    var i := 0;
    assert segs[0..] == segs;
    while i < |segs|
      invariant 0 <= i <= |segs| && out + ShowSegs(segs[i..]) == SqlitePath(segs)
    {
      assert segs[i..][0] == segs[i] && segs[i..][1..] == segs[i + 1..];
      Append(out, ShowSeg(segs[i]), ShowSegs(segs[i + 1..]));
      out := out + ShowSeg(segs[i]);
      i := i + 1;
    }
    assert segs[i..] == [] && out + "" == out;
  }

  function SegTexts(segs: seq<Seg>): seq<string> {
    seq(|segs|, i requires 0 <= i < |segs| => if segs[i].Key? then segs[i].name else Decimal(segs[i].n))
  }

  function PgPath(segs: seq<Seg>): string {
    "{" + Join(SegTexts(segs), ",") + "}"
  }

  // ---- parsing ----

  function KeyLength(s: string): (n: nat)
    ensures n <= |s|
  {
    if s == "" || !IsIdent(s[0]) then 0 else 1 + KeyLength(s[1..])
  }

  function FirstClose(s: string): (n: nat)
    ensures n <= |s|
  {
    if s == "" || s[0] == ']' then 0 else 1 + FirstClose(s[1..])
  }

  /** A machine integer: an optional `+`, at least one digit, no overflow. */
  function ParseIndex(s: string): (r: Option<nat>)
    ensures r.Some? ==> r.value < WORD
  {
    var digits := if s != "" && s[0] == '+' then s[1..] else s;
    if digits == "" || !AllDigits(digits) || DigitsValue(digits) >= WORD then None else Some(DigitsValue(digits))
  }

  datatype Step = Bad | Next(seg: Seg, rest: string)

  function ParseStep(rest: string): (r: Step)
    requires rest != ""
    ensures r.Next? ==> |r.rest| < |rest|
  {
    var r := rest[1..];
    if rest[0] == '.' then
      var end := KeyLength(r);
      if end == 0 || !IsLetter(r[0]) then Bad else Next(Key(r[..end]), r[end..])
    else if rest[0] == '[' then
      var close := FirstClose(r);
      if close == |r| then Bad
      else
        match ParseIndex(r[..close])
        case None => Bad
        case Some(n) => Next(Index(n), r[close + 1..])
    else Bad
  }

  function ParseSegs(rest: string): Option<seq<Seg>>
    decreases |rest|
  {
    if rest == "" then Some([])
    else
      match ParseStep(rest)
      case Bad => None
      case Next(seg, more) =>
        match ParseSegs(more)
        case None => None
        case Some(segs) => Some([seg] + segs)
  }

  function ParsePath(path: string): Option<seq<Seg>> {
    if path == "" || path[0] != '$' then None
    else
      var r := ParseSegs(path[1..]);
      if r.Some? && r.value == [] then None else r
  }

  /** `parse_json_path` */
  method Parse(path: string) returns (r: Option<seq<Seg>>)
    ensures r == ParsePath(path)
  {
    if path == "" || path[0] != '$' {
      return None;
    }
    var rest, segs: seq<Seg> := path[1..], [];
    Prefixed(segs, rest);
    while rest != ""
      invariant ParseSegs(path[1..]) == Prepend(segs, ParseSegs(rest))
      decreases |rest|
    {
      match ParseStep(rest) {
        case Bad =>
          return None;
        case Next(seg, more) =>
          Prefixed(segs, rest);
          segs, rest := segs + [seg], more;
      }
      hide ParseStep;
    }
    assert segs + [] == segs;
    r := if segs == [] then None else Some(segs);
  }

  function Prepend(segs: seq<Seg>, r: Option<seq<Seg>>): Option<seq<Seg>> {
    if r.Some? then Some(segs + r.value) else None
  }

  lemma Prefixed(segs: seq<Seg>, rest: string)
    ensures segs == [] ==> Prepend(segs, ParseSegs(rest)) == ParseSegs(rest)
    ensures rest != "" && ParseStep(rest).Next? ==>
      Prepend(segs, ParseSegs(rest)) == Prepend(segs + [ParseStep(rest).seg], ParseSegs(ParseStep(rest).rest))
  {
    var all := ParseSegs(rest);
    if all.Some? {
      assert [] + all.value == all.value;
      if rest != "" && ParseStep(rest).Next? {
        var seg, more := ParseStep(rest).seg, ParseSegs(ParseStep(rest).rest).value;
        assert segs + ([seg] + more) == (segs + [seg]) + more;
      }
    }
    hide ParseStep;
  }

  // ---- there and back ----

  predicate GoodSeg(s: Seg) {
    if s.Key? then PlainIdent(s.name) else s.n < WORD
  }

  predicate GoodSegs(segs: seq<Seg>) {
    forall i :: 0 <= i < |segs| ==> GoodSeg(segs[i])
  }

  lemma {:induction false} KeyRun(name: string, tail: string)
    requires (forall i :: 0 <= i < |name| ==> IsIdent(name[i])) && (tail == "" || !IsIdent(tail[0]))
    ensures KeyLength(name + tail) == |name|
    decreases |name|
  {
    if name == "" {
      assert name + tail == tail;
    } else {
      assert (name + tail)[1..] == name[1..] + tail;
      KeyRun(name[1..], tail);
    }
  }

  lemma {:induction false} CloseAfter(digits: string, tail: string)
    requires AllDigits(digits) && tail != "" && tail[0] == ']'
    ensures FirstClose(digits + tail) == |digits|
    decreases |digits|
  {
    if digits == "" {
      assert digits + tail == tail;
    } else {
      assert (digits + tail)[1..] == digits[1..] + tail;
      CloseAfter(digits[1..], tail);
    }
  }

  lemma KeyBack(name: string, tail: string)
    requires PlainIdent(name) && (tail == "" || tail[0] == '.' || tail[0] == '[')
    ensures ParseStep("." + name + tail) == Next(Key(name), tail)
  {
    var text, r := "." + name + tail, name + tail;
    assert IsIdent(name[0]);
    KeyRun(name, tail);
    assert text[0] == '.' && text[1..] == r && r[0] == name[0];
    assert r[..|name|] == name && r[|name|..] == tail;
    hide KeyLength;
  }

  lemma BracketBack(digits: string, n: nat, tail: string)
    requires AllDigits(digits) && ParseIndex(digits) == Some(n)
    ensures ParseStep("[" + (digits + "]") + tail) == Next(Index(n), tail)
  {
    var text, r := "[" + (digits + "]") + tail, digits + ("]" + tail);
    CloseAfter(digits, "]" + tail);
    assert text[0] == '[' && text[1..] == r;
    assert r[..|digits|] == digits && |digits| < |r| && r[|digits| + 1..] == tail;
    hide FirstClose, ParseIndex, AllDigits;
  }

  lemma StepBack(s: Seg, tail: string)
    requires GoodSeg(s) && (tail == "" || tail[0] == '.' || tail[0] == '[')
    ensures ShowSeg(s) + tail != "" && ParseStep(ShowSeg(s) + tail) == Next(s, tail)
  {
    if s.Key? {
      KeyBack(s.name, tail);
    } else {
      IndexBack(s.n);
      BracketBack(Decimal(s.n), s.n, tail);
    }
    hide ParseStep, ParseIndex, Decimal;
  }

  lemma IndexBack(n: nat)
    requires n < WORD
    ensures ParseIndex(Decimal(n)) == Some(n)
  {
    DecimalBack(n);
    var digits := Decimal(n);
    assert '0' <= digits[0] <= '9';
    hide Decimal, DigitsValue;
  }

  lemma {:induction false} SegsBack(segs: seq<Seg>)
    requires GoodSegs(segs)
    ensures ParseSegs(ShowSegs(segs)) == Some(segs)
    ensures segs != [] ==> ShowSegs(segs) != "" && (ShowSegs(segs)[0] == '.' || ShowSegs(segs)[0] == '[')
    decreases |segs|
  {
    if segs != [] {
      SegsBack(segs[1..]);
      assert GoodSeg(segs[0]);
      StepBack(segs[0], ShowSegs(segs[1..]));
      assert ShowSegs(segs)[0] == ShowSeg(segs[0])[0];
      assert segs == [segs[0]] + segs[1..];
      hide ParseStep, GoodSeg;
    }
  }

  /** Printing a path and parsing it gives the path back. */
  lemma PathBack(segs: seq<Seg>)
    requires segs != [] && GoodSegs(segs)
    ensures ParsePath(SqlitePath(segs)) == Some(segs)
  {
    SegsBack(segs);
    assert SqlitePath(segs)[1..] == ShowSegs(segs);
    hide ParseSegs, ShowSegs;
  }

  lemma {:induction false} KeyIsRun(s: string)
    ensures forall i :: 0 <= i < KeyLength(s) ==> IsIdent(s[i])
    decreases |s|
  {
    if s != "" && IsIdent(s[0]) {
      KeyIsRun(s[1..]);
    }
  }

  lemma {:induction false} SegsGood(rest: string)
    requires ParseSegs(rest).Some?
    ensures GoodSegs(ParseSegs(rest).value)
    decreases |rest|
  {
    if rest != "" {
      KeyIsRun(rest[1..]);
      SegsGood(ParseStep(rest).rest);
      assert GoodSeg(ParseStep(rest).seg);
      hide ParseStep, GoodSeg;
    }
  }

  /** An accepted path prints to a canonical form that parses to the same segments. */
  lemma CanonicalPath(path: string)
    requires ParsePath(path).Some?
    ensures ParsePath(SqlitePath(ParsePath(path).value)) == ParsePath(path)
  {
    SegsGood(path[1..]);
    PathBack(ParsePath(path).value);
    hide ParseSegs, SqlitePath;
  }

  // ---- the array literal, as PostgreSQL reads it ----

  /** A character that stands for itself in an unquoted array element. */
  predicate Unquoted(c: char) {
    IsIdent(c)
  }

  function SplitCommas(s: string): (r: seq<string>)
    ensures r != []
  {
    if s == "" then [""]
    else
      var more := SplitCommas(s[1..]);
      if s[0] == ',' then [""] + more else [[s[0]] + more[0]] + more[1..]
  }

  /** An element of an array literal: `NULL`, in any case, is no text at all. Elements
      that would need quotes are refused here. */
  datatype Element = Missing | Is(s: string) | Refused

  function ReadElement(s: string): Element {
    if SameIgnoringCase(s, "NULL") then Missing
    else if s != "" && forall i :: 0 <= i < |s| ==> Unquoted(s[i]) then Is(s)
    else Refused
  }

  function ReadArray(s: string): seq<Element> {
    if |s| < 2 || s[0] != '{' || s[|s| - 1] != '}' then [Refused]
    else
      var parts := SplitCommas(s[1..|s| - 1]);
      seq(|parts|, i requires 0 <= i < |parts| => ReadElement(parts[i]))
  }

  lemma {:induction false} SplitOne(part: string, tail: string)
    requires ',' !in part
    ensures SplitCommas(part) == [part] && SplitCommas(part + ("," + tail)) == [part] + SplitCommas(tail)
    decreases |part|
  {
    if part == "" {
      assert "" + ("," + tail) == "," + tail && ("," + tail)[1..] == tail;
    } else {
      var rest := "," + tail;
      assert (part + rest)[1..] == part[1..] + rest;
      SplitOne(part[1..], tail);
      assert ([part[1..]] + SplitCommas(tail))[1..] == SplitCommas(tail);
      assert part == [part[0]] + part[1..];
      assert [part[1..]][1..] == [] && [[part[0]] + part[1..]] + [] == [part];
    }
  }

  lemma {:induction false} SplitJoined(parts: seq<string>)
    requires parts != [] && forall i :: 0 <= i < |parts| ==> ',' !in parts[i]
    ensures SplitCommas(Join(parts, ",")) == parts
    decreases |parts|
  {
    if |parts| == 1 {
      SplitOne(parts[0], "");
    } else {
      SplitJoined(parts[1..]);
      SplitOne(parts[0], Join(parts[1..], ","));
      assert parts == [parts[0]] + parts[1..];
      hide SplitCommas;
    }
  }

  predicate IsNullKey(s: Seg) {
    s.Key? && SameIgnoringCase(s.name, "NULL")
  }

  lemma SegElement(s: Seg)
    requires GoodSeg(s)
    ensures var text := if s.Key? then s.name else Decimal(s.n);
      ',' !in text && (ReadElement(text) == Is(text) <==> !IsNullKey(s))
  {
    var text := if s.Key? then s.name else Decimal(s.n);
    assert text != "" && IsIdent(text[0]);
    if s.Index? {
      assert '0' <= text[0] <= '9' && Upper(text[0]) == text[0] != 'N' && "NULL"[0] == 'N' && Upper('N') == 'N';
    }
    hide Decimal;
  }

  /** The literal is written without quotes. It reads back as the segments exactly when no
      key is spelled `null`, which the engine takes for the missing element. */
  lemma PgPathIff(segs: seq<Seg>)
    requires segs != [] && GoodSegs(segs)
    ensures |ReadArray(PgPath(segs))| == |segs|
    ensures (forall i :: 0 <= i < |segs| ==> ReadArray(PgPath(segs))[i] == Is(SegTexts(segs)[i]))
      <==> (forall i :: 0 <= i < |segs| ==> !IsNullKey(segs[i]))
  {
    var parts := SegTexts(segs);
    forall i | 0 <= i < |segs|
      ensures ',' !in parts[i] && (ReadElement(parts[i]) == Is(parts[i]) <==> !IsNullKey(segs[i]))
    {
      assert GoodSeg(segs[i]);
      SegElement(segs[i]);
    }
    SplitJoined(parts);
    var s := PgPath(segs);
    assert s[1..|s| - 1] == Join(parts, ",");
    hide ReadElement, IsNullKey, SplitCommas, Join, GoodSegs, SegTexts;
    forall i | 0 <= i < |segs|
      ensures ReadArray(s)[i] == ReadElement(parts[i])
    {
    }
  }

  /** The parser does accept such a key: `$.null` is read as the missing element. */
  lemma NullKeyReachable()
    ensures ParsePath("$.null") == Some([Key("null")])
    ensures ReadArray(PgPath([Key("null")])) == [Missing]
  {
    NullTexts();
    NullRead();
    NullParsed();
    hide ParsePath, SqlitePath, PgPath, ReadArray;
  }

  lemma NullParsed()
    ensures ParsePath(SqlitePath([Key("null")])) == Some([Key("null")])
  {
    var segs := [Key("null")];
    assert PlainIdent("null") && GoodSegs(segs);
    hide ParsePath, SqlitePath, GoodSegs;
    PathBack(segs);
  }

  lemma NullRead()
    ensures ReadArray("{" + "null" + "}") == [Missing]
  {
    var s := "{" + "null" + "}";
    assert s[1..|s| - 1] == "null";
    assert SameIgnoringCase("null", "NULL");
    hide SplitCommas;
    SplitJoined(["null"]);
  }

  lemma NullTexts()
    ensures SqlitePath([Key("null")]) == "$.null" && PgPath([Key("null")]) == "{" + "null" + "}"
  {
    assert ShowSegs([Key("null")][1..]) == "" && "." + "null" + "" == ".null" && "$" + ".null" == "$.null";
    assert SegTexts([Key("null")]) == ["null"];
  }

  // ---- exactly what is accepted ----

  /** A dot and a name; or, in brackets, a number below 2^64 in decimal digits, which may
      have a plus sign before and zeros in front. */
  ghost predicate WrittenSeg(t: string, s: Seg) {
    match s
    case Key(name) => Name(name) && t == "." + name
    case Index(n) =>
      n < 0x1_0000_0000_0000_0000
      && exists digits :: digits != "" && AllDigits(digits) && DigitsValue(digits) == n
           && (t == "[" + (digits + "]") || t == "[" + (("+" + digits) + "]"))
  }

  ghost predicate Writes(rest: string, segs: seq<Seg>)
    decreases |segs|
  {
    if segs == [] then rest == ""
    else exists k :: 0 < k <= |rest| && WrittenSeg(rest[..k], segs[0]) && Writes(rest[k..], segs[1..])
  }

  lemma WritesHead(rest: string, segs: seq<Seg>)
    requires Writes(rest, segs)
    ensures rest == "" || rest[0] == '.' || rest[0] == '['
  {
    if segs != [] {
      var k :| 0 < k <= |rest| && WrittenSeg(rest[..k], segs[0]) && Writes(rest[k..], segs[1..]);
      assert rest[0] == rest[..k][0];
    }
  }

  lemma IndexAccepted(digits: string, plus: bool)
    requires digits != "" && AllDigits(digits) && DigitsValue(digits) < 0x1_0000_0000_0000_0000
    ensures ParseIndex(if plus then "+" + digits else digits) == Some(DigitsValue(digits))
  {
    assert '0' <= digits[0] <= '9';
    assert ("+" + digits)[1..] == digits;
  }

  lemma {:induction false} CloseFirst(s: string, tail: string)
    requires ']' !in s && tail != "" && tail[0] == ']'
    ensures FirstClose(s + tail) == |s|
    decreases |s|
  {
    if s == "" {
      assert s + tail == tail;
    } else {
      assert (s + tail)[1..] == s[1..] + tail;
      CloseFirst(s[1..], tail);
    }
  }

  lemma BracketTaken(inside: string, n: nat, tail: string)
    requires ']' !in inside && ParseIndex(inside) == Some(n)
    ensures ParseStep(("[" + (inside + "]")) + tail) == Next(Index(n), tail)
  {
    var text, r := ("[" + (inside + "]")) + tail, inside + ("]" + tail);
    CloseFirst(inside, "]" + tail);
    assert text[0] == '[' && text[1..] == r;
    assert r[..|inside|] == inside && |inside| < |r| && r[|inside| + 1..] == tail;
    hide FirstClose, ParseIndex;
  }

  lemma SegTaken(t: string, s: Seg, tail: string)
    requires WrittenSeg(t, s) && (tail == "" || tail[0] == '.' || tail[0] == '[')
    ensures t + tail != "" && ParseStep(t + tail) == Next(s, tail)
  {
    match s
    case Key(name) =>
      NameIsPlain(name);
      KeyBack(name, tail);
    case Index(n) =>
      var digits :| digits != "" && AllDigits(digits) && DigitsValue(digits) == n
        && (t == "[" + (digits + "]") || t == "[" + (("+" + digits) + "]"));
      IndexAccepted(digits, false);
      IndexAccepted(digits, true);
      if t == "[" + (digits + "]") {
        BracketTaken(digits, n, tail);
      } else {
        BracketTaken("+" + digits, n, tail);
      }
  }

  lemma {:induction false} KeyLengthIs(s: string)
    ensures forall i :: 0 <= i < KeyLength(s) ==> IsIdent(s[i])
    decreases |s|
  {
    if s != "" && IsIdent(s[0]) {
      KeyLengthIs(s[1..]);
    }
  }

  lemma {:induction false} FirstCloseIs(s: string)
    ensures FirstClose(s) < |s| ==> s[FirstClose(s)] == ']'
    decreases |s|
  {
    if s != "" && s[0] != ']' {
      FirstCloseIs(s[1..]);
    }
  }

  lemma StepWritten(rest: string) returns (k: nat)
    requires rest != "" && ParseStep(rest).Next?
    ensures 0 < k <= |rest| && WrittenSeg(rest[..k], ParseStep(rest).seg) && rest[k..] == ParseStep(rest).rest
  {
    var r := rest[1..];
    if rest[0] == '.' {
      var end := KeyLength(r);
      KeyLengthIs(r);
      NameIsPlain(r[..end]);
      k := 1 + end;
      assert rest[..k] == "." + r[..end];
    } else {
      var close := FirstClose(r);
      FirstCloseIs(r);
      var inside := r[..close];
      k := 1 + close + 1;
      assert rest[..k] == "[" + (inside + "]");
      IndexWritten(inside);
      hide ParseIndex, AllDigits, DigitsValue;
    }
  }

  lemma IndexWritten(inside: string)
    requires ParseIndex(inside).Some?
    ensures WrittenSeg("[" + (inside + "]"), Index(ParseIndex(inside).value))
  {
    var digits := if inside[0] == '+' then inside[1..] else inside;
    assert inside == digits || inside == "+" + digits;
    hide DigitsValue, AllDigits;
  }

  lemma {:induction false} SegsAre(rest: string, segs: seq<Seg>)
    ensures ParseSegs(rest) == Some(segs) <==> Writes(rest, segs)
    decreases |rest|, |segs|
  {
    hide ParseStep, WrittenSeg;
    if Writes(rest, segs) && segs != [] {
      var k :| 0 < k <= |rest| && WrittenSeg(rest[..k], segs[0]) && Writes(rest[k..], segs[1..]);
      WritesHead(rest[k..], segs[1..]);
      SegTaken(rest[..k], segs[0], rest[k..]);
      assert rest == rest[..k] + rest[k..];
      SegsAre(rest[k..], segs[1..]);
      assert segs == [segs[0]] + segs[1..];
    }
    if rest != "" && ParseSegs(rest) == Some(segs) {
      var k := StepWritten(rest);
      var more := ParseStep(rest).rest;
      var tail := ParseSegs(more).value;
      assert segs[1..] == tail && segs[0] == ParseStep(rest).seg;
      SegsAre(more, tail);
    }
  }

  /** A path is accepted, as these segments, exactly when it is a dollar sign and their
      texts, at least one. */
  lemma PathIs(path: string, segs: seq<Seg>)
    ensures ParsePath(path) == Some(segs) <==> segs != [] && path != "" && path[0] == '$' && Writes(path[1..], segs)
  {
    if path != "" && path[0] == '$' {
      SegsAre(path[1..], segs);
    }
    hide ParseSegs, Writes;
  }
}
