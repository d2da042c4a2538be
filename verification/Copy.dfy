/** Rows as COPY text, and the server's reading of that text: a newline ends a row, a tab
    ends a field, a backslash quotes what follows, and a field that is a bare `\N` is NULL
    (PostgreSQL, "COPY", section "Text Format"). */
module Copy {
  import opened Wrappers
  import opened Decimals
  import opened Sql

  type Row = seq<Value>

  // ---- writing ----

  function EscapeChar(c: char): string {
    if c == '\\' then "\\\\"
    else if c == '\t' then "\\t"
    else if c == '\n' then "\\n"
    else if c == '\r' then "\\r"
    else [c]
  }

  function Escape(s: string): string {
    if s == "" then "" else EscapeChar(s[0]) + Escape(s[1..])
  }

  /** What a value's text is, before escaping; NULL has none. */
  function TextOf(v: Value): Option<string> {
    match v
    case Null => None
    case Int(i) => Some(Signed(i))
    case Real(shown) => Some(shown)
    case Bool(b) => Some(if b then "t" else "f")
    case Text(s) => Some(s)
    case Doc(json) => Some(json)
    case Vector(listed) => Some(listed)
  }

  /** `copy_text`: only text, documents and vectors are escaped. */
  function Field(v: Value): string {
    match v
    case Null => "\\N"
    case Int(i) => Signed(i)
    case Real(shown) => shown
    case Bool(b) => if b then "t" else "f"
    case Text(s) => Escape(s)
    case Doc(json) => Escape(json)
    case Vector(listed) => Escape(listed)
  }

  function FieldsOf(row: Row): seq<string> {
    seq(|row|, i requires 0 <= i < |row| => Field(row[i]))
  }

  function Line(row: Row): string {
    Join(FieldsOf(row), "\t")
  }

  function Rows(rows: seq<Row>): string {
    if rows == [] then "" else Line(rows[0]) + ("\n" + Rows(rows[1..]))
  }

  method EscapeInto(s: string, out: string) returns (r: string)
    ensures r == out + Escape(s)
  {
    r := out;
    var i := 0;
    assert s[0..] == s;
    while i < |s|
      invariant 0 <= i <= |s| && r + Escape(s[i..]) == out + Escape(s)
    {
      assert s[i..][0] == s[i] && s[i..][1..] == s[i + 1..];
      Append(r, EscapeChar(s[i]), Escape(s[i + 1..]));
      r := r + EscapeChar(s[i]);
      i := i + 1;
    }
    assert s[i..] == "" && r + "" == r;
  }

  method CopyText(v: Value, out: string) returns (r: string)
    ensures r == out + Field(v)
  {
    match v
    case Null => r := out + "\\N";
    case Int(i) => r := out + Signed(i);
    case Real(shown) => r := out + shown;
    case Bool(b) => r := out + (if b then "t" else "f");
    case Text(s) => r := EscapeInto(s, out);
    case Doc(json) => r := EscapeInto(json, out);
    case Vector(listed) => r := EscapeInto(listed, out);
  }

  /** The row loop of `insert_many`. */
  method CopyRows(rows: seq<Row>) returns (data: string)
    ensures data == Rows(rows)
  {
    hide Line;
    data := "";
    var i := 0;
    while i < |rows|
      invariant 0 <= i <= |rows| && data == Rows(rows[..i])
    {
      ghost var before := data;
      data := CopyLine(rows[i], data);
      RowsMore(rows[..i], rows[i]);
      assert rows[..i] + [rows[i]] == rows[..i + 1];
      Append(before, Line(rows[i]), "\n");
      data := data + "\n";
      i := i + 1;
    }
    assert rows[..i] == rows;
  }

  method CopyLine(row: Row, out: string) returns (data: string)
    ensures data == out + Line(row)
  {
    data := out;
    var j := 0;
    assert out + "" == out;
    while j < |row|
      invariant 0 <= j <= |row| && data == out + Line(row[..j])
    {
      ghost var at := data;
      LineMore(row[..j], row[j]);
      assert row[..j] + [row[j]] == row[..j + 1];
      hide Line, Field, FieldsOf;
      if j > 0 {
        data := data + "\t";
      }
      data := CopyText(row[j], data);
      Flatten(out, Line(row[..j]), "\t", Field(row[j]));
      j := j + 1;
    }
    assert row[..j] == row;
  }

  lemma Flatten(a: string, b: string, c: string, d: string)
    ensures ((a + b) + c) + d == a + (b + (c + d)) && (b == "" ==> (a + b) + d == a + d)
  {
  }

  lemma LineMore(row: Row, v: Value)
    ensures Line(row + [v]) == if row == [] then Field(v) else Line(row) + ("\t" + Field(v))
    ensures row == [] ==> Line(row) == ""
  {
    assert FieldsOf(row + [v]) == FieldsOf(row) + [Field(v)];
    JoinMore(FieldsOf(row), Field(v), "\t");
    hide Field;
  }

  lemma {:induction false} RowsMore(rows: seq<Row>, row: Row)
    ensures Rows(rows + [row]) == Rows(rows) + (Line(row) + "\n")
    decreases |rows|
  {
    hide Line;
    if rows == [] {
      assert [row][1..] == [] && [] + [row] == [row];
      assert "\n" + "" == "\n";
    } else {
      assert (rows + [row])[1..] == rows[1..] + [row];
      RowsMore(rows[1..], row);
      Regroup(Line(rows[0]), "\n", Rows(rows[1..]), Line(row) + "\n");
    }
  }

  // ---- reading ----

  /** The first unescaped occurrence of `c`, or the end. */
  function Find(s: string, c: char): (n: nat)
    ensures n <= |s| && (n < |s| ==> s[n] == c)
    decreases |s|
  {
    if s == "" || s[0] == c then 0
    else if s[0] == '\\' && |s| > 1 then 2 + Find(s[2..], c)
    else 1 + Find(s[1..], c)
  }

  function SplitAt(s: string, c: char): seq<string>
    decreases |s|
  {
    var n := Find(s, c);
    if n == |s| then [s] else [s[..n]] + SplitAt(s[n + 1..], c)
  }

  function Unquote(c: char): char {
    match c
    case 'b' => 8 as char
    case 't' => '\t'
    case 'n' => '\n'
    case 'v' => 11 as char
    case 'f' => 12 as char
    case 'r' => '\r'
    case _ => c
  }

  /** A field's text. Octal and hexadecimal escapes, which the writer never produces, are
      refused, and so is a backslash at the end. */
  function Unescape(s: string): Option<string>
    decreases |s|
  {
    if s == "" then Some("")
    else if s[0] != '\\' then
      match Unescape(s[1..])
      case None => None
      case Some(t) => Some([s[0]] + t)
    else if |s| == 1 || '0' <= s[1] <= '7' || s[1] == 'x' then None
    else
      match Unescape(s[2..])
      case None => None
      case Some(t) => Some([Unquote(s[1])] + t)
  }

  datatype Cell = NullCell | Cell(s: string) | BadCell

  function ReadField(s: string): Cell {
    if s == "\\N" then NullCell
    else
      match Unescape(s)
      case None => BadCell
      case Some(t) => Cell(t)
  }

  function ReadRow(line: string): seq<Cell> {
    var fields := SplitAt(line, '\t');
    seq(|fields|, i requires 0 <= i < |fields| => ReadField(fields[i]))
  }

  /** The rows up to the end of the data, or up to the line `\.` that marks it. */
  function Read(data: string): seq<seq<Cell>>
    decreases |data|
  {
    if data == "" then []
    else
      var n := Find(data, '\n');
      if data[..n] == "\\." then [] else [ReadRow(data[..n])] + (if n == |data| then [] else Read(data[n + 1..]))
  }

  // ---- what is written is read back ----

  /** Text the server takes as it is: number and truth value spellings. */
  predicate Bare(s: string) {
    forall i :: 0 <= i < |s| ==> s[i] != '\\' && s[i] != '\t' && s[i] != '\n' && s[i] != '\r'
  }

  /** A real prints digits, signs and letters; nothing COPY treats specially. */
  predicate Printable(v: Value) {
    v.Real? ==> Bare(v.shown)
  }

  function CellOf(v: Value): Cell {
    match TextOf(v) case None => NullCell case Some(s) => Cell(s)
  }

  function Cells(row: Row): seq<Cell> {
    seq(|row|, i requires 0 <= i < |row| => CellOf(row[i]))
  }

  /** No `c` outside a quoted pair, and nothing special inside one. */
  predicate Safe(s: string, c: char)
    decreases |s|
  {
    if s == "" then true
    else if s[0] == '\\' then |s| > 1 && s[1] != '\t' && s[1] != '\n' && s[1] != '\r' && Safe(s[2..], c)
    else s[0] != c && Safe(s[1..], c)
  }

  /** No delimiter, row end or carriage return outside a quoted pair. */
  predicate Contained(s: string) {
    Safe(s, '\t') && Safe(s, '\n') && Safe(s, '\r')
  }

  lemma {:induction false} BareSafe(s: string, c: char)
    requires Bare(s) && (c == '\t' || c == '\n' || c == '\r')
    ensures Safe(s, c) && Unescape(s) == Some(s)
    decreases |s|
  {
    if s != "" {
      BareSafe(s[1..], c);
      assert [s[0]] + s[1..] == s;
    }
  }

  lemma BareContained(s: string)
    requires Bare(s)
    ensures Contained(s) && Unescape(s) == Some(s)
  {
    BareSafe(s, '\t');
    BareSafe(s, '\n');
    BareSafe(s, '\r');
  }

  lemma EscapedHead(s: string)
    requires s != ""
    ensures var e, rest := EscapeChar(s[0]), Escape(s[1..]);
      && Escape(s) == e + rest && [s[0]] + s[1..] == s && (|e| == 1 || |e| == 2) && Escape(s)[0] == e[0]
      && (|e| == 1 ==> Escape(s)[1..] == rest)
      && (|e| == 2 ==> Escape(s)[2..] == rest && Escape(s)[1] == e[1] && Unquote(e[1]) == s[0])
  {
    assert Escape(s) == EscapeChar(s[0]) + Escape(s[1..]);
    hide Escape;
  }

  lemma {:induction false} EscapeSafe(s: string, c: char)
    requires c == '\t' || c == '\n' || c == '\r'
    ensures Safe(Escape(s), c)
    decreases |s|
  {
    if s != "" {
      EscapeSafe(s[1..], c);
      EscapedHead(s);
      hide Escape;
    }
  }

  lemma {:induction false} EscapeBack(s: string)
    ensures Unescape(Escape(s)) == Some(s)
    decreases |s|
  {
    if s != "" {
      EscapeBack(s[1..]);
      EscapedHead(s);
      hide Escape, Unquote;
    }
  }

  lemma EscapeContained(s: string)
    ensures Contained(Escape(s)) && Unescape(Escape(s)) == Some(s)
  {
    EscapeSafe(s, '\t');
    EscapeSafe(s, '\n');
    EscapeSafe(s, '\r');
    EscapeBack(s);
  }

  lemma {:induction false} NumberBare(i: int)
    ensures Bare(Signed(i))
  {
    var digits := Decimal(if i < 0 then 0 - i else i);
    assert forall k :: 0 <= k < |digits| ==> '0' <= digits[k] <= '9';
    hide Decimal;
  }

  lemma {:induction false} EscapeNotNull(s: string)
    ensures Escape(s) != "\\N" && Escape(s) != "\\."
  {
    if s != "" {
      assert Escape(s)[0] == EscapeChar(s[0])[0];
      assert |EscapeChar(s[0])| == 2 ==> Escape(s)[1] == EscapeChar(s[0])[1];
      hide Escape;
    }
  }

  /** A field is contained and reads back as its value's text, or as NULL. */
  lemma FieldBack(v: Value)
    requires Printable(v)
    ensures Contained(Field(v)) && ReadField(Field(v)) == CellOf(v) && Field(v) != "\\."
  {
    assert "\\N"[2..] == "" && "\\N"[1] == 'N' && Contained("\\N");
    match v
    case Null =>
    case Int(i) => NumberBare(i); BareContained(Signed(i)); NotQuoted(Signed(i));
    case Real(shown) => BareContained(shown); NotQuoted(shown);
    case Bool(b) => BareContained(if b then "t" else "f"); NotQuoted(if b then "t" else "f");
    case Text(s) => EscapeContained(s); EscapeNotNull(s);
    case Doc(json) => EscapeContained(json); EscapeNotNull(json);
    case Vector(listed) => EscapeContained(listed); EscapeNotNull(listed);
    hide Contained, Unescape, Escape, Signed;
  }

  lemma NotQuoted(s: string)
    requires Bare(s)
    ensures s != "\\N" && s != "\\."
  {
    assert "\\N"[0] == '\\' && "\\."[0] == '\\';
  }

  // ---- rows ----

  /** In safe text, followed by the delimiter or by nothing, the delimiter is found where
      the text ends. */
  lemma {:induction false} FindEnd(s: string, c: char, tail: string)
    requires Safe(s, c) && c != '\\' && (tail == "" || tail[0] == c)
    ensures Find(s + tail, c) == |s|
    decreases |s|
  {
    if s == "" {
      assert s + tail == tail;
    } else if s[0] == '\\' {
      assert (s + tail)[2..] == s[2..] + tail;
      FindEnd(s[2..], c, tail);
    } else {
      assert (s + tail)[1..] == s[1..] + tail;
      FindEnd(s[1..], c, tail);
    }
  }

  lemma {:induction false} SafeCat(a: string, b: string, c: char)
    requires Safe(a, c) && Safe(b, c)
    ensures Safe(a + b, c)
    decreases |a|
  {
    if a == "" {
      assert a + b == b;
    } else if a[0] == '\\' {
      assert (a + b)[2..] == a[2..] + b;
      SafeCat(a[2..], b, c);
    } else {
      assert (a + b)[1..] == a[1..] + b;
      SafeCat(a[1..], b, c);
    }
  }

  lemma {:induction false} JoinSafe(parts: seq<string>, c: char)
    requires (forall i :: 0 <= i < |parts| ==> Safe(parts[i], c)) && c != '\t'
    ensures Safe(Join(parts, "\t"), c)
    decreases |parts|
  {
    if |parts| > 1 {
      JoinSafe(parts[1..], c);
      assert "\t"[1..] == "" && Safe("\t", c);
      SafeCat("\t", Join(parts[1..], "\t"), c);
      SafeCat(parts[0], "\t" + Join(parts[1..], "\t"), c);
    }
    assert Safe("", c);
    hide Safe;
  }

  lemma SplitFirst(part: string, rest: string)
    requires Safe(part, '\t')
    ensures SplitAt(part, '\t') == [part] && SplitAt(part + ("\t" + rest), '\t') == [part] + SplitAt(rest, '\t')
  {
    FindEnd(part, '\t', "");
    assert part + "" == part;
    FindEnd(part, '\t', "\t" + rest);
    var s := part + ("\t" + rest);
    assert s[..|part|] == part && s[|part| + 1..] == rest;
    hide Find, Safe;
  }

  lemma {:induction false} JoinSplit(parts: seq<string>)
    requires parts != [] && forall i :: 0 <= i < |parts| ==> Safe(parts[i], '\t')
    ensures SplitAt(Join(parts, "\t"), '\t') == parts
    decreases |parts|
  {
    hide Safe, SplitAt;
    if |parts| == 1 {
      SplitFirst(parts[0], "");
    } else {
      JoinSplit(parts[1..]);
      SplitFirst(parts[0], Join(parts[1..], "\t"));
      assert parts == [parts[0]] + parts[1..];
    }
  }

  ghost predicate Writable(rows: seq<Row>) {
    forall i :: 0 <= i < |rows| ==> rows[i] != [] && RowPrintable(rows[i])
  }

  ghost predicate RowPrintable(row: Row) {
    forall i :: 0 <= i < |row| ==> Printable(row[i])
  }

  /** Each field of a printable row is safe and reads back. */
  ghost predicate Parts(row: Row, parts: seq<string>) {
    && |parts| == |row|
    && (forall i :: 0 <= i < |row| ==> Safe(parts[i], '\t') && Safe(parts[i], '\n') && Safe(parts[i], '\r'))
    && (forall i :: 0 <= i < |row| ==> ReadField(parts[i]) == CellOf(row[i]))
    && forall i :: 0 <= i < |row| ==> parts[i] != "\\."
  }

  lemma FieldsAreParts(row: Row)
    requires RowPrintable(row)
    ensures Parts(row, FieldsOf(row))
  {
    forall i | 0 <= i < |row|
      ensures Contained(Field(row[i])) && ReadField(Field(row[i])) == CellOf(row[i]) && Field(row[i]) != "\\."
    {
      assert Printable(row[i]);
      FieldBack(row[i]);
    }
    hide Field, ReadField, CellOf, Printable, Safe;
  }

  lemma LineBack(row: Row)
    requires row != [] && RowPrintable(row)
    ensures Safe(Line(row), '\n') && Safe(Line(row), '\r') && ReadRow(Line(row)) == Cells(row) && Line(row) != "\\."
  {
    FieldsAreParts(row);
    var parts := FieldsOf(row);
    LineSafe(row, parts);
    hide Safe, SplitAt, ReadField, CellOf, FieldsOf, Join, RowPrintable;
    LineCells(row, parts);
  }

  lemma LineSafe(row: Row, parts: seq<string>)
    requires row != [] && Parts(row, parts)
    ensures Safe(Join(parts, "\t"), '\n') && Safe(Join(parts, "\t"), '\r') && Join(parts, "\t") != "\\."
  {
    hide Safe, ReadField, CellOf;
    JoinSafe(parts, '\n');
    JoinSafe(parts, '\r');
    if |row| > 1 {
      HasTab(parts[0], Join(parts[1..], "\t"));
    }
  }

  lemma LineCells(row: Row, parts: seq<string>)
    requires row != [] && Parts(row, parts)
    ensures ReadRow(Join(parts, "\t")) == Cells(row)
  {
    hide Safe, ReadField, CellOf, SplitAt, Join;
    JoinSplit(parts);
    assert |ReadRow(Join(parts, "\t"))| == |Cells(row)|;
  }

  lemma HasTab(a: string, b: string)
    ensures a + ("\t" + b) != "\\."
  {
    assert (a + ("\t" + b))[|a|] == '\t';
    assert '\t' !in "\\.";
  }

  lemma RowsRead(rows: seq<Row>, rest: seq<seq<Cell>>)
    requires rows != [] && |rest| == |rows[1..]| && forall i :: 0 <= i < |rest| ==> rest[i] == Cells(rows[1..][i])
    ensures var all := [Cells(rows[0])] + rest;
      |all| == |rows| && forall i :: 0 <= i < |rows| ==> all[i] == Cells(rows[i])
  {
    hide Cells;
    assert forall i :: 0 < i < |rows| ==> rows[i] == rows[1..][i - 1];
  }

  lemma ReadLine(line: string, rest: string)
    requires Safe(line, '\n') && line != "\\."
    ensures Read(line + ("\n" + rest)) == [ReadRow(line)] + Read(rest)
  {
    FindEnd(line, '\n', "\n" + rest);
    var s := line + ("\n" + rest);
    assert s[..|line|] == line && |line| < |s| && s[|line| + 1..] == rest;
    hide Find, ReadRow;
  }

  /** Reading what was written gives every row back, each field as its text and NULL as
      NULL: no text can pass for it, end a field or a row, or end the data. */
  lemma {:induction false} ReadBack(rows: seq<Row>)
    requires Writable(rows)
    ensures |Read(Rows(rows))| == |rows| && forall i :: 0 <= i < |rows| ==> Read(Rows(rows))[i] == Cells(rows[i])
    decreases |rows|
  {
    if rows != [] {
      var line, rest := Line(rows[0]), Rows(rows[1..]);
      assert Rows(rows) == line + ("\n" + rest);
      assert RowPrintable(rows[0]) && Writable(rows[1..]);
      hide Rows, Line, Writable, RowPrintable, Read, ReadRow, Cells, Safe;
      LineBack(rows[0]);
      ReadBack(rows[1..]);
      ReadLine(line, rest);
      RowsRead(rows, Read(rest));
    }
  }

  /** So the text determines what every row holds. */
  lemma Injective(a: seq<Row>, b: seq<Row>)
    requires Writable(a) && Writable(b) && Rows(a) == Rows(b)
    ensures |a| == |b| && forall i :: 0 <= i < |a| ==> Cells(a[i]) == Cells(b[i])
  {
    ReadBack(a);
    ReadBack(b);
    hide Read, Rows, Cells, Writable;
  }
}
